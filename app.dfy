/** The results page (src/App.tsx): the chart filters over the loaded users, the stable sort chosen in
    the menu, and the page state that `handleSearch` and the chart clicks update. */
module App {
  import opened Wrappers
  import opened Text
  import opened Seqs
  import opened Users
  import opened Seniority
  import opened GitHub
  import opened SearchFilters
  import Insights

  // ---------------------------------------------------------------- filteredUsers

  /** `user.top_languages?.includes(language)`. */
  predicate HasLanguage(u: GitHubUser, language: string) {
    u.topLanguages.Some? && language in u.topLanguages.value
  }

  /** The users kept by the language filter (when set) and the tier filter (when set). */
  predicate Selected(u: GitHubUser, activeLanguage: string, activeLevel: string, now: int, log10: real -> real) {
    && (activeLanguage != "" ==> HasLanguage(u, activeLanguage))
    && (activeLevel != "" ==> Label(TierOfUser(u, now, log10)) == activeLevel)
  }

  /** `Selected` as the test passed to a filter. */
  function SelectedBy(activeLanguage: string, activeLevel: string, now: int, log10: real -> real): GitHubUser -> bool {
    u => Selected(u, activeLanguage, activeLevel, now, log10)
  }

  function LanguageFilter(language: string): GitHubUser -> bool {
    u => HasLanguage(u, language)
  }

  function LevelFilter(level: string, now: int, log10: real -> real): GitHubUser -> bool {
    u => Label(TierOfUser(u, now, log10)) == level
  }

  /** `filteredUsers`: the language filter, then the tier filter, each applied only when set. */
  function FilteredUsers(users: seq<GitHubUser>, activeLanguage: string, activeLevel: string,
                         now: int, log10: real -> real): seq<GitHubUser> {
    var byLanguage := if activeLanguage != "" then Filter(users, LanguageFilter(activeLanguage)) else users;
    if activeLevel != "" then Filter(byLanguage, LevelFilter(activeLevel, now, log10)) else byLanguage
  }

  /** Filtering by `p` keeps every occurrence of what `p` accepts and nothing else. */
  lemma {:induction false} FilterCounts(users: seq<GitHubUser>, p: GitHubUser -> bool)
    ensures forall u :: multiset(Filter(users, p))[u] == if p(u) then multiset(users)[u] else 0
  {
    forall u ensures multiset(Filter(users, p))[u] == if p(u) then multiset(users)[u] else 0 {
      FilterCount(users, p, u);
    }
  }

  /** Both filters set: one filter by both tests. */
  lemma {:induction false} BothFilters(users: seq<GitHubUser>, activeLanguage: string, activeLevel: string,
                                       now: int, log10: real -> real)
    requires activeLanguage != "" && activeLevel != ""
    ensures FilteredUsers(users, activeLanguage, activeLevel, now, log10)
            == Filter(users, SelectedBy(activeLanguage, activeLevel, now, log10))
  {
    var byLanguage, byLevel := LanguageFilter(activeLanguage), LevelFilter(activeLevel, now, log10);
    FilterTwice(users, byLanguage, byLevel);
    FilterSame(users, And(byLanguage, byLevel), SelectedBy(activeLanguage, activeLevel, now, log10));
  }

  /** At most one filter set: one filter by that test, or none. */
  lemma {:induction false} OneFilter(users: seq<GitHubUser>, activeLanguage: string, activeLevel: string,
                                     now: int, log10: real -> real)
    requires activeLanguage == "" || activeLevel == ""
    ensures activeLanguage != "" || activeLevel != "" ==>
              FilteredUsers(users, activeLanguage, activeLevel, now, log10)
              == Filter(users, SelectedBy(activeLanguage, activeLevel, now, log10))
    ensures activeLanguage == "" && activeLevel == "" ==> FilteredUsers(users, activeLanguage, activeLevel, now, log10) == users
  {
    if activeLanguage != "" {
      FilterSame(users, LanguageFilter(activeLanguage), SelectedBy(activeLanguage, activeLevel, now, log10));
    } else if activeLevel != "" {
      FilterSame(users, LevelFilter(activeLevel, now, log10), SelectedBy(activeLanguage, activeLevel, now, log10));
    }
  }

  /** The filtered users are the selected users, in their order, each as often as loaded;
      with neither filter set they are all the users. */
  lemma {:induction false} FilteredUsersFacts(users: seq<GitHubUser>, activeLanguage: string, activeLevel: string,
                                              now: int, log10: real -> real)
    ensures var r := FilteredUsers(users, activeLanguage, activeLevel, now, log10);
      && IsSubsequence(r, users)
      && (forall u :: multiset(r)[u] == if Selected(u, activeLanguage, activeLevel, now, log10) then multiset(users)[u] else 0)
      && (activeLanguage == "" && activeLevel == "" ==> r == users)
  {
    var sel := SelectedBy(activeLanguage, activeLevel, now, log10);
    if activeLanguage == "" && activeLevel == "" {
      OneFilter(users, activeLanguage, activeLevel, now, log10);
      SubsequenceRefl(users);
    } else {
      if activeLanguage != "" && activeLevel != "" {
        BothFilters(users, activeLanguage, activeLevel, now, log10);
      } else {
        OneFilter(users, activeLanguage, activeLevel, now, log10);
      }
      assert FilteredUsers(users, activeLanguage, activeLevel, now, log10) == Filter(users, sel);
      FilterCounts(users, sel);
    }
  }

  /** The tier chart counts, for a tier, exactly the users the tier filter keeps: both use the one scorer. */
  lemma {:induction false} TierChartMatchesFilter(users: seq<GitHubUser>, level: string, now: int, log10: real -> real)
    requires level != ""
    ensures |FilteredUsers(users, "", level, now, log10)| == Insights.UsersAtLevel(users, level, now, log10)
  {
    assert FilteredUsers(users, "", level, now, log10) == Filter(users, LevelFilter(level, now, log10));
    LevelFilterCounts(users, level, now, log10);
  }

  /** The level filter keeps as many users as the chart counts at that level. */
  lemma {:induction false} LevelFilterCounts(users: seq<GitHubUser>, level: string, now: int, log10: real -> real)
    ensures |Filter(users, LevelFilter(level, now, log10))| == Insights.UsersAtLevel(users, level, now, log10)
    decreases |users|
  {
    if |users| > 0 {
      var p := LevelFilter(level, now, log10);
      var front := users[..|users| - 1];
      var last := users[|users| - 1];
      LevelFilterCounts(front, level, now, log10);
      assert users == front + [last];
      FilterAppend(front, [last], p);
      assert |Filter([last], p)| == if Insights.LevelOf(last, now, log10) == level then 1 else 0 by {
        assert [last][1..] == [];
      }
    }
  }

  // ---------------------------------------------------------------- sortedUsers

  function Followers(u: GitHubUser): int { u.followers }
  function PublicRepos(u: GitHubUser): int { u.publicRepos }
  function CreatedAt(u: GitHubUser): int { u.createdAt }
  /** `(user.starred_repos || 0)`. */
  function StarsGiven(u: GitHubUser): int { OrZero(u.starredRepos) }
  function UpdatedAt(u: GitHubUser): int { u.updatedAt }
  /** `a.updated_at - b.updated_at` sorts by this key, largest first: least recently updated first. */
  function NotUpdated(u: GitHubUser): int { -u.updatedAt }

  /** The key each menu value sorts by, largest first; `None` for a value the `switch` does not know. */
  function SortField(sort: string): Option<GitHubUser -> int> {
    if sort == "followers" then Some(Followers)
    else if sort == "repositories" then Some(PublicRepos)
    else if sort == "joined" then Some(CreatedAt)
    else if sort == "stars" then Some(StarsGiven)
    else if sort == "active" then Some(UpdatedAt)
    else if sort == "inactive" then Some(NotUpdated)
    else None
  }

  /** The comparator's key; the default branch answers 0 for every pair, as a constant key does. */
  function SortKey(sort: string): GitHubUser -> int {
    match SortField(sort)
    case Some(key) => key
    case None => u => 0
  }

  /** `sortedUsers`: a stable sort of a copy of the filtered users. */
  function SortedUsers(filtered: seq<GitHubUser>, sort: string): seq<GitHubUser> {
    SortDesc(filtered, SortKey(sort))
  }

  /** Every value of the sort menu names a field the `switch` sorts by. */
  lemma SortOptionsAreKnown()
    ensures forall k :: 0 <= k < |SortOptions| ==> SortField(SortOptions[k]).Some?
  {
    assert SortOptions[0] == "followers" && SortOptions[1] == "repositories" && SortOptions[2] == "joined";
    assert SortOptions[3] == "stars" && SortOptions[4] == "active" && SortOptions[5] == "inactive";
  }

  /** The sorted users are the filtered users reordered, largest key first, with ties and every group
      of equal keys in their loaded order; an unknown menu value keeps the loaded order. */
  lemma SortedUsersFacts(filtered: seq<GitHubUser>, sort: string)
    ensures var r := SortedUsers(filtered, sort);
      && multiset(r) == multiset(filtered)
      && NonIncreasing(r, SortKey(sort))
      && (forall k :: WithKey(r, SortKey(sort), k) == WithKey(filtered, SortKey(sort), k))
      && (SortField(sort).None? ==> r == filtered)
  {
    SortDescSortedPermutation(filtered, SortKey(sort));
    forall k ensures WithKey(SortedUsers(filtered, sort), SortKey(sort), k) == WithKey(filtered, SortKey(sort), k) {
      SortDescStable(filtered, SortKey(sort), k);
    }
    if SortField(sort).None? {
      SortDescConstantKey(filtered, SortKey(sort), 0);
    }
  }

  /** Sorting by followers puts the most followed first. */
  lemma SortByFollowers(filtered: seq<GitHubUser>)
    ensures var r := SortedUsers(filtered, "followers");
      forall i, j :: 0 <= i < j < |r| ==> r[i].followers >= r[j].followers
  {
    SortDescSortedPermutation(filtered, Followers);
  }

  /** Sorting by stars puts the most stars given first, a missing count reading as 0. */
  lemma SortByStars(filtered: seq<GitHubUser>)
    ensures var r := SortedUsers(filtered, "stars");
      forall i, j :: 0 <= i < j < |r| ==> OrZero(r[i].starredRepos) >= OrZero(r[j].starredRepos)
  {
    SortDescSortedPermutation(filtered, StarsGiven);
  }

  /** Sorting by inactivity puts the least recently updated first. */
  lemma SortByInactive(filtered: seq<GitHubUser>)
    ensures var r := SortedUsers(filtered, "inactive");
      forall i, j :: 0 <= i < j < |r| ==> r[i].updatedAt <= r[j].updatedAt
  {
    SortDescSortedPermutation(filtered, NotUpdated);
    var r := SortedUsers(filtered, "inactive");
    forall i, j | 0 <= i < j < |r| ensures r[i].updatedAt <= r[j].updatedAt {
      assert NotUpdated(r[i]) >= NotUpdated(r[j]);
    }
  }

  /** `statsUsers.length > 0 ? statsUsers : sortedUsers`: the users the insights panel aggregates. */
  function InsightsUsers(statsUsers: seq<GitHubUser>, sorted: seq<GitHubUser>): (r: seq<GitHubUser>)
    ensures |statsUsers| > 0 ==> r == statsUsers
    ensures |statsUsers| == 0 ==> r == sorted
  {
    if |statsUsers| > 0 then statsUsers else sorted
  }

  // ---------------------------------------------------------------- page state

  /** The `filters` record: location chips joined with commas, a language and a sort menu value. */
  datatype Filters = Filters(location: string, language: string, sort: string)

  /** The message set for a blank query. */
  const BlankQueryMessage: string := "Please enter a search query"

  /** The state `App` keeps with `useState`, less the sign-in flag. */
  class AppState {
    var searchQuery: string
    var users: seq<GitHubUser>
    var statsUsers: seq<GitHubUser>
    var loading: bool
    var error: Option<string>
    var page: int
    var totalCount: int
    var hasMore: bool
    var activeLanguage: string
    var activeSeniorityLevel: string
    var hasSearched: bool
    var filters: Filters

    /** The initial state. */
    constructor ()
      ensures searchQuery == "" && users == [] && statsUsers == [] && !loading && error == None
      ensures page == 1 && totalCount == 0 && hasMore
      ensures activeLanguage == "" && activeSeniorityLevel == "" && !hasSearched
      ensures filters == Filters("", "", "followers")
    {
      searchQuery := "";
      users := [];
      statsUsers := [];
      loading := false;
      error := None;
      page := 1;
      totalCount := 0;
      hasMore := true;
      activeLanguage := "";
      activeSeniorityLevel := "";
      hasSearched := false;
      filters := Filters("", "", "followers");
    }

    /** The users shown: the filtered users in menu order. */
    function Shown(now: int, log10: real -> real): seq<GitHubUser>
      reads this
    {
      SortedUsers(FilteredUsers(users, activeLanguage, activeSeniorityLevel, now, log10), filters.sort)
    }

    method SetSearchQuery(q: string)
      modifies this
      ensures searchQuery == q
      ensures users == old(users) && statsUsers == old(statsUsers) && filters == old(filters)
      ensures activeLanguage == old(activeLanguage) && activeSeniorityLevel == old(activeSeniorityLevel)
      ensures loading == old(loading) && error == old(error) && page == old(page)
      ensures totalCount == old(totalCount) && hasMore == old(hasMore) && hasSearched == old(hasSearched)
    {
      searchQuery := q;
    }

    /** `onFilterChange(name, value)`: `{ ...prev, [name]: value }` on the three known names. */
    method HandleFilterChange(change: FilterChange)
      modifies this
      ensures filters == (if change.name == "location" then old(filters).(location := change.value)
                          else if change.name == "language" then old(filters).(language := change.value)
                          else if change.name == "sort" then old(filters).(sort := change.value)
                          else old(filters))
      ensures users == old(users) && activeLanguage == old(activeLanguage)
      ensures activeSeniorityLevel == old(activeSeniorityLevel)
      ensures searchQuery == old(searchQuery) && statsUsers == old(statsUsers)
      ensures loading == old(loading) && error == old(error) && page == old(page)
      ensures totalCount == old(totalCount) && hasMore == old(hasMore) && hasSearched == old(hasSearched)
    {
      if change.name == "location" {
        filters := filters.(location := change.value);
      } else if change.name == "language" {
        filters := filters.(language := change.value);
      } else if change.name == "sort" {
        filters := filters.(sort := change.value);
      }
    }

    /** `handleLanguageClick`: sets the language filter and clears the tier filter. */
    method HandleLanguageClick(language: string)
      modifies this
      ensures activeLanguage == language && activeSeniorityLevel == ""
      ensures users == old(users) && statsUsers == old(statsUsers) && filters == old(filters)
      ensures page == old(page) && error == old(error)
      ensures searchQuery == old(searchQuery) && loading == old(loading)
      ensures totalCount == old(totalCount) && hasMore == old(hasMore) && hasSearched == old(hasSearched)
    {
      activeLanguage := language;
      activeSeniorityLevel := "";
    }

    /** `handleSeniorityClick`: sets the tier filter and clears the language filter. */
    method HandleSeniorityClick(level: string)
      modifies this
      ensures activeSeniorityLevel == level && activeLanguage == ""
      ensures users == old(users) && statsUsers == old(statsUsers) && filters == old(filters)
      ensures page == old(page) && error == old(error)
      ensures searchQuery == old(searchQuery) && loading == old(loading)
      ensures totalCount == old(totalCount) && hasMore == old(hasMore) && hasSearched == old(hasSearched)
    {
      activeSeniorityLevel := level;
      activeLanguage := "";
    }

    /** `handleSearch(pageNum)` up to its `await`: a blank query only sets the error; otherwise the
        search starts, clearing the error and both chart filters, and page 1 empties the list. */
    method BeginSearch(pageNum: int) returns (started: bool)
      modifies this
      ensures started == (Trim(old(searchQuery)) != "")
      ensures !started ==> error == Some(BlankQueryMessage)
                           && users == old(users) && statsUsers == old(statsUsers) && loading == old(loading)
                           && page == old(page) && totalCount == old(totalCount) && hasMore == old(hasMore)
                           && activeLanguage == old(activeLanguage)
                           && activeSeniorityLevel == old(activeSeniorityLevel) && hasSearched == old(hasSearched)
      ensures started ==> loading && error == None && activeLanguage == "" && activeSeniorityLevel == ""
                          && hasSearched && users == (if pageNum == 1 then [] else old(users))
                          && statsUsers == old(statsUsers) && page == old(page)
                          && totalCount == old(totalCount) && hasMore == old(hasMore)
      ensures searchQuery == old(searchQuery) && filters == old(filters)
    {
      if Trim(searchQuery) == "" {
        error := Some(BlankQueryMessage);
        started := false;
        return;
      }
      loading := true;
      error := None;
      activeLanguage := "";
      activeSeniorityLevel := "";
      hasSearched := true;
      if pageNum == 1 {
        users := [];
      }
      started := true;
    }

    /** `handleSearch(pageNum)` after its `await`: a result replaces the list and the sample on page 1
        and appends to the list otherwise; a failure sets the error; either way loading ends. */
    method CompleteSearch(pageNum: int, result: Result<SearchResult, SearchError>)
      modifies this
      ensures !loading
      ensures result.Success? ==>
                && users == (if pageNum == 1 then result.value.items else old(users) + result.value.items)
                && statsUsers == (if pageNum == 1 then result.value.statsItems else old(statsUsers))
                && totalCount == result.value.totalCount
                && hasMore == (|result.value.items| == PerPage)
                && page == pageNum && error == old(error)
      ensures result.Failure? ==>
                && error == Some(Message(result.error))
                && users == old(users) && statsUsers == old(statsUsers)
                && totalCount == old(totalCount) && hasMore == old(hasMore) && page == old(page)
      ensures searchQuery == old(searchQuery) && filters == old(filters)
      ensures activeLanguage == old(activeLanguage) && activeSeniorityLevel == old(activeSeniorityLevel)
      ensures hasSearched == old(hasSearched)
    {
      match result {
        case Success(r) =>
          if pageNum == 1 {
            users := r.items;
            statsUsers := r.statsItems;
          } else {
            users := users + r.items;
          }
          totalCount := r.totalCount;
          hasMore := |r.items| == PerPage;
          page := pageNum;
        case Failure(e) =>
          error := Some(Message(e));
      }
      loading := false;
    }

    /** `handleSearch(pageNum)` whole: `primary` and `samples` are how the requests `searchUsers`
        makes for the current query and filters settle. */
    method HandleSearch(pageNum: int, primary: Response<SearchPage>, samples: seq<SampleOutcome>)
      returns (request: Option<string>)
      requires |samples| == |SamplePages(pageNum == 1, pageNum)|
      modifies this
      ensures Trim(old(searchQuery)) == "" ==>
                request == None && error == Some(BlankQueryMessage)
                && users == old(users) && statsUsers == old(statsUsers) && page == old(page)
                && loading == old(loading) && totalCount == old(totalCount) && hasMore == old(hasMore)
                && activeLanguage == old(activeLanguage) && activeSeniorityLevel == old(activeSeniorityLevel)
                && hasSearched == old(hasSearched)
      ensures Trim(old(searchQuery)) != "" ==>
                var res := Search(primary, pageNum == 1, pageNum, samples);
                && request == Some(QueryString(old(searchQuery), old(filters).location, old(filters).language))
                && !loading && hasSearched && activeLanguage == "" && activeSeniorityLevel == ""
                && (res.Success? ==>
                      && users == (if pageNum == 1 then res.value.items else old(users) + res.value.items)
                      && statsUsers == (if pageNum == 1 then res.value.statsItems else old(statsUsers))
                      && totalCount == res.value.totalCount && hasMore == (|res.value.items| == PerPage)
                      && page == pageNum && error == None)
                && (res.Failure? ==>
                      && error == Some(Message(res.error)) && page == old(page)
                      && users == (if pageNum == 1 then [] else old(users)) && statsUsers == old(statsUsers)
                      && totalCount == old(totalCount) && hasMore == old(hasMore))
      ensures searchQuery == old(searchQuery) && filters == old(filters)
    {
      var started := BeginSearch(pageNum);
      if !started {
        request := None;
        return;
      }
      var q, pages, result := SearchUsers(searchQuery, filters.location, filters.language, pageNum, pageNum == 1,
                                          primary, samples);
      request := Some(q);
      CompleteSearch(pageNum, result);
    }
  }
}
