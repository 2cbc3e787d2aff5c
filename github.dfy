/** The search-and-enrichment service (src/services/github.ts) with every HTTP call replaced by
    its response, given as input. */
module GitHub {
  import opened Wrappers
  import opened Text
  import opened Seqs
  import opened Users

  /** How one HTTP request settled: the fetch (or reading its body) rejected, the status was not
      2xx, or the status was 2xx with the parsed body. */
  datatype Response<T> = Rejected | NotOk | Ok(body: T)

  /** The errors a search can throw; `Message` is the `message` the caller displays. */
  datatype SearchError =
    | FetchUsersFailed        // the primary search page was not 2xx
    | FetchUserDetailsFailed  // some user's profile request was not 2xx
    | NetworkError            // some request the code does not guard rejected
    | UndefinedSampleItem     // a sample page without `items` put `undefined` into the sample

  function Message(e: SearchError): string {
    match e
    case FetchUsersFailed => "Failed to fetch users"
    case FetchUserDetailsFailed => "Failed to fetch user details"
    case NetworkError => "Failed to fetch"
    case UndefinedSampleItem => "Cannot read properties of undefined (reading 'login')"
  }

  // ---------------------------------------------------------------- query

  /** `loc.trim()` for every entry, in order. */
  function Trimmed(entries: seq<string>): (r: seq<string>)
    ensures |r| == |entries|
  {
    if |entries| == 0 then [] else [Trim(entries[0])] + Trimmed(entries[1..])
  }

  /** `" location:" + name` for every name, in order. */
  function Qualifiers(names: seq<string>): string {
    if |names| == 0 then "" else " location:" + names[0] + Qualifiers(names[1..])
  }

  /** The location qualifiers of the comma-separated entries: each one trimmed. */
  function LocationQualifiers(entries: seq<string>): string {
    Qualifiers(Trimmed(entries))
  }

  /** The qualifier string sent as `q`: the term, then a location qualifier for each non-empty
      comma-separated entry of `location`, then the language qualifier when `language` is non-empty. */
  function QueryString(query: string, location: string, language: string): string {
    query + LocationQualifiers(SplitNonEmpty(location, ','))
    + (if language != "" then " language:" + language else "")
  }

  /** `names.map(name => "location:" + name)`. */
  function LocationTerms(names: seq<string>): (r: seq<string>)
    ensures |r| == |names|
  {
    if |names| == 0 then [] else ["location:" + names[0]] + LocationTerms(names[1..])
  }

  /** `" " + terms.join(" ")` is the concatenated form. */
  lemma {:induction false} JoinedLocationTerms(names: seq<string>)
    requires |names| > 0
    ensures " " + Join(LocationTerms(names), ' ') == Qualifiers(names)
    decreases |names|
  {
    if |names| > 1 {
      JoinedLocationTerms(names[1..]);
      assert LocationTerms(names)[1..] == LocationTerms(names[1..]);
    }
  }

  /** Builds `q` as the source does, by appending to it. */
  method BuildQuery(query: string, location: string, language: string) returns (q: string)
    ensures q == QueryString(query, location, language)
  {
    q := query;
    ghost var entries := SplitNonEmpty(location, ',');
    if location != "" {
      var locations := SplitNonEmpty(location, ',');
      if |locations| > 0 {
        q := q + (" " + Join(LocationTerms(Trimmed(locations)), ' '));
        JoinedLocationTerms(Trimmed(locations));
      }
    }
    assert q == query + LocationQualifiers(entries);
    if language != "" {
      q := q + (" language:" + language);
    }
  }

  /** With neither filter the query is sent unchanged. */
  lemma NoFiltersKeepQuery(query: string)
    ensures QueryString(query, "", "") == query
  {
  }

  /** A white-space-only entry survives the empty-entry filter and yields a bare `location:`. */
  lemma {:induction false} BlankLocationEntry(query: string, entry: string)
    requires entry != "" && ',' !in entry && AllWhitespace(entry)
    ensures QueryString(query, entry, "") == query + " location:"
  {
    SplitFree(entry, ',');
    assert Filter([entry], NonEmpty) == [entry] + Filter([entry][1..], NonEmpty);
    assert SplitNonEmpty(entry, ',') == [entry];
    assert Trim(entry) == "";
    assert Trimmed([entry]) == [""];
    assert Qualifiers([""]) == " location:" + "" + Qualifiers([]);
  }

  /** A location filter made by joining non-empty, comma-free entries yields one qualifier per entry, in order. */
  lemma QueryOfLocationList(query: string, locs: seq<string>, language: string)
    requires |locs| >= 1 && forall k :: 0 <= k < |locs| ==> locs[k] != "" && ',' !in locs[k]
    ensures QueryString(query, Join(locs, ','), language)
            == query + LocationQualifiers(locs) + (if language != "" then " language:" + language else "")
  {
    SplitJoin(locs, ',');
    FilterKeepsAll(locs, NonEmpty);
  }

  /** Joining `Berlin` and `NYC` with a comma. */
  lemma BerlinNycJoined()
    ensures Join(["Berlin", "NYC"], ',') == "Berlin,NYC"
  {
    assert ["Berlin", "NYC"][1..] == ["NYC"];
  }

  /** Neither `Berlin` nor `NYC` has white space to trim. */
  lemma {:induction false} BerlinNycTrimmed()
    ensures Trimmed(["Berlin", "NYC"]) == ["Berlin", "NYC"]
  {
    TrimmedUnchanged("Berlin");
    TrimmedUnchanged("NYC");
    assert ["Berlin", "NYC"][1..] == ["NYC"] && ["NYC"][1..] == [];
  }

  /** The qualifiers for the list `Berlin`, `NYC`. */
  lemma {:induction false} BerlinNycList()
    ensures LocationQualifiers(["Berlin", "NYC"]) == " location:Berlin location:NYC"
  {
    BerlinNycTrimmed();
    BerlinNycText();
  }

  /** The two qualifiers, written out. */
  lemma {:induction false} BerlinNycText()
    ensures Qualifiers(["Berlin", "NYC"]) == " location:Berlin location:NYC"
  {
    assert ["Berlin", "NYC"][1..] == ["NYC"] && ["NYC"][1..] == [];
  }

  /** The entries `Berlin` and `NYC` yield two qualifiers, in order. */
  lemma BerlinNycQualifiers()
    ensures LocationQualifiers(SplitNonEmpty("Berlin,NYC", ',')) == " location:Berlin location:NYC"
  {
    var entries := ["Berlin", "NYC"];
    BerlinNycJoined();
    SplitJoin(entries, ',');
    FilterKeepsAll(entries, NonEmpty);
    BerlinNycList();
  }

  /** The three parts of the example query, concatenated. */
  lemma AliceQueryText()
    ensures "alice" + " location:Berlin location:NYC" + " language:" + "Go"
         == "alice location:Berlin location:NYC language:Go"
  {
  }

  /** With a language, the query is the term, the location qualifiers, then the language qualifier. */
  lemma QueryWithLanguage(query: string, location: string, language: string, qualifiers: string)
    requires language != "" && LocationQualifiers(SplitNonEmpty(location, ',')) == qualifiers
    ensures QueryString(query, location, language) == query + qualifiers + " language:" + language
  {
  }

  /** `"alice"` with locations `Berlin,NYC` and language `Go`. */
  lemma AliceBerlinNycGo()
    ensures QueryString("alice", "Berlin,NYC", "Go") == "alice location:Berlin location:NYC language:Go"
  {
    BerlinNycQualifiers();
    QueryWithLanguage("alice", "Berlin,NYC", "Go", " location:Berlin location:NYC");
    AliceQueryText();
  }

  // ---------------------------------------------------------------- sample pages

  const StatsSampleSize: int := 100
  const PerPage: int := 30
  const MaxStatsPages: int := 4

  /** `Math.min(Math.ceil(STATS_SAMPLE_SIZE / 30), 4)`. */
  function TotalStatsPages(): int {
    var pages := (StatsSampleSize + PerPage - 1) / PerPage;
    if pages <= MaxStatsPages then pages else MaxStatsPages
  }

  /** The extra pages requested for statistics: 2 up to the page total, and only with stats on page 1. */
  function SamplePages(fetchStats: bool, page: int): seq<int> {
    if fetchStats && page == 1 then seq(TotalStatsPages() - 1, i => i + 2) else []
  }

  /** Exactly pages 2, 3 and 4, and only when stats are wanted on page 1. */
  lemma SamplePagesAreTwoToFour(fetchStats: bool, page: int)
    ensures SamplePages(fetchStats, page) == if fetchStats && page == 1 then [2, 3, 4] else []
  {
  }

  /** The `for` loop that queues one sample request per page, skipping page 1. */
  method StatsPageRequests(fetchStats: bool, page: int) returns (pages: seq<int>)
    ensures pages == SamplePages(fetchStats, page)
    ensures forall k :: 0 <= k < |pages| ==> 2 <= pages[k] <= MaxStatsPages
  {
    pages := [];
    if fetchStats && page == 1 {
      var totalPages := TotalStatsPages();
      for i := 1 to totalPages + 1
        invariant pages == seq(if i <= 1 then 0 else i - 2, k => k + 2)
      {
        if i == 1 {
          continue;
        }
        pages := pages + [i];
      }
    }
  }

  // ---------------------------------------------------------------- per-user enrichment

  /** The responses the enrichment of one user receives. `repos` holds the `language` field of the
      user's 10 most recently updated repositories; `starred` holds the `Link` header of the
      one-per-page starred listing, or `None` when the header is absent. */
  datatype UserResponses = UserResponses(
    details: Response<GitHubUser>,
    repos: Response<seq<Option<string>>>,
    starred: Response<Option<string>>,
    readme: Response<string>)

  /** One item of a search page: the login and the responses its enrichment will get. */
  datatype SearchItem = SearchItem(login: string, responses: UserResponses)

  /** `.map(repo => repo.language).filter(Boolean)`: the languages that are present and non-empty. */
  function PresentLanguages(langs: seq<Option<string>>): (r: seq<string>)
    ensures forall k :: 0 <= k < |r| ==> r[k] != "" && Some(r[k]) in langs
    ensures forall k :: 0 <= k < |langs| && langs[k].Some? && langs[k].value != "" ==> langs[k].value in r
  {
    if |langs| == 0 then []
    else
      var rest := PresentLanguages(langs[1..]);
      if langs[0].Some? && langs[0].value != "" then [langs[0].value] + rest else rest
  }

  /** `Array.from(new Set(s))`: each element once, where it first occurs. */
  function Distinct(s: seq<string>): (r: seq<string>)
    ensures NoDuplicates(r)
    ensures forall x :: x in r <==> x in s
    decreases |s|
  {
    if |s| == 0 then []
    else
      var d := Distinct(s[..|s| - 1]);
      assert forall x :: x in s <==> x in s[..|s| - 1] || x == s[|s| - 1];
      if s[|s| - 1] in d then d else d + [s[|s| - 1]]
  }

  /** The index of the first occurrence of `x` in `s`. */
  function IndexOf(s: seq<string>, x: string): (n: nat)
    requires x in s
    ensures n < |s| && s[n] == x
    ensures forall k :: 0 <= k < n ==> s[k] != x
  {
    if s[0] == x then 0 else 1 + IndexOf(s[1..], x)
  }

  lemma {:induction false} IndexOfPrefix(p: seq<string>, y: string, x: string)
    requires x in p
    ensures IndexOf(p + [y], x) == IndexOf(p, x)
  {
    var n := IndexOf(p, x);
    var m := IndexOf(p + [y], x);
    assert (p + [y])[n] == x;
    assert m <= n;
    assert p[m] == x;
  }

  /** `Distinct` lists elements in the order of their first occurrences. */
  lemma {:induction false} DistinctFirstSeenOrder(s: seq<string>)
    ensures forall i, j :: 0 <= i < j < |Distinct(s)| ==> IndexOf(s, Distinct(s)[i]) < IndexOf(s, Distinct(s)[j])
    decreases |s|
  {
    if |s| > 0 {
      var p, y := s[..|s| - 1], s[|s| - 1];
      assert s == p + [y];
      var d := Distinct(p);
      DistinctFirstSeenOrder(p);
      forall x | x in d ensures IndexOf(s, x) == IndexOf(p, x) {
        IndexOfPrefix(p, y, x);
      }
      if y !in d {
        assert IndexOf(s, y) == |p|;
      }
    }
  }

  /** `top_languages`: the first five distinct present languages. */
  function TopLanguages(langs: seq<Option<string>>): seq<string> {
    var d := Distinct(PresentLanguages(langs));
    if |d| <= 5 then d else d[..5]
  }

  /** What `top_languages` promises: at most five, no repeats, none empty, each some repository's
      language, in first-occurrence order, and every present language when fewer than five. */
  lemma TopLanguagesFacts(langs: seq<Option<string>>)
    ensures var r := TopLanguages(langs);
      && |r| <= 5
      && NoDuplicates(r)
      && (forall k :: 0 <= k < |r| ==> r[k] != "" && Some(r[k]) in langs)
      && (forall i, j :: 0 <= i < j < |r| ==>
            IndexOf(PresentLanguages(langs), r[i]) < IndexOf(PresentLanguages(langs), r[j]))
      && (|r| < 5 ==> forall k :: 0 <= k < |langs| && langs[k].Some? && langs[k].value != "" ==> langs[k].value in r)
  {
    var p := PresentLanguages(langs);
    var d := Distinct(p);
    DistinctFirstSeenOrder(p);
    var r := TopLanguages(langs);
    assert forall k :: 0 <= k < |r| ==> r[k] == d[k];
    assert forall k :: 0 <= k < |r| ==> r[k] in p;
  }

  /** `getUserActivity`: a rejected request throws; a non-2xx answer gives no languages. */
  function GetUserActivity(repos: Response<seq<Option<string>>>): (r: Result<seq<string>, SearchError>)
    ensures repos.Rejected? <==> r.Failure?
    ensures repos.NotOk? ==> r == Success([])
    ensures r.Success? ==> |r.value| <= 5
    ensures repos.Ok? ==> r == Success(TopLanguages(repos.body))
  {
    match repos
    case Rejected => Failure(NetworkError)
    case NotOk => Success([])
    case Ok(langs) => TopLanguagesFacts(langs); Success(TopLanguages(langs))
  }

  // ---------------------------------------------------------------- the Link header

  const PagePrefix: string := "page="
  const LastRelSuffix: string := ">; rel=\"last\""

  /** The end of the run of digits that starts at `i`. */
  function DigitRunEnd(h: string, i: nat): (n: nat)
    requires i <= |h|
    ensures i <= n <= |h|
    ensures forall k :: i <= k < n ==> IsDigit(h[k])
    ensures n < |h| ==> !IsDigit(h[n])
    decreases |h| - i
  {
    if i < |h| && IsDigit(h[i]) then DigitRunEnd(h, i + 1) else i
  }

  /** `page=(\d+)>; rel="last"` matches at `p`. Since the digits must be followed by `>`, the
      greedy `\d+` can only match the whole digit run. */
  predicate LastPageMatchAt(h: string, p: nat) {
    && p + |PagePrefix| <= |h|
    && OccursAt(h, PagePrefix, p)
    && var e := DigitRunEnd(h, p + |PagePrefix|);
       e > p + |PagePrefix| && e + |LastRelSuffix| <= |h| && OccursAt(h, LastRelSuffix, e)
  }

  /** The captured page number of a match at `p`. */
  function MatchedPage(h: string, p: nat): nat
    requires LastPageMatchAt(h, p)
  {
    DecimalValue(h[p + |PagePrefix|..DigitRunEnd(h, p + |PagePrefix|)])
  }

  /** The first match at or after `p`, as `String.prototype.match` finds it. */
  function FirstLastPage(h: string, p: nat): (r: Option<nat>)
    decreases |h| - p
  {
    if p + |PagePrefix| > |h| then None
    else if LastPageMatchAt(h, p) then Some(MatchedPage(h, p))
    else FirstLastPage(h, p + 1)
  }

  /** A found page number is the capture of a match before which no match starts. */
  lemma {:induction false} FirstLastPageSound(h: string, p: nat)
    requires FirstLastPage(h, p).Some?
    ensures exists m :: p <= m && LastPageMatchAt(h, m) && FirstLastPage(h, p) == Some(MatchedPage(h, m))
                      && forall k :: p <= k < m ==> !LastPageMatchAt(h, k)
    decreases |h| - p
  {
    if !LastPageMatchAt(h, p) {
      FirstLastPageSound(h, p + 1);
      var m :| p + 1 <= m && LastPageMatchAt(h, m) && FirstLastPage(h, p + 1) == Some(MatchedPage(h, m))
               && forall k :: p + 1 <= k < m ==> !LastPageMatchAt(h, k);
      assert forall k :: p <= k < m ==> !LastPageMatchAt(h, k);
    }
  }

  /** When there is a match at or after `p`, one is found. */
  lemma {:induction false} FirstLastPageComplete(h: string, p: nat, m: nat)
    requires p <= m && LastPageMatchAt(h, m)
    ensures FirstLastPage(h, p).Some?
    decreases m - p
  {
    if !LastPageMatchAt(h, p) {
      FirstLastPageComplete(h, p + 1, m);
    }
  }

  /** The count derived from a settled starred request: 0 for a non-2xx answer, a missing or empty
      `Link` header or no `rel="last"` match; otherwise the last page number. */
  function StarredCountOf(ok: bool, link: Option<string>): (n: nat)
    ensures !ok || link.None? || link == Some("") ==> n == 0
    ensures ok && link.Some? && FirstLastPage(link.value, 0).Some? ==> n == FirstLastPage(link.value, 0).value
    ensures ok && link.Some? && FirstLastPage(link.value, 0).None? ==> n == 0
  {
    if !ok then 0
    else match link
      case None => 0
      case Some(h) =>
        if h == "" then 0
        else match FirstLastPage(h, 0)
          case Some(n) => n
          case None => 0
  }

  /** `getUserStarredCount`; a rejected request throws. */
  function GetUserStarredCount(starred: Response<Option<string>>): (r: Result<nat, SearchError>)
    ensures starred.Rejected? <==> r.Failure?
    ensures starred.NotOk? ==> r == Success(0)
    ensures starred.Ok? ==> r == Success(StarredCountOf(true, starred.body))
  {
    match starred
    case Rejected => Failure(NetworkError)
    case NotOk => Success(StarredCountOf(false, None))
    case Ok(link) => Success(StarredCountOf(true, link))
  }

  /** A match needs `p` followed by `a`, so positions that lack that pair are skipped. */
  lemma {:induction false} SkipWithoutPa(h: string, p: nat, m: nat)
    requires p <= m
    requires forall k :: p <= k < m && k + 1 < |h| ==> h[k] != 'p' || h[k + 1] != 'a'
    ensures FirstLastPage(h, p) == FirstLastPage(h, m)
    decreases m - p
  {
    if p < m && p + |PagePrefix| <= |h| {
      assert h[p..p + 5][0] == h[p] && h[p..p + 5][1] == h[p + 1];
      SkipWithoutPa(h, p + 1, m);
    }
  }

  /** The text before `page=` in the example header has no `p` followed by `a`. */
  lemma ExampleUrlHasNoPa(s: string)
    requires s == "<https://api.github.com/user/1/starred?"
    ensures forall k :: 0 <= k < |s| ==> s[k] != 'p' || (k + 1 < |s| && s[k + 1] != 'a')
  {
    var a, b, c, d := "<https://a", "pi.github.", "com/user/1", "/starred?";
    assert NoPa(a) && NoPa(b) && NoPa(c) && NoPa(d);
    NoPaAppend(a, b);
    NoPaAppend(a + b, c);
    NoPaAppend(a + b + c, d);
    assert s == a + b + c + d;
  }

  /** No `p` of `s` is followed by an `a`, and `s` does not end in `p`. */
  predicate NoPa(s: string) {
    forall k :: 0 <= k < |s| ==> s[k] != 'p' || (k + 1 < |s| && s[k + 1] != 'a')
  }

  lemma NoPaAppend(a: string, b: string)
    requires NoPa(a) && NoPa(b)
    ensures NoPa(a + b)
  {
    var ab := a + b;
    forall k | 0 <= k < |ab| ensures ab[k] != 'p' || (k + 1 < |ab| && ab[k + 1] != 'a') {
      if k < |a| {
        if a[k] == 'p' {
          assert k + 1 < |a| && a[k + 1] != 'a';
          assert ab[k + 1] == a[k + 1];
        }
      } else {
        assert ab[k] == b[k - |a|];
        if b[k - |a|] == 'p' {
          assert ab[k + 1] == b[k + 1 - |a|];
        }
      }
    }
  }

  /** A run of digits from `i` that stops at a non-digit or the end ends there. */
  lemma {:induction false} DigitRunUpTo(h: string, i: nat, n: nat)
    requires i <= n <= |h|
    requires forall k :: i <= k < n ==> IsDigit(h[k])
    requires n < |h| ==> !IsDigit(h[n])
    ensures DigitRunEnd(h, i) == n
    decreases n - i
  {
    if i < n {
      DigitRunUpTo(h, i + 1, n);
    }
  }

  /** A link `pre` + `page=` + `d` + `>; rel="last"` + `post`: `page=` starts at `|pre|`. */
  lemma LinkPrefixOccurs(h: string, pre: string, d: string, post: string)
    requires h == pre + (PagePrefix + (d + (LastRelSuffix + post)))
    ensures OccursAt(h, PagePrefix, |pre|)
  {
    assert h[|pre|..|pre| + |PagePrefix|] == PagePrefix;
  }

  /** … the digit run after `page=` is exactly `d`, … */
  lemma LinkDigitRun(h: string, pre: string, d: string, post: string)
    requires forall k :: 0 <= k < |d| ==> IsDigit(d[k])
    requires h == pre + (PagePrefix + (d + (LastRelSuffix + post)))
    ensures DigitRunEnd(h, |pre| + |PagePrefix|) == |pre| + |PagePrefix| + |d|
  {
    var i := |pre| + |PagePrefix|;
    var e := i + |d|;
    assert forall k :: i <= k < e ==> h[k] == d[k - i];
    assert h[e] == '>';
    DigitRunUpTo(h, i, e);
  }

  /** … `>; rel="last"` follows it, … */
  lemma LinkSuffixOccurs(h: string, pre: string, d: string, post: string)
    requires h == pre + (PagePrefix + (d + (LastRelSuffix + post)))
    ensures OccursAt(h, LastRelSuffix, |pre| + |PagePrefix| + |d|)
  {
    var e := |pre| + |PagePrefix| + |d|;
    assert h[e..e + |LastRelSuffix|] == LastRelSuffix;
  }

  /** … and the text between them is `d`. */
  lemma LinkCapture(h: string, pre: string, d: string, post: string)
    requires h == pre + (PagePrefix + (d + (LastRelSuffix + post)))
    ensures h[|pre| + |PagePrefix|..|pre| + |PagePrefix| + |d|] == d
  {
    assert h[|pre|..] == PagePrefix + (d + (LastRelSuffix + post));
  }

  /** Those facts make a match at `p` whose capture is `d`. */
  lemma MatchWithCapture(h: string, p: nat, d: string)
    requires |d| >= 1 && forall k :: 0 <= k < |d| ==> IsDigit(d[k])
    requires p + |PagePrefix| <= |h| && OccursAt(h, PagePrefix, p)
    requires DigitRunEnd(h, p + |PagePrefix|) == p + |PagePrefix| + |d|
    requires p + |PagePrefix| + |d| + |LastRelSuffix| <= |h| && OccursAt(h, LastRelSuffix, p + |PagePrefix| + |d|)
    requires h[p + |PagePrefix|..p + |PagePrefix| + |d|] == d
    ensures FirstLastPage(h, p) == Some(DecimalValue(d))
  {
  }

  /** `page=`, digits `d` and `>; rel="last"` in a row match where `page=` starts, and capture `d`. */
  lemma LastLinkMatch(h: string, pre: string, d: string, post: string)
    requires |d| >= 1 && forall k :: 0 <= k < |d| ==> IsDigit(d[k])
    requires h == pre + (PagePrefix + (d + (LastRelSuffix + post)))
    ensures FirstLastPage(h, |pre|) == Some(DecimalValue(d))
  {
    LinkPrefixOccurs(h, pre, d, post);
    LinkDigitRun(h, pre, d, post);
    LinkSuffixOccurs(h, pre, d, post);
    LinkCapture(h, pre, d, post);
    MatchWithCapture(h, |pre|, d);
  }

  /** In the example header, `page=37>; rel="last"` matches at 39. */
  lemma ExampleMatch(h: string)
    requires h == "<https://api.github.com/user/1/starred?page=37>; rel=\"last\""
    ensures FirstLastPage(h, 39) == Some(37)
  {
    var pre := "<https://api.github.com/user/1/starred?";
    assert h == pre + (PagePrefix + ("37" + (LastRelSuffix + "")));
    LastLinkMatch(h, pre, "37", "");
    assert DecimalValue("37") == 37 by {
      assert "37"[..1] == "3";
      assert ""[..0] == "";
    }
  }

  /** In the example header, no match starts before 39. */
  lemma ExampleSkip(h: string)
    requires h == "<https://api.github.com/user/1/starred?page=37>; rel=\"last\""
    ensures FirstLastPage(h, 0) == FirstLastPage(h, 39)
  {
    var pre := "<https://api.github.com/user/1/starred?";
    assert h == pre + "page=37>; rel=\"last\"";
    ExampleUrlHasNoPa(pre);
    assert forall k :: 0 <= k < |pre| ==> h[k] == pre[k];
    SkipWithoutPa(h, 0, 39);
  }

  /** A header whose last link is `…page=37>; rel="last"` gives 37. */
  lemma StarredThirtySeven()
    ensures GetUserStarredCount(Ok(Some("<https://api.github.com/user/1/starred?page=37>; rel=\"last\"")))
            == Success(37)
  {
    var h := "<https://api.github.com/user/1/starred?page=37>; rel=\"last\"";
    ExampleMatch(h);
    ExampleSkip(h);
  }

  // ---------------------------------------------------------------- readme and details

  /** `getUserReadme`: the text of a 2xx answer, `null` otherwise; it never throws. */
  function GetUserReadme(readme: Response<string>): (r: Option<string>)
    ensures r.Some? <==> readme.Ok?
    ensures readme.Ok? ==> r == Some(readme.body)
  {
    if readme.Ok? then Some(readme.body) else None
  }

  /** `getUserDetails`: the profile overlaid with `top_languages` and `starred_repos`. A non-2xx profile
      answer throws "Failed to fetch user details"; a rejected request throws. */
  function GetUserDetails(r: UserResponses): (res: Result<GitHubUser, SearchError>)
    ensures r.details.NotOk? ==> res == Failure(FetchUserDetailsFailed)
    ensures res.Success? <==> r.details.Ok? && !r.repos.Rejected? && !r.starred.Rejected?
    ensures res.Success? ==> (&& res.value.login == r.details.body.login
                              && res.value.topLanguages.Some? && |res.value.topLanguages.value| <= 5
                              && res.value.starredRepos.Some? && res.value.starredRepos.value >= 0)
    ensures res.Success? ==>
              res.value == r.details.body.(topLanguages := Some(GetUserActivity(r.repos).value),
                                           starredRepos := Some(GetUserStarredCount(r.starred).value))
  {
    match r.details
    case Rejected => Failure(NetworkError)
    case NotOk => Failure(FetchUserDetailsFailed)
    case Ok(profile) =>
      match GetUserActivity(r.repos)
      case Failure(e) => Failure(e)
      case Success(langs) =>
        match GetUserStarredCount(r.starred)
        case Failure(e) => Failure(e)
        case Success(count) => Success(profile.(topLanguages := Some(langs), starredRepos := Some(count)))
  }

  /** A shown user: details plus the README. */
  function EnrichDisplayed(item: SearchItem): (res: Result<GitHubUser, SearchError>)
    ensures res.Success? <==> GetUserDetails(item.responses).Success?
    ensures res.Success? ==> res.value == GetUserDetails(item.responses).value.(readme := GetUserReadme(item.responses.readme))
  {
    match GetUserDetails(item.responses)
    case Failure(e) => Failure(e)
    case Success(u) => Success(u.(readme := GetUserReadme(item.responses.readme)))
  }

  /** `Promise.all` over the enrichment of every item: all users in order, or the first failure. */
  function EnrichAll(items: seq<SearchItem>, withReadme: bool): (res: Result<seq<GitHubUser>, SearchError>)
    ensures res.Success? ==> |res.value| == |items|
    ensures res.Success? <==> forall k :: 0 <= k < |items| ==> GetUserDetails(items[k].responses).Success?
    ensures res.Success? ==>
              forall k :: 0 <= k < |items| ==>
                res.value[k] == (if withReadme then EnrichDisplayed(items[k]) else GetUserDetails(items[k].responses)).value
  {
    if |items| == 0 then Success([])
    else
      var first := if withReadme then EnrichDisplayed(items[0]) else GetUserDetails(items[0].responses);
      match first
      case Failure(e) => Failure(e)
      case Success(u) =>
        match EnrichAll(items[1..], withReadme)
        case Failure(e) => Failure(e)
        case Success(us) =>
          assert forall k :: 1 <= k < |items| ==> items[k] == items[1..][k - 1];
          Success([u] + us)
  }

  /** A failure of the whole batch names an error some user's enrichment produced. */
  lemma {:induction false} EnrichAllFailureIsSomeUsers(items: seq<SearchItem>, withReadme: bool)
    requires EnrichAll(items, withReadme).Failure?
    ensures exists k :: 0 <= k < |items| && GetUserDetails(items[k].responses) == Failure(EnrichAll(items, withReadme).error)
  {
    if GetUserDetails(items[0].responses).Success? {
      EnrichAllFailureIsSomeUsers(items[1..], withReadme);
      var k :| 0 <= k < |items[1..]| && GetUserDetails(items[1..][k].responses) == Failure(EnrichAll(items[1..], withReadme).error);
      assert items[1..][k] == items[k + 1];
    }
  }

  // ---------------------------------------------------------------- searchUsers

  /** The body of a search answer. */
  datatype SearchPage = SearchPage(totalCount: int, incompleteResults: bool, items: seq<SearchItem>)

  /** How one sample request settled. Sample answers are not checked for a 2xx status, so an error
      answer is parsed like any other; when its body has no `items`, `flatMap` keeps `undefined`. */
  datatype SampleOutcome = SampleRejected | SampleItems(items: seq<SearchItem>) | SampleWithoutItems

  /** `statsResults.flatMap(result => result.items)`, with `None` for an `undefined` entry; a single
      rejected sample request leaves the whole sample empty. */
  function SampleEntries(outcomes: seq<SampleOutcome>): (r: seq<Option<SearchItem>>)
    ensures (exists k :: 0 <= k < |outcomes| && outcomes[k].SampleRejected?) ==> r == []
  {
    if exists k :: 0 <= k < |outcomes| && outcomes[k].SampleRejected? then [] else Flatten(outcomes)
  }

  function Flatten(outcomes: seq<SampleOutcome>): seq<Option<SearchItem>> {
    if |outcomes| == 0 then []
    else
      (match outcomes[0]
       case SampleItems(items) => seq(|items|, k requires 0 <= k < |items| => Some(items[k]))
       case _ => [None])
      + Flatten(outcomes[1..])
  }

  function Defined(entries: seq<Option<SearchItem>>): seq<SearchItem>
    requires forall k :: 0 <= k < |entries| ==> entries[k].Some?
  {
    if |entries| == 0 then [] else [entries[0].value] + Defined(entries[1..])
  }

  /** The response `searchUsers` resolves with. */
  datatype SearchResult = SearchResult(totalCount: int, incompleteResults: bool,
                                       items: seq<GitHubUser>, statsItems: seq<GitHubUser>)

  /** `searchUsers` once its requests have settled: `samples` are the outcomes of the requests for
      `SamplePages(fetchStats, page)`, in page order. */
  function Search(primary: Response<SearchPage>, fetchStats: bool, page: int,
                  samples: seq<SampleOutcome>): Result<SearchResult, SearchError>
    requires |samples| == |SamplePages(fetchStats, page)|
  {
    match primary
    case Rejected => Failure(NetworkError)
    case NotOk => Failure(FetchUsersFailed)
    case Ok(display) =>
      var entries := SampleEntries(samples);
      match EnrichAll(display.items, true)
      case Failure(e) => Failure(e)
      case Success(users) =>
        if exists k :: 0 <= k < |entries| && entries[k].None? then Failure(UndefinedSampleItem)
        else match EnrichAll(Defined(entries), false)
          case Failure(e) => Failure(e)
          case Success(statsUsers) =>
            Success(SearchResult(display.totalCount, display.incompleteResults, users, users + statsUsers))
  }

  /** `searchUsers`: the query it sends, the sample pages it requests and what it resolves with. */
  method SearchUsers(query: string, location: string, language: string, page: int, fetchStats: bool,
                     primary: Response<SearchPage>, samples: seq<SampleOutcome>)
    returns (q: string, samplePages: seq<int>, result: Result<SearchResult, SearchError>)
    requires |samples| == |SamplePages(fetchStats, page)|
    ensures q == QueryString(query, location, language)
    ensures samplePages == if primary.Ok? then SamplePages(fetchStats, page) else []
    ensures result == Search(primary, fetchStats, page, samples)
  {
    q := BuildQuery(query, location, language);
    if primary.Ok? {
      samplePages := StatsPageRequests(fetchStats, page);
    } else {
      samplePages := [];
    }
    result := Search(primary, fetchStats, page, samples);
  }

  /** On success the shown users come first in the sample, one per primary item. */
  lemma SearchItemsPrefixStats(primary: Response<SearchPage>, fetchStats: bool, page: int, samples: seq<SampleOutcome>)
    requires |samples| == |SamplePages(fetchStats, page)|
    requires Search(primary, fetchStats, page, samples).Success?
    ensures var r := Search(primary, fetchStats, page, samples).value;
      && primary.Ok? && |r.items| == |primary.body.items|
      && r.items <= r.statsItems
      && r.totalCount == primary.body.totalCount
      && r.items == EnrichAll(primary.body.items, true).value
      && (forall k :: 0 <= k < |SampleEntries(samples)| ==> SampleEntries(samples)[k].Some?)
      && r.statsItems == r.items + EnrichAll(Defined(SampleEntries(samples)), false).value
  {
  }

  /** Without stats, off page 1, or with a rejected sample request, the sample is just the shown page. */
  lemma SearchWithoutSample(primary: Response<SearchPage>, fetchStats: bool, page: int, samples: seq<SampleOutcome>)
    requires |samples| == |SamplePages(fetchStats, page)|
    requires !fetchStats || page != 1 || exists k :: 0 <= k < |samples| && samples[k].SampleRejected?
    requires Search(primary, fetchStats, page, samples).Success?
    ensures Search(primary, fetchStats, page, samples).value.statsItems == Search(primary, fetchStats, page, samples).value.items
  {
    assert SampleEntries(samples) == [];
  }

  /** The error cases: a non-2xx search page fails with "Failed to fetch users"; otherwise a non-2xx
      profile answer of a shown user, with the others enriched fine, fails with "Failed to fetch user details". */
  lemma SearchErrors(primary: Response<SearchPage>, fetchStats: bool, page: int, samples: seq<SampleOutcome>, k: nat)
    requires |samples| == |SamplePages(fetchStats, page)|
    ensures primary.NotOk? ==> Search(primary, fetchStats, page, samples) == Failure(FetchUsersFailed)
    ensures primary.Ok? && k < |primary.body.items| && primary.body.items[k].responses.details.NotOk?
            && (forall j :: 0 <= j < |primary.body.items| && j != k ==> GetUserDetails(primary.body.items[j].responses).Success?)
            ==> Search(primary, fetchStats, page, samples) == Failure(FetchUserDetailsFailed)
  {
    if primary.Ok? && k < |primary.body.items| && primary.body.items[k].responses.details.NotOk?
       && (forall j :: 0 <= j < |primary.body.items| && j != k ==> GetUserDetails(primary.body.items[j].responses).Success?) {
      EnrichAllFailureIsSomeUsers(primary.body.items, true);
    }
  }

  /** The README outcome never decides whether a search succeeds. */
  lemma {:induction false} ReadmeNeverFails(items: seq<SearchItem>)
    ensures EnrichAll(items, true).Success? <==> EnrichAll(items, false).Success?
  {
  }
}
