// The aggregation behind the insights panel (src/components/SearchInsights.tsx): language and tier
// tallies over the sampled users, extrapolated to the whole result count, and the two click toggles.

module Insights {
  import opened Seqs
  import opened Users
  import opened Seniority

  // ---------------------------------------------------------------- tallies

  /** A `Record<string, number>` as `Object.entries` lists it: one entry per key, in insertion order. */
  type Counts = seq<(string, int)>

  /** The keys, in order. */
  function Keys(t: Counts): (r: seq<string>)
    ensures |r| == |t| && forall k :: 0 <= k < |t| ==> r[k] == t[k].0
  {
    if |t| == 0 then [] else [t[0].0] + Keys(t[1..])
  }

  predicate PositiveCounts(t: Counts) {
    forall k :: 0 <= k < |t| ==> t[k].1 > 0
  }

  /** `t[key] || 0`. */
  function CountOf(t: Counts, key: string): int {
    if |t| == 0 then 0 else if t[0].0 == key then t[0].1 else CountOf(t[1..], key)
  }

  /** The sum of the counts. */
  function Total(t: Counts): int {
    if |t| == 0 then 0 else t[0].1 + Total(t[1..])
  }

  /** `t[key] = (t[key] || 0) + 1`. */
  function Bump(t: Counts, key: string): Counts {
    if |t| == 0 then [(key, 1)]
    else if t[0].0 == key then [(key, t[0].1 + 1)] + t[1..]
    else [t[0]] + Bump(t[1..], key)
  }

  /** An existing key keeps its place; a new key goes last. */
  lemma {:induction false} BumpKeys(t: Counts, key: string)
    ensures Keys(Bump(t, key)) == if key in Keys(t) then Keys(t) else Keys(t) + [key]
  {
    if |t| > 0 && t[0].0 != key {
      BumpKeys(t[1..], key);
      assert key in Keys(t) <==> key in Keys(t[1..]);
    }
  }

  /** One increment adds one to `key` and to nothing else. */
  lemma {:induction false} BumpCount(t: Counts, key: string, x: string)
    ensures CountOf(Bump(t, key), x) == CountOf(t, x) + (if x == key then 1 else 0)
  {
    if |t| > 0 && t[0].0 != key {
      BumpCount(t[1..], key, x);
    }
  }

  lemma {:induction false} BumpTotal(t: Counts, key: string)
    ensures Total(Bump(t, key)) == Total(t) + 1
  {
    if |t| > 0 && t[0].0 != key {
      BumpTotal(t[1..], key);
    }
  }

  lemma {:induction false} BumpPositive(t: Counts, key: string)
    requires PositiveCounts(t)
    ensures PositiveCounts(Bump(t, key))
  {
    if |t| > 0 && t[0].0 != key {
      BumpPositive(t[1..], key);
      var r := Bump(t, key);
      assert forall k :: 1 <= k < |r| ==> r[k] == Bump(t[1..], key)[k - 1];
    }
  }

  /** What an increment keeps: distinct keys and positive counts. */
  lemma BumpKeeps(t: Counts, key: string)
    requires NoDuplicates(Keys(t)) && PositiveCounts(t)
    ensures NoDuplicates(Keys(Bump(t, key))) && PositiveCounts(Bump(t, key))
  {
    BumpKeys(t, key);
    BumpPositive(t, key);
    if key !in Keys(t) {
      AppendFresh(Keys(t), key);
    }
  }

  /** With distinct keys, the count of a listed key is the one stored with it. */
  lemma {:induction false} CountAt(t: Counts, k: nat)
    requires NoDuplicates(Keys(t)) && k < |t|
    ensures CountOf(t, t[k].0) == t[k].1
  {
    if k > 0 {
      assert t[0].0 != t[k].0 by {
        assert Keys(t)[0] == t[0].0 && Keys(t)[k] == t[k].0;
      }
      assert Keys(t[1..]) == Keys(t)[1..];
      CountAt(t[1..], k - 1);
      assert t[1..][k - 1] == t[k];
    }
  }

  /** A key that is not listed counts 0. */
  lemma {:induction false} CountAbsent(t: Counts, x: string)
    requires x !in Keys(t)
    ensures CountOf(t, x) == 0
  {
    if |t| > 0 {
      assert Keys(t[1..]) == Keys(t)[1..];
      CountAbsent(t[1..], x);
    }
  }

  /** `keys.forEach(key => t[key] = (t[key] || 0) + 1)`. */
  function AddAll(t: Counts, keys: seq<string>): Counts {
    if |keys| == 0 then t else Bump(AddAll(t, keys[..|keys| - 1]), keys[|keys| - 1])
  }

  /** Adding a list of keys adds each key's number of occurrences. */
  lemma {:induction false} AddAllCount(t: Counts, keys: seq<string>, x: string)
    ensures CountOf(AddAll(t, keys), x) == CountOf(t, x) + multiset(keys)[x]
  {
    if |keys| > 0 {
      var init := keys[..|keys| - 1];
      AddAllCount(t, init, x);
      BumpCount(AddAll(t, init), keys[|keys| - 1], x);
      assert keys == init + [keys[|keys| - 1]];
    }
  }

  /** The keys listed afterwards are the ones listed before and the ones added, still distinct,
      with positive counts. */
  lemma {:induction false} AddAllKeys(t: Counts, keys: seq<string>)
    requires NoDuplicates(Keys(t)) && PositiveCounts(t)
    ensures forall x :: x in Keys(AddAll(t, keys)) <==> x in Keys(t) || x in keys
    ensures NoDuplicates(Keys(AddAll(t, keys))) && PositiveCounts(AddAll(t, keys))
  {
    if |keys| > 0 {
      var init := keys[..|keys| - 1];
      var last := keys[|keys| - 1];
      AddAllKeys(t, init);
      BumpKeys(AddAll(t, init), last);
      BumpKeeps(AddAll(t, init), last);
      assert keys == init + [last];
      assert forall x :: x in keys <==> x in init || x == last;
    }
  }

  // ---------------------------------------------------------------- the per-user loop

  /** `user.top_languages && user.top_languages.length > 0`. */
  predicate HasLanguages(u: GitHubUser) {
    u.topLanguages.Some? && |u.topLanguages.value| > 0
  }

  /** How often `lang` occurs in the language lists of the users that have one. */
  function Occurrences(users: seq<GitHubUser>, lang: string): nat {
    if |users| == 0 then 0
    else
      var u := users[|users| - 1];
      Occurrences(users[..|users| - 1], lang) + (if HasLanguages(u) then multiset(u.topLanguages.value)[lang] else 0)
  }

  /** The `stats` record after the loop over `users`. */
  function LangTally(users: seq<GitHubUser>): Counts {
    if |users| == 0 then []
    else
      var u := users[|users| - 1];
      var t := LangTally(users[..|users| - 1]);
      if HasLanguages(u) then AddAll(t, u.topLanguages.value) else t
  }

  /** `usersWithLanguages` after the loop over `users`. */
  function UsersWithLanguages(users: seq<GitHubUser>): (n: nat)
    ensures n <= |users|
  {
    if |users| == 0 then 0
    else UsersWithLanguages(users[..|users| - 1]) + (if HasLanguages(users[|users| - 1]) then 1 else 0)
  }

  /** The tier label of a user as the panel's scorer computes it. */
  function LevelOf(u: GitHubUser, now: int, log10: real -> real): string {
    Label(TierOfUser(u, now, log10))
  }

  /** How many users are in the tier labelled `level`. */
  function UsersAtLevel(users: seq<GitHubUser>, level: string, now: int, log10: real -> real): nat {
    if |users| == 0 then 0
    else
      UsersAtLevel(users[..|users| - 1], level, now, log10)
      + (if LevelOf(users[|users| - 1], now, log10) == level then 1 else 0)
  }

  /** The `seniority` record after the loop over `users`. */
  function TierTally(users: seq<GitHubUser>, now: int, log10: real -> real): Counts {
    if |users| == 0 then []
    else Bump(TierTally(users[..|users| - 1], now, log10), LevelOf(users[|users| - 1], now, log10))
  }

  /** Each language counts its occurrences over the users with languages; the listed languages are
      exactly the ones that occur, each once, with a positive count. */
  lemma {:induction false} LangTallyFacts(users: seq<GitHubUser>)
    ensures forall x :: CountOf(LangTally(users), x) == Occurrences(users, x)
    ensures forall x :: x in Keys(LangTally(users)) <==> Occurrences(users, x) > 0
    ensures NoDuplicates(Keys(LangTally(users))) && PositiveCounts(LangTally(users))
    ensures |LangTally(users)| > 0 ==> UsersWithLanguages(users) > 0
  {
    if |users| > 0 {
      var init := users[..|users| - 1];
      var u := users[|users| - 1];
      LangTallyFacts(init);
      if HasLanguages(u) {
        AddAllKeys(LangTally(init), u.topLanguages.value);
        forall x ensures CountOf(LangTally(users), x) == Occurrences(users, x) {
          AddAllCount(LangTally(init), u.topLanguages.value, x);
        }
      }
    }
  }

  /** Every user adds exactly one tier count; the listed tiers are the ones some user is in. */
  lemma {:induction false} TierTallyFacts(users: seq<GitHubUser>, now: int, log10: real -> real)
    ensures forall x :: CountOf(TierTally(users, now, log10), x) == UsersAtLevel(users, x, now, log10)
    ensures forall x :: x in Keys(TierTally(users, now, log10)) <==> UsersAtLevel(users, x, now, log10) > 0
    ensures Total(TierTally(users, now, log10)) == |users|
    ensures NoDuplicates(Keys(TierTally(users, now, log10))) && PositiveCounts(TierTally(users, now, log10))
  {
    if |users| > 0 {
      var init := users[..|users| - 1];
      var before := TierTally(init, now, log10);
      var level := LevelOf(users[|users| - 1], now, log10);
      TierTallyFacts(init, now, log10);
      BumpKeys(before, level);
      BumpTotal(before, level);
      BumpKeeps(before, level);
      forall x ensures CountOf(TierTally(users, now, log10), x) == UsersAtLevel(users, x, now, log10) {
        BumpCount(before, level, x);
      }
    }
  }

  /** The inner `forEach` over one user's languages. */
  method CountLanguages(stats: Counts, langs: seq<string>) returns (r: Counts)
    ensures r == AddAll(stats, langs)
  {
    r := stats;
    var j := 0;
    while j < |langs|
      invariant 0 <= j <= |langs|
      invariant r == AddAll(stats, langs[..j])
    {
      assert langs[..j + 1][..j] == langs[..j];
      r := Bump(r, langs[j]);
      j := j + 1;
    }
    assert langs[..|langs|] == langs;
  }

  /** The `forEach` over the users, with its inner `forEach` over each user's languages. */
  method Tally(users: seq<GitHubUser>, now: int, log10: real -> real)
    returns (stats: Counts, seniority: Counts, usersWithLanguages: nat)
    ensures stats == LangTally(users)
    ensures seniority == TierTally(users, now, log10)
    ensures usersWithLanguages == UsersWithLanguages(users)
  {
    stats, seniority, usersWithLanguages := [], [], 0;
    var i := 0;
    while i < |users|
      invariant 0 <= i <= |users|
      invariant stats == LangTally(users[..i])
      invariant seniority == TierTally(users[..i], now, log10)
      invariant usersWithLanguages == UsersWithLanguages(users[..i])
    {
      var user := users[i];
      assert users[..i + 1][..i] == users[..i] && users[..i + 1][i] == user;
      if user.topLanguages.Some? && |user.topLanguages.value| > 0 {
        usersWithLanguages := usersWithLanguages + 1;
        stats := CountLanguages(stats, user.topLanguages.value);
      }
      var metrics := CalculateSeniorityScore(user, now, log10);
      seniority := Bump(seniority, Label(metrics.level));
      i := i + 1;
    }
    assert users[..|users|] == users;
  }

  // ---------------------------------------------------------------- extrapolated statistics

  /** One bar of a chart: a language or a tier label, its extrapolated count and its share in percent. */
  datatype Bar = Bar(name: string, count: int, percentage: real)

  /** `Math.round(count * (totalCount / users.length))`. */
  function Extrapolate(count: int, totalCount: int, sampled: nat): int
    requires sampled > 0
  {
    Round(count as real * (totalCount as real / sampled as real))
  }

  /** `(count / of) * 100`. */
  function Percent(count: int, of: nat): real
    requires of > 0
  {
    (count as real / of as real) * 100.0
  }

  /** The names of the bars, in order. */
  function Names(bars: seq<Bar>): (r: seq<string>)
    ensures |r| == |bars| && forall k :: 0 <= k < |bars| ==> r[k] == bars[k].name
  {
    if |bars| == 0 then [] else [bars[0].name] + Names(bars[1..])
  }

  /** `Object.entries(record).map(([name, count]) => ({ name, count: Math.round(count * sampleRatio),
      percentage: (count / of) * 100 }))`. */
  function Entries(t: Counts, totalCount: int, sampled: nat, of: nat): (r: seq<Bar>)
    requires sampled > 0 && of > 0
    ensures |r| == |t| && forall k :: 0 <= k < |t| ==> r[k].name == t[k].0
  {
    if |t| == 0 then []
    else [Bar(t[0].0, Extrapolate(t[0].1, totalCount, sampled), Percent(t[0].1, of))]
         + Entries(t[1..], totalCount, sampled, of)
  }

  /** The language chart sorts by extrapolated count, largest first. */
  function BarCount(b: Bar): int {
    b.count
  }

  /** `languageStats`. An empty tally maps to no bars, which is also what happens with no users. */
  function LanguageStats(users: seq<GitHubUser>, totalCount: int): seq<Bar> {
    var t := LangTally(users);
    if |t| == 0 then []
    else
      LangTallyFacts(users);
      SortDesc(Entries(t, totalCount, |users|, UsersWithLanguages(users)), BarCount)
  }

  /** The panel's tier order. */
  const LevelOrder: seq<string> := ["Principal", "Staff", "Senior", "Mid-Level", "Junior", "Entry"]

  /** `levels.indexOf(level)`. */
  function LevelIndex(level: string): int {
    IndexOf(LevelOrder, level)
  }

  /** The first position of `x` in `s`, or -1 when it is absent. */
  function IndexOf(s: seq<string>, x: string): (n: int)
    ensures -1 <= n < |s|
    ensures n >= 0 ==> s[n] == x && forall k :: 0 <= k < n ==> s[k] != x
    ensures n == -1 ==> x !in s
  {
    if |s| == 0 then -1
    else if s[0] == x then 0
    else var m := IndexOf(s[1..], x); if m == -1 then -1 else m + 1
  }

  /** Every tier label is in the order list, the most senior first. */
  lemma LevelIndexOfTier(t: Tier)
    ensures Label(t) in LevelOrder && LevelIndex(Label(t)) == 5 - Rank(t)
  {
    assert LevelOrder[5 - Rank(t)] == Label(t);
  }

  /** The comparator `levels.indexOf(a.level) - levels.indexOf(b.level)` sorts by this key, largest first. */
  function LevelKey(b: Bar): int {
    -LevelIndex(b.name)
  }

  /** `seniorityDistribution`. With no users the tally is empty and so is the chart. */
  function SeniorityDistribution(users: seq<GitHubUser>, totalCount: int, now: int, log10: real -> real): seq<Bar> {
    if |users| == 0 then []
    else SortDesc(Entries(TierTally(users, now, log10), totalCount, |users|, |users|), LevelKey)
  }

  /** The memoised aggregation: the loop, then the two pure pipelines over its records. */
  method Aggregate(users: seq<GitHubUser>, totalCount: int, now: int, log10: real -> real)
    returns (languageStats: seq<Bar>, seniorityDistribution: seq<Bar>)
    ensures languageStats == LanguageStats(users, totalCount)
    ensures seniorityDistribution == SeniorityDistribution(users, totalCount, now, log10)
  {
    var stats, seniority, usersWithLanguages := Tally(users, now, log10);
    if |stats| == 0 {
      languageStats := [];
    } else {
      LangTallyFacts(users);
      languageStats := SortDesc(Entries(stats, totalCount, |users|, usersWithLanguages), BarCount);
    }
    if |users| == 0 {
      seniorityDistribution := [];
    } else {
      seniorityDistribution := SortDesc(Entries(seniority, totalCount, |users|, |users|), LevelKey);
    }
  }

  // ---------------------------------------------------------------- what the charts show

  /** The unsorted bar of the `k`-th entry. */
  lemma {:induction false} EntryAt(t: Counts, totalCount: int, sampled: nat, of: nat, k: nat)
    requires sampled > 0 && of > 0 && k < |t|
    ensures Entries(t, totalCount, sampled, of)[k] == Bar(t[k].0, Extrapolate(t[k].1, totalCount, sampled), Percent(t[k].1, of))
  {
    if k > 0 {
      EntryAt(t[1..], totalCount, sampled, of, k - 1);
    }
  }

  /** A sorted bar is a key of the tally with its own count, extrapolated and as a share. */
  lemma SortedBar(t: Counts, totalCount: int, sampled: nat, of: nat, key: Bar -> int, k: nat)
    requires sampled > 0 && of > 0 && NoDuplicates(Keys(t))
    requires k < |SortDesc(Entries(t, totalCount, sampled, of), key)|
    ensures var b := SortDesc(Entries(t, totalCount, sampled, of), key)[k];
        && b.name in Keys(t)
        && b.count == Extrapolate(CountOf(t, b.name), totalCount, sampled)
        && b.percentage == Percent(CountOf(t, b.name), of)
  {
    var e := Entries(t, totalCount, sampled, of);
    var r := SortDesc(e, key);
    SortDescSameElements(e, key);
    var m :| 0 <= m < |e| && e[m] == r[k];
    assert Keys(t)[m] == t[m].0;
    CountAt(t, m);
    EntryAt(t, totalCount, sampled, of, m);
  }

  /** Every key of the tally has a bar. */
  lemma BarPresent(t: Counts, totalCount: int, sampled: nat, of: nat, key: Bar -> int, x: string)
    requires sampled > 0 && of > 0 && x in Keys(t)
    ensures x in Names(SortDesc(Entries(t, totalCount, sampled, of), key))
  {
    var e := Entries(t, totalCount, sampled, of);
    var r := SortDesc(e, key);
    SortDescSameElements(e, key);
    var m :| 0 <= m < |Keys(t)| && Keys(t)[m] == x;
    assert e[m] in r;
    var k :| 0 <= k < |r| && r[k] == e[m];
    assert Names(r)[k] == x;
  }

  /** The unsorted bars carry the tally's keys, so their names are distinct when the keys are. */
  lemma EntriesDistinct(t: Counts, totalCount: int, sampled: nat, of: nat)
    requires sampled > 0 && of > 0 && NoDuplicates(Keys(t))
    ensures NoDuplicates(Names(Entries(t, totalCount, sampled, of)))
  {
    var e := Entries(t, totalCount, sampled, of);
    assert Names(e) == Keys(t);
  }

  /** Among bars with distinct names, a name picks out one bar. */
  lemma SameNameSameBar(e: seq<Bar>, x: Bar, y: Bar)
    requires NoDuplicates(Names(e)) && x in e && y in e && x.name == y.name
    ensures x == y
  {
    var i :| 0 <= i < |e| && e[i] == x;
    var j :| 0 <= j < |e| && e[j] == y;
    assert Names(e)[i] == Names(e)[j];
  }

  /** Bars with distinct names are themselves distinct. */
  lemma DistinctNamesDistinctBars(e: seq<Bar>)
    requires NoDuplicates(Names(e))
    ensures NoDuplicates(e)
  {
    forall i, j | 0 <= i < j < |e| ensures e[i] != e[j] {
      assert Names(e)[i] != Names(e)[j];
    }
  }

  /** Reordering bars keeps their names distinct. */
  lemma PermutedNamesDistinct(e: seq<Bar>, r: seq<Bar>)
    requires NoDuplicates(Names(e)) && multiset(e) == multiset(r)
    requires forall k :: 0 <= k < |r| ==> r[k] in e
    ensures NoDuplicates(Names(r))
  {
    DistinctNamesDistinctBars(e);
    PermutationKeepsDistinct(e, r);
    forall i, j | 0 <= i < j < |r| ensures Names(r)[i] != Names(r)[j] {
      if r[i].name == r[j].name {
        SameNameSameBar(e, r[i], r[j]);
      }
    }
  }

  /** No name has two bars. */
  lemma BarsDistinct(t: Counts, totalCount: int, sampled: nat, of: nat, key: Bar -> int)
    requires sampled > 0 && of > 0 && NoDuplicates(Keys(t))
    ensures NoDuplicates(Names(SortDesc(Entries(t, totalCount, sampled, of), key)))
  {
    var e := Entries(t, totalCount, sampled, of);
    SortDescSortedPermutation(e, key);
    SortDescSameElements(e, key);
    EntriesDistinct(t, totalCount, sampled, of);
    PermutedNamesDistinct(e, SortDesc(e, key));
  }

  /** The language chart: largest extrapolated count first; one bar per language that some user lists,
      each once, showing its occurrences extrapolated by `totalCount / users.length` and as a share of
      the users with languages. */
  lemma LanguageStatsFacts(users: seq<GitHubUser>, totalCount: int)
    ensures var r := LanguageStats(users, totalCount);
      && NonIncreasing(r, BarCount)
      && (forall k :: 0 <= k < |r| ==>
            && Occurrences(users, r[k].name) > 0
            && |users| > 0 && UsersWithLanguages(users) > 0
            && r[k].count == Extrapolate(Occurrences(users, r[k].name), totalCount, |users|)
            && r[k].percentage == Percent(Occurrences(users, r[k].name), UsersWithLanguages(users)))
      && (forall x :: x in Names(r) <==> Occurrences(users, x) > 0)
      && NoDuplicates(Names(r))
  {
    var t := LangTally(users);
    LangTallyFacts(users);
    if |t| > 0 {
      var e := Entries(t, totalCount, |users|, UsersWithLanguages(users));
      assert LanguageStats(users, totalCount) == SortDesc(e, BarCount);
      SortDescSortedPermutation(e, BarCount);
      forall k | 0 <= k < |LanguageStats(users, totalCount)| {
        SortedBar(t, totalCount, |users|, UsersWithLanguages(users), BarCount, k);
      }
      forall x | Occurrences(users, x) > 0 {
        BarPresent(t, totalCount, |users|, UsersWithLanguages(users), BarCount, x);
      }
      BarsDistinct(t, totalCount, |users|, UsersWithLanguages(users), BarCount);
    }
  }

  /** Only tier labels are ever counted. */
  lemma {:induction false} CountedLevelsAreLabels(users: seq<GitHubUser>, x: string, now: int, log10: real -> real)
    requires UsersAtLevel(users, x, now, log10) > 0
    ensures x in LevelOrder
  {
    if LevelOf(users[|users| - 1], now, log10) == x {
      LevelIndexOfTier(TierOfUser(users[|users| - 1], now, log10));
    } else {
      CountedLevelsAreLabels(users[..|users| - 1], x, now, log10);
    }
  }

  /** Two distinct tier labels sit at different positions of the panel's order. */
  lemma LevelPair(a: string, b: string)
    requires 0 <= LevelIndex(a) && 0 <= LevelIndex(b) && a != b
    ensures LevelIndex(a) != LevelIndex(b)
  {
    assert LevelOrder[LevelIndex(a)] == a && LevelOrder[LevelIndex(b)] == b;
  }

  /** Each tier bar is a counted tier with its users extrapolated and as a share of all users. */
  lemma SeniorityBars(users: seq<GitHubUser>, totalCount: int, now: int, log10: real -> real)
    requires |users| > 0
    ensures var r := SeniorityDistribution(users, totalCount, now, log10);
      forall k :: 0 <= k < |r| ==>
        && r[k].name in LevelOrder
        && UsersAtLevel(users, r[k].name, now, log10) > 0
        && r[k].count == Extrapolate(UsersAtLevel(users, r[k].name, now, log10), totalCount, |users|)
        && r[k].percentage == Percent(UsersAtLevel(users, r[k].name, now, log10), |users|)
  {
    var t := TierTally(users, now, log10);
    TierTallyFacts(users, now, log10);
    var r := SortDesc(Entries(t, totalCount, |users|, |users|), LevelKey);
    forall k | 0 <= k < |r|
      ensures r[k].name in LevelOrder && UsersAtLevel(users, r[k].name, now, log10) > 0
      ensures r[k].count == Extrapolate(UsersAtLevel(users, r[k].name, now, log10), totalCount, |users|)
      ensures r[k].percentage == Percent(UsersAtLevel(users, r[k].name, now, log10), |users|)
    {
      SortedBar(t, totalCount, |users|, |users|, LevelKey, k);
      CountedLevelsAreLabels(users, r[k].name, now, log10);
    }
  }

  /** Distinct tier labels in a chart have distinct positions in the panel's order. */
  lemma LevelsApart(r: seq<Bar>)
    requires forall i, j :: 0 <= i < j < |r| ==> r[i].name != r[j].name
    requires forall k :: 0 <= k < |r| ==> 0 <= LevelIndex(r[k].name)
    ensures forall i, j :: 0 <= i < j < |r| ==> LevelIndex(r[i].name) != LevelIndex(r[j].name)
  {
    forall i, j | 0 <= i < j < |r| ensures LevelIndex(r[i].name) != LevelIndex(r[j].name) {
      LevelPair(r[i].name, r[j].name);
    }
  }

  /** Distinct names, stated position by position. */
  lemma {:induction false} NamesApart(r: seq<Bar>)
    requires NoDuplicates(Names(r))
    ensures forall i, j :: 0 <= i < j < |r| ==> r[i].name != r[j].name
  {
    forall i, j | 0 <= i < j < |r| ensures r[i].name != r[j].name {
      assert Names(r)[i] != Names(r)[j];
    }
  }

  /** Sorted by the key, distinct tier labels come out strictly in the panel's order. */
  lemma StrictlyInLevelOrder(r: seq<Bar>)
    requires NonIncreasing(r, LevelKey)
    requires forall i, j :: 0 <= i < j < |r| ==> r[i].name != r[j].name
    requires forall k :: 0 <= k < |r| ==> 0 <= LevelIndex(r[k].name)
    ensures forall i, j :: 0 <= i < j < |r| ==> LevelIndex(r[i].name) < LevelIndex(r[j].name)
  {
    LevelsApart(r);
    forall i, j | 0 <= i < j < |r| ensures LevelIndex(r[i].name) < LevelIndex(r[j].name) {
      assert LevelKey(r[i]) >= LevelKey(r[j]);
    }
  }

  /** The tier chart: tiers in the order Principal, Staff, Senior, Mid-Level, Junior, Entry; exactly the
      tiers some user is in; each with its number of users extrapolated and as a share of all users. */
  lemma SeniorityDistributionFacts(users: seq<GitHubUser>, totalCount: int, now: int, log10: real -> real)
    ensures var r := SeniorityDistribution(users, totalCount, now, log10);
      && (forall i, j :: 0 <= i < j < |r| ==> 0 <= LevelIndex(r[i].name) < LevelIndex(r[j].name))
      && (forall k :: 0 <= k < |r| ==>
            && r[k].name in LevelOrder
            && UsersAtLevel(users, r[k].name, now, log10) > 0
            && r[k].count == Extrapolate(UsersAtLevel(users, r[k].name, now, log10), totalCount, |users|)
            && r[k].percentage == Percent(UsersAtLevel(users, r[k].name, now, log10), |users|))
      && (forall x :: x in Names(r) <==> UsersAtLevel(users, x, now, log10) > 0)
  {
    var t := TierTally(users, now, log10);
    TierTallyFacts(users, now, log10);
    if |users| > 0 {
      var e := Entries(t, totalCount, |users|, |users|);
      var r := SortDesc(e, LevelKey);
      SortDescSortedPermutation(e, LevelKey);
      SeniorityBars(users, totalCount, now, log10);
      forall x | UsersAtLevel(users, x, now, log10) > 0 ensures x in Names(r) {
        BarPresent(t, totalCount, |users|, |users|, LevelKey, x);
      }
      BarsDistinct(t, totalCount, |users|, |users|, LevelKey);
      NamesApart(r);
      StrictlyInLevelOrder(r);
    }
  }

  /** With the whole result set sampled, the counts are the plain tallies. */
  lemma ExtrapolateWholeSample(count: int, sampled: nat)
    requires sampled > 0
    ensures Extrapolate(count, sampled, sampled) == count
  {
    assert sampled as real / sampled as real == 1.0;
  }

  /** 4 of 10 sampled users, out of 500 results, stand for 200. */
  lemma ExtrapolateFourOfTen()
    ensures Extrapolate(4, 500, 10) == 200
  {
    assert 500 as real / 10 as real == 50.0;
  }

  // ---------------------------------------------------------------- what is shown and the clicks

  /** `showAllLanguages ? languageStats : languageStats.slice(0, 10)`. */
  function DisplayLanguages(stats: seq<Bar>, showAll: bool): (r: seq<Bar>)
    ensures r <= stats
    ensures |r| == if showAll || |stats| <= 10 then |stats| else 10
  {
    if showAll || |stats| <= 10 then stats else stats[..10]
  }

  /** `languageStats.length > 10`: the "more languages" button is offered. */
  predicate OffersMore(stats: seq<Bar>) {
    |stats| > 10
  }

  /** Without the button nothing is hidden; with it, hiding keeps the ten largest. */
  lemma DisplayLanguagesFacts(stats: seq<Bar>, showAll: bool)
    requires NonIncreasing(stats, BarCount)
    ensures !OffersMore(stats) ==> DisplayLanguages(stats, showAll) == stats
    ensures forall i, j :: 0 <= i < |DisplayLanguages(stats, showAll)| <= j < |stats| ==>
              DisplayLanguages(stats, showAll)[i].count >= stats[j].count
  {
  }

  /** `name === active ? '' : name`: the key emitted when a bar is clicked. */
  function ClickToggle(name: string, active: string): (r: string)
    ensures r == "" <==> name == active || name == ""
    ensures r != "" ==> r == name
  {
    if name == active then "" else name
  }

  /** Clicking the same bar twice gets back where it started, for a non-empty name. */
  lemma ClickTwice(name: string, active: string)
    requires name != "" && (active == "" || active == name)
    ensures ClickToggle(name, ClickToggle(name, active)) == active
  {
  }
}
