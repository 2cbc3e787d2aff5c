/** The seniority heuristic (src/utils/seniorityScore.ts): a capped sum of per-signal
    contributions, rounded and clamped above at 100, then mapped to one of six tiers.
    `Math.log10` is the parameter `log10`; the clock is the parameter `now` (milliseconds). */
module Seniority {
  import opened Wrappers
  import opened Users

  const MsPerDay: int := 1000 * 60 * 60 * 24
  const MsPerYear: int := 1000 * 60 * 60 * 24 * 365

  /** The six tiers, lowest first. */
  datatype Tier = Entry | Junior | MidLevel | Senior | Staff | Principal

  /** The `level` string the source stores for a tier. */
  function Label(t: Tier): string {
    match t
    case Entry => "Entry"
    case Junior => "Junior"
    case MidLevel => "Mid-Level"
    case Senior => "Senior"
    case Staff => "Staff"
    case Principal => "Principal"
  }

  /** The display colour class that accompanies each tier. */
  function Color(t: Tier): string {
    match t
    case Entry => "text-gray-600 dark:text-gray-400"
    case Junior => "text-yellow-600 dark:text-yellow-400"
    case MidLevel => "text-green-600 dark:text-green-400"
    case Senior => "text-blue-600 dark:text-blue-400"
    case Staff => "text-indigo-600 dark:text-indigo-400"
    case Principal => "text-purple-600 dark:text-purple-400"
  }

  /** Position of a tier from the bottom: Entry is 0, Principal is 5. */
  function Rank(t: Tier): nat {
    match t
    case Entry => 0
    case Junior => 1
    case MidLevel => 2
    case Senior => 3
    case Staff => 4
    case Principal => 5
  }

  /** Distinct tiers have distinct labels, so comparing labels is comparing tiers. */
  lemma LabelInjective(t1: Tier, t2: Tier)
    ensures Label(t1) == Label(t2) <==> t1 == t2
  {
  }

  datatype SeniorityMetrics = SeniorityMetrics(score: int, level: Tier, color: string)

  function MinR(a: real, b: real): real { if a <= b then a else b }
  function MaxR(a: real, b: real): real { if a >= b then a else b }

  /** `Math.round`: the nearest integer, halves rounded up. */
  function Round(x: real): (n: int)
    ensures x - 0.5 < n as real <= x + 0.5
  {
    (x + 0.5).Floor
  }

  /** What the scorer needs of `Math.log10` for its lower bounds: 0 at 1 and non-decreasing from 1 on. */
  ghost predicate IsLogLike(log10: real -> real) {
    && log10(1.0) == 0.0
    && forall x, y :: 1.0 <= x <= y ==> log10(x) <= log10(y)
  }

  function AccountAgeYears(u: GitHubUser, now: int): real {
    (now - u.createdAt) as real / MsPerYear as real
  }

  function DaysSinceUpdate(u: GitHubUser, now: int): real {
    (now - u.updatedAt) as real / MsPerDay as real
  }

  /** Account age, 5 points a year, at most 25. */
  function AgeTerm(u: GitHubUser, now: int): (t: real)
    ensures t <= 25.0
    ensures u.createdAt <= now ==> t >= 0.0
  {
    MinR(AccountAgeYears(u, now) * 5.0, 25.0)
  }

  function FollowersTerm(u: GitHubUser, log10: real -> real): (t: real)
    ensures t <= 15.0
  {
    MinR(log10((u.followers + 1) as real) * 5.0, 15.0)
  }

  function ReposTerm(u: GitHubUser, log10: real -> real): (t: real)
    ensures t <= 15.0
  {
    MinR(log10((u.publicRepos + 1) as real) * 5.0, 15.0)
  }

  /** Recent activity: 15 points, minus 3 for every 30 days since the last update, never negative. */
  function RecencyTerm(u: GitHubUser, now: int): (t: real)
    ensures t >= 0.0
    ensures u.updatedAt <= now ==> t <= 15.0
    ensures u.updatedAt == now ==> t == 15.0
  {
    MaxR(0.0, 15.0 - (DaysSinceUpdate(u, now) / 30.0) * 3.0)
  }

  /** Stars given; a missing `starred_repos` counts as 0. */
  function StarsTerm(u: GitHubUser, log10: real -> real): (t: real)
    ensures t <= 10.0
  {
    MinR(log10((OrZero(u.starredRepos) + 1) as real) * 3.0, 10.0)
  }

  /** Language diversity: 2 points a language, at most 10; missing languages count as none. */
  function LanguagesTerm(u: GitHubUser): (t: real)
    ensures 0.0 <= t <= 10.0
    ensures LanguageCount(u) == 0 ==> t == 0.0
  {
    MinR((LanguageCount(u) as real / 5.0) * 10.0, 10.0)
  }

  /** `if (user.commits)`: present and non-zero. */
  predicate HasCommits(u: GitHubUser) {
    u.commits.Some? && u.commits.value != 0
  }

  function CommitsTerm(u: GitHubUser, log10: real -> real): (t: real)
    ensures t <= 5.0
  {
    MinR(log10((OrZero(u.commits) + 1) as real) * 2.0, 5.0)
  }

  /** Line churn; missing `added` or `deleted` count as 0. */
  function ChurnTerm(u: GitHubUser, log10: real -> real): (t: real)
    ensures t <= 5.0
  {
    MinR(log10((OrZero(u.added) + OrZero(u.deleted) + 1) as real) * 2.0, 5.0)
  }

  /** The contribution terms, added only when the user has a truthy `commits`. */
  function ContributionTerms(u: GitHubUser, log10: real -> real): (t: real)
    ensures t <= 10.0
    ensures !HasCommits(u) ==> t == 0.0
  {
    if HasCommits(u) then CommitsTerm(u, log10) + ChurnTerm(u, log10) else 0.0
  }

  /** The unrounded sum of all contributions. */
  function RawScore(u: GitHubUser, now: int, log10: real -> real): real {
    AgeTerm(u, now) + FollowersTerm(u, log10) + ReposTerm(u, log10) + RecencyTerm(u, now)
    + StarsTerm(u, log10) + LanguagesTerm(u) + ContributionTerms(u, log10)
  }

  /** `Math.min(Math.round(score), 100)`: an integer never above 100. There is no lower clamp. */
  function Score(u: GitHubUser, now: int, log10: real -> real): (s: int)
    ensures s <= 100
  {
    var r := Round(RawScore(u, now, log10));
    if r <= 100 then r else 100
  }

  /** The tier of a score: at least 85 Principal, 70 Staff, 55 Senior, 40 Mid-Level, 25 Junior, otherwise Entry. */
  function TierOf(score: int): Tier {
    if score >= 85 then Principal
    else if score >= 70 then Staff
    else if score >= 55 then Senior
    else if score >= 40 then MidLevel
    else if score >= 25 then Junior
    else Entry
  }

  /** The `{score, level, color}` record the source returns. */
  function Metrics(u: GitHubUser, now: int, log10: real -> real): (m: SeniorityMetrics)
    ensures m.score == Score(u, now, log10)
    ensures m.score <= 100 && m.level == TierOf(m.score) && m.color == Color(m.level)
  {
    var s := Score(u, now, log10);
    SeniorityMetrics(s, TierOf(s), Color(TierOf(s)))
  }

  /** The tier of a user. */
  function TierOfUser(u: GitHubUser, now: int, log10: real -> real): Tier {
    TierOf(Score(u, now, log10))
  }

  /** `calculateSeniorityScore`, accumulating `score` term by term as the source does. */
  method CalculateSeniorityScore(user: GitHubUser, now: int, log10: real -> real)
    returns (m: SeniorityMetrics)
    ensures m == Metrics(user, now, log10)
    ensures m.score <= 100 && m.level == TierOf(m.score)
  {
    var score: real := 0.0;
    score := score + MinR(AccountAgeYears(user, now) * 5.0, 25.0);
    score := score + MinR(log10((user.followers + 1) as real) * 5.0, 15.0);
    score := score + MinR(log10((user.publicRepos + 1) as real) * 5.0, 15.0);
    score := score + MaxR(0.0, 15.0 - (DaysSinceUpdate(user, now) / 30.0) * 3.0);
    score := score + MinR(log10((OrZero(user.starredRepos) + 1) as real) * 3.0, 10.0);
    score := score + MinR((LanguageCount(user) as real / 5.0) * 10.0, 10.0);
    ghost var base := score;
    assert base == RawScore(user, now, log10) - ContributionTerms(user, log10);
    if user.commits.Some? && user.commits.value != 0 {
      score := score + MinR(log10((user.commits.value + 1) as real) * 2.0, 5.0);
      score := score + MinR(log10((OrZero(user.added) + OrZero(user.deleted) + 1) as real) * 2.0, 5.0);
      assert score == base + CommitsTerm(user, log10) + ChurnTerm(user, log10);
    }
    assert score == RawScore(user, now, log10);
    var rounded := Round(score);
    var s := if rounded <= 100 then rounded else 100;
    var level: Tier;
    var color: string;
    if s >= 85 {
      level, color := Principal, "text-purple-600 dark:text-purple-400";
    } else if s >= 70 {
      level, color := Staff, "text-indigo-600 dark:text-indigo-400";
    } else if s >= 55 {
      level, color := Senior, "text-blue-600 dark:text-blue-400";
    } else if s >= 40 {
      level, color := MidLevel, "text-green-600 dark:text-green-400";
    } else if s >= 25 {
      level, color := Junior, "text-yellow-600 dark:text-yellow-400";
    } else {
      level, color := Entry, "text-gray-600 dark:text-gray-400";
    }
    m := SeniorityMetrics(s, level, color);
  }

  /** The six bands partition the integers: each score lies in exactly the band of its tier. */
  lemma TierBands(s: int)
    ensures TierOf(s) == Principal <==> 85 <= s
    ensures TierOf(s) == Staff <==> 70 <= s < 85
    ensures TierOf(s) == Senior <==> 55 <= s < 70
    ensures TierOf(s) == MidLevel <==> 40 <= s < 55
    ensures TierOf(s) == Junior <==> 25 <= s < 40
    ensures TierOf(s) == Entry <==> s < 25
  {
  }

  /** A higher score never gives a lower tier. */
  lemma TierMonotone(s1: int, s2: int)
    requires s1 <= s2
    ensures Rank(TierOf(s1)) <= Rank(TierOf(s2))
  {
  }

  lemma LogNonNegative(log10: real -> real, x: real)
    requires IsLogLike(log10) && x >= 1.0
    ensures log10(x) >= 0.0
  {
    assert log10(1.0) <= log10(x);
  }

  /** With creation no later than `now` and non-negative counts, the score is non-negative. */
  lemma ScoreNonNegative(u: GitHubUser, now: int, log10: real -> real)
    requires IsLogLike(log10)
    requires u.createdAt <= now
    requires u.followers >= 0 && u.publicRepos >= 0 && OrZero(u.starredRepos) >= 0
    requires OrZero(u.commits) >= 0 && OrZero(u.added) + OrZero(u.deleted) >= 0
    ensures Score(u, now, log10) >= 0
  {
    LogNonNegative(log10, (u.followers + 1) as real);
    LogNonNegative(log10, (u.publicRepos + 1) as real);
    LogNonNegative(log10, (OrZero(u.starredRepos) + 1) as real);
    LogNonNegative(log10, (OrZero(u.commits) + 1) as real);
    LogNonNegative(log10, (OrZero(u.added) + OrZero(u.deleted) + 1) as real);
    assert RawScore(u, now, log10) >= 0.0;
  }

  /** A brand-new, just-updated account with nothing else scores exactly the recency term, 15: Entry. */
  lemma FreshAccountScore(u: GitHubUser, now: int, log10: real -> real)
    requires log10(1.0) == 0.0
    requires u.createdAt == now && u.updatedAt == now
    requires u.followers == 0 && u.publicRepos == 0 && OrZero(u.starredRepos) == 0
    requires LanguageCount(u) == 0 && !HasCommits(u)
    ensures Score(u, now, log10) == 15
    ensures TierOfUser(u, now, log10) == Entry
  {
    assert RawScore(u, now, log10) == 15.0;
  }

  /** Without a truthy `commits`, `added` and `deleted` do not affect the score. */
  lemma ChurnIgnoredWithoutCommits(u: GitHubUser, now: int, log10: real -> real, a: Option<int>, d: Option<int>)
    requires !HasCommits(u)
    ensures Score(u.(added := a, deleted := d), now, log10) == Score(u, now, log10)
  {
    assert RawScore(u.(added := a, deleted := d), now, log10) == RawScore(u, now, log10);
  }

  /** More followers never lower the score (for a non-decreasing `log10`). */
  lemma {:induction false} ScoreMonotoneInFollowers(u: GitHubUser, now: int, log10: real -> real, f: int)
    requires IsLogLike(log10)
    requires 0 <= u.followers <= f
    ensures Score(u, now, log10) <= Score(u.(followers := f), now, log10)
  {
    var v := u.(followers := f);
    assert log10((u.followers + 1) as real) <= log10((f + 1) as real);
    assert FollowersTerm(u, log10) <= FollowersTerm(v, log10);
    assert AgeTerm(v, now) == AgeTerm(u, now) && RecencyTerm(v, now) == RecencyTerm(u, now);
    assert ReposTerm(v, log10) == ReposTerm(u, log10) && StarsTerm(v, log10) == StarsTerm(u, log10);
    assert LanguagesTerm(v) == LanguagesTerm(u) && ContributionTerms(v, log10) == ContributionTerms(u, log10);
    RoundMonotone(RawScore(u, now, log10), RawScore(v, now, log10));
  }

  /** `Math.round` never decreases. */
  lemma RoundMonotone(x: real, y: real)
    requires x <= y
    ensures Round(x) <= Round(y)
  {
  }

  /** Without future timestamps the uncapped sum can itself never exceed 100. */
  lemma RawScoreAtMostHundred(u: GitHubUser, now: int, log10: real -> real)
    requires u.updatedAt <= now
    ensures RawScore(u, now, log10) <= 100.0
  {
  }
}
