/** The profile record the search builds and passes around (src/types/github.ts). */
module Users {
  import opened Wrappers

  /** One developer profile. `Option` fields are the ones the source types as `T | null` or
      leaves optional. Timestamps (`created_at`, `updated_at`) are milliseconds since the epoch.
      `commits`, `added` and `deleted` are not declared by the source's type but are read by the
      seniority scorer; nothing in the app ever sets them. */
  datatype GitHubUser = GitHubUser(
    id: int,
    avatarUrl: string,
    login: string,
    name: Option<string>,
    location: Option<string>,
    followers: int,
    following: int,
    publicRepos: int,
    bio: Option<string>,
    createdAt: int,
    updatedAt: int,
    htmlUrl: string,
    company: Option<string>,
    blog: Option<string>,
    email: Option<string>,
    publicGists: int,
    recentCommits: Option<int>,
    recentPrs: Option<int>,
    topLanguages: Option<seq<string>>,
    starredRepos: Option<int>,
    readme: Option<string>,
    commits: Option<int>,
    added: Option<int>,
    deleted: Option<int>)

  /** `x || 0` on an optional number: absent (and 0 itself) reads as 0. */
  function OrZero(x: Option<int>): (n: int)
    ensures x.None? ==> n == 0
    ensures x.Some? ==> n == x.value
  {
    if x.Some? then x.value else 0
  }

  /** `user.top_languages?.length || 0`. */
  function LanguageCount(u: GitHubUser): (n: nat)
    ensures u.topLanguages.None? ==> n == 0
    ensures u.topLanguages.Some? ==> n == |u.topLanguages.value|
  {
    if u.topLanguages.Some? then |u.topLanguages.value| else 0
  }
}
