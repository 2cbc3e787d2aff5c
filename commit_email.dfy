// Mining a contact address from a user's commits: `findEmailInCommits` and `getCommitEmail`
// of src/services/github.ts. Every answer the two functions await is an input value.

module CommitEmail {
  import opened Wrappers
  import opened Text
  import opened Seqs
  import opened GitHub

  const FromPrefix: string := "From: "
  const NoReplyDomain: string := "noreply.github.com"
  const PushEventType: string := "PushEvent"

  // ---------------------------------------------------------------- the `From:` line of a patch

  /** The first index at or after `i` that holds `c`. */
  function IndexFrom(s: string, c: char, i: nat): (r: Option<nat>)
    ensures r.Some? ==> i <= r.value < |s| && s[r.value] == c
    ensures r.Some? ==> forall k :: i <= k < r.value ==> s[k] != c
    ensures r.None? ==> forall k :: i <= k < |s| ==> s[k] != c
    decreases |s| - i
  {
    if i >= |s| then None else if s[i] == c then Some(i) else IndexFrom(s, c, i + 1)
  }

  /** `From: [^<]*<([^>]+)>` matches at `p` with its `<` at `lt` and its closing `>` at `gt`. */
  predicate RegexMatch(s: string, p: nat, lt: nat, gt: nat) {
    && p + |FromPrefix| <= lt < gt < |s|
    && OccursAt(s, FromPrefix, p)
    && (forall k :: p + |FromPrefix| <= k < lt ==> s[k] != '<')
    && s[lt] == '<'
    && lt + 1 < gt
    && (forall k :: lt + 1 <= k < gt ==> s[k] != '>')
    && s[gt] == '>'
  }

  /** The capture of a match that starts at `p`. `[^<]*` cannot pass a `<`, so the `<` is the first
      one after `From: `; `[^>]+` runs to the first `>` after it and must not be empty. */
  function EmailMatchAt(s: string, p: nat): Option<string> {
    if p + |FromPrefix| <= |s| && OccursAt(s, FromPrefix, p) then
      match IndexFrom(s, '<', p + |FromPrefix|)
      case None => None
      case Some(lt) =>
        match IndexFrom(s, '>', lt + 1)
        case None => None
        case Some(gt) => if gt > lt + 1 then Some(s[lt + 1..gt]) else None
    else None
  }

  /** `EmailMatchAt` finds exactly the captures of the regular expression at `p`. */
  lemma EmailMatchAtIsRegexMatch(s: string, p: nat, e: string)
    ensures EmailMatchAt(s, p) == Some(e) <==> exists lt: nat, gt: nat :: RegexMatch(s, p, lt, gt) && e == s[lt + 1..gt]
  {
    if exists lt: nat, gt: nat :: RegexMatch(s, p, lt, gt) && e == s[lt + 1..gt] {
      var lt: nat, gt: nat :| RegexMatch(s, p, lt, gt) && e == s[lt + 1..gt];
      var l := IndexFrom(s, '<', p + |FromPrefix|);
      assert l.Some? && !(l.value < lt) && !(l.value > lt);
      var g := IndexFrom(s, '>', lt + 1);
      assert g.Some? && !(g.value < gt) && !(g.value > gt);
    }
    if EmailMatchAt(s, p) == Some(e) {
      var lt := IndexFrom(s, '<', p + |FromPrefix|).value;
      var gt := IndexFrom(s, '>', lt + 1).value;
      assert RegexMatch(s, p, lt, gt);
    }
  }

  /** `patchText.match(...)[1]`: the capture of the leftmost match at or after `p`. */
  function PatchEmail(s: string, p: nat): Option<string>
    decreases |s| - p
  {
    if p + |FromPrefix| > |s| then None
    else match EmailMatchAt(s, p)
      case Some(e) => Some(e)
      case None => PatchEmail(s, p + 1)
  }

  /** A capture found is the one of a match before which no match starts. */
  lemma {:induction false} PatchEmailLeftmost(s: string, p: nat)
    requires PatchEmail(s, p).Some?
    ensures exists m :: p <= m && EmailMatchAt(s, m) == PatchEmail(s, p)
                      && forall k :: p <= k < m ==> EmailMatchAt(s, k).None?
    decreases |s| - p
  {
    if EmailMatchAt(s, p).None? {
      PatchEmailLeftmost(s, p + 1);
      var m :| p + 1 <= m && EmailMatchAt(s, m) == PatchEmail(s, p + 1)
               && forall k :: p + 1 <= k < m ==> EmailMatchAt(s, k).None?;
      assert forall k :: p <= k < m ==> EmailMatchAt(s, k).None?;
    }
  }

  /** When a match exists at or after `p`, a capture is found. */
  lemma {:induction false} PatchEmailComplete(s: string, p: nat, m: nat)
    requires p <= m && EmailMatchAt(s, m).Some?
    ensures PatchEmail(s, p).Some?
    decreases m - p
  {
    if EmailMatchAt(s, p).None? {
      PatchEmailComplete(s, p + 1, m);
    }
  }

  /** A capture is never empty and never holds a `>`. */
  lemma CaptureShape(s: string, p: nat)
    requires EmailMatchAt(s, p).Some?
    ensures var e := EmailMatchAt(s, p).value; e != "" && '>' !in e
  {
    var lt := IndexFrom(s, '<', p + |FromPrefix|).value;
    var gt := IndexFrom(s, '>', lt + 1).value;
    var e := s[lt + 1..gt];
    assert forall k :: 0 <= k < |e| ==> e[k] == s[lt + 1 + k];
  }

  /** The leftmost capture is never empty and never holds a `>` either. */
  lemma PatchEmailShape(s: string)
    requires PatchEmail(s, 0).Some?
    ensures PatchEmail(s, 0).value != "" && '>' !in PatchEmail(s, 0).value
  {
    PatchEmailLeftmost(s, 0);
    var m :| 0 <= m && EmailMatchAt(s, m) == PatchEmail(s, 0) && forall k :: 0 <= k < m ==> EmailMatchAt(s, k).None?;
    CaptureShape(s, m);
  }

  /** A patch that starts with `From: name <e>`, where `name` has no `<` and `e` no `>`, yields `e`. */
  lemma FromLineEmail(s: string, name: string, e: string, rest: string)
    requires '<' !in name && '>' !in e && e != ""
    requires s == FromPrefix + (name + ("<" + (e + (">" + rest))))
    ensures PatchEmail(s, 0) == Some(e)
  {
    var lt := |FromPrefix| + |name|;
    var gt := lt + 1 + |e|;
    assert s[..|FromPrefix|] == FromPrefix;
    assert forall k :: |FromPrefix| <= k < lt ==> s[k] == name[k - |FromPrefix|];
    assert s[lt] == '<';
    assert forall k :: lt + 1 <= k < gt ==> s[k] == e[k - lt - 1];
    assert s[gt] == '>';
    assert s[lt + 1..gt] == e;
    assert RegexMatch(s, 0, lt, gt);
    EmailMatchAtIsRegexMatch(s, 0, e);
  }

  // ---------------------------------------------------------------- findEmailInCommits

  /** An address `getCommitEmail` accepts: truthy and not a GitHub no-reply address. */
  predicate Usable(e: string) {
    e != "" && !Contains(e, NoReplyDomain)
  }

  /** The address taken from one patch text: the first capture, when it is usable. */
  function PatchAddress(text: string): (r: Option<string>)
    ensures r.Some? ==> Usable(r.value) && r == PatchEmail(text, 0)
  {
    match PatchEmail(text, 0)
    case Some(e) =>
      PatchEmailShape(text);
      if !Contains(e, NoReplyDomain) then Some(e) else None
    case None => None
  }

  /** The loop over a repository's commits: a rejected `.patch` request throws, which the function
      catches, so it gives `null`; a non-2xx patch is skipped; the first usable address is returned. */
  function EmailInPatches(patches: seq<Response<string>>): (r: Option<string>)
    ensures r.Some? ==> Usable(r.value)
  {
    if |patches| == 0 then None
    else match patches[0]
      case Rejected => None
      case NotOk => EmailInPatches(patches[1..])
      case Ok(text) =>
        match PatchAddress(text)
        case Some(e) => Some(e)
        case None => EmailInPatches(patches[1..])
  }

  /** `findEmailInCommits` once its requests have settled: a rejected or non-2xx commit listing gives
      `null`; otherwise the listing holds the answer to each commit's `.patch` request, in order. */
  function EmailInCommits(commits: Response<seq<Response<string>>>): Option<string> {
    match commits
    case Ok(patches) => EmailInPatches(patches)
    case _ => None
  }

  /** The address comes from the first patch that yields one, with no rejection before it. */
  lemma {:induction false} EmailInPatchesFirst(patches: seq<Response<string>>)
    requires EmailInPatches(patches).Some?
    ensures exists i :: (&& 0 <= i < |patches| && patches[i].Ok? && PatchAddress(patches[i].body) == EmailInPatches(patches)
                         && forall k :: 0 <= k < i ==> patches[k].NotOk? || (patches[k].Ok? && PatchAddress(patches[k].body).None?))
  {
    if !(patches[0].Ok? && PatchAddress(patches[0].body).Some?) {
      EmailInPatchesFirst(patches[1..]);
      var i :| 0 <= i < |patches[1..]| && patches[1..][i].Ok? && PatchAddress(patches[1..][i].body) == EmailInPatches(patches[1..])
               && forall k :: 0 <= k < i ==> patches[1..][k].NotOk? || (patches[1..][k].Ok? && PatchAddress(patches[1..][k].body).None?);
      assert patches[1..][i] == patches[i + 1];
      forall k | 0 <= k < i + 1
        ensures patches[k].NotOk? || (patches[k].Ok? && PatchAddress(patches[k].body).None?)
      {
        if k > 0 {
          assert patches[1..][k - 1] == patches[k];
        }
      }
    }
  }

  /** `findEmailInCommits`, request by request. */
  method FindEmailInCommits(commits: Response<seq<Response<string>>>) returns (email: Option<string>)
    ensures email == EmailInCommits(commits)
  {
    if !commits.Ok? {
      return None;
    }
    var patches := commits.body;
    var i := 0;
    while i < |patches|
      invariant 0 <= i <= |patches|
      invariant EmailInPatches(patches) == EmailInPatches(patches[i..])
    {
      assert patches[i..][0] == patches[i] && patches[i..][1..] == patches[i + 1..];
      match patches[i] {
        case Rejected =>
          return None;
        case NotOk =>
        case Ok(text) =>
          var found := PatchAddress(text);
          if found.Some? {
            return found;
          }
      }
      i := i + 1;
    }
    return None;
  }

  // ---------------------------------------------------------------- getCommitEmail

  /** One entry of the repository listing, with the commit listing of that repository. */
  datatype Repo = Repo(name: string, fork: bool, pushedAt: int, commits: Response<seq<Response<string>>>)

  /** One commit of a push event's payload. */
  datatype PushCommit = PushCommit(authorEmail: Option<string>)

  /** One public event; `commits` is `None` when the payload has no commit list. */
  datatype Event = Event(eventType: string, commits: Option<seq<PushCommit>>)

  predicate IsOwn(r: Repo) {
    !r.fork
  }

  function PushedAt(r: Repo): int {
    r.pushedAt
  }

  /** `repos.filter(repo => !repo.fork).sort(by pushed_at, newest first)`. */
  function OwnRepos(repos: seq<Repo>): (r: seq<Repo>)
    ensures forall k :: 0 <= k < |r| ==> !r[k].fork
    ensures forall k :: 0 <= k < |repos| && !repos[k].fork ==> repos[k] in r
    ensures NonIncreasing(r, PushedAt)
  {
    var own := Filter(repos, IsOwn);
    SortDescSortedPermutation(own, PushedAt);
    SortDescSameElements(own, PushedAt);
    SortDesc(own, PushedAt)
  }

  /** The loop over the own repositories: the first truthy result of `findEmailInCommits`. */
  function EmailInRepos(repos: seq<Repo>): (r: Option<string>)
    ensures r.Some? ==> Usable(r.value)
  {
    if |repos| == 0 then None
    else match EmailInCommits(repos[0].commits)
      case Some(e) => if e != "" then Some(e) else EmailInRepos(repos[1..])
      case None => EmailInRepos(repos[1..])
  }

  /** The inner loop over a push event's commits. */
  function EmailInPushCommits(commits: seq<PushCommit>): (r: Option<string>)
    ensures r.Some? ==> Usable(r.value)
  {
    if |commits| == 0 then None
    else match commits[0].authorEmail
      case Some(e) => if Usable(e) then Some(e) else EmailInPushCommits(commits[1..])
      case None => EmailInPushCommits(commits[1..])
  }

  /** The loop over the public events: commits of push events only, in order. */
  function EmailInEvents(events: seq<Event>): (r: Option<string>)
    ensures r.Some? ==> Usable(r.value)
  {
    if |events| == 0 then None
    else
      var first := if events[0].eventType == PushEventType && events[0].commits.Some?
                   then EmailInPushCommits(events[0].commits.value) else None;
      if first.Some? then first else EmailInEvents(events[1..])
  }

  /** `getCommitEmail` once its requests have settled. A rejected or non-2xx repository listing
      throws, which the function catches, so it gives `null`; the events are consulted only when no
      repository yields an address, and a rejected or non-2xx event listing gives `null` too. */
  function CommitEmail(repos: Response<seq<Repo>>, events: Response<seq<Event>>): Option<string> {
    match repos
    case Ok(listing) =>
      (match EmailInRepos(OwnRepos(listing))
       case Some(e) => Some(e)
       case None =>
         match events
         case Ok(evs) => EmailInEvents(evs)
         case _ => None)
    case _ => None
  }

  /** The loop over the own repositories. */
  method FindEmailInRepos(own: seq<Repo>) returns (email: Option<string>)
    ensures email == EmailInRepos(own)
  {
    var i := 0;
    while i < |own|
      invariant 0 <= i <= |own|
      invariant EmailInRepos(own) == EmailInRepos(own[i..])
    {
      assert own[i..][0] == own[i] && own[i..][1..] == own[i + 1..];
      var found := FindEmailInCommits(own[i].commits);
      if found.Some? && found.value != "" {
        return found;
      }
      i := i + 1;
    }
    return None;
  }

  /** The inner loop over one push event's commits. */
  method FindEmailInPushCommits(commits: seq<PushCommit>) returns (email: Option<string>)
    ensures email == EmailInPushCommits(commits)
  {
    var c := 0;
    while c < |commits|
      invariant 0 <= c <= |commits|
      invariant EmailInPushCommits(commits) == EmailInPushCommits(commits[c..])
    {
      assert commits[c..][0] == commits[c] && commits[c..][1..] == commits[c + 1..];
      if commits[c].authorEmail.Some? && Usable(commits[c].authorEmail.value) {
        return commits[c].authorEmail;
      }
      c := c + 1;
    }
    return None;
  }

  /** The outer loop over the public events. */
  method FindEmailInEvents(evs: seq<Event>) returns (email: Option<string>)
    ensures email == EmailInEvents(evs)
  {
    var j := 0;
    while j < |evs|
      invariant 0 <= j <= |evs|
      invariant EmailInEvents(evs) == EmailInEvents(evs[j..])
    {
      assert evs[j..][0] == evs[j] && evs[j..][1..] == evs[j + 1..];
      if evs[j].eventType == PushEventType && evs[j].commits.Some? {
        var found := FindEmailInPushCommits(evs[j].commits.value);
        if found.Some? {
          return found;
        }
      }
      j := j + 1;
    }
    return None;
  }

  /** `getCommitEmail`, request by request. */
  method GetCommitEmail(repos: Response<seq<Repo>>, events: Response<seq<Event>>) returns (email: Option<string>)
    ensures email == CommitEmail(repos, events)
  {
    if !repos.Ok? {
      return None;
    }
    email := FindEmailInRepos(OwnRepos(repos.body));
    if email.Some? {
      return email;
    }
    if !events.Ok? {
      return None;
    }
    email := FindEmailInEvents(events.body);
  }

  // ---------------------------------------------------------------- properties

  /** Whatever address is found is non-empty and not a no-reply address. */
  lemma CommitEmailUsable(repos: Response<seq<Repo>>, events: Response<seq<Event>>)
    requires CommitEmail(repos, events).Some?
    ensures Usable(CommitEmail(repos, events).value)
  {
  }

  /** A failed repository listing gives no address, whatever the events say. */
  lemma FailedListingGivesNothing(repos: Response<seq<Repo>>, events: Response<seq<Event>>)
    requires !repos.Ok?
    ensures CommitEmail(repos, events) == None
  {
  }

  /** Forked repositories are never consulted. */
  lemma ForksIgnored(listing: seq<Repo>, events: Response<seq<Event>>)
    ensures CommitEmail(Ok(listing), events) == CommitEmail(Ok(Filter(listing, IsOwn)), events)
  {
    var own := Filter(listing, IsOwn);
    FilterKeepsAll(own, IsOwn);
  }

  /** Once a repository yields an address, the events do not matter. */
  lemma EventsOnlyAsFallback(listing: seq<Repo>, events1: Response<seq<Event>>, events2: Response<seq<Event>>)
    requires EmailInRepos(OwnRepos(listing)).Some?
    ensures CommitEmail(Ok(listing), events1) == CommitEmail(Ok(listing), events2)
  {
  }

  /** The most recently pushed own repository wins when it yields an address. */
  lemma MostRecentRepoFirst(listing: seq<Repo>, events: Response<seq<Event>>, e: string)
    requires |OwnRepos(listing)| > 0 && EmailInCommits(OwnRepos(listing)[0].commits) == Some(e)
    ensures CommitEmail(Ok(listing), events) == Some(e)
  {
  }

  /** A push commit's usable author address is found when nothing before it yields one. */
  lemma {:induction false} FirstUsableAuthor(commits: seq<PushCommit>, i: nat)
    requires i < |commits| && commits[i].authorEmail.Some? && Usable(commits[i].authorEmail.value)
    requires forall k :: 0 <= k < i ==> commits[k].authorEmail.None? || !Usable(commits[k].authorEmail.value)
    ensures EmailInPushCommits(commits) == commits[i].authorEmail
  {
    if i > 0 {
      assert forall k :: 0 <= k < i - 1 ==> commits[1..][k] == commits[k + 1];
      FirstUsableAuthor(commits[1..], i - 1);
    }
  }
}
