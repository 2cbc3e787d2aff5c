/** One result card (src/components/UserCard.tsx): the blog link, the email shown and the
    "find email in commits" lookup with its loading and error flags. */
module UserCard {
  import opened Wrappers
  import opened Text
  import opened Users
  import opened Seniority
  import GitHub
  import CommitEmail

  // ---------------------------------------------------------------- blog link

  const HttpScheme: string := "http://"
  const HttpsScheme: string := "https://"

  /** `blog.startsWith('http') ? blog : 'https://' + blog`, as written: any text starting with the
      four letters `http` is taken to carry a scheme already. */
  function BlogHrefAsWritten(blog: string): (r: string)
    ensures StartsWith(r, "http")
  {
    if StartsWith(blog, "http") then blog else HttpsScheme + blog
  }

  /** A host name that merely starts with `http` keeps no scheme, so the link is relative. */
  lemma HttpNamedHostStaysRelative()
    ensures BlogHrefAsWritten("httpbin.org") == "httpbin.org"
    ensures !StartsWith(BlogHrefAsWritten("httpbin.org"), HttpScheme)
    ensures !StartsWith(BlogHrefAsWritten("httpbin.org"), HttpsScheme)
  {
    var b := "httpbin.org";
    assert b[..4] == "http";
    assert b[..7] != HttpScheme by { assert b[4] != ':'; }
    assert b[..8] != HttpsScheme by { assert b[4] != 's'; }
  }

  /** Whether `s` starts with `http://` or `https://`, which `/^https?:\/\//` matches. */
  predicate HasScheme(s: string) {
    StartsWith(s, HttpScheme) || StartsWith(s, HttpsScheme)
  }

  /** The link target the card evidently intends: the address as given when it has a scheme,
      otherwise `https://` in front. */
  function BlogHref(blog: string): (r: string)
    ensures HasScheme(r)
    ensures HasScheme(blog) ==> r == blog
    ensures !HasScheme(blog) ==> r == HttpsScheme + blog
  {
    if HasScheme(blog) then blog else HttpsScheme + blog
  }

  /** `blog.replace(/^https?:\/\//, '')`: one leading scheme removed. */
  function BlogDisplay(blog: string): (r: string)
    ensures StartsWith(blog, HttpsScheme) ==> r == blog[|HttpsScheme|..]
    ensures !StartsWith(blog, HttpsScheme) && StartsWith(blog, HttpScheme) ==> r == blog[|HttpScheme|..]
    ensures !HasScheme(blog) ==> r == blog
  {
    if StartsWith(blog, HttpsScheme) then blog[|HttpsScheme|..]
    else if StartsWith(blog, HttpScheme) then blog[|HttpScheme|..]
    else blog
  }

  /** The link text names the same site whether read from the blog field or from the link target. */
  lemma DisplayOfHref(blog: string)
    ensures BlogDisplay(BlogHref(blog)) == BlogDisplay(blog)
  {
    if !HasScheme(blog) {
      var h := HttpsScheme + blog;
      assert h[..|HttpsScheme|] == HttpsScheme;
      assert h[|HttpsScheme|..] == blog;
    }
  }

  /** The text shown is the blog field less at most one scheme, so it is one of its suffixes. */
  lemma DisplayIsSuffix(blog: string)
    ensures exists n :: 0 <= n <= 8 && n <= |blog| && BlogDisplay(blog) == blog[n..]
  {
    if StartsWith(blog, HttpsScheme) {
      assert BlogDisplay(blog) == blog[8..];
    } else if StartsWith(blog, HttpScheme) {
      assert BlogDisplay(blog) == blog[7..];
    } else {
      assert BlogDisplay(blog) == blog[0..];
    }
  }

  /** The target as written keeps the text shown: it only ever adds a scheme the display strips. */
  lemma DisplayOfHrefAsWritten(blog: string)
    ensures BlogDisplay(BlogHrefAsWritten(blog)) == BlogDisplay(blog)
  {
    if !StartsWith(blog, "http") {
      var h := HttpsScheme + blog;
      assert h[..|HttpsScheme|] == HttpsScheme;
      assert h[|HttpsScheme|..] == blog;
    }
  }

  /** The blog link as the card draws it: only for a non-empty blog field (`user.blog && …`), with
      the target as written and the text shown. */
  function BlogLink(blog: Option<string>): (r: Option<(string, string)>)
    ensures r.Some? <==> blog.Some? && blog.value != ""
    ensures r.Some? ==> r.value == (BlogHrefAsWritten(blog.value), BlogDisplay(blog.value))
  {
    if blog.Some? && blog.value != "" then Some((BlogHrefAsWritten(blog.value), BlogDisplay(blog.value))) else None
  }

  /** The blog link with the corrected target. */
  function BlogLinkIntended(blog: Option<string>): (r: Option<(string, string)>)
    ensures r.Some? <==> blog.Some? && blog.value != ""
    ensures r.Some? ==> HasScheme(r.value.0) && BlogDisplay(r.value.0) == r.value.1
  {
    if blog.Some? && blog.value != "" then
      DisplayOfHref(blog.value);
      Some((BlogHref(blog.value), BlogDisplay(blog.value)))
    else None
  }

  /** The two links differ only for a blog that starts with `http` but has no scheme. */
  lemma {:induction false} BlogLinksAgree(blog: Option<string>)
    ensures BlogLink(blog) != BlogLinkIntended(blog) <==>
              blog.Some? && StartsWith(blog.value, "http") && !HasScheme(blog.value)
  {
    if blog.Some? && blog.value != "" {
      var b := blog.value;
      if HasScheme(b) {
        assert StartsWith(b, "http") by {
          if StartsWith(b, HttpScheme) { assert b[..4] == HttpScheme[..4]; }
          else { assert b[..4] == HttpsScheme[..4]; }
        }
      } else if StartsWith(b, "http") {
        assert BlogHrefAsWritten(b) != BlogHref(b) by {
          assert |HttpsScheme + b| != |b|;
        }
      }
    }
  }

  // ---------------------------------------------------------------- email

  /** `user.email || commitEmail`: the profile address when non-empty, otherwise the looked-up one. */
  function ShownEmail(userEmail: Option<string>, commitEmail: Option<string>): (r: Option<string>)
    ensures userEmail.Some? && userEmail.value != "" ==> r == userEmail
    ensures !(userEmail.Some? && userEmail.value != "") ==> r == commitEmail
  {
    if userEmail.Some? && userEmail.value != "" then userEmail else commitEmail
  }

  /** What the email slot of the card shows. */
  datatype EmailView =
    | MailLink(address: string)  // a `mailto:` link
    | NoEmailFound               // "No public email found"
    | FindButton(busy: bool)     // "Find email in commits", or "Finding email..." while busy

  /** The slot: a link for a truthy address, else the error notice, else the lookup button. */
  function View(userEmail: Option<string>, commitEmail: Option<string>, emailError: bool, loadingEmail: bool): EmailView {
    var shown := ShownEmail(userEmail, commitEmail);
    if shown.Some? && shown.value != "" then MailLink(shown.value)
    else if emailError then NoEmailFound
    else FindButton(loadingEmail)
  }

  /** An address on the profile always wins; without one, a found address is shown, a failed lookup
      shows the notice, and otherwise the button is offered. */
  lemma ViewFacts(userEmail: Option<string>, commitEmail: Option<string>, emailError: bool, loadingEmail: bool)
    ensures userEmail.Some? && userEmail.value != "" ==>
              View(userEmail, commitEmail, emailError, loadingEmail) == MailLink(userEmail.value)
    ensures userEmail.None? || userEmail.value == "" ==>
              && (commitEmail.Some? && commitEmail.value != "" ==>
                    View(userEmail, commitEmail, emailError, loadingEmail) == MailLink(commitEmail.value))
              && (commitEmail.None? && emailError ==> View(userEmail, commitEmail, emailError, loadingEmail) == NoEmailFound)
              && (commitEmail.None? && !emailError ==>
                    View(userEmail, commitEmail, emailError, loadingEmail) == FindButton(loadingEmail))
  {
  }

  /** `const { score, level, color } = calculateSeniorityScore(user)`: the card shows the shared
      scorer's result, whose tier is the one the page's tier filter compares against. */
  function CardMetrics(u: GitHubUser, now: int, log10: real -> real): (m: SeniorityMetrics)
    ensures m.score == Score(u, now, log10)
    ensures m.score <= 100 && m.level == TierOfUser(u, now, log10) && m.color == Color(m.level)
  {
    Metrics(u, now, log10)
  }

  /** The state of the lookup (`commitEmail`, `loadingEmail`, `emailError`). */
  class EmailLookup {
    var commitEmail: Option<string>
    var loadingEmail: bool
    var emailError: bool

    /** The initial state: nothing found, not loading, no error. */
    constructor ()
      ensures commitEmail == None && !loadingEmail && !emailError
    {
      commitEmail := None;
      loadingEmail := false;
      emailError := false;
    }

    /** `handleFetchEmail` up to its `await`: loading, with the error cleared. */
    method BeginFetch()
      modifies this
      ensures loadingEmail && !emailError && commitEmail == old(commitEmail)
    {
      loadingEmail := true;
      emailError := false;
    }

    /** `handleFetchEmail` after its `await`: a truthy address is kept; `null`, an empty address or a
        thrown error (`Rejected`) sets the error and keeps the previous address; loading ends. */
    method CompleteFetch(outcome: GitHub.Response<Option<string>>)
      modifies this
      ensures !loadingEmail
      ensures outcome.Ok? && outcome.body.Some? && outcome.body.value != "" ==>
                commitEmail == outcome.body && emailError == old(emailError)
      ensures !(outcome.Ok? && outcome.body.Some? && outcome.body.value != "") ==>
                commitEmail == old(commitEmail) && emailError
    {
      if outcome.Ok? && outcome.body.Some? && outcome.body.value != "" {
        commitEmail := outcome.body;
      } else {
        emailError := true;
      }
      loadingEmail := false;
    }

    /** `handleFetchEmail` whole, with `getCommitEmail` answered from the two listings it reads. */
    method HandleFetchEmail(repos: GitHub.Response<seq<CommitEmail.Repo>>, events: GitHub.Response<seq<CommitEmail.Event>>)
      modifies this
      ensures !loadingEmail
      ensures var found := CommitEmail.CommitEmail(repos, events);
        && (found.Some? ==> commitEmail == found && !emailError)
        && (found.None? ==> commitEmail == old(commitEmail) && emailError)
    {
      BeginFetch();
      var email := CommitEmail.GetCommitEmail(repos, events);
      if email.Some? {
        CommitEmail.CommitEmailUsable(repos, events);
      }
      CompleteFetch(GitHub.Ok(email));
    }
  }
}
