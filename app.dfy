/**
 * The application shell: the session check on start-up and the page each
 * path resolves to, given the authentication state.
 */
module App {
  import Strings

  /** What the shell shows. */
  datatype View = Spinner | HomePage | LoginPage | SignupPage | NotFoundPage | Redirect(to: string)

  /**
   * The router's test of `path` against a route's pattern: case-insensitive,
   * with any number of trailing slashes. The patterns here are ASCII, so
   * folding ASCII letters is all the case-insensitivity that can matter.
   */
  predicate At(path: string, pattern: string) {
    var p := Strings.ToLower(path);
    && |pattern| <= |p| && p[..|pattern|] == pattern
    && forall i :: |pattern| <= i < |p| ==> p[i] == '/'
  }

  /** The page for `path` once the spinner is not shown. */
  function Route(path: string, isAuthenticated: bool): (v: View)
    ensures At(path, "/") ==> (v == HomePage <==> isAuthenticated)
    ensures At(path, "/") && !isAuthenticated ==> v == Redirect("/login")
    ensures At(path, "/login") ==> (v == LoginPage <==> !isAuthenticated) && (isAuthenticated ==> v == Redirect("/"))
    ensures At(path, "/signup") ==> (v == SignupPage <==> !isAuthenticated) && (isAuthenticated ==> v == Redirect("/"))
    ensures !At(path, "/") && !At(path, "/login") && !At(path, "/signup") ==>
      v == if isAuthenticated then NotFoundPage else Redirect("/login")
    ensures v != Spinner
  {
    PatternsDisjoint(path);
    if At(path, "/") then (if isAuthenticated then HomePage else Redirect("/login"))
    else if At(path, "/login") then (if !isAuthenticated then LoginPage else Redirect("/"))
    else if At(path, "/signup") then (if !isAuthenticated then SignupPage else Redirect("/"))
    else if isAuthenticated then NotFoundPage
    else Redirect("/login")
  }

  /** A path matches at most one of the three patterns, so their order in the route list does not matter. */
  lemma PatternsDisjoint(path: string)
    ensures !(At(path, "/") && At(path, "/login"))
    ensures !(At(path, "/") && At(path, "/signup"))
    ensures !(At(path, "/login") && At(path, "/signup"))
  {
    var p := Strings.ToLower(path);
    if At(path, "/login") {
      PrefixChar(p, "/login", 1);
    }
    if At(path, "/signup") {
      PrefixChar(p, "/signup", 1);
    }
  }

  /** A sequence that starts with `a` agrees with `a` at each of `a`'s positions. */
  lemma PrefixChar(p: string, a: string, i: int)
    requires |a| <= |p| && p[..|a|] == a && 0 <= i < |a|
    ensures p[i] == a[i]
  {
    assert p[..|a|][i] == p[i];
  }

  /** A trailing slash and upper-case letters reach the same page. */
  lemma RouteExamples()
    ensures Route("/login/", true) == Redirect("/")
    ensures Route("/Signup", false) == SignupPage
  {
    assert !At("/login/", "/") by { assert Strings.ToLower("/login/")[1] == 'l'; }
    assert At("/login/", "/login") by { assert Strings.ToLower("/login/") == "/login/"; }
    assert !At("/Signup", "/") && !At("/Signup", "/login") by { assert Strings.ToLower("/Signup")[1] == 's'; }
    assert At("/Signup", "/signup") by { assert Strings.ToLower("/Signup") == "/signup"; }
  }

  /** Repeated slashes still reach the root; a longer name reaches no page. */
  lemma RouteNearMisses()
    ensures Route("//", true) == HomePage
    ensures Route("/logins", false) == Redirect("/login")
  {
    assert At("//", "/") by { assert Strings.ToLower("//") == "//"; }
    var l := Strings.ToLower("/logins");
    assert l == "/logins";
    assert !At("/logins", "/") && !At("/logins", "/signup") by { assert l[1] == 'l'; }
    assert !At("/logins", "/login") by { assert l[6] == 's'; }
  }

  /** The whole render: only the spinner while the first check is in flight. */
  function Render(path: string, isAuthenticated: bool, loading: bool, authChecked: bool): (v: View)
    ensures v == Spinner <==> loading && !authChecked
    ensures !(loading && !authChecked) ==> v == Route(path, isAuthenticated)
  {
    if loading && !authChecked then Spinner else Route(path, isAuthenticated)
  }

  /** Signed out, no path shows the task page or the not-found page. */
  lemma SignedOutNeverSeesTasks(path: string, loading: bool, authChecked: bool)
    ensures Render(path, false, loading, authChecked) !in {HomePage, NotFoundPage}
  {
  }

  /** Signed in, the sign-in and sign-up pages send back to the task page. */
  lemma SignedInSkipsAuthPages(path: string)
    requires At(path, "/login") || At(path, "/signup")
    ensures Route(path, true) == Redirect("/") && Route(Redirect("/").to, true) == HomePage
  {
  }

  class Shell {
    var authChecked: bool

    constructor ()
      ensures !authChecked
    {
      authChecked := false;
    }

    /** `verifyAuth`: whatever the check's outcome, the shell marks it done. */
    method VerifyAuth(checkSucceeded: bool)
      modifies this
      ensures authChecked
    {
      authChecked := true;
    }
  }
}
