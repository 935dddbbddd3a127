/** The student app's authentication state and the route decisions of both apps.
    The auth state is the token (mirrored in the browser's storage under "token") and a
    user object that only a login in this page fills in. */
module Auth {
  import opened Common
  import RealtimeClient

  /** The client-side user object. */
  datatype AuthUser = AuthUser(id: nat, email: string, role: string)

  /** What the login request answered: a token, or an error. */
  datatype LoginAnswer = Issued(accessToken: string) | Refused

  /** The provider's state: `user`, `token`, and the value stored under "token". */
  datatype AuthState = AuthState(user: Option<AuthUser>, token: Option<string>, stored: Option<string>)

  /** `isAuthenticated` is `!!token`. */
  predicate IsAuthenticated(s: AuthState)
  {
    RealtimeClient.Truthy(s.token)
  }

  /** A page load: the token read back from storage, no user. */
  function Load(stored: Option<string>): (s: AuthState)
    ensures s.token == stored && s.stored == stored && s.user.None?
  {
    AuthState(None, stored, stored)
  }

  /** `login`: on success the token is kept in state and storage and the user becomes a
      student with id 1 and the username as e-mail; on failure the error is rethrown and
      nothing changes. */
  function LoginState(s: AuthState, username: string, answer: LoginAnswer): (r: AuthState)
    ensures answer.Refused? ==> r == s
    ensures answer.Issued? ==>
      r.token == Some(answer.accessToken) && r.stored == Some(answer.accessToken) &&
      r.user == Some(AuthUser(1, username, "student"))
  {
    match answer
    case Refused => s
    case Issued(t) => AuthState(Some(AuthUser(1, username, "student")), Some(t), Some(t))
  }

  /** `logout`: token, user and the stored token are all gone. */
  function LogoutState(s: AuthState): (r: AuthState)
    ensures !IsAuthenticated(r) && r.user.None? && r.stored.None?
  {
    AuthState(None, None, None)
  }

  /** A reload keeps the login's token but loses its user. */
  lemma ReloadKeepsTokenOnly(s: AuthState, username: string, t: string)
    ensures var after := Load(LoginState(s, username, Issued(t)).stored);
      after.token == Some(t) && after.user.None? && (IsAuthenticated(after) <==> t != "")
  {
  }

  /** After logout a reload stays logged out. */
  lemma LogoutSurvivesReload(s: AuthState)
    ensures !IsAuthenticated(Load(LogoutState(s).stored))
  {
  }

  class AuthProvider {
    var user: Option<AuthUser>
    var token: Option<string>
    var stored: Option<string>

    function State(): AuthState
      reads this
    {
      AuthState(user, token, stored)
    }

    /** First render: `token` starts from storage. */
    constructor(stored: Option<string>)
      ensures State() == Load(stored)
    {
      user := None;
      token := stored;
      this.stored := stored;
    }

    /** `login`; `answer` is what the login request produced. Returns whether it threw. */
    method Login(username: string, answer: LoginAnswer) returns (threw: bool)
      modifies this
      ensures threw <==> answer.Refused?
      ensures State() == LoginState(old(State()), username, answer)
    {
      if answer.Refused? {
        return true;
      }
      token := Some(answer.accessToken);
      stored := Some(answer.accessToken);
      user := Some(AuthUser(1, username, "student"));
      threw := false;
    }

    method Logout()
      modifies this
      ensures State() == LogoutState(old(State()))
    {
      token := None;
      user := None;
      stored := None;
    }
  }

  // ---------------------------------------------------------------------
  // Routes

  /** What a route renders. */
  datatype View = LoadingView | RedirectTo(path: string) | Denied(text: string) | Page(name: string) | NoMatch

  /** The context has no `loading` field: reading it gives `undefined`, which is falsy. */
  const ContextLoading: bool := false

  /** `ProtectedRoute`: the loading view first, then the login redirect, else the page. */
  function Protected(loading: bool, authenticated: bool, page: string): (v: View)
    ensures loading ==> v == LoadingView
    ensures !loading && !authenticated ==> v == RedirectTo("/login")
    ensures v == Page(page) <==> !loading && authenticated
  {
    if loading then LoadingView
    else if !authenticated then RedirectTo("/login")
    else Page(page)
  }

  /** The student app's `RootRedirect`. */
  function StudentRoot(loading: bool, authenticated: bool, user: Option<AuthUser>): (v: View)
    ensures loading ==> v == LoadingView
    ensures !loading && !authenticated ==> v == RedirectTo("/login")
    ensures v == RedirectTo("/dashboard") <==> !loading && authenticated && user.Some? && user.value.role == "student"
    ensures !loading && authenticated && !(user.Some? && user.value.role == "student") ==>
      v == Denied("Access Denied: Students Only")
  {
    if loading then LoadingView
    else if !authenticated then RedirectTo("/login")
    else if user.Some? && user.value.role == "student" then RedirectTo("/dashboard")
    else Denied("Access Denied: Students Only")
  }

  /** The admin app's `RootRedirect` (it reads no loading flag). */
  function AdminRoot(authenticated: bool, user: Option<AuthUser>): (v: View)
    ensures !authenticated ==> v == RedirectTo("/login")
    ensures v == RedirectTo("/dashboard") <==> authenticated && user.Some? && user.value.role == "admin"
    ensures authenticated && !(user.Some? && user.value.role == "admin") ==> v == Denied("Access Denied: Admins Only")
  {
    if !authenticated then RedirectTo("/login")
    else if user.Some? && user.value.role == "admin" then RedirectTo("/dashboard")
    else Denied("Access Denied: Admins Only")
  }

  /** The path without its trailing slashes. */
  function TrimTrailingSlashes(path: string): (r: string)
    ensures r <= path
    ensures r == [] || r[|r| - 1] != '/'
    ensures forall i :: |r| <= i < |path| ==> path[i] == '/'
  {
    if path != [] && path[|path| - 1] == '/' then TrimTrailingSlashes(path[..|path| - 1]) else path
  }

  /** What the router compares against a route's pattern: a route matches with any number
      of trailing slashes and ignores ASCII case, so the path is taken without trailing
      slashes and lower-cased; the root route "/" becomes the empty string. */
  function RoutePath(path: string): (r: string)
    ensures |r| <= |path|
  {
    Lower(TrimTrailingSlashes(path))
  }

  /** A trailing slash never changes which route a path takes. */
  lemma TrailingSlashSameRoute(path: string)
    ensures RoutePath(path + "/") == RoutePath(path)
  {
    assert (path + "/")[..|path|] == path;
  }

  /** Trimming trailing slashes commutes with lower-casing: '/' is no letter. */
  lemma {:induction false} TrimLower(path: string)
    ensures TrimTrailingSlashes(Lower(path)) == Lower(TrimTrailingSlashes(path))
    decreases |path|
  {
    var low := Lower(path);
    if path != [] && path[|path| - 1] == '/' {
      var init := path[..|path| - 1];
      assert low[..|low| - 1] == Lower(init);
      TrimLower(init);
    } else {
      assert low == [] || low[|low| - 1] != '/';
    }
  }

  /** Nor does the case of the path's ASCII letters. */
  lemma CaseSameRoute(path: string)
    ensures RoutePath(Lower(path)) == RoutePath(path)
  {
    TrimLower(path);
    LowerTwice(TrimTrailingSlashes(path));
  }

  /** Lower-casing twice is lower-casing once. */
  lemma LowerTwice(s: string)
    ensures Lower(Lower(s)) == Lower(s)
  {
    assert forall i :: 0 <= i < |s| ==> LowerChar(LowerChar(s[i])) == LowerChar(s[i]);
  }

  /** A pattern without upper-case letters or a trailing slash is its own route path. */
  lemma RoutePathOfPattern(pattern: string)
    requires pattern != [] && pattern[|pattern| - 1] != '/'
    requires forall i :: 0 <= i < |pattern| ==> !('A' <= pattern[i] <= 'Z')
    ensures RoutePath(pattern) == pattern
  {
    assert TrimTrailingSlashes(pattern) == pattern;
  }

  /** The route patterns themselves. */
  lemma RoutePathOfPatterns()
    ensures RoutePath("/") == "" && RoutePath("/login") == "/login"
    ensures RoutePath("/dashboard") == "/dashboard" && RoutePath("/admin") == "/admin"
  {
    assert TrimTrailingSlashes("/") == "";
    LoginPattern();
    DashboardPattern();
    AdminPattern();
  }

  lemma LoginPattern()
    ensures RoutePath("/login") == "/login"
  {
    RoutePathOfPattern("/login");
  }

  lemma DashboardPattern()
    ensures RoutePath("/dashboard") == "/dashboard"
  {
    var p := "/dashboard";
    assert forall i :: 0 <= i < |p| ==> p[i] in "/dashbor";
    RoutePathOfPattern(p);
  }

  lemma AdminPattern()
    ensures RoutePath("/admin") == "/admin"
  {
    RoutePathOfPattern("/admin");
  }

  /** A `/jobs/:id` path: one non-empty segment after "/jobs/". */
  predicate JobPath(path: string)
  {
    |path| > 6 && path[..6] == "/jobs/" && '/' !in path[6..]
  }

  /** The student app's route table. */
  function StudentRoute(path: string, s: AuthState): (v: View)
    ensures RoutePath(path) == "/login" ==> v == Page("Login")
    ensures RoutePath(path) == "/dashboard" ==> v == Protected(ContextLoading, IsAuthenticated(s), "StudentPortal")
    ensures JobPath(RoutePath(path)) ==> v == Protected(ContextLoading, IsAuthenticated(s), "JobDetails")
    ensures RoutePath(path) == "" ==> v == StudentRoot(ContextLoading, IsAuthenticated(s), s.user)
    ensures RoutePath(path) !in {"/login", "/dashboard", ""} && !JobPath(RoutePath(path)) ==> v == NoMatch
    ensures v.Page? && v.name != "Login" ==> IsAuthenticated(s)
  {
    var key := RoutePath(path);
    if key == "/login" then
      assert key[..6][1] != "/jobs/"[1];
      Page("Login")
    else if key == "/dashboard" then
      assert key[..6][1] != "/jobs/"[1];
      Protected(ContextLoading, IsAuthenticated(s), "StudentPortal")
    else if JobPath(key) then Protected(ContextLoading, IsAuthenticated(s), "JobDetails")
    else if key == "" then StudentRoot(ContextLoading, IsAuthenticated(s), s.user)
    else NoMatch
  }

  /** The admin app's route table; `authenticated` and `user` come from its own auth context. */
  function AdminRoute(path: string, authenticated: bool, user: Option<AuthUser>): (v: View)
    ensures RoutePath(path) == "/login" ==> v == Page("Login")
    ensures RoutePath(path) == "/dashboard" ==> v == Protected(ContextLoading, authenticated, "AdminPortal")
    ensures RoutePath(path) == "/admin" ==> v == RedirectTo("/dashboard")
    ensures RoutePath(path) == "" ==> v == AdminRoot(authenticated, user)
    ensures RoutePath(path) !in {"/login", "/dashboard", "/admin", ""} ==> v == NoMatch
    ensures v.Page? && v.name != "Login" ==> authenticated
  {
    var key := RoutePath(path);
    if key == "/login" then Page("Login")
    else if key == "/dashboard" then Protected(ContextLoading, authenticated, "AdminPortal")
    else if key == "/admin" then RedirectTo("/dashboard")
    else if key == "" then AdminRoot(authenticated, user)
    else NoMatch
  }

  /** The loading view never shows in the student app: the flag it tests is never set. */
  lemma NoLoadingView(path: string, s: AuthState)
    ensures StudentRoute(path, s) != LoadingView
  {
  }

  /** Following the admin app's redirects from "/admin" ends at the portal exactly when
      authenticated, else at the login page. */
  lemma AdminPathRedirects(authenticated: bool, user: Option<AuthUser>)
    ensures var first := AdminRoute("/admin", authenticated, user);
      first == RedirectTo("/dashboard") &&
      AdminRoute(first.path, authenticated, user) ==
        (if authenticated then Page("AdminPortal") else RedirectTo("/login"))
  {
    RoutePathOfPatterns();
  }

  /** Right after a login the student app sends "/" to the dashboard, which renders. */
  lemma LoginThenDashboard(s: AuthState, username: string, t: string)
    requires t != ""
    ensures var after := LoginState(s, username, Issued(t));
      StudentRoute("/", after) == RedirectTo("/dashboard") &&
      StudentRoute("/dashboard", after) == Page("StudentPortal")
  {
    RoutePathOfPatterns();
  }

  /** After a reload with a stored token there is no user, so "/" shows the access-denied
      message although the dashboard itself still renders. */
  lemma ReloadDeniesRoot(t: string)
    requires t != ""
    ensures StudentRoute("/", Load(Some(t))) == Denied("Access Denied: Students Only")
    ensures StudentRoute("/dashboard", Load(Some(t))) == Page("StudentPortal")
  {
    RoutePathOfPatterns();
  }

  /** Logged out, every protected page and the root lead to the login page. */
  lemma LoggedOutGoesToLogin(s: AuthState, path: string)
    requires !IsAuthenticated(s) && RoutePath(path) != "/login"
    ensures StudentRoute(path, s) == RedirectTo("/login") || StudentRoute(path, s) == NoMatch
  {
  }
}
