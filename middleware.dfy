/** The route guard that runs before every page request (middleware.ts): from
    the `authToken` cookie and the request path it decides between a redirect
    and letting the request through. */
module Middleware {
  import opened JsValues

  /** Pages for signed-out users, matched exactly. */
  const AuthRoutes: seq<string> := ["/login", "/sign-up", "/forgot-password"]
  /** Pages for signed-in users, matched by prefix. */
  const ProtectedRoutes: seq<string> := ["/dashboard", "/profile", "/book", "/transaction"]

  const Dashboard := "/dashboard"
  const Login := "/login"
  const NoCacheHeader := ("x-middleware-cache", "no-cache")

  /** A redirect to `location`, with the `callbackUrl` query parameter when
      set; or the request passed on with the given response headers. */
  datatype Response =
    | Redirect(location: string, callbackUrl: Option<string>)
    | Next(headers: seq<(string, string)>)

  /** The cookie value taken as a condition: present and not empty. */
  predicate LoggedIn(token: Option<string>) {
    token.Some? && token.value != ""
  }

  /** `s.startsWith(prefix)` */
  predicate StartsWith(s: string, prefix: string) {
    |prefix| <= |s| && s[..|prefix|] == prefix
  }

  /** `routes.some(route => pathname === route)` */
  function SomeEquals(routes: seq<string>, pathname: string): (r: bool)
    ensures r <==> pathname in routes
  {
    if routes == [] then false
    else routes[0] == pathname || SomeEquals(routes[1..], pathname)
  }

  /** `routes.some(route => pathname.startsWith(route))` */
  function SomePrefix(routes: seq<string>, pathname: string): (r: bool)
    ensures r <==> exists i :: 0 <= i < |routes| && StartsWith(pathname, routes[i])
  {
    if routes == [] then false
    else if StartsWith(pathname, routes[0]) then true
    else
      var rest := SomePrefix(routes[1..], pathname);
      assert forall i :: 1 <= i < |routes| ==> routes[i] == routes[1..][i - 1];
      rest
  }

  /** A path under one of the protected routes. */
  ghost predicate IsProtected(pathname: string) {
    exists i :: 0 <= i < |ProtectedRoutes| && StartsWith(pathname, ProtectedRoutes[i])
  }

  /** `middleware`, without its error branch. */
  function Decide(token: Option<string>, pathname: string): (r: Response)
    ensures LoggedIn(token) && pathname in AuthRoutes ==> r == Redirect(Dashboard, None)
    ensures LoggedIn(token) && pathname !in AuthRoutes && IsProtected(pathname) ==> r == Next([NoCacheHeader])
    ensures !LoggedIn(token) && IsProtected(pathname) ==> r == Redirect(Login, Some(pathname))
    ensures !IsProtected(pathname) && !(LoggedIn(token) && pathname in AuthRoutes) ==> r == Next([])
  {
    if token.Some? && token.value != "" then
      if SomeEquals(AuthRoutes, pathname) then Redirect(Dashboard, None)
      else if SomePrefix(ProtectedRoutes, pathname) then Next([NoCacheHeader])
      else Next([])
    else
      if SomePrefix(ProtectedRoutes, pathname) then Redirect(Login, Some(pathname))
      else Next([])
  }

  /** An empty cookie value counts as signed out. */
  lemma EmptyCookieIsSignedOut(pathname: string)
    ensures Decide(Some(""), pathname) == Decide(None, pathname)
  {
  }

  /** Signed-out users see the sign-in pages as they are. */
  lemma SignedOutAuthPagePassesThrough(token: Option<string>, pathname: string)
    requires !LoggedIn(token) && pathname in AuthRoutes
    ensures Decide(token, pathname) == Next([])
  {
    NotProtectedBySecondChar(pathname);
  }

  /** Everything below a protected route is protected. */
  lemma ProtectedIsPrefixClosed(pathname: string, suffix: string)
    requires IsProtected(pathname)
    ensures IsProtected(pathname + suffix)
  {
    var i :| 0 <= i < |ProtectedRoutes| && StartsWith(pathname, ProtectedRoutes[i]);
    var route := ProtectedRoutes[i];
    assert (pathname + suffix)[..|route|] == pathname[..|route|];
    assert StartsWith(pathname + suffix, route);
  }

  /** Every protected route has one of `d`, `p`, `b`, `t` after its slash. */
  lemma NotProtectedBySecondChar(pathname: string)
    requires |pathname| >= 2
    requires pathname[1] != 'd' && pathname[1] != 'p' && pathname[1] != 'b' && pathname[1] != 't'
    ensures !IsProtected(pathname)
  {
    forall i | 0 <= i < |ProtectedRoutes|
      ensures !StartsWith(pathname, ProtectedRoutes[i])
    {
      var route := ProtectedRoutes[i];
      assert route[1] == 'd' || route[1] == 'p' || route[1] == 'b' || route[1] == 't';
      if |route| <= |pathname| {
        assert pathname[..|route|][1] == pathname[1];
      }
    }
  }

  /** Auth routes match exactly: no auth route extends another, so a path
      strictly longer than an auth route is not one. */
  lemma AuthRoutesMatchExactly(pathname: string, suffix: string)
    requires pathname in AuthRoutes && suffix != ""
    ensures pathname + suffix !in AuthRoutes
  {
    var longer := pathname + suffix;
    var i :| 0 <= i < |AuthRoutes| && AuthRoutes[i] == pathname;
    assert longer[1] == pathname[1];
    forall j | 0 <= j < |AuthRoutes|
      ensures AuthRoutes[j] != longer
    {
      if j != i {
        assert AuthRoutes[j][1] != AuthRoutes[i][1];
      }
    }
  }

  /** The route lists at work: `/bookings` and `/dashboard/x` are protected,
      `/login/x` is not an auth route and passes through for a signed-in user. */
  lemma RouteMatchingExamples(token: string)
    requires token != ""
    ensures IsProtected("/bookings") && IsProtected("/dashboard/x")
    ensures "/login/x" !in AuthRoutes
    ensures Decide(Some(token), "/login/x") == Next([])
    ensures Decide(None, "/bookings") == Redirect(Login, Some("/bookings"))
  {
    assert StartsWith("/bookings", ProtectedRoutes[2]);
    assert StartsWith("/dashboard/x", ProtectedRoutes[0]);
    AuthRoutesMatchExactly("/login", "/x");
    assert "/login" + "/x" == "/login/x";
    NotProtectedBySecondChar("/login/x");
  }

  /** A redirect never leads to another redirect: the page it sends the
      user to is let through for the same cookie. */
  lemma NoRedirectLoop(token: Option<string>, pathname: string)
    requires Decide(token, pathname).Redirect?
    ensures Decide(token, Decide(token, pathname).location).Next?
  {
    if LoggedIn(token) {
      assert StartsWith(Dashboard, ProtectedRoutes[0]);
    } else {
      NotProtectedBySecondChar(Login);
    }
  }
}
