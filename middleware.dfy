/** The route guard of `middleware.ts`: with or without a session cookie, a
    request for a public path (login, signup) or a protected one is redirected
    or let through; `config.matcher` says which paths the guard runs on. */
module Middleware {

  import opened Wrappers
  import opened Seqs

  datatype Decision = Redirect(target: string) | Next

  const PublicPaths: seq<string> := ["/login", "/signup"]
  const Dashboard := "/dashboard"
  const Login := "/login"

  /** `publicPaths.some((path) => pathname.startsWith(path))`. */
  predicate IsPublicPath(pathname: string)
  {
    exists i :: 0 <= i < |PublicPaths| && StartsWith(pathname, PublicPaths[i])
  }

  /** The `accessToken` cookie's value is truthy: present and not empty. */
  predicate HasSession(accessToken: Option<string>)
  {
    accessToken.Some? && accessToken.value != ""
  }

  /** `middleware(request)`, for the cookie's value and the path. */
  function Guard(accessToken: Option<string>, pathname: string): (d: Decision)
    ensures d == Redirect(Dashboard) <==> HasSession(accessToken) && IsPublicPath(pathname)
    ensures d == Redirect(Login) <==> !HasSession(accessToken) && !IsPublicPath(pathname)
    ensures d == Next <==> HasSession(accessToken) != IsPublicPath(pathname)
  {
    var session := HasSession(accessToken);
    var isPublic := IsPublicPath(pathname);
    if session && isPublic then Redirect(Dashboard)
    else if !session && !isPublic then Redirect(Login)
    else Next
  }

  /** The public test is a prefix test, on either public path. */
  lemma PublicIffPrefix(pathname: string)
    ensures IsPublicPath(pathname) <==> StartsWith(pathname, "/login") || StartsWith(pathname, "/signup")
  {
    if StartsWith(pathname, "/login") {
      assert StartsWith(pathname, PublicPaths[0]);
    }
    if StartsWith(pathname, "/signup") {
      assert StartsWith(pathname, PublicPaths[1]);
    }
  }

  /** `/login-help` is public, because the test is on prefixes. */
  lemma LoginHelpIsPublic()
    ensures IsPublicPath("/login-help")
  {
    assert StartsWith("/login-help", PublicPaths[0]);
  }

  /** The login page is public and the dashboard is not. */
  lemma RedirectTargets()
    ensures IsPublicPath(Login)
    ensures !IsPublicPath(Dashboard)
  {
    assert StartsWith(Login, PublicPaths[0]);
    NotStartsWith(Dashboard, PublicPaths[0], 1);
    NotStartsWith(Dashboard, PublicPaths[1], 1);
  }

  /** An empty cookie value is no session at all. */
  lemma EmptyCookieIsNoSession(pathname: string)
    ensures Guard(Some(""), pathname) == Guard(None, pathname)
  {
  }

  /** No redirect loop: the guard lets through the request for the page it
      redirects to, with the same cookie. */
  lemma NoRedirectLoop(accessToken: Option<string>, pathname: string)
    ensures Guard(accessToken, pathname).Redirect? ==>
      Guard(accessToken, Guard(accessToken, pathname).target) == Next
  {
    RedirectTargets();
  }

  // ---------------------------------------------------------------------
  // config.matcher: '/((?!api|_next/static|_next/image|favicon.ico).*)'

  /** Characters JavaScript's `.` does not match. */
  predicate LineTerminator(c: char)
  {
    c == '\n' || c == '\r' || c == ' ' || c == ' '
  }

  /** The negative lookahead's alternatives, with `.` in `favicon.ico`
      matching any one character but a line terminator. */
  predicate ExcludedStart(rest: string)
  {
    || StartsWith(rest, "api")
    || StartsWith(rest, "_next/static")
    || StartsWith(rest, "_next/image")
    || (|rest| >= 11 && rest[..7] == "favicon" && !LineTerminator(rest[7]) && rest[8..11] == "ico")
  }

  /** The guard runs on a path iff the whole path matches the matcher: a `/`,
      then text that starts with none of the excluded names and that `.*`
      covers (no line terminator). */
  predicate Matches(pathname: string)
  {
    && |pathname| >= 1 && pathname[0] == '/'
    && !ExcludedStart(pathname[1..])
    && forall i :: 1 <= i < |pathname| ==> !LineTerminator(pathname[i])
  }

  /** Every path that starts with `/api`, `/_next/static` or `/_next/image`
      is skipped, whatever follows (so `/apis` too), and so is every path
      that starts with `/favicon`, one character other than a line
      terminator, and `ico`. */
  lemma MatcherSkips(rest: string, c: char)
    ensures !Matches("/api" + rest)
    ensures !Matches("/_next/static" + rest)
    ensures !Matches("/_next/image" + rest)
    ensures !LineTerminator(c) ==> !Matches("/favicon" + [c] + "ico" + rest)
  {
    assert ("/api" + rest)[1..] == "api" + rest;
    assert StartsWith("api" + rest, "api");
    assert ("/_next/static" + rest)[1..] == "_next/static" + rest;
    assert StartsWith("_next/static" + rest, "_next/static");
    assert ("/_next/image" + rest)[1..] == "_next/image" + rest;
    assert StartsWith("_next/image" + rest, "_next/image");
    var fav := "/favicon" + [c] + "ico" + rest;
    assert fav[1..][..7] == "favicon" && fav[1..][7] == c && fav[1..][8..11] == "ico";
  }

  /** Pages are guarded, the root and other `_next` paths included. */
  lemma MatcherRuns()
    ensures Matches("/dashboard")
    ensures Matches("/login")
    ensures Matches("/")
  {
    assert "/dashboard"[1..] == "dashboard";
    NotStartsWith("dashboard", "api", 0);
    NotStartsWith("dashboard", "_next/static", 0);
    NotStartsWith("dashboard", "_next/image", 0);
    assert "/login"[1..] == "login";
    NotStartsWith("login", "api", 0);
    NotStartsWith("login", "_next/static", 0);
    NotStartsWith("login", "_next/image", 0);
    NotStartsWith("", "api", 0);
    NotStartsWith("", "_next/static", 0);
    NotStartsWith("", "_next/image", 0);
  }
}
