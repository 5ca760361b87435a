/** The admin guard (middleware.ts): requests whose path starts with "/admin" and
    that carry no `editor-auth` cookie are redirected to the login page; every
    other request passes on. */
module Middleware {
  import opened Text

  const LoginPath := "/admin/login"
  const AuthCookie := "editor-auth"

  datatype Decision = Next | Redirect(location: string)

  /** The guard as written. `cookies` maps cookie names to values; only the
      presence of the cookie is tested, so any value (even "") passes. */
  function Guard(pathname: string, cookies: map<string, string>): (d: Decision)
    ensures d.Redirect? <==> StartsWith(pathname, "/admin") && AuthCookie !in cookies
    ensures d.Redirect? ==> d.location == LoginPath
  {
    if StartsWith(pathname, "/admin") && AuthCookie !in cookies then Redirect(LoginPath) else Next
  }

  /** The configured matcher: "/admin/:path*" and "/api/admin/:path*". */
  predicate Matched(pathname: string) {
    || pathname == "/admin" || StartsWith(pathname, "/admin/")
    || pathname == "/api/admin" || StartsWith(pathname, "/api/admin/")
  }

  /** What a request meets: the guard on matched paths, nothing on the others. */
  function Effective(pathname: string, cookies: map<string, string>): Decision {
    if Matched(pathname) then Guard(pathname, cookies) else Next
  }

  /** The API routes under "/api/admin" are matched but never redirected, because
      their path does not start with "/admin"; nor is any path outside "/admin". */
  lemma ApiAdminPasses(pathname: string, cookies: map<string, string>)
    requires !StartsWith(pathname, "/admin")
    ensures Effective(pathname, cookies) == Next
  {
  }

  /** A matched "/admin" page is redirected exactly when the cookie is missing. */
  lemma AdminNeedsCookie(pathname: string, cookies: map<string, string>)
    requires pathname == "/admin" || StartsWith(pathname, "/admin/")
    ensures Effective(pathname, cookies) == (if AuthCookie in cookies then Next else Redirect(LoginPath))
  {
    assert StartsWith(pathname, "/admin") by {
      if pathname != "/admin" {
        assert pathname[..6] == "/admin/"[..6];
      }
    }
  }

  /** Any cookie value passes, the empty one included. */
  lemma AnyCookieValuePasses(pathname: string, cookies: map<string, string>, value: string)
    ensures Effective(pathname, cookies[AuthCookie := value]) == Next
  {
  }

  /** As written, the login page is itself guarded: without the cookie, a request
      for it is redirected to it again, so the redirect never ends. */
  lemma LoginRedirectsToItself()
    ensures Effective(LoginPath, map[]) == Redirect(LoginPath)
  {
    assert StartsWith(LoginPath, "/admin/");
    assert StartsWith(LoginPath, "/admin");
  }

  /** The guard with the login page exempted. */
  function FixedGuard(pathname: string, cookies: map<string, string>): (d: Decision)
    ensures d.Redirect? <==> StartsWith(pathname, "/admin") && pathname != LoginPath && AuthCookie !in cookies
    ensures d.Redirect? ==> d.location == LoginPath
  {
    if pathname == LoginPath then Next else Guard(pathname, cookies)
  }

  /** With the exemption, a redirect never points at the page requested, and the
      page it points at is always served: one redirect at most. */
  lemma FixedGuardSettles(pathname: string, cookies: map<string, string>)
    ensures FixedGuard(pathname, cookies).Redirect? ==> FixedGuard(pathname, cookies).location != pathname
    ensures FixedGuard(LoginPath, cookies) == Next
    ensures pathname != LoginPath ==> FixedGuard(pathname, cookies) == Guard(pathname, cookies)
  {
  }
}
