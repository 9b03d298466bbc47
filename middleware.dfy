/** The route guard run before every request: which paths need a session, and where to send the user. */
module Middleware {

  datatype Decision = PassThrough | Redirect(pathname: string)

  /** Paths reachable without a session: the login page, the provider webhook and static assets. */
  predicate IsPublic(pathname: string) {
    "/login" <= pathname || "/api/webhook" <= pathname || "/_next" <= pathname || "/favicon" <= pathname
  }

  /** The guard's decision, given whether the session yields a user. */
  function Guard(hasUser: bool, pathname: string): Decision {
    if !hasUser && !IsPublic(pathname) then Redirect("/login")
    else if hasUser && pathname == "/login" then Redirect("/dashboard")
    else PassThrough
  }

  /** Without a user, the guard redirects to the login page exactly on the non-public paths. */
  lemma AnonymousAccess(pathname: string)
    ensures Guard(false, pathname) == Redirect("/login") <==> !IsPublic(pathname)
    ensures Guard(false, pathname) == PassThrough <==> IsPublic(pathname)
  {
  }

  /** With a user, only the bare login path redirects (to the dashboard); everything else passes. */
  lemma SignedInAccess(pathname: string)
    ensures Guard(true, pathname) == Redirect("/dashboard") <==> pathname == "/login"
    ensures pathname != "/login" ==> Guard(true, pathname) == PassThrough
  {
  }

  /** Sub-paths of the login page are public but are not redirected for a signed-in user. */
  lemma LoginSubpathPasses(rest: string)
    requires rest != []
    ensures IsPublic("/login" + rest)
    ensures Guard(true, "/login" + rest) == PassThrough
  {
    assert "/login" <= "/login" + rest;
    assert |"/login" + rest| > |"/login"|;
  }

  /** A redirect target is never redirected again for the same user state: the guard cannot loop. */
  lemma RedirectIsFinal(hasUser: bool, pathname: string, target: string)
    requires Guard(hasUser, pathname) == Redirect(target)
    ensures Guard(hasUser, target) == PassThrough
  {
    if !hasUser {
      assert target == "/login";
      assert "/login" <= target;
    } else {
      assert target == "/dashboard";
      assert target != "/login";
    }
  }
}
