/** The route guard that runs before every matched request: a pure decision
    on the request path and whether a session exists. */
module Middleware {
  import opened Text

  datatype Decision = Next | Redirect(target: string)

  const ApiAuthPrefix := "/api/auth"
  const AdminPrefix := "/admin"
  const LoginPage := "/admin/login"

  function Decide(path: string, loggedIn: bool): (d: Decision)
    ensures d.Redirect? ==> d.target == AdminPrefix || d.target == LoginPage
    ensures d == Redirect(AdminPrefix) <==> loggedIn && path == LoginPage
    ensures d == Redirect(LoginPage) <==>
      !loggedIn && StartsWith(path, AdminPrefix) && path != LoginPage && !StartsWith(path, ApiAuthPrefix)
  {
    PrefixesDisjoint(path);
    if StartsWith(path, ApiAuthPrefix) then Next
    else if StartsWith(path, AdminPrefix) then
      if path == LoginPage then
        if loggedIn then Redirect(AdminPrefix) else Next
      else if !loggedIn then Redirect(LoginPage)
      else Next
    else Next
  }

  /** The two guarded prefixes exclude each other (they differ at index 2). */
  lemma PrefixesDisjoint(path: string)
    ensures StartsWith(path, AdminPrefix) ==> !StartsWith(path, ApiAuthPrefix)
  {
    if StartsWith(path, AdminPrefix) {
      assert path[..|AdminPrefix|][2] == 'd';
      if |ApiAuthPrefix| <= |path| {
        assert path[..|ApiAuthPrefix|][2] != ApiAuthPrefix[2];
      }
    }
  }

  /** Authentication endpoints always pass, with or without a session. */
  lemma ApiAuthPasses(path: string, loggedIn: bool)
    requires StartsWith(path, ApiAuthPrefix)
    ensures Decide(path, loggedIn) == Next
  {
  }

  /** The login page sends a signed-in user to the dashboard and lets an
      anonymous one through. */
  lemma LoginPageDecision(loggedIn: bool)
    ensures Decide(LoginPage, loggedIn) == if loggedIn then Redirect(AdminPrefix) else Next
  {
  }

  /** Every other admin path needs a session. */
  lemma AnonymousAdminGoesToLogin(path: string)
    requires StartsWith(path, AdminPrefix) && path != LoginPage
    ensures Decide(path, false) == Redirect(LoginPage)
  {
    PrefixesDisjoint(path);
  }

  lemma SignedInAdminPasses(path: string)
    requires StartsWith(path, AdminPrefix) && path != LoginPage
    ensures Decide(path, true) == Next
  {
    PrefixesDisjoint(path);
  }

  /** Paths outside the admin area pass, whatever the session. */
  lemma OutsideAdminPasses(path: string, loggedIn: bool)
    requires !StartsWith(path, AdminPrefix)
    ensures Decide(path, loggedIn) == Next
  {
  }

  /** The prefix test is on text, not on path segments: "/adminfoo" is
      guarded like an admin page. */
  lemma PrefixNotSegment()
    ensures Decide("/adminfoo", false) == Redirect(LoginPage)
  {
    assert StartsWith("/adminfoo", AdminPrefix);
    PrefixesDisjoint("/adminfoo");
  }

  /** No redirect points back at the requested path, a signed-in user is
      never sent to the login page, and the redirect target itself passes
      with the same session: one redirect always settles the request. */
  lemma RedirectsSettle(path: string, loggedIn: bool)
    ensures var d := Decide(path, loggedIn);
      d.Redirect? ==> d.target != path && Decide(d.target, loggedIn) == Next
    ensures loggedIn ==> Decide(path, loggedIn) != Redirect(LoginPage)
  {
    var d := Decide(path, loggedIn);
    if d == Redirect(LoginPage) {
      assert StartsWith(LoginPage, AdminPrefix);
      PrefixesDisjoint(LoginPage);
    } else if d == Redirect(AdminPrefix) {
      assert StartsWith(AdminPrefix, AdminPrefix);
      PrefixesDisjoint(AdminPrefix);
    }
  }
}
