/**
 * The application's route guards: what a protected route shows for the
 * session it found, where the login and root routes send a visitor, and
 * which roles each protected route admits. The session and profile lookups
 * are parameters.
 */
module Routes {
  import opened Wrappers
  import Seqs

  /** What the protected-route guard knows: a failure, whether a session exists (unknown at first), the role. */
  datatype GuardState = GuardState(error: Option<string>, isAuthenticated: Option<bool>, userRole: Option<string>)

  /** Before the session check finishes nothing is known. */
  const Initial: GuardState := GuardState(None, None, None)

  /**
   * The session check: a session failure, or a profile failure for a signed-in
   * user, is recorded as the error (and the visitor as signed out); otherwise
   * the session decides whether the visitor is signed in and the profile's
   * role name, when non-empty, is the role.
   */
  function CheckAuth(sessionError: Option<string>, sessionUser: Option<string>,
                     profile: Result<Option<string>, string>): (r: GuardState)
    ensures r.isAuthenticated.Some?
    ensures r.error.Some? <==> sessionError.Some? || (sessionUser.Some? && profile.Err?)
    ensures r.error.None? ==> r.isAuthenticated == Some(sessionUser.Some?)
    ensures r.error.None? && sessionUser.Some? ==>
              r.userRole == (if profile.value.Some? && profile.value.value != "" then profile.value else None)
    ensures sessionUser.None? ==> r.userRole.None?
  {
    if sessionError.Some? then GuardState(sessionError, Some(false), None)
    else if sessionUser.None? then GuardState(None, Some(false), None)
    else match profile
      case Err(e) => GuardState(Some(e), Some(false), None)
      case Ok(role) => GuardState(None, Some(true), if role.Some? && role.value != "" then role else None)
  }

  /** What a protected route renders. */
  datatype Guard = ShowError(message: string) | Loading | ToLogin | ToRoot | Children

  /** Whether the guard's role check turns the visitor away. */
  predicate RoleRefused(allowedRoles: seq<string>, userRole: Option<string>) {
    |allowedRoles| > 0 && userRole.Some? && userRole.value != "" && userRole.value !in allowedRoles
  }

  /**
   * `ProtectedRoute`: an error first, then the wait for the session, then
   * the login page for visitors without one, then the root for a role the
   * route does not admit, and only then the page itself.
   */
  function Protect(s: GuardState, allowedRoles: seq<string>): (r: Guard)
    ensures s.error.Some? ==> r == ShowError(s.error.value)
    ensures s.error.None? && s.isAuthenticated.None? ==> r == Loading
    ensures s.error.None? && s.isAuthenticated == Some(false) ==> r == ToLogin
    ensures r == ToRoot <==> s.error.None? && s.isAuthenticated == Some(true) && RoleRefused(allowedRoles, s.userRole)
    ensures r == Children <==> s.error.None? && s.isAuthenticated == Some(true) && !RoleRefused(allowedRoles, s.userRole)
  {
    if s.error.Some? then ShowError(s.error.value)
    else if s.isAuthenticated.None? then Loading
    else if !s.isAuthenticated.value then ToLogin
    else if RoleRefused(allowedRoles, s.userRole) then ToRoot
    else Children
  }

  /** Until the session check ends every protected route shows the loading screen. */
  lemma InitiallyLoading(allowedRoles: seq<string>)
    ensures Protect(Initial, allowedRoles) == Loading
  {
  }

  /** A signed-in visitor whose profile has no role passes every role check. */
  lemma MissingRolePasses(userId: string, allowedRoles: seq<string>)
    ensures Protect(CheckAuth(None, Some(userId), Ok(None)), allowedRoles) == Children
  {
  }

  /**
   * The session answer is recorded before the profile is read, so for a
   * moment a signed-in visitor has no role yet: a route that will send
   * them to the root once the role arrives first shows its page.
   */
  lemma PageBeforeRedirect(userId: string, role: string, allowedRoles: seq<string>)
    requires RoleRefused(allowedRoles, Some(role))
    ensures Protect(GuardState(None, Some(true), None), allowedRoles) == Children
    ensures Protect(CheckAuth(None, Some(userId), Ok(Some(role))), allowedRoles) == ToRoot
  {
  }

  /** A route that lists no roles admits every signed-in visitor. */
  lemma OpenRouteAdmitsAll(s: GuardState)
    requires s.error.None? && s.isAuthenticated == Some(true)
    ensures Protect(s, []) == Children
  {
  }

  /** Where a route sends the visitor: to a page of its own or to another path. */
  datatype Destination = Page | RedirectTo(path: string)

  /** The login route sends a signed-in technician to their dashboard and anyone else signed in to the root. */
  function LoginRoute(isAuthenticated: bool, userRole: Option<string>): (r: Destination)
    ensures !isAuthenticated <==> r == Page
    ensures isAuthenticated && userRole == Some("technician") ==> r == RedirectTo("/technician-dashboard")
    ensures isAuthenticated && userRole != Some("technician") ==> r == RedirectTo("/")
  {
    if !isAuthenticated then Page
    else if userRole == Some("technician") then RedirectTo("/technician-dashboard")
    else RedirectTo("/")
  }

  /** The root route: the login page without a session, the technician dashboard for technicians, else the admin dashboard. */
  function RootRoute(isAuthenticated: bool, userRole: Option<string>): (r: Destination)
    ensures !isAuthenticated ==> r == RedirectTo("/login")
    ensures r == Page <==> isAuthenticated && userRole != Some("technician")
    ensures isAuthenticated && userRole == Some("technician") ==> r == RedirectTo("/technician-dashboard")
  {
    if !isAuthenticated then RedirectTo("/login")
    else if userRole == Some("technician") then RedirectTo("/technician-dashboard")
    else Page
  }

  /** A signed-in visitor never loops between the login route and the root. */
  lemma NoLoginLoop(userRole: Option<string>)
    ensures LoginRoute(true, userRole) == RedirectTo("/") ==> RootRoute(true, userRole) == Page
  {
  }

  /** The protected paths, with the roles each admits; an empty list admits every signed-in visitor. */
  const Protected: seq<(string, seq<string>)> := [
    ("/technician-dashboard", ["technician"]),
    ("/new-ticket", ["admin", "technician"]),
    ("/technicians", []),
    ("/tickets", []),
    ("/customers", []),
    ("/settings", []),
    ("/ticket/edit/:ticketId", []),
    ("/antivirus", []),
    ("/chat", []),
    ("/templates", ["admin"]),
    ("/attendance", [])
  ]

  /** The roles a path admits, or none when the path is not a protected route. */
  function AllowedRoles(path: string): (r: Option<seq<string>>)
    ensures r.Some? <==> exists i :: 0 <= i < |Protected| && Protected[i].0 == path
    ensures r.Some? ==> exists i :: 0 <= i < |Protected| && Protected[i] == (path, r.value)
  {
    Lookup(Protected, path)
  }

  function Lookup(table: seq<(string, seq<string>)>, path: string): (r: Option<seq<string>>)
    ensures r.Some? <==> exists i :: 0 <= i < |table| && table[i].0 == path
    ensures r.Some? ==> exists i :: 0 <= i < |table| && table[i] == (path, r.value)
  {
    if |table| == 0 then None
    else if table[0].0 == path then Some(table[0].1)
    else
      var r := Lookup(table[1..], path);
      assert forall i :: 1 <= i < |table| ==> table[i] == table[1..][i - 1];
      if r.Some? then
        var j :| 0 <= j < |table[1..]| && table[1..][j] == (path, r.value);
        assert table[j + 1] == (path, r.value);
        r
      else r
  }

  /** An entry no earlier entry shadows is what the lookup finds for its path. */
  lemma {:induction false} LookupFinds(table: seq<(string, seq<string>)>, i: nat)
    requires i < |table|
    requires forall j :: 0 <= j < i ==> table[j].0 != table[i].0
    ensures Lookup(table, table[i].0) == Some(table[i].1)
  {
    if i > 0 {
      assert table[1..][i - 1] == table[i];
      LookupFinds(table[1..], i - 1);
    }
  }

  /** Every protected route but the technician's two pages is open to all or to admins only. */
  lemma OtherRoutesAdmitAdmins()
    ensures forall i :: 0 <= i < |Protected| && Protected[i].0 != "/technician-dashboard" && Protected[i].0 != "/new-ticket" ==>
              Protected[i].1 == [] || Protected[i].1 == ["admin"]
  {
    assert Protected[0].0 == "/technician-dashboard" && Protected[1].0 == "/new-ticket";
  }

  /**
   * The technician dashboard admits only technicians, a new ticket admins
   * and technicians, the templates only admins.
   */
  lemma RouteRoles()
    ensures AllowedRoles("/technician-dashboard") == Some(["technician"])
    ensures AllowedRoles("/new-ticket") == Some(["admin", "technician"])
    ensures AllowedRoles("/templates") == Some(["admin"])
  {
    LookupFinds(Protected, 0);
    assert Protected[0].0 != Protected[1].0 by { assert Protected[0].0[1] != Protected[1].0[1]; }
    LookupFinds(Protected, 1);
    forall j | 0 <= j < 9 ensures Protected[j].0 != Protected[9].0 {
      assert |Protected[9].0| == 10;
      if |Protected[j].0| == 10 {
        assert j == 4 || j == 7;
        assert Protected[j].0[1] != Protected[9].0[1];
      }
    }
    LookupFinds(Protected, 9);
  }

  /** Only technicians pass the technician dashboard's check, and only admins the templates'. */
  lemma RoleGates(s: GuardState)
    requires s.error.None? && s.isAuthenticated == Some(true)
    ensures s.userRole == Some("admin") ==> Protect(s, ["technician"]) == ToRoot
    ensures s.userRole == Some("technician") ==> Protect(s, ["admin"]) == ToRoot
    ensures s.userRole == Some("technician") ==> Protect(s, ["admin", "technician"]) == Children
    ensures s.userRole == Some("admin") ==> Protect(s, ["admin", "technician"]) == Children
  {
  }

  /**
   * A technician turned away from an admin-only route lands, through the
   * root, on their own dashboard, which admits them.
   */
  lemma TechnicianEndsOnDashboard(s: GuardState)
    requires s.error.None? && s.isAuthenticated == Some(true) && s.userRole == Some("technician")
    ensures Protect(s, ["admin"]) == ToRoot
    ensures RootRoute(true, s.userRole) == RedirectTo("/technician-dashboard")
    ensures Protect(s, AllowedRoles("/technician-dashboard").value) == Children
  {
    RouteRoles();
  }
}
