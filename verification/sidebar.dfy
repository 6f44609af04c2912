/**
 * The sidebar: the rule that keeps a technician on the pages meant for
 * them, and the menu each role sees with the entry for the current path
 * highlighted.
 */
module Sidebar {
  import opened Wrappers
  import Text
  import Routes

  predicate IsAdmin(role: Option<string>) { role == Some("admin") }
  predicate IsTechnician(role: Option<string>) { role == Some("technician") }

  /**
   * The redirect effect: a technician on a path that mentions neither the
   * technician dashboard nor a new ticket is sent to the technician
   * dashboard; nobody else is ever redirected.
   */
  function Redirect(role: Option<string>, pathname: string): (r: Option<string>)
    ensures r.Some? <==>
              IsTechnician(role) && !Text.Contains(pathname, "technician-dashboard") && !Text.Contains(pathname, "new-ticket")
    ensures r.Some? ==> r.value == "/technician-dashboard"
  {
    if IsTechnician(role) && !Text.Contains(pathname, "technician-dashboard") && !Text.Contains(pathname, "new-ticket")
    then Some("/technician-dashboard")
    else None
  }

  lemma DashboardContained()
    ensures Text.Contains("/technician-dashboard", "technician-dashboard")
  {
    var s, p := "/technician-dashboard", "technician-dashboard";
    assert s[1..21] == p;
    assert Text.OccursAt(s, p, 1);
  }

  lemma NewTicketContained()
    ensures Text.Contains("/new-ticket", "new-ticket")
  {
    var s, p := "/new-ticket", "new-ticket";
    assert s[1..11] == p;
    assert Text.OccursAt(s, p, 1);
  }

  /** The two pages a technician may stay on mention their own names. */
  lemma OwnPagesContained()
    ensures Text.Contains("/technician-dashboard", "technician-dashboard")
    ensures Text.Contains("/new-ticket", "new-ticket")
  {
    DashboardContained();
    NewTicketContained();
  }

  /** The redirect's target is a page it leaves alone, so it fires at most once in a row. */
  lemma RedirectSettles(role: Option<string>, pathname: string)
    ensures Redirect(role, pathname).Some? ==> Redirect(role, Redirect(role, pathname).value).None?
  {
    OwnPagesContained();
  }

  /** One menu button: its caption, the path it opens and whether it is highlighted. */
  datatype Item = Item(caption: string, target: string, highlighted: bool)

  /** The buttons only admins see, in order. */
  const AdminOnly: seq<(string, string)> := [
    ("Tickets", "/tickets"), ("Technicians", "/technicians"), ("Attendance", "/attendance"),
    ("Customers", "/customers"), ("Antivirus", "/antivirus"), ("AI Assistant", "/chat"),
    ("Templates", "/templates")
  ]

  function Button(caption: string, target: string, pathname: string): Item {
    Item(caption, target, pathname == target)
  }

  /**
   * The menu: a Dashboard button for the role's own dashboard, New Ticket
   * for everyone, then the admin-only buttons for admins. A button is
   * highlighted exactly when its path is the current one.
   */
  function Menu(role: Option<string>, pathname: string): (r: seq<Item>)
    ensures |r| >= 2 && r[0].caption == "Dashboard" && r[1].caption == "New Ticket" && r[1].target == "/new-ticket"
    ensures r[0].target == (if IsAdmin(role) then "/" else "/technician-dashboard")
    ensures IsAdmin(role) ==>
              (|r| == 2 + |AdminOnly| &&
               forall k :: 0 <= k < |AdminOnly| ==> (r[2 + k].caption, r[2 + k].target) == AdminOnly[k])
    ensures !IsAdmin(role) ==> |r| == 2
  {
    var dashboard := if IsAdmin(role) then "/" else "/technician-dashboard";
    [Button("Dashboard", dashboard, pathname), Button("New Ticket", "/new-ticket", pathname)] +
    (if IsAdmin(role) then seq(|AdminOnly|, k requires 0 <= k < |AdminOnly| => Button(AdminOnly[k].0, AdminOnly[k].1, pathname))
     else [])
  }

  /** A button is highlighted exactly when its path is the current one. */
  lemma HighlightedIffCurrent(role: Option<string>, pathname: string)
    ensures forall k :: 0 <= k < |Menu(role, pathname)| ==>
      (Menu(role, pathname)[k].highlighted <==> Menu(role, pathname)[k].target == pathname)
  {
  }

  /** The menu's targets are distinct, so at most one button is highlighted. */
  lemma AtMostOneHighlighted(role: Option<string>, pathname: string, a: nat, b: nat)
    requires a < b < |Menu(role, pathname)|
    ensures !(Menu(role, pathname)[a].highlighted && Menu(role, pathname)[b].highlighted)
  {
    var m := Menu(role, pathname);
    HighlightedIffCurrent(role, pathname);
    if m[a].highlighted && m[b].highlighted {
      assert m[a].target == m[b].target;
      DistinctTargets(role, pathname, a, b);
    }
  }

  lemma DistinctTargets(role: Option<string>, pathname: string, a: nat, b: nat)
    requires a < b < |Menu(role, pathname)|
    ensures Menu(role, pathname)[a].target != Menu(role, pathname)[b].target
  {
    if b >= 2 {
      assert role == Some("admin");
      AdminButtonDistinct(pathname, a, b);
    }
  }

  /** An admin-only button's path differs from every earlier button's. */
  lemma AdminButtonDistinct(pathname: string, a: nat, b: nat)
    requires a < b && 2 <= b < |Menu(Some("admin"), pathname)|
    ensures Menu(Some("admin"), pathname)[a].target != Menu(Some("admin"), pathname)[b].target
  {
    if a < 2 {
      AdminButtonAfterFixed(pathname, a, b);
    } else {
      AdminButtonsApart(pathname, a, b);
    }
  }

  lemma AdminButtonAfterFixed(pathname: string, a: nat, b: nat)
    requires a < 2 <= b < |Menu(Some("admin"), pathname)|
    ensures Menu(Some("admin"), pathname)[a].target != Menu(Some("admin"), pathname)[b].target
  {
    AdminMenuTarget(pathname, b);
    AdminTargetNotTechnicians(b - 2);
  }

  lemma AdminButtonsApart(pathname: string, a: nat, b: nat)
    requires 2 <= a < b < |Menu(Some("admin"), pathname)|
    ensures Menu(Some("admin"), pathname)[a].target != Menu(Some("admin"), pathname)[b].target
  {
    AdminMenuTarget(pathname, a);
    AdminMenuTarget(pathname, b);
    AdminPathsDistinct(a - 2, b - 2);
  }

  /** The admin-only buttons open distinct paths. */
  lemma AdminPathsDistinct(i: nat, j: nat)
    requires i < j < |AdminOnly|
    ensures AdminOnly[i].1 != AdminOnly[j].1
  {
    assert AdminOnly[i].1[1] != AdminOnly[j].1[1] || |AdminOnly[i].1| != |AdminOnly[j].1|;
  }

  /** A technician's menu holds their dashboard and the new-ticket page. */
  lemma TechnicianMenu(pathname: string)
    ensures |Menu(Some("technician"), pathname)| == 2
    ensures Menu(Some("technician"), pathname)[0].target == "/technician-dashboard"
  {
    assert !IsAdmin(Some("technician")) by { assert "technician"[0] != "admin"[0]; }
  }

  /** The redirect leaves a technician on either of their menu's pages. */
  lemma TechnicianStays(pathname: string, k: nat)
    requires k < 2
    ensures Redirect(Some("technician"), Menu(Some("technician"), pathname)[k].target).None?
  {
    TechnicianMenu(pathname);
    OwnPagesContained();
  }

  /** The page at `target` is a protected route whose guard lets the visitor through. */
  predicate Opens(s: Routes.GuardState, target: string) {
    Routes.AllowedRoles(target).Some? && Routes.Protect(s, Routes.AllowedRoles(target).value) == Routes.Children
  }

  /** The routes of a technician's two pages admit a signed-in technician. */
  lemma TechnicianAdmitted(s: Routes.GuardState, target: string)
    requires s.error.None? && s.isAuthenticated == Some(true) && s.userRole == Some("technician")
    requires target == "/technician-dashboard" || target == "/new-ticket"
    ensures Opens(s, target)
  {
    Routes.RouteRoles();
    assert "technician" in ["technician"];
    assert "technician" in ["admin", "technician"];
  }

  /** Every button a technician sees opens a page the redirect leaves them on and the route admits them to. */
  lemma TechnicianMenuReachable(pathname: string, k: nat, s: Routes.GuardState)
    requires k < |Menu(Some("technician"), pathname)|
    requires s.error.None? && s.isAuthenticated == Some(true) && s.userRole == Some("technician")
    ensures Redirect(Some("technician"), Menu(Some("technician"), pathname)[k].target).None?
    ensures Opens(s, Menu(Some("technician"), pathname)[k].target)
  {
    TechnicianMenu(pathname);
    TechnicianStays(pathname, k);
    TechnicianAdmitted(s, Menu(Some("technician"), pathname)[k].target);
  }

  /** The route entry for each admin-only button's path. */
  lemma AdminTargetRouted(j: nat)
    requires j < |AdminOnly|
    ensures exists i :: 0 <= i < |Routes.Protected| && Routes.Protected[i].0 == AdminOnly[j].1
  {
    var ws := [3, 2, 10, 4, 7, 8, 9];
    assert Routes.Protected[ws[j]].0 == AdminOnly[j].1;
  }

  /** No admin-only button opens one of the technician's two pages. */
  lemma AdminTargetNotTechnicians(j: nat)
    requires j < |AdminOnly|
    ensures AdminOnly[j].1 != "/" && AdminOnly[j].1 != "/technician-dashboard" && AdminOnly[j].1 != "/new-ticket"
  {
    assert |AdminOnly[j].1| > 1 && AdminOnly[j].1[1] != 'n' && |AdminOnly[j].1| != 21;
  }

  /** The routes of the admin-only buttons admit a signed-in admin. */
  lemma AdminAdmitted(s: Routes.GuardState, j: nat)
    requires j < |AdminOnly|
    requires s.error.None? && s.isAuthenticated == Some(true) && s.userRole == Some("admin")
    ensures Opens(s, AdminOnly[j].1)
  {
    var target := AdminOnly[j].1;
    AdminTargetRouted(j);
    AdminTargetNotTechnicians(j);
    Routes.OtherRoutesAdmitAdmins();
    var roles := Routes.AllowedRoles(target).value;
    var i :| 0 <= i < |Routes.Protected| && Routes.Protected[i] == (target, roles);
    assert "admin" in ["admin"];
  }

  /** An admin's menu continues with the admin-only buttons. */
  lemma AdminMenuTarget(pathname: string, k: nat)
    requires 2 <= k < |Menu(Some("admin"), pathname)|
    ensures k - 2 < |AdminOnly| && Menu(Some("admin"), pathname)[k].target == AdminOnly[k - 2].1
  {
  }

  /** Each admin-only button's path is opened to an admin. */
  lemma AdminPathOpens(s: Routes.GuardState, target: string)
    requires exists j :: 0 <= j < |AdminOnly| && AdminOnly[j].1 == target
    requires s.error.None? && s.isAuthenticated == Some(true) && s.userRole == Some("admin")
    ensures Opens(s, target)
  {
    var j :| 0 <= j < |AdminOnly| && AdminOnly[j].1 == target;
    AdminAdmitted(s, j);
  }

  /** Every admin-only button opens a page whose route admits an admin. */
  lemma AdminMenuReachable(pathname: string, k: nat, s: Routes.GuardState)
    requires 2 <= k < |Menu(Some("admin"), pathname)|
    requires s.error.None? && s.isAuthenticated == Some(true) && s.userRole == Some("admin")
    ensures Opens(s, Menu(Some("admin"), pathname)[k].target)
  {
    AdminMenuTarget(pathname, k);
    AdminPathOpens(s, Menu(Some("admin"), pathname)[k].target);
  }
}
