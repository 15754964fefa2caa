/**
 * The route guard and the route table: every page sits behind a guard that
 * needs a signed-in user, and the employees page behind a second guard that
 * needs the admin role.
 */
module Routes {
  import opened Common
  import opened Auth
  import EmployeeData

  datatype Decision = RedirectToLogin | RedirectToDashboard | Render

  /** A required role is present only when it is a non-empty string. */
  predicate HasRequirement(requiredRole: Option<string>) {
    requiredRole.Some? && requiredRole.value != ""
  }

  /**
   * `ProtectedRoute`: no user goes to the login page; a user who is neither
   * of the required role nor an admin goes to the dashboard; anyone else
   * sees the page.
   */
  function Guard(user: Option<User>, requiredRole: Option<string>): (d: Decision)
    ensures user.None? ==> d == RedirectToLogin
    ensures user.Some? && user.value.role == "admin" ==> d == Render
    ensures user.Some? && !HasRequirement(requiredRole) ==> d == Render
    ensures d == RedirectToDashboard <==>
              user.Some? && HasRequirement(requiredRole)
              && user.value.role != requiredRole.value && user.value.role != "admin"
  {
    if user.None? then RedirectToLogin
    else if HasRequirement(requiredRole) && user.value.role != requiredRole.value && user.value.role != "admin" then
      RedirectToDashboard
    else Render
  }

  datatype Page = Dashboard | Customers | Inventory | Sales | ServiceOrders | Employees | NotFound

  /** The role each page under the layout requires: only the employees page has one. */
  function PageRole(p: Page): Option<string> {
    if p == Employees then Some("admin") else None
  }

  /**
   * Reaching a page under the layout: the layout's guard (no role) runs
   * first, then the page's own guard if it has one.
   */
  function Access(user: Option<User>, p: Page): Decision {
    var outer := Guard(user, None);
    if outer != Render then outer
    else if PageRole(p).Some? then Guard(user, PageRole(p))
    else Render
  }

  /** Only admins reach the employees page; other signed-in users go to the dashboard. */
  lemma EmployeesPageAdminOnly(user: Option<User>)
    ensures Access(user, Employees) == Render <==> user.Some? && user.value.role == "admin"
    ensures user.Some? && user.value.role != "admin" ==> Access(user, Employees) == RedirectToDashboard
  {
  }

  /** Every other page is open to any signed-in user. */
  lemma OtherPagesNeedOnlyLogin(user: Option<User>, p: Page)
    requires p != Employees
    ensures Access(user, p) == (if user.Some? then Render else RedirectToLogin)
  {
  }

  /** Signed out, every page redirects to the login page. */
  lemma SignedOutGoesToLogin(p: Page)
    ensures Access(None, p) == RedirectToLogin
  {
  }

  /**
   * With the seed roster, the administrator who signs in reaches the
   * employees page, and the salesperson is sent to the dashboard.
   */
  lemma SeedRolesOnEmployeesPage()
    ensures Access(LoginOutcome(EmployeeData.SeedEmployees, "admin@clickcelulares.com", DemoPassword), Employees) == Render
    ensures Access(LoginOutcome(EmployeeData.SeedEmployees, "vendas@clickcelulares.com", DemoPassword), Employees) == RedirectToDashboard
  {
    SeedEmployeesCanLogin();
    var seed := EmployeeData.SeedEmployees;
    assert LoginOutcome(seed, seed[0].email, DemoPassword) == Some(ToUser(seed[0]));
    assert LoginOutcome(seed, seed[1].email, DemoPassword) == Some(ToUser(seed[1]));
  }

  /** After logout no page is reachable without going through the login page. */
  method LogoutLocksEveryPage(auth: AuthProvider, p: Page) returns (d: Decision)
    modifies auth
    ensures auth.user == None
    ensures d == RedirectToLogin
  {
    auth.Logout();
    d := Access(auth.user, p);
  }
}
