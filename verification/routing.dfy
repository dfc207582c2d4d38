/**
 The route gate (`ProtectedRoute`) and the application's route table: which page a path shows to
 which user, and where everyone else is sent.
 */
module Routing {
  import opened Wrappers
  import opened Session

  /** The router state a redirect carries: the path it came from and, on a role denial, the roles
      the route asked for. */
  datatype RedirectState = RedirectState(from: string, requiredRoles: Option<seq<string>>)

  /** A `<Navigate>`: target, whether it replaces the history entry, and its state. */
  datatype Redirect = Redirect(to: string, replace: bool, state: Option<RedirectState>)

  datatype Decision = Render | Navigate(redirect: Redirect)

  /** `roles.some(role => hasRole(role))`, with the context's `hasRole`. */
  function AnyHeld(user: Option<User>, roles: seq<string>): (r: bool)
    ensures r <==> exists i :: 0 <= i < |roles| && Session.HasRole(user, roles[i])
  {
    if |roles| == 0 then false
    else if Session.HasRole(user, roles[0]) then true
    else
      var r := AnyHeld(user, roles[1..]);
      assert r ==> exists i :: 0 <= i < |roles| && Session.HasRole(user, roles[i]) by {
        if r {
          var i :| 0 <= i < |roles[1..]| && Session.HasRole(user, roles[1..][i]);
          assert roles[i + 1] == roles[1..][i];
        }
      }
      assert (exists i :: 0 <= i < |roles| && Session.HasRole(user, roles[i])) ==> r by {
        if exists i :: 0 <= i < |roles| && Session.HasRole(user, roles[i]) {
          var i :| 0 <= i < |roles| && Session.HasRole(user, roles[i]);
          assert i > 0 && roles[1..][i - 1] == roles[i];
        }
      }
      r
  }

  const LoginPath := "/login"
  const UnauthorizedPath := "/unauthorized"

  /** `ProtectedRoute` for the user, its `requiredRoles`, its `redirectTo` (absent means '/login') and
      the current path. */
  function Gate(user: Option<User>, requiredRoles: Option<seq<string>>, redirectTo: Option<string>,
                location: string): (d: Decision)
    ensures !IsAuthenticated(user) ==>
      d == Navigate(Redirect(redirectTo.GetOr(LoginPath), true, Some(RedirectState(location, None))))
    ensures IsAuthenticated(user) ==>
      (d == Render <==> requiredRoles.None? || requiredRoles.value == []
                        || exists i :: 0 <= i < |requiredRoles.value| && Session.HasRole(user, requiredRoles.value[i]))
    ensures IsAuthenticated(user) && d != Render ==>
      d == Navigate(Redirect(UnauthorizedPath, true, Some(RedirectState(location, requiredRoles))))
  {
    if !IsAuthenticated(user) then
      Navigate(Redirect(redirectTo.GetOr(LoginPath), true, Some(RedirectState(location, None))))
    else if requiredRoles.Some? && |requiredRoles.value| > 0 && !AnyHeld(user, requiredRoles.value) then
      Navigate(Redirect(UnauthorizedPath, true, Some(RedirectState(location, requiredRoles))))
    else
      Render
  }

  /** Authentication is checked first: without a user the role list makes no difference. */
  lemma AuthenticationFirst(rs1: Option<seq<string>>, rs2: Option<seq<string>>, redirectTo: Option<string>,
                            location: string)
    ensures Gate(None, rs1, redirectTo, location) == Gate(None, rs2, redirectTo, location)
    ensures Gate(None, rs1, redirectTo, location).Navigate?
  {
  }

  /** An authenticated admin passes every role list, empty or not. */
  lemma AdminPassesEveryList(u: User, rs: Option<seq<string>>, redirectTo: Option<string>, location: string)
    requires u.role == Admin
    ensures Gate(Some(u), rs, redirectTo, location) == Render
  {
    if rs.Some? && |rs.value| > 0 {
      assert Session.HasRole(Some(u), rs.value[0]);
    }
  }

  /** An empty role list is no role list. */
  lemma EmptyListIsNoList(user: Option<User>, redirectTo: Option<string>, location: string)
    ensures Gate(user, Some([]), redirectTo, location) == Gate(user, None, redirectTo, location)
  {
  }

  /** The check is `some`: a non-empty list that admits a user still admits them once it holds
      more roles (any list containing all of its roles). */
  lemma MoreRolesNeverDeny(user: Option<User>, rs: seq<string>, more: seq<string>, redirectTo: Option<string>,
                           location: string)
    requires |rs| > 0
    requires forall i :: 0 <= i < |rs| ==> rs[i] in more
    requires Gate(user, Some(rs), redirectTo, location) == Render
    ensures Gate(user, Some(more), redirectTo, location) == Render
  {
    var i :| 0 <= i < |rs| && Session.HasRole(user, rs[i]);
    var j :| 0 <= j < |more| && more[j] == rs[i];
  }

  /** The pages the table mounts. */
  datatype Page =
    | LoginPage | RegisterPage | UnauthorizedPage | DashboardPage
    | InvoiceListPage | InvoiceUploadPage | InvoiceDetailPage(id: string)
    | ReportsPage | CategoriesPage

  /** What a path matches: a page shown to anyone, a page behind the gate, or a redirect. */
  datatype Route = Public(page: Page) | Guarded(requiredRoles: Option<seq<string>>, page: Page) | Forward(to: string)

  const InvoiceRoles: seq<string> := ["uploader", "accountant", "admin"]
  const ReportRoles: seq<string> := ["accountant", "admin"]
  const SettingsRoles: seq<string> := ["admin"]

  const InvoicesPrefix := "/invoices/"

  /** `/invoices/:id`: the prefix followed by one non-empty segment. */
  predicate IsInvoiceDetailPath(path: string) {
    |path| > |InvoicesPrefix| && path[..|InvoicesPrefix|] == InvoicesPrefix && '/' !in path[|InvoicesPrefix|..]
  }

  /** The `<Routes>` table. A static path outranks the `:id` pattern, and `/` and every other path
      fall through to the dashboard redirect. */
  function Match(path: string): (r: Route)
    ensures r.Public? <==> IsPublicPath(path)
    ensures r.Forward? <==> !IsKnownPath(path)
    ensures r.Forward? ==> r.to == "/dashboard"
    ensures r.Guarded? ==> (r.requiredRoles.None? <==> path == "/dashboard")
    ensures r.Guarded? && r.requiredRoles.Some? ==> "admin" in r.requiredRoles.value
  {
    if path == "/login" then Public(LoginPage)
    else if path == "/register" then Public(RegisterPage)
    else if path == "/unauthorized" then Public(UnauthorizedPage)
    else if path == "/dashboard" then Guarded(None, DashboardPage)
    else if path == "/invoices" then Guarded(Some(InvoiceRoles), InvoiceListPage)
    else if path == "/invoices/upload" then Guarded(Some(InvoiceRoles), InvoiceUploadPage)
    else if IsInvoiceDetailPath(path) then Guarded(Some(InvoiceRoles), InvoiceDetailPage(path[|InvoicesPrefix|..]))
    else if path == "/reports" then Guarded(Some(ReportRoles), ReportsPage)
    else if path == "/settings/categories" then Guarded(Some(SettingsRoles), CategoriesPage)
    else Forward("/dashboard")
  }

  datatype Visit = Shows(page: Page) | Redirected(redirect: Redirect)

  /** Visiting a path: the matched element, with the gate applied to guarded pages. */
  function VisitPath(user: Option<User>, path: string): (v: Visit)
    ensures IsPublicPath(path) ==> v.Shows?
    ensures user.None? && v.Shows? ==> IsPublicPath(path)
    ensures user.Some? && user.value.role == Admin ==> (v.Shows? <==> IsKnownPath(path))
  {
    match Match(path)
    case Public(p) => Shows(p)
    case Guarded(rs, p) =>
      (match Gate(user, rs, None, path)
       case Render => Shows(p)
       case Navigate(r) => Redirected(r))
    case Forward(to) => Redirected(Redirect(to, true, None))
  }

  predicate IsPublicPath(path: string) {
    path == "/login" || path == "/register" || path == "/unauthorized"
  }

  /** Every path the table names, other than `/`. */
  predicate IsKnownPath(path: string) {
    || IsPublicPath(path) || path == "/dashboard" || path == "/invoices" || path == "/invoices/upload"
    || IsInvoiceDetailPath(path) || path == "/reports" || path == "/settings/categories"
  }

  /** Who may see what, written as a table of exceptions: every known page is open to every role
      except reports (no uploaders) and the category settings (admins only). */
  predicate MayVisit(role: Role, path: string) {
    && IsKnownPath(path)
    && (path == "/reports" ==> role != Uploader)
    && (path == "/settings/categories" ==> role == Admin)
  }

  /** The table shows a signed-in user exactly the pages `MayVisit` allows; a denial sends them to
      '/unauthorized' with the roles the route asked for. */
  lemma SignedInAccess(u: User, path: string)
    ensures VisitPath(Some(u), path).Shows? <==> MayVisit(u.role, path)
    ensures IsKnownPath(path) && !MayVisit(u.role, path) ==>
      VisitPath(Some(u), path).redirect.to == UnauthorizedPath
      && VisitPath(Some(u), path).redirect.state == Some(RedirectState(path, Match(path).requiredRoles))
  {
    RoleListsHeld(u);
    if path == "/reports" {
      assert |path| < |InvoicesPrefix|;
    } else if path == "/settings/categories" {
      assert path[1] == 's' && InvoicesPrefix[1] == 'i';
      assert path[..|InvoicesPrefix|][1] == path[1];
    }
  }

  /** Which of the table's role lists a signed-in user holds. */
  lemma RoleListsHeld(u: User)
    ensures AnyHeld(Some(u), InvoiceRoles)
    ensures AnyHeld(Some(u), ReportRoles) <==> u.role != Uploader
    ensures AnyHeld(Some(u), SettingsRoles) <==> u.role == Admin
  {
    var user := Some(u);
    assert Session.HasRole(user, InvoiceRoles[RoleSlot(u.role)]);
    if u.role != Uploader {
      assert Session.HasRole(user, ReportRoles[RoleSlot(u.role) - 1]);
    } else {
      assert !Session.HasRole(user, ReportRoles[0]) && !Session.HasRole(user, ReportRoles[1]);
    }
    if u.role != Admin {
      assert !Session.HasRole(user, SettingsRoles[0]);
    }
  }

  /** Where a role's name sits in the invoice routes' list. */
  function RoleSlot(r: Role): (k: nat)
    ensures k < |InvoiceRoles| && InvoiceRoles[k] == RoleName(r)
  {
    match r
    case Uploader => 0
    case Accountant => 1
    case Admin => 2
  }

  /** The menu's five destinations, per role. */
  lemma MenuDestinations(u: User)
    ensures VisitPath(Some(u), "/dashboard").Shows?
    ensures VisitPath(Some(u), "/invoices").Shows?
    ensures VisitPath(Some(u), "/invoices/upload").Shows?
    ensures VisitPath(Some(u), "/reports").Shows? <==> u.role != Uploader
    ensures VisitPath(Some(u), "/settings/categories").Shows? <==> u.role == Admin
  {
    SignedInAccess(u, "/dashboard");
    SignedInAccess(u, "/invoices");
    SignedInAccess(u, "/invoices/upload");
    SignedInAccess(u, "/reports");
    SignedInAccess(u, "/settings/categories");
  }

  /** Signed out, only the public pages show; a guarded page redirects to '/login', remembering the
      path. */
  lemma SignedOutAccess(path: string)
    ensures VisitPath(None, path).Shows? <==> IsPublicPath(path)
    ensures IsKnownPath(path) && !IsPublicPath(path) ==>
      VisitPath(None, path) == Redirected(Redirect(LoginPath, true, Some(RedirectState(path, None))))
  {
  }

  /** `/` and every path the table does not name redirect to '/dashboard', for everyone. */
  lemma UnknownPathsGoToDashboard(user: Option<User>, path: string)
    requires !IsKnownPath(path)
    ensures VisitPath(user, path) == Redirected(Redirect("/dashboard", true, None))
  {
  }

  /** The public pages show whoever asks, and '/dashboard' needs a session only. */
  lemma PublicAndDashboard(user: Option<User>, path: string)
    ensures IsPublicPath(path) ==> VisitPath(user, path).Shows?
    ensures VisitPath(user, "/dashboard").Shows? <==> IsAuthenticated(user)
  {
  }
}
