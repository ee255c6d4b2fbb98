/**
 * The application shell: the signed-in user's role, the dashboard the role
 * selects, the screen shown while loading or signed out, and logout.
 */
module App {
  import opened Wrappers
  import opened Tables
  import opened Schema

  /** The three dashboards a role can open. */
  datatype Dashboard = AdminView | ManagerView | EmployeeView

  /** The roles the shell knows. */
  predicate KnownRole(role: string)
  {
    role in {"admin", "manager", "employee", "hr", "temp_vendor"}
  }

  /** The role-to-dashboard mapping: hr shares the admin view, temp_vendor the employee view. */
  function DashboardFor(role: string): (d: Option<Dashboard>)
    ensures d == Some(AdminView) <==> role == "admin" || role == "hr"
    ensures d == Some(ManagerView) <==> role == "manager"
    ensures d == Some(EmployeeView) <==> role == "employee" || role == "temp_vendor"
    ensures d.None? <==> !KnownRole(role)
  {
    if role == "admin" || role == "hr" then Some(AdminView)
    else if role == "manager" then Some(ManagerView)
    else if role == "employee" || role == "temp_vendor" then Some(EmployeeView)
    else None
  }

  /** One `{userRole === r && <View />}` line of the page body. */
  function RenderIf(role: Option<string>, r: string, view: Dashboard): seq<Dashboard>
  {
    if role == Some(r) then [view] else []
  }

  /** The page body: the five role checks in the order they are written. */
  function RenderedDashboards(role: Option<string>): seq<Dashboard>
  {
    RenderIf(role, "admin", AdminView) + RenderIf(role, "manager", ManagerView)
    + RenderIf(role, "employee", EmployeeView) + RenderIf(role, "hr", AdminView)
    + RenderIf(role, "temp_vendor", EmployeeView)
  }

  /**
   * The five independent checks render at most one dashboard, the one the mapping
   * selects, and none for a missing or unknown role.
   */
  lemma RenderedMatchesMapping(role: Option<string>)
    ensures role.None? ==> RenderedDashboards(role) == []
    ensures role.Some? && DashboardFor(role.value).None? ==> RenderedDashboards(role) == []
    ensures role.Some? && DashboardFor(role.value).Some? ==>
      RenderedDashboards(role) == [DashboardFor(role.value).value]
  {
  }

  /** What the shell shows. */
  datatype Screen = Spinner | LoginScreen | Home(dashboards: seq<Dashboard>)

  /** The outcome of the role query, or a failure of the call itself. */
  datatype RoleLookup = LookupFailed | LookupDone(row: Option<Employee>)

  /** `fetchUserRole`: the looked-up role, or `employee` on an error, a missing row or an empty role. */
  function ResolvedRole(lookup: RoleLookup): (role: string)
    ensures role != ""
    ensures lookup.LookupFailed? ==> role == "employee"
    ensures lookup.LookupDone? ==> role == RoleOrEmployee(lookup.row)
  {
    match lookup
    case LookupFailed => "employee"
    case LookupDone(row) => RoleOrEmployee(row)
  }

  /** The shell's component state. */
  class AppState {
    const db: Database
    var session: Option<Id>
    var userRole: Option<string>
    var loading: bool
    var email: string
    var password: string

    constructor (db: Database)
      ensures this.db == db
      ensures session.None? && userRole.None? && loading && email == "" && password == ""
    {
      this.db := db;
      session := None;
      userRole := None;
      loading := true;
      email := "";
      password := "";
    }

    /** What the shell renders: the spinner while loading, the login screen without a session. */
    function CurrentScreen(): (s: Screen)
      reads this
      ensures loading ==> s == Spinner
      ensures !loading && session.None? ==> s == LoginScreen
      ensures !loading && session.Some? ==> s == Home(RenderedDashboards(userRole))
    {
      if loading then Spinner
      else if session.None? then LoginScreen
      else Home(RenderedDashboards(userRole))
    }

    /** The role query for `userId` against the employees table: its row, when there is one. */
    function RoleQuery(userId: Id): (r: RoleLookup)
      reads this, db
      ensures r.LookupDone?
      ensures r.row.Some? ==> Row(userId, r.row.value) in db.employees
      ensures r.row.None? <==> forall i :: 0 <= i < |db.employees| ==> db.employees[i].id != userId
    {
      LookupDone(Lookup(db.employees, userId))
    }

    /**
     * `fetchUserRole`: queries the role of `userId` (`failed` when the call itself
     * errs), stores the resolved role and ends loading.
     */
    method FetchUserRole(userId: Id, failed: bool)
      modifies this`userRole, this`loading
      ensures failed ==> userRole == Some("employee")
      ensures !failed ==> userRole == Some(ResolvedRole(RoleQuery(userId)))
      ensures !failed ==> userRole == Some(RoleOrEmployee(Lookup(db.employees, userId)))
      ensures !loading
    {
      var lookup := if failed then LookupFailed else RoleQuery(userId);
      userRole := Some(ResolvedRole(lookup));
      loading := false;
    }

    /**
     * The session callbacks (`getSession`, `onAuthStateChange`): with a session the
     * role of its user is fetched (`failed` when that query errs). Without one,
     * `onAuthStateChange` clears the role, while the `initial` `getSession` call
     * leaves it as it was. Either way loading ends.
     */
    method SessionChanged(s: Option<Id>, failed: bool, initial: bool)
      modifies this`session, this`userRole, this`loading
      ensures session == s && !loading
      ensures s.Some? && failed ==> userRole == Some("employee")
      ensures s.Some? && !failed ==> userRole == Some(ResolvedRole(RoleQuery(s.value)))
      ensures s.None? && initial ==> userRole == old(userRole)
      ensures s.None? && !initial ==> userRole.None?
      ensures s.None? ==> CurrentScreen() == LoginScreen
    {
      session := s;
      if s.Some? {
        FetchUserRole(s.value, failed);
      } else {
        if !initial {
          userRole := None;
        }
        loading := false;
      }
    }

    /** `handleLogout`: clears the session, the role and the login fields. */
    method HandleLogout()
      modifies this`session, this`userRole, this`email, this`password
      ensures session.None? && userRole.None? && email == "" && password == ""
      ensures loading == old(loading)
      ensures !loading ==> CurrentScreen() == LoginScreen
    {
      session := None;
      userRole := None;
      email := "";
      password := "";
    }
  }
}
