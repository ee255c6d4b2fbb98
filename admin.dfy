/**
 * The admin dashboard: enrollment of employees, the decision on leave
 * applications, the stat counts, and the status colours.
 */
module AdminDashboard {
  import opened Wrappers
  import opened Tables
  import opened Schema

  const Green: string := "#28a745"
  const Red: string := "#dc3545"
  const Amber: string := "#ffc107"
  const Grey: string := "#6c757d"

  /** `getStatusColor`: a colour per known status, grey for anything else. */
  function StatusColor(status: string): (c: string)
    ensures status == "approved" ==> c == Green
    ensures status == "rejected" ==> c == Red
    ensures status == "pending" ==> c == Amber
    ensures status !in {"approved", "rejected", "pending"} ==> c == Grey
  {
    if status == "approved" then Green
    else if status == "rejected" then Red
    else if status == "pending" then Amber
    else Grey
  }

  /** Each stored status has its own colour, and none of them is the fallback grey. */
  lemma StatusColorsDistinct(a: Status, b: Status)
    ensures StatusColor(a.Name()) != Grey
    ensures a != b ==> StatusColor(a.Name()) != StatusColor(b.Name())
  {
  }

  predicate IsPending(r: Row<LeaveApplication>)
  {
    r.val.status == Pending
  }

  predicate IsManager(e: Row<Employee>)
  {
    e.val.role == "manager"
  }

  /** The "PENDING LEAVES" card. */
  function PendingLeaveCount(requests: seq<Row<LeaveApplication>>): (n: nat)
    ensures n <= |requests|
    ensures n == |Filter(requests, IsPending)|
  {
    Count(requests, IsPending)
  }

  /** The "ACTIVE MANAGERS" card. */
  function ActiveManagerCount(employees: seq<Row<Employee>>): (n: nat)
    ensures n <= |employees|
    ensures n == |Filter(employees, IsManager)|
  {
    Count(employees, IsManager)
  }

  /** Approve and Reject are shown only on pending requests. */
  predicate ActionsOffered(r: Row<LeaveApplication>)
  {
    r.val.status == Pending
  }

  /** The applications after setting the status of `id`: only the rows with that key change, and only in status. */
  function SetApplicationStatus(rows: seq<Row<LeaveApplication>>, id: Id, status: Status): (r: seq<Row<LeaveApplication>>)
    ensures |r| == |rows|
    ensures forall i :: 0 <= i < |rows| && rows[i].id != id ==> r[i] == rows[i]
    ensures forall i :: 0 <= i < |rows| && rows[i].id == id ==> r[i].id == id && r[i].val == rows[i].val.(status := status)
  {
    Update(rows, id, (l: LeaveApplication) => l.(status := status))
  }

  /** The enrollment form. */
  datatype EnrollmentForm = EnrollmentForm(
    fullName: string,
    email: string,
    password: string,
    role: string,
    department: string)

  /** The form as it starts and as a successful enrollment leaves it. */
  const EmptyEnrollment: EnrollmentForm := EnrollmentForm("", "", "", "employee", "")

  /** How an enrollment ended. */
  datatype EnrollOutcome = Enrolled | MissingField | AuthFailed | InsertFailed

  /** The browser refuses to submit the form while a `required` field is empty. */
  predicate FormComplete(form: EnrollmentForm)
  {
    form.fullName != "" && form.email != "" && form.password != ""
  }

  /** The employee row an enrollment inserts for the new auth identity. */
  function EnrolledEmployee(form: EnrollmentForm): (e: Employee)
    ensures e.fullName == form.fullName && e.email == form.email && e.role == form.role
    ensures e.department == form.department && e.managerId.None?
  {
    Employee(form.fullName, form.email, form.role, form.department, None)
  }

  /** The admin dashboard's component state. */
  class AdminPanel {
    const db: Database
    var newEmployee: EnrollmentForm
    var employees: seq<Row<Employee>>
    var leaveRequests: seq<Row<LeaveApplication>>

    constructor (db: Database)
      ensures this.db == db
      ensures newEmployee == EmptyEnrollment && employees == [] && leaveRequests == []
    {
      this.db := db;
      newEmployee := EmptyEnrollment;
      employees := [];
      leaveRequests := [];
    }

    /** Typing into the enrollment form. */
    method Edit(f: EnrollmentForm)
      modifies this`newEmployee
      ensures newEmployee == f
    {
      newEmployee := f;
    }

    /** `fetchLeaveRequests`: reloads the list of applications. */
    method FetchLeaveRequests()
      modifies this`leaveRequests
      ensures leaveRequests == db.leaveApplications
    {
      leaveRequests := db.leaveApplications;
    }

    /** `handleApproveLeave`: the application `id` becomes approved; no balance is touched. */
    method HandleApproveLeave(id: Id)
      requires db.Valid()
      modifies db`leaveApplications, this`leaveRequests
      ensures db.Valid()
      ensures db.leaveApplications == SetApplicationStatus(old(db.leaveApplications), id, Approved)
      ensures leaveRequests == db.leaveApplications
    {
      UpdateKeepsKeyed(db.leaveApplications, id, (l: LeaveApplication) => l.(status := Approved), db.nextId);
      db.leaveApplications := SetApplicationStatus(db.leaveApplications, id, Approved);
      FetchLeaveRequests();
    }

    /** `handleRejectLeave`: the application `id` becomes rejected. */
    method HandleRejectLeave(id: Id)
      requires db.Valid()
      modifies db`leaveApplications, this`leaveRequests
      ensures db.Valid()
      ensures db.leaveApplications == SetApplicationStatus(old(db.leaveApplications), id, Rejected)
      ensures leaveRequests == db.leaveApplications
    {
      UpdateKeepsKeyed(db.leaveApplications, id, (l: LeaveApplication) => l.(status := Rejected), db.nextId);
      db.leaveApplications := SetApplicationStatus(db.leaveApplications, id, Rejected);
      FetchLeaveRequests();
    }

    /**
     * `handleAddEmployee`: the browser refuses a form with an empty name, email or
     * password. `auth` is the identity the sign-up created, or `None` when it failed.
     * The employee row is inserted under that identity (refused when the key is
     * taken), the form resets with role `employee` and the list reloads.
     */
    method HandleAddEmployee(auth: Option<Id>) returns (outcome: EnrollOutcome)
      requires db.Valid()
      modifies db`employees, this`newEmployee, this`employees
      ensures db.Valid()
      ensures outcome == MissingField <==> !FormComplete(old(newEmployee))
      ensures FormComplete(old(newEmployee)) && auth.None? ==> outcome == AuthFailed
      ensures FormComplete(old(newEmployee)) && auth.Some? && Lookup(old(db.employees), auth.value).Some? ==> outcome == InsertFailed
      ensures FormComplete(old(newEmployee)) && auth.Some? && Lookup(old(db.employees), auth.value).None? ==> outcome == Enrolled
      ensures outcome != Enrolled ==>
        db.employees == old(db.employees) && newEmployee == old(newEmployee) && employees == old(employees)
      ensures outcome == Enrolled ==>
        db.employees == old(db.employees) + [Row(auth.value, EnrolledEmployee(old(newEmployee)))]
        && newEmployee == EmptyEnrollment && employees == db.employees
    {
      if !FormComplete(newEmployee) {
        return MissingField;
      }
      if auth.None? {
        return AuthFailed;
      }
      if Lookup(db.employees, auth.value).Some? {
        return InsertFailed;
      }
      db.employees := db.employees + [Row(auth.value, EnrolledEmployee(newEmployee))];
      newEmployee := EmptyEnrollment;
      employees := db.employees;
      outcome := Enrolled;
    }
  }

  /**
   * Deciding a request the dashboard offers actions for lowers the pending card by
   * one, and the decided request no longer offers them.
   */
  lemma {:induction false} DecisionLowersPendingCount(requests: seq<Row<LeaveApplication>>, k: nat, status: Status)
    requires DistinctIds(requests)
    requires k < |requests| && ActionsOffered(requests[k])
    requires status != Pending
    ensures var after := SetApplicationStatus(requests, requests[k].id, status);
      && PendingLeaveCount(after) == PendingLeaveCount(requests) - 1
      && !ActionsOffered(after[k])
  {
    var f := (l: LeaveApplication) => l.(status := status);
    CountAfterUpdate(requests, requests[k].id, f, IsPending, k);
  }
}
