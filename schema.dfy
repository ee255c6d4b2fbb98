/**
 * The backend tables the dashboards read and write, and the row types they
 * hold. The hosted database is modelled as one object whose fields are the
 * tables; every handler is one atomic step on it.
 */
module Schema {
  import opened Wrappers
  import opened Tables
  import opened Clock

  /** `employees`: one row per person, keyed by the auth identity. */
  datatype Employee = Employee(
    fullName: string,
    email: string,
    role: string,
    department: string,
    managerId: Option<Id>)

  /** Approval status of an attendance record or a leave request. */
  datatype Status = Pending | Approved | Rejected
  {
    /** The string stored in the `status` column. */
    function Name(): (s: string)
      ensures s == "pending" <==> this == Pending
      ensures s == "approved" <==> this == Approved
      ensures s == "rejected" <==> this == Rejected
    {
      match this
      case Pending => "pending"
      case Approved => "approved"
      case Rejected => "rejected"
    }
  }

  /** A geolocation fix, stored as `POINT(lng lat)`. */
  datatype Location = Location(lng: real, lat: real)

  /** `attendance`: one sign-in and sign-out cycle with its approval status. */
  datatype AttendanceRecord = AttendanceRecord(
    employeeId: Id,
    signinTime: Millis,
    signinLocation: Option<Location>,
    selfieUrl: Option<string>,
    signoutTime: Option<Millis>,
    signoutLocation: Option<Location>,
    status: Status,
    approvedBy: Option<Id>)

  /** The four leave kinds; each has a `<kind>_leaves` counter in `leave_balances`. */
  datatype LeaveType = Casual | Sick | Earned | Compensatory

  /** `leaves`: a request filed from the employee's leave form and decided by the manager. */
  datatype Leave = Leave(
    employeeId: Id,
    leaveType: LeaveType,
    startDate: Day,
    endDate: Day,
    reason: string,
    documentUrl: string,
    status: Status,
    approvedBy: Option<Id>,
    approvedAt: Option<Millis>,
    appliedAt: Millis)

  /** `leave_applications`: the request table the admin dashboard lists and decides. */
  datatype LeaveApplication = LeaveApplication(
    employeeId: Id,
    startDate: Day,
    endDate: Day,
    reason: string,
    totalDays: int,
    status: Status)

  /**
   * `leave_balances`: the counters of one employee. A kind that is absent from
   * `counters` is a null column.
   */
  datatype BalanceRow = BalanceRow(counters: map<LeaveType, int>, updatedAt: Option<Millis>)

  /** The sort key of `.order('signin_time', { ascending: false })`: newest sign-in first. */
  function SigninDescending(r: Row<AttendanceRecord>): int
  {
    -r.val.signinTime
  }

  /** `holidays`: one admin-managed date. */
  datatype Holiday = Holiday(date: Day, name: string, description: string)

  /**
   * `row?.<kind>_leaves || fallback`: the stored counter when there is a row and
   * the counter is neither null nor 0, the fallback otherwise.
   */
  function CounterOr(row: Option<BalanceRow>, t: LeaveType, fallback: int): (v: int)
    ensures row.Some? && t in row.value.counters && row.value.counters[t] != 0 ==> v == row.value.counters[t]
    ensures !(row.Some? && t in row.value.counters && row.value.counters[t] != 0) ==> v == fallback
  {
    match row
    case None => fallback
    case Some(b) => if t in b.counters && b.counters[t] != 0 then b.counters[t] else fallback
  }

  /** `data?.role || 'employee'`: a missing row or an empty role reads as `employee`. */
  function RoleOrEmployee(e: Option<Employee>): (role: string)
    ensures role != ""
    ensures e.Some? && e.value.role != "" ==> role == e.value.role
    ensures e.None? || e.value.role == "" ==> role == "employee"
  {
    if e.Some? && e.value.role != "" then e.value.role else "employee"
  }

  /** The hosted database: every table the dashboards touch. */
  class Database {
    var employees: seq<Row<Employee>>
    var attendance: seq<Row<AttendanceRecord>>
    var leaves: seq<Row<Leave>>
    var leaveApplications: seq<Row<LeaveApplication>>
    var balances: map<Id, BalanceRow>
    var holidays: seq<Row<Holiday>>
    /** The key the backend hands to the next inserted row. */
    var nextId: nat

    /** Every row table satisfies its primary-key constraint, and `nextId` is fresh in all of them. */
    ghost predicate Valid()
      reads this
    {
      && DistinctIds(employees)
      && Keyed(attendance, nextId)
      && Keyed(leaves, nextId)
      && Keyed(leaveApplications, nextId)
      && Keyed(holidays, nextId)
    }

    constructor ()
      ensures Valid()
      ensures employees == [] && attendance == [] && leaves == [] && leaveApplications == []
      ensures balances == map[] && holidays == []
    {
      employees, attendance, leaves, leaveApplications := [], [], [], [];
      balances, holidays := map[], [];
      nextId := 0;
    }

    /** `.from('attendance').insert(rec)`: one new row under a fresh key. */
    method InsertAttendance(rec: AttendanceRecord) returns (id: Id)
      requires Valid()
      modifies this`attendance, this`nextId
      ensures Valid()
      ensures id == old(nextId) && nextId == old(nextId) + 1
      ensures attendance == old(attendance) + [Row(id, rec)]
      ensures forall i :: 0 <= i < |old(attendance)| ==> old(attendance)[i].id != id
    {
      id := nextId;
      AppendKeepsKeyed(attendance, nextId, rec);
      attendance := attendance + [Row(id, rec)];
      nextId := nextId + 1;
    }

    /** `.from('leaves').insert(leave)`: one new row under a fresh key. */
    method InsertLeave(leave: Leave) returns (id: Id)
      requires Valid()
      modifies this`leaves, this`nextId
      ensures Valid()
      ensures id == old(nextId) && nextId == old(nextId) + 1
      ensures leaves == old(leaves) + [Row(id, leave)]
      ensures forall i :: 0 <= i < |old(leaves)| ==> old(leaves)[i].id != id
    {
      id := nextId;
      AppendKeepsKeyed(leaves, nextId, leave);
      leaves := leaves + [Row(id, leave)];
      nextId := nextId + 1;
    }

    /** `.from('holidays').insert([h])`: one new row under a fresh key. */
    method InsertHoliday(h: Holiday) returns (id: Id)
      requires Valid()
      modifies this`holidays, this`nextId
      ensures Valid()
      ensures id == old(nextId) && nextId == old(nextId) + 1
      ensures holidays == old(holidays) + [Row(id, h)]
      ensures forall i :: 0 <= i < |old(holidays)| ==> old(holidays)[i].id != id
    {
      id := nextId;
      AppendKeepsKeyed(holidays, nextId, h);
      holidays := holidays + [Row(id, h)];
      nextId := nextId + 1;
    }
  }
}
