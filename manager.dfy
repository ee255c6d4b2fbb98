/**
 * The manager dashboard: the team-scoped pending lists, attendance approval,
 * leave approval with its balance deduction, and "Mark Present".
 */
module ManagerDashboard {
  import opened Wrappers
  import opened Tables
  import opened Clock
  import opened Schema

  /** The ids of the employees whose `manager_id` is `manager`. */
  function Team(employees: seq<Row<Employee>>, manager: Id): (team: set<Id>)
    ensures forall i :: 0 <= i < |employees| && employees[i].val.managerId == Some(manager) ==> employees[i].id in team
    ensures forall e :: e in team ==> exists i :: 0 <= i < |employees| && employees[i].id == e && employees[i].val.managerId == Some(manager)
  {
    set i | 0 <= i < |employees| && employees[i].val.managerId == Some(manager) :: employees[i].id
  }

  /** Newest application first (`.order('applied_at', { ascending: false })`). */
  function AppliedDescending(r: Row<Leave>): int
  {
    -r.val.appliedAt
  }

  /**
   * `fetchPendingRequests`: the pending attendance records of the manager's team,
   * newest first; an empty team gives an empty list.
   */
  function PendingAttendance(employees: seq<Row<Employee>>, attendance: seq<Row<AttendanceRecord>>, manager: Id)
    : (r: seq<Row<AttendanceRecord>>)
    ensures forall x :: x in r ==> x in attendance && x.val.status == Pending && x.val.employeeId in Team(employees, manager)
    ensures forall x :: x in attendance && x.val.status == Pending && x.val.employeeId in Team(employees, manager) ==> x in r
    ensures Team(employees, manager) == {} ==> r == []
    ensures SortedBy(r, SigninDescending)
  {
    var team := Team(employees, manager);
    if team == {} then []
    else
      var keep := (x: Row<AttendanceRecord>) => x.val.employeeId in team && x.val.status == Pending;
      var mine := Filter(attendance, keep);
      FilterMembers(attendance, keep);
      SortByMembers(mine, SigninDescending);
      SortBy(mine, SigninDescending)
  }

  /**
   * `fetchPendingLeaves`: the pending leave requests of the manager's team,
   * newest first; an empty team gives an empty list.
   */
  function PendingLeaves(employees: seq<Row<Employee>>, leaves: seq<Row<Leave>>, manager: Id)
    : (r: seq<Row<Leave>>)
    ensures forall x :: x in r ==> x in leaves && x.val.status == Pending && x.val.employeeId in Team(employees, manager)
    ensures forall x :: x in leaves && x.val.status == Pending && x.val.employeeId in Team(employees, manager) ==> x in r
    ensures Team(employees, manager) == {} ==> r == []
    ensures SortedBy(r, AppliedDescending)
  {
    var team := Team(employees, manager);
    if team == {} then []
    else
      var keep := (x: Row<Leave>) => x.val.employeeId in team && x.val.status == Pending;
      var mine := Filter(leaves, keep);
      FilterMembers(leaves, keep);
      SortByMembers(mine, AppliedDescending);
      SortBy(mine, AppliedDescending)
  }

  /**
   * The pending attendance list holds every pending record of the team exactly as
   * often as the table does, and nothing else, so its length is their number.
   */
  lemma PendingAttendanceCounts(employees: seq<Row<Employee>>, attendance: seq<Row<AttendanceRecord>>, manager: Id)
    ensures forall x :: multiset(PendingAttendance(employees, attendance, manager))[x] ==
              (if x.val.status == Pending && x.val.employeeId in Team(employees, manager) then multiset(attendance)[x] else 0)
  {
    var team := Team(employees, manager);
    if team != {} {
      var keep := (x: Row<AttendanceRecord>) => x.val.employeeId in team && x.val.status == Pending;
      FilterCounts(attendance, keep);
      assert PendingAttendance(employees, attendance, manager) == SortBy(Filter(attendance, keep), SigninDescending);
    }
  }

  /**
   * The pending leave list holds every pending leave of the team exactly as often
   * as the table does, and nothing else, so its length is their number.
   */
  lemma PendingLeavesCounts(employees: seq<Row<Employee>>, leaves: seq<Row<Leave>>, manager: Id)
    ensures forall x :: multiset(PendingLeaves(employees, leaves, manager))[x] ==
              (if x.val.status == Pending && x.val.employeeId in Team(employees, manager) then multiset(leaves)[x] else 0)
  {
    var team := Team(employees, manager);
    if team != {} {
      var keep := (x: Row<Leave>) => x.val.employeeId in team && x.val.status == Pending;
      FilterCounts(leaves, keep);
      assert PendingLeaves(employees, leaves, manager) == SortBy(Filter(leaves, keep), AppliedDescending);
    }
  }

  /** The inclusive day count of an approved leave, from its start and end dates. */
  function LeaveDays(leave: Leave): (n: int)
    ensures n == leave.endDate - leave.startDate + 1
  {
    InclusiveDaysOfDates(leave.startDate, leave.endDate);
    InclusiveDays(DayStart(leave.startDate), DayStart(leave.endDate))
  }

  /**
   * The balance row after deducting `days` of kind `t`: the counter (null read as 0)
   * minus the days, floored at zero; every other counter is kept.
   */
  function Deducted(row: BalanceRow, t: LeaveType, days: int, now: Millis): (r: BalanceRow)
    ensures r.counters.Keys == row.counters.Keys + {t}
    ensures r.counters[t] >= 0
    ensures r.counters[t] == if CounterOr(Some(row), t, 0) >= days then CounterOr(Some(row), t, 0) - days else 0
    ensures forall u :: u in row.counters && u != t ==> r.counters[u] == row.counters[u]
    ensures r.updatedAt == Some(now)
  {
    var current := CounterOr(Some(row), t, 0);
    var remaining := if current - days > 0 then current - days else 0;
    BalanceRow(row.counters[t := remaining], Some(now))
  }

  /**
   * The balance table after approving `leave` (`None` when the leave cannot be
   * read): the employee's row is deducted when there is one; without a leave or
   * without a row nothing changes.
   */
  function BalancesAfterApproval(balances: map<Id, BalanceRow>, leave: Option<Leave>, now: Millis): (r: map<Id, BalanceRow>)
    ensures r.Keys == balances.Keys
    ensures forall e :: e in balances && (leave.None? || e != leave.value.employeeId) ==> r[e] == balances[e]
    ensures leave.Some? && leave.value.employeeId in balances ==>
      r[leave.value.employeeId]
        == Deducted(balances[leave.value.employeeId], leave.value.leaveType, LeaveDays(leave.value), now)
  {
    if leave.Some? && leave.value.employeeId in balances then
      var e := leave.value.employeeId;
      balances[e := Deducted(balances[e], leave.value.leaveType, LeaveDays(leave.value), now)]
    else balances
  }

  /** The attendance record with its decision and approver. */
  function DecidedRecord(r: AttendanceRecord, status: Status, manager: Id): AttendanceRecord
  {
    r.(status := status, approvedBy := Some(manager))
  }

  /** The attendance table after deciding record `id`: only the rows with that key change, and only in status and approver. */
  function DecideAttendance(rows: seq<Row<AttendanceRecord>>, id: Id, status: Status, manager: Id): (r: seq<Row<AttendanceRecord>>)
    ensures |r| == |rows|
    ensures forall i :: 0 <= i < |rows| && rows[i].id != id ==> r[i] == rows[i]
    ensures forall i :: 0 <= i < |rows| && rows[i].id == id ==>
      r[i].id == id && r[i].val == rows[i].val.(status := status, approvedBy := Some(manager))
  {
    Update(rows, id, (a: AttendanceRecord) => DecidedRecord(a, status, manager))
  }

  /** The leave with its decision, approver and decision time. */
  function DecidedLeave(l: Leave, status: Status, manager: Id, now: Millis): Leave
  {
    l.(status := status, approvedBy := Some(manager), approvedAt := Some(now))
  }

  /** The leaves table after deciding leave `id`: only the rows with that key change, and only in the decision fields. */
  function DecideLeave(rows: seq<Row<Leave>>, id: Id, status: Status, manager: Id, now: Millis): (r: seq<Row<Leave>>)
    ensures |r| == |rows|
    ensures forall i :: 0 <= i < |rows| && rows[i].id != id ==> r[i] == rows[i]
    ensures forall i :: 0 <= i < |rows| && rows[i].id == id ==>
      r[i].id == id && r[i].val == rows[i].val.(status := status, approvedBy := Some(manager), approvedAt := Some(now))
  {
    Update(rows, id, (l: Leave) => DecidedLeave(l, status, manager, now))
  }

  /** A leave whose end is not before its start never raises the counter it is charged to. */
  lemma DeductionNeverRaises(balances: map<Id, BalanceRow>, leave: Leave, now: Millis)
    requires leave.startDate <= leave.endDate && leave.employeeId in balances
    ensures var after := BalancesAfterApproval(balances, Some(leave), now)[leave.employeeId];
      after.counters[leave.leaveType] <= CounterOr(Some(balances[leave.employeeId]), leave.leaveType, 0)
      || after.counters[leave.leaveType] == 0
  {
  }

  /**
   * Nothing on the approval path checks the order of the dates: a leave ending two
   * or more days before it starts has a negative day count, and approving it raises
   * the counter.
   */
  lemma ReversedRangeRaisesCounter(balances: map<Id, BalanceRow>, leave: Leave, now: Millis)
    requires leave.endDate + 1 < leave.startDate && leave.employeeId in balances
    ensures var after := BalancesAfterApproval(balances, Some(leave), now)[leave.employeeId];
      after.counters[leave.leaveType] > CounterOr(Some(balances[leave.employeeId]), leave.leaveType, 0)
  {
  }

  /** Recording a decision does not change what the balance deduction reads from the leave. */
  lemma DecisionKeepsDeduction(rows: seq<Row<Leave>>, id: Id, status: Status, manager: Id, now: Millis,
                               balances: map<Id, BalanceRow>, t: Millis)
    ensures BalancesAfterApproval(balances, Lookup(DecideLeave(rows, id, status, manager, now), id), t)
         == BalancesAfterApproval(balances, Lookup(rows, id), t)
  {
    LookupAfterUpdate(rows, id, (l: Leave) => DecidedLeave(l, status, manager, now));
  }

  /** `fetchTeamMembers`: the employees whose `manager_id` is `manager`. */
  function TeamMembers(employees: seq<Row<Employee>>, manager: Id): (r: seq<Row<Employee>>)
    ensures forall x :: x in r <==> x in employees && x.val.managerId == Some(manager)
  {
    var managed := (x: Row<Employee>) => x.val.managerId == Some(manager);
    FilterMembers(employees, managed);
    Filter(employees, managed)
  }

  /** The team list holds each managed employee row exactly as often as the table does. */
  lemma TeamMembersCounts(employees: seq<Row<Employee>>, manager: Id)
    ensures forall x :: multiset(TeamMembers(employees, manager))[x] ==
              (if x.val.managerId == Some(manager) then multiset(employees)[x] else 0)
  {
    var managed := (x: Row<Employee>) => x.val.managerId == Some(manager);
    FilterCounts(employees, managed);
    assert TeamMembers(employees, manager) == Filter(employees, managed);
  }

  /** The component state of the manager dashboard for the signed-in `manager`. */
  class ManagerPanel {
    const db: Database
    const manager: Id
    var pendingRequests: seq<Row<AttendanceRecord>>
    var pendingLeaves: seq<Row<Leave>>
    var teamMembers: seq<Row<Employee>>

    constructor (db: Database, manager: Id)
      ensures this.db == db && this.manager == manager
      ensures pendingRequests == [] && pendingLeaves == [] && teamMembers == []
    {
      this.db := db;
      this.manager := manager;
      pendingRequests, pendingLeaves, teamMembers := [], [], [];
    }

    /** `fetchPendingRequests`: reloads the team's pending attendance. */
    method FetchPendingRequests()
      modifies this`pendingRequests
      ensures pendingRequests == PendingAttendance(db.employees, db.attendance, manager)
    {
      pendingRequests := PendingAttendance(db.employees, db.attendance, manager);
    }

    /** `fetchPendingLeaves`: reloads the team's pending leaves. */
    method FetchPendingLeaves()
      modifies this`pendingLeaves
      ensures pendingLeaves == PendingLeaves(db.employees, db.leaves, manager)
    {
      pendingLeaves := PendingLeaves(db.employees, db.leaves, manager);
    }

    /** `fetchTeamMembers`: reloads the team list. */
    method FetchTeamMembers()
      modifies this`teamMembers
      ensures teamMembers == TeamMembers(db.employees, manager)
    {
      teamMembers := TeamMembers(db.employees, manager);
    }

    /**
     * `handleApproval`: the attendance row `id` gets `status` and the deciding
     * manager, nothing else in the table changes, and the pending list reloads.
     */
    method HandleApproval(id: Id, status: Status)
      requires db.Valid()
      modifies db`attendance, this`pendingRequests
      ensures db.Valid()
      ensures db.attendance == DecideAttendance(old(db.attendance), id, status, manager)
      ensures pendingRequests == PendingAttendance(db.employees, db.attendance, manager)
    {
      UpdateKeepsKeyed(db.attendance, id, (a: AttendanceRecord) => DecidedRecord(a, status, manager), db.nextId);
      db.attendance := DecideAttendance(db.attendance, id, status, manager);
      FetchPendingRequests();
    }

    /**
     * `updateLeaveBalance`: reads the leave `leaveId` and, when the employee has a
     * balance row, deducts the leave's days from the counter of its kind.
     */
    method UpdateLeaveBalance(leaveId: Id, now: Millis)
      modifies db`balances
      ensures db.balances == BalancesAfterApproval(old(db.balances), Lookup(db.leaves, leaveId), now)
    {
      var leave := Lookup(db.leaves, leaveId);
      db.balances := BalancesAfterApproval(db.balances, leave, now);
    }

    /**
     * `handleLeaveApproval`: the leave row `id` gets the decision, the approver and the
     * decision time; an approval then deducts the balance, any other decision leaves
     * the balances untouched; the pending list reloads.
     */
    method HandleLeaveApproval(id: Id, status: Status, now: Millis)
      requires db.Valid()
      modifies db`leaves, db`balances, this`pendingLeaves
      ensures db.Valid()
      ensures db.leaves == DecideLeave(old(db.leaves), id, status, manager, now)
      ensures status != Approved ==> db.balances == old(db.balances)
      ensures status == Approved ==> db.balances == BalancesAfterApproval(old(db.balances), Lookup(old(db.leaves), id), now)
      ensures pendingLeaves == PendingLeaves(db.employees, db.leaves, manager)
    {
      RecordLeaveDecision(id, status, now);
      pendingLeaves := PendingLeaves(db.employees, db.leaves, manager);
    }

    /**
     * The writes of `handleLeaveApproval`: the decision on the leave, then, for an
     * approval, the balance deduction of `updateLeaveBalance`.
     */
    method RecordLeaveDecision(id: Id, status: Status, now: Millis)
      requires db.Valid()
      modifies db`leaves, db`balances
      ensures db.Valid()
      ensures db.leaves == DecideLeave(old(db.leaves), id, status, manager, now)
      ensures status != Approved ==> db.balances == old(db.balances)
      ensures status == Approved ==> db.balances == BalancesAfterApproval(old(db.balances), Lookup(old(db.leaves), id), now)
    {
      UpdateKeepsKeyed(db.leaves, id, (l: Leave) => DecidedLeave(l, status, manager, now), db.nextId);
      DecisionKeepsDeduction(db.leaves, id, status, manager, now, db.balances, now);
      db.leaves := DecideLeave(db.leaves, id, status, manager, now);
      if status == Approved {
        UpdateLeaveBalance(id, now);
      }
    }

    /** "Mark Present": inserts an already-approved record for the member, approved by the manager. */
    method MarkPresent(member: Id, now: Millis) returns (id: Id)
      requires db.Valid()
      modifies db`attendance, db`nextId
      ensures db.Valid()
      ensures id == old(db.nextId) && db.nextId == old(db.nextId) + 1
      ensures db.attendance == old(db.attendance) +
        [Row(id, AttendanceRecord(member, now, None, None, None, None, Approved, Some(manager)))]
    {
      id := db.InsertAttendance(AttendanceRecord(member, now, None, None, None, None, Approved, Some(manager)));
    }
  }
}
