/**
 * The leave application form: the available balance of the chosen kind, the
 * requested day count, and submission with its balance guard.
 */
module LeaveApplicationForm {
  import opened Wrappers
  import opened Tables
  import opened Clock
  import opened Schema

  /** The form's fields; an empty date input is `None`, `document` says whether a file is attached. */
  datatype LeaveForm = LeaveForm(
    startDate: Option<Day>,
    endDate: Option<Day>,
    reason: string,
    leaveType: LeaveType,
    document: bool)

  /** The form as it starts and as a successful submission leaves it. */
  const EmptyForm: LeaveForm := LeaveForm(None, None, "", Casual, false)

  /**
   * `calculateAvailableLeaves`: the stored counter of the chosen kind, or 0 when
   * there is no balance row or the counter is null.
   */
  function AvailableLeaves(balance: Option<BalanceRow>, t: LeaveType): (n: int)
    ensures balance.None? ==> n == 0
    ensures balance.Some? && t !in balance.value.counters ==> n == 0
    ensures balance.Some? && t in balance.value.counters ==> n == balance.value.counters[t]
  {
    CounterOr(balance, t, 0)
  }

  /** `getLeaveDays`: 0 while either date is empty, else the inclusive day count. */
  function LeaveDays(form: LeaveForm): (n: int)
    ensures form.startDate.None? || form.endDate.None? ==> n == 0
    ensures form.startDate.Some? && form.endDate.Some? ==> n == form.endDate.value - form.startDate.value + 1
  {
    if form.startDate.None? || form.endDate.None? then 0
    else
      InclusiveDaysOfDates(form.startDate.value, form.endDate.value);
      InclusiveDays(DayStart(form.startDate.value), DayStart(form.endDate.value))
  }

  /** How a submission ended. */
  datatype SubmitOutcome = Submitted | MissingField | InsufficientBalance | UploadFailed

  /**
   * The verdict on a submission before anything is written: the browser's `required`
   * check on dates and reason, then the balance guard (available must be positive;
   * the requested day count is not compared), then the document upload.
   */
  function SubmitVerdict(form: LeaveForm, balance: Option<BalanceRow>, upload: Option<string>): (v: SubmitOutcome)
    ensures v == Submitted <==>
      form.startDate.Some? && form.endDate.Some? && form.reason != ""
      && AvailableLeaves(balance, form.leaveType) > 0
      && (form.document ==> upload.Some?)
    ensures v == InsufficientBalance ==> AvailableLeaves(balance, form.leaveType) <= 0
  {
    if form.startDate.None? || form.endDate.None? || form.reason == "" then MissingField
    else if AvailableLeaves(balance, form.leaveType) <= 0 then InsufficientBalance
    else if form.document && upload.None? then UploadFailed
    else Submitted
  }

  /** The row a successful submission inserts into `leaves`. */
  function SubmittedLeave(user: Id, form: LeaveForm, upload: Option<string>, now: Millis): (l: Leave)
    requires form.startDate.Some? && form.endDate.Some?
    ensures l.employeeId == user && l.leaveType == form.leaveType && l.reason == form.reason
    ensures l.startDate == form.startDate.value && l.endDate == form.endDate.value
    ensures l.documentUrl == if form.document && upload.Some? then upload.value else ""
    ensures l.status == Pending && l.approvedBy.None? && l.approvedAt.None? && l.appliedAt == now
  {
    var url := if form.document && upload.Some? then upload.value else "";
    Leave(user, form.leaveType, form.startDate.value, form.endDate.value, form.reason, url, Pending, None, None, now)
  }

  /** A request longer than the balance passes the guard as long as the balance is positive. */
  lemma OverdrawnRequestAccepted(form: LeaveForm, balance: Option<BalanceRow>, upload: Option<string>)
    requires form.startDate.Some? && form.endDate.Some? && form.reason != "" && !form.document
    requires 0 < AvailableLeaves(balance, form.leaveType) < LeaveDays(form)
    ensures SubmitVerdict(form, balance, upload) == Submitted
  {
  }

  /** The component state of the leave form for the signed-in `user`. */
  class LeavePanel {
    const db: Database
    const user: Id
    var form: LeaveForm
    /** The balance row read when the form was opened. */
    var leaveBalance: Option<BalanceRow>

    constructor (db: Database, user: Id)
      ensures this.db == db && this.user == user
      ensures form == EmptyForm && leaveBalance.None?
    {
      this.db := db;
      this.user := user;
      form := EmptyForm;
      leaveBalance := None;
    }

    /** Typing into the form. */
    method Edit(f: LeaveForm)
      modifies this`form
      ensures form == f
    {
      form := f;
    }

    /** `fetchLeaveBalance`: the user's balance row, or none. */
    method FetchLeaveBalance()
      modifies this`leaveBalance
      ensures leaveBalance == if user in db.balances then Some(db.balances[user]) else None
    {
      leaveBalance := if user in db.balances then Some(db.balances[user]) else None;
    }

    /**
     * `handleSubmit`: refused when a required field is empty or the available
     * balance is not positive, abandoned when the document upload fails; otherwise
     * one pending leave is inserted and the form is reset.
     */
    method HandleSubmit(upload: Option<string>, now: Millis) returns (outcome: SubmitOutcome)
      requires db.Valid()
      modifies this`form, db`leaves, db`nextId
      ensures db.Valid()
      ensures outcome == SubmitVerdict(old(form), leaveBalance, upload)
      ensures outcome != Submitted ==> db.leaves == old(db.leaves) && db.nextId == old(db.nextId) && form == old(form)
      ensures outcome == Submitted ==>
        db.leaves == old(db.leaves) + [Row(old(db.nextId), SubmittedLeave(user, old(form), upload, now))]
        && db.nextId == old(db.nextId) + 1
        && form == EmptyForm
    {
      outcome := SubmitVerdict(form, leaveBalance, upload);
      if outcome == Submitted {
        var id := db.InsertLeave(SubmittedLeave(user, form, upload, now));
        form := EmptyForm;
      }
    }
  }
}
