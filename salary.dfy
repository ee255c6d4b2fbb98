/**
 * The salary slip generator: the fixed pay formula, the attendance totals,
 * and the month window of approved records it is computed from.
 */
module SalarySlipGenerator {
  import opened Wrappers
  import opened Tables
  import opened Clock
  import opened Schema

  const BasicPay: int := 25000
  /** HRA is 40% of basic pay; provident fund is 12% of basic pay. */
  const HraPercent: int := 40
  const PfPercent: int := 12
  const Conveyance: int := 1600
  const MedicalAllowance: int := 1250
  const ProfessionalTax: int := 200

  /** The figures of one slip; hours are kept as the exact number of milliseconds worked. */
  datatype SalarySlip = SalarySlip(
    basicPay: int,
    hra: int,
    conveyance: int,
    medicalAllowance: int,
    professionalTax: int,
    pf: int,
    grossSalary: int,
    totalDeductions: int,
    netSalary: int,
    totalDays: nat,
    totalMillis: int)

  /** The time one record contributes: sign-out minus sign-in, or nothing without a sign-out. */
  function WorkedMillis(r: AttendanceRecord): int
  {
    if r.signoutTime.Some? then r.signoutTime.value - r.signinTime else 0
  }

  /** The time worked over all records that have both a sign-in and a sign-out. */
  function PairedMillis(records: seq<AttendanceRecord>): int
  {
    if records == [] then 0
    else PairedMillis(records[..|records| - 1]) + WorkedMillis(records[|records| - 1])
  }

  /** Records without a sign-out contribute nothing. */
  lemma {:induction false} UnpairedContributeNothing(records: seq<AttendanceRecord>)
    requires forall i :: 0 <= i < |records| ==> records[i].signoutTime.None?
    ensures PairedMillis(records) == 0
  {
    if records != [] {
      UnpairedContributeNothing(records[..|records| - 1]);
    }
  }

  /** When no record signs out before it signs in, the total is not negative. */
  lemma {:induction false} PairedMillisNonNegative(records: seq<AttendanceRecord>)
    requires forall i :: 0 <= i < |records| && records[i].signoutTime.Some? ==>
      records[i].signinTime <= records[i].signoutTime.value
    ensures PairedMillis(records) >= 0
  {
    if records != [] {
      PairedMillisNonNegative(records[..|records| - 1]);
    }
  }

  /** The total over two batches of records is the sum of their totals. */
  lemma {:induction false} PairedMillisAppend(a: seq<AttendanceRecord>, b: seq<AttendanceRecord>)
    ensures PairedMillis(a + b) == PairedMillis(a) + PairedMillis(b)
  {
    if b == [] {
      assert a + b == a;
    } else {
      assert (a + b)[..|a + b| - 1] == a + b[..|b| - 1];
      PairedMillisAppend(a, b[..|b| - 1]);
    }
  }

  /**
   * `calculateSalary`: the pay figures from the fixed formula, whatever the records;
   * the day count is the number of records and the time is summed over paired records.
   */
  method CalculateSalary(records: seq<AttendanceRecord>) returns (slip: SalarySlip)
    ensures slip.basicPay == 25000 && slip.hra == 10000
    ensures slip.conveyance == 1600 && slip.medicalAllowance == 1250
    ensures slip.grossSalary == slip.basicPay + slip.hra + slip.conveyance + slip.medicalAllowance == 37850
    ensures slip.professionalTax == 200 && slip.pf == 3000
    ensures slip.totalDeductions == slip.professionalTax + slip.pf == 3200
    ensures slip.netSalary == slip.grossSalary - slip.totalDeductions == 34650
    ensures slip.totalDays == |records|
    ensures slip.totalMillis == PairedMillis(records)
  {
    var hra := BasicPay * HraPercent / 100;
    var totalDays := |records|;
    var totalMillis := 0;
    var i := 0;
    while i < |records|
      invariant 0 <= i <= |records|
      invariant totalMillis == PairedMillis(records[..i])
    {
      var record := records[i];
      if record.signoutTime.Some? {
        totalMillis := totalMillis + (record.signoutTime.value - record.signinTime);
      }
      assert records[..i + 1][..i] == records[..i];
      i := i + 1;
    }
    assert records[..i] == records;
    var pf := BasicPay * PfPercent / 100;
    var gross := BasicPay + hra + Conveyance + MedicalAllowance;
    var deductions := ProfessionalTax + pf;
    slip := SalarySlip(BasicPay, hra, Conveyance, MedicalAllowance, ProfessionalTax, pf,
                       gross, deductions, gross - deductions, totalDays, totalMillis);
  }

  /** A `YYYY-MM` month picked in the form. */
  datatype YearMonth = YearMonth(year: int, month: int)

  /** The query's bounds, `YYYY-MM-01` (inclusive) and `YYYY-MM-31` (exclusive), as day numbers. */
  function WindowStart(ym: YearMonth): Day
    requires 1 <= ym.month <= 12
  {
    DaysFromCivil(ym.year, ym.month, 1)
  }

  function WindowEnd(ym: YearMonth): Day
    requires 1 <= ym.month <= 12
  {
    DaysFromCivil(ym.year, ym.month, 31)
  }

  /** `.gte('signin_time', start).lt('signin_time', end)` on a sign-in timestamp. */
  predicate InWindow(t: Millis, ym: YearMonth)
    requires 1 <= ym.month <= 12
  {
    DayStart(WindowStart(ym)) <= t < DayStart(WindowEnd(ym))
  }

  /** A record signed in on day `d` of a 31-day month is in the window exactly when `d` is not the 31st. */
  lemma {:induction false} WindowDropsThe31st(ym: YearMonth, d: int, t: Millis)
    requires 1 <= ym.month <= 12 && 1 <= d <= 31
    requires DayOf(t) == DaysFromCivil(ym.year, ym.month, d)
    ensures InWindow(t, ym) <==> d <= 30
  {
    DaysFromCivilInMonth(ym.year, ym.month, d);
    DaysFromCivilInMonth(ym.year, ym.month, 31);
  }

  /** The rows the slip query returns: approved, of `employee`, signed in within the month window. */
  function SlipQuery(attendance: seq<Row<AttendanceRecord>>, employee: Id, ym: YearMonth): (r: seq<Row<AttendanceRecord>>)
    requires 1 <= ym.month <= 12
    ensures forall x :: x in r <==>
      x in attendance && x.val.employeeId == employee && x.val.status == Approved && InWindow(x.val.signinTime, ym)
  {
    var keep := (x: Row<AttendanceRecord>) =>
      x.val.employeeId == employee && x.val.status == Approved && InWindow(x.val.signinTime, ym);
    FilterMembers(attendance, keep);
    Filter(attendance, keep)
  }

  /**
   * The slip query returns each qualifying row exactly as often as the table holds
   * it, so the slip's day count is the number of qualifying rows.
   */
  lemma SlipQueryCounts(attendance: seq<Row<AttendanceRecord>>, employee: Id, ym: YearMonth)
    requires 1 <= ym.month <= 12
    ensures forall x :: multiset(SlipQuery(attendance, employee, ym))[x] ==
              (if x.val.employeeId == employee && x.val.status == Approved && InWindow(x.val.signinTime, ym)
               then multiset(attendance)[x] else 0)
  {
    var keep := (x: Row<AttendanceRecord>) =>
      x.val.employeeId == employee && x.val.status == Approved && InWindow(x.val.signinTime, ym);
    FilterCounts(attendance, keep);
    assert SlipQuery(attendance, employee, ym) == Filter(attendance, keep);
  }

  /** The records the slip is computed from: one per row the slip query returns. */
  function SlipRecords(attendance: seq<Row<AttendanceRecord>>, employee: Id, ym: YearMonth): (r: seq<AttendanceRecord>)
    requires 1 <= ym.month <= 12
    ensures |r| == |SlipQuery(attendance, employee, ym)|
    ensures forall i :: 0 <= i < |r| ==> r[i] == SlipQuery(attendance, employee, ym)[i].val
    ensures forall x :: x in r ==> x.employeeId == employee && x.status == Approved && InWindow(x.signinTime, ym)
    ensures forall x :: (x in attendance && x.val.employeeId == employee && x.val.status == Approved
      && InWindow(x.val.signinTime, ym)) ==> x.val in r
  {
    var rows := SlipQuery(attendance, employee, ym);
    var r := Values(rows);
    assert forall x :: x in r ==> exists i :: 0 <= i < |rows| && rows[i].val == x;
    assert forall x :: x in rows ==> x.val in r by {
      forall x | x in rows ensures x.val in r {
        var k :| 0 <= k < |rows| && rows[k] == x;
        assert r[k] == x.val;
      }
    }
    r
  }

  /** Why no slip was computed. */
  datatype SlipError = MissingSelection | QueryRejected

  datatype SlipResult = Slip(slip: SalarySlip) | Failed(error: SlipError)

  /**
   * `fetchAttendanceForSlip`: aborts without an employee or a month; in a month
   * shorter than 31 days the backend rejects the end bound `YYYY-MM-31` as a date;
   * otherwise the slip is computed from the approved records in the window.
   */
  method FetchAttendanceForSlip(db: Database, employee: Option<Id>, month: Option<YearMonth>)
    returns (r: SlipResult)
    requires month.Some? ==> 1 <= month.value.month <= 12
    ensures employee.None? || month.None? <==> r == Failed(MissingSelection)
    ensures employee.Some? && month.Some? && DaysInMonth(month.value.year, month.value.month) < 31
      ==> r == Failed(QueryRejected)
    ensures r.Slip? <==> employee.Some? && month.Some? && DaysInMonth(month.value.year, month.value.month) == 31
    ensures r.Slip? ==> var records := SlipRecords(db.attendance, employee.value, month.value);
      && r.slip.totalDays == |records|
      && r.slip.totalMillis == PairedMillis(records)
      && r.slip.netSalary == 34650
  {
    if employee.None? || month.None? {
      return Failed(MissingSelection);
    }
    var ym := month.value;
    if DaysInMonth(ym.year, ym.month) < 31 {
      return Failed(QueryRejected);
    }
    var records := SlipRecords(db.attendance, employee.value, ym);
    var slip := CalculateSalary(records);
    r := Slip(slip);
  }
}
