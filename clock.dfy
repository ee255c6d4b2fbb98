/**
 * Time as the handlers see it: timestamps are integer milliseconds since the
 * epoch (what `new Date().toISOString()` encodes), calendar dates are UTC day
 * numbers (what a `YYYY-MM-DD` column holds).
 */
module Clock {

  type Millis = int
  type Day = int

  /** `1000 * 60 * 60 * 24`, the divisor of every day count in the dashboards. */
  const MsPerDay: int := 1000 * 60 * 60 * 24

  /** The UTC date of a timestamp: `toISOString().split('T')[0]`. */
  function DayOf(t: Millis): (d: Day)
    ensures DayStart(d) <= t < DayStart(d + 1)
  {
    t / MsPerDay
  }

  /** A later timestamp never falls on an earlier date. */
  lemma DayOfMonotone(a: Millis, b: Millis)
    requires a <= b
    ensures DayOf(a) <= DayOf(b)
  {
    assert DayStart(DayOf(a)) <= a <= b < DayStart(DayOf(b) + 1);
  }

  /** Midnight UTC of a date: `new Date('YYYY-MM-DD')`. */
  function DayStart(d: Day): Millis
  {
    d * MsPerDay
  }

  /** `Math.ceil(a / d)` for a positive divisor. */
  function CeilDiv(a: int, d: int): (c: int)
    requires d > 0
    ensures d * (c - 1) < a <= d * c
  {
    -((-a) / d)
  }

  /** `Math.ceil((end - start) / (1000 * 60 * 60 * 24)) + 1`: the inclusive day count of a range. */
  function InclusiveDays(start: Millis, end: Millis): (n: int)
    ensures MsPerDay * (n - 2) < end - start <= MsPerDay * (n - 1)
  {
    CeilDiv(end - start, MsPerDay) + 1
  }

  /** For two calendar dates the day count is `end - start + 1`; a single-day range counts 1. */
  lemma InclusiveDaysOfDates(start: Day, end: Day)
    ensures InclusiveDays(DayStart(start), DayStart(end)) == end - start + 1
  {
    var n := InclusiveDays(DayStart(start), DayStart(end));
    assert DayStart(end) - DayStart(start) == MsPerDay * (end - start);
  }

  /** A range that does not end before it starts counts at least one day. */
  lemma InclusiveDaysPositive(start: Millis, end: Millis)
    requires start <= end
    ensures InclusiveDays(start, end) >= 1
  {
  }

  /** Leap years of the proleptic Gregorian calendar. */
  predicate IsLeapYear(y: int)
  {
    y % 4 == 0 && (y % 100 != 0 || y % 400 == 0)
  }

  /** The number of days of month `m` (1 to 12) of year `y`. */
  function DaysInMonth(y: int, m: int): (n: int)
    requires 1 <= m <= 12
    ensures 28 <= n <= 31
    ensures n == 31 <==> m in {1, 3, 5, 7, 8, 10, 12}
  {
    if m == 2 then (if IsLeapYear(y) then 29 else 28)
    else if m in {4, 6, 9, 11} then 30
    else 31
  }

  /** The day number of the civil date `y-m-d` (days from civil, day 0 being 1970-01-01). */
  function DaysFromCivil(y: int, m: int, d: int): Day
    requires 1 <= m <= 12
  {
    var y' := if m <= 2 then y - 1 else y;
    var era := y' / 400;
    var yoe := y' - era * 400;
    var mp := if m > 2 then m - 3 else m + 9;
    var doy := (153 * mp + 2) / 5 + d - 1;
    var doe := yoe * 365 + yoe / 4 - yoe / 100 + doy;
    era * 146097 + doe - 719468
  }

  /** Day 0 is 1970-01-01, the epoch of the timestamps, so dates and timestamps agree. */
  lemma CivilEpoch()
    ensures DaysFromCivil(1970, 1, 1) == 0
  {
  }

  /** Within a month, consecutive days of the month are consecutive day numbers. */
  lemma {:induction false} DaysFromCivilInMonth(y: int, m: int, d: int)
    requires 1 <= m <= 12
    ensures DaysFromCivil(y, m, d) == DaysFromCivil(y, m, 1) + (d - 1)
  {
  }
}
