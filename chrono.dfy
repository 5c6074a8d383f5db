/**
 * Time as the pages see it.  A JavaScript `Date` is either a time value in
 * milliseconds since the epoch or an Invalid Date (time value NaN); every
 * relational comparison that involves NaN is false.  Local calendar dates
 * (`getFullYear`, `getMonth`, `getDate`, `getDay`) are proleptic Gregorian
 * dates with a 0-based month, stepped one day at a time.
 */
module Chrono {

  datatype Instant = At(ms: int) | InvalidDate

  /** `a < b` on two Dates */
  predicate Before(a: Instant, b: Instant) { a.At? && b.At? && a.ms < b.ms }

  /** `a <= b` on two Dates */
  predicate AtOrBefore(a: Instant, b: Instant) { a.At? && b.At? && a.ms <= b.ms }

  /** `a > b` on two Dates */
  predicate After(a: Instant, b: Instant) { Before(b, a) }

  /** `a >= b` on two Dates */
  predicate AtOrAfter(a: Instant, b: Instant) { AtOrBefore(b, a) }

  const MsPerSecond: int := 1000
  const MsPerDay: int := 86_400_000

  /** A local calendar date; `month` is 0-based as `getMonth()` returns it. */
  datatype CivilDate = CivilDate(year: int, month: int, day: int)

  predicate IsLeap(y: int) { (y % 4 == 0 && y % 100 != 0) || y % 400 == 0 }

  function MonthLength(y: int, m: int): (n: int)
    requires 0 <= m < 12
    ensures 28 <= n <= 31
  {
    if m == 1 then (if IsLeap(y) then 29 else 28)
    else if m == 3 || m == 5 || m == 8 || m == 10 then 30
    else 31
  }

  function YearLength(y: int): int { if IsLeap(y) then 366 else 365 }

  predicate ValidDate(d: CivilDate) {
    0 <= d.month < 12 && 1 <= d.day <= MonthLength(d.year, d.month)
  }

  /** The first day of a month. */
  function FirstOfMonth(year: int, month: int): (d: CivilDate)
    requires 0 <= month < 12
    ensures ValidDate(d)
  {
    CivilDate(year, month, 1)
  }

  function NextDay(d: CivilDate): (r: CivilDate)
    requires ValidDate(d)
    ensures ValidDate(r)
  {
    if d.day < MonthLength(d.year, d.month) then CivilDate(d.year, d.month, d.day + 1)
    else if d.month < 11 then CivilDate(d.year, d.month + 1, 1)
    else CivilDate(d.year + 1, 0, 1)
  }

  function PrevDay(d: CivilDate): (r: CivilDate)
    requires ValidDate(d)
    ensures ValidDate(r)
  {
    if d.day > 1 then CivilDate(d.year, d.month, d.day - 1)
    else if d.month > 0 then CivilDate(d.year, d.month - 1, MonthLength(d.year, d.month - 1))
    else CivilDate(d.year - 1, 11, 31)
  }

  /** `date.setDate(date.getDate() + n)` for n >= 0 */
  function AddDays(d: CivilDate, n: nat): (r: CivilDate)
    requires ValidDate(d)
    ensures ValidDate(r)
    decreases n
  {
    if n == 0 then d else AddDays(NextDay(d), n - 1)
  }

  /** `date.setDate(date.getDate() - n)` for n >= 0 */
  function SubDays(d: CivilDate, n: nat): (r: CivilDate)
    requires ValidDate(d)
    ensures ValidDate(r)
    decreases n
  {
    if n == 0 then d else SubDays(PrevDay(d), n - 1)
  }

  // ---------------------------------------------------------------------
  // Day numbers: days since 1970-01-01, to state "consecutive" and weekdays

  function DaysBeforeMonth(y: int, m: int): int
    requires 0 <= m <= 12
  {
    if m == 0 then 0 else DaysBeforeMonth(y, m - 1) + MonthLength(y, m - 1)
  }

  function DaysBeforeYear(y: int): int
    decreases if y >= 1970 then y - 1970 else 1970 - y
  {
    if y == 1970 then 0
    else if y > 1970 then DaysBeforeYear(y - 1) + YearLength(y - 1)
    else DaysBeforeYear(y + 1) - YearLength(y)
  }

  function DayNumber(d: CivilDate): int
    requires 0 <= d.month < 12
  {
    DaysBeforeYear(d.year) + DaysBeforeMonth(d.year, d.month) + d.day - 1
  }

  /** `getDay()`: 0 is Sunday; 1970-01-01 was a Thursday. */
  function Weekday(d: CivilDate): (w: int)
    requires 0 <= d.month < 12
    ensures 0 <= w < 7
  {
    (DayNumber(d) + 4) % 7
  }

  lemma YearSpan(y: int)
    ensures DaysBeforeYear(y + 1) == DaysBeforeYear(y) + YearLength(y)
  {}

  lemma MonthsSpanYear(y: int)
    ensures DaysBeforeMonth(y, 11) + 31 == YearLength(y)
  {
    var feb := MonthLength(y, 1);
    assert DaysBeforeMonth(y, 1) == 31;
    assert DaysBeforeMonth(y, 2) == 31 + feb;
    assert DaysBeforeMonth(y, 3) == 31 + feb + 31;
    assert DaysBeforeMonth(y, 4) == 31 + feb + 31 + 30;
    assert DaysBeforeMonth(y, 5) == 31 + feb + 31 + 30 + 31;
    assert DaysBeforeMonth(y, 6) == 31 + feb + 31 + 30 + 31 + 30;
    assert DaysBeforeMonth(y, 7) == 31 + feb + 31 + 30 + 31 + 30 + 31;
    assert DaysBeforeMonth(y, 8) == 31 + feb + 31 + 30 + 31 + 30 + 31 + 31;
    assert DaysBeforeMonth(y, 9) == 31 + feb + 31 + 30 + 31 + 30 + 31 + 31 + 30;
    assert DaysBeforeMonth(y, 10) == 31 + feb + 31 + 30 + 31 + 30 + 31 + 31 + 30 + 31;
    assert DaysBeforeMonth(y, 11) == 31 + feb + 31 + 30 + 31 + 30 + 31 + 31 + 30 + 31 + 30;
  }

  lemma NextDayNumber(d: CivilDate)
    requires ValidDate(d)
    ensures DayNumber(NextDay(d)) == DayNumber(d) + 1
  {
    if d.day == MonthLength(d.year, d.month) && d.month == 11 {
      YearSpan(d.year);
      MonthsSpanYear(d.year);
    }
  }

  lemma PrevDayNumber(d: CivilDate)
    requires ValidDate(d)
    ensures DayNumber(PrevDay(d)) == DayNumber(d) - 1
  {
    if d.day == 1 && d.month == 0 {
      YearSpan(d.year - 1);
      MonthsSpanYear(d.year - 1);
    }
  }

  lemma NextOfPrev(d: CivilDate)
    requires ValidDate(d)
    ensures NextDay(PrevDay(d)) == d
  {}

  /** Stepping forward n days moves the day number by n. */
  lemma {:induction false} AddDaysNumber(d: CivilDate, n: nat)
    requires ValidDate(d)
    ensures DayNumber(AddDays(d, n)) == DayNumber(d) + n
    decreases n
  {
    if n > 0 {
      NextDayNumber(d);
      AddDaysNumber(NextDay(d), n - 1);
    }
  }

  /** The weekday numbering is anchored on the calendar: 1970-01-01 was a Thursday (4)
      and 1970-01-04 a Sunday (0). */
  lemma WeekdayAnchors()
    ensures Weekday(CivilDate(1970, 0, 1)) == 4
    ensures Weekday(CivilDate(1970, 0, 4)) == 0
  {}

  /** Consecutive days have consecutive weekdays, Saturday (6) wrapping to Sunday (0). */
  lemma WeekdayStep(d: CivilDate)
    requires ValidDate(d)
    ensures Weekday(NextDay(d)) == (Weekday(d) + 1) % 7
  {
    NextDayNumber(d);
    WeekdayOfSuccessor(d, NextDay(d));
  }

  lemma WeekdayOfSuccessor(d: CivilDate, e: CivilDate)
    requires 0 <= d.month < 12 && 0 <= e.month < 12
    requires DayNumber(e) == DayNumber(d) + 1
    ensures Weekday(e) == (Weekday(d) + 1) % 7
  {
    SuccMod7(DayNumber(d) + 4);
  }

  lemma SuccMod7(k: int)
    ensures (k + 1) % 7 == (k % 7 + 1) % 7
  {
    var q := k / 7;
    assert k == 7 * q + k % 7;
    assert k + 1 == 7 * q + (k % 7 + 1);
  }

  /** Stepping back n days moves the day number by -n. */
  lemma {:induction false} SubDaysNumber(d: CivilDate, n: nat)
    requires ValidDate(d)
    ensures DayNumber(SubDays(d, n)) == DayNumber(d) - n
    decreases n
  {
    if n > 0 {
      PrevDayNumber(d);
      SubDaysNumber(PrevDay(d), n - 1);
    }
  }

  /** Stepping back n days and then forward n days returns to the same date. */
  lemma {:induction false} AddSubDays(d: CivilDate, n: nat)
    requires ValidDate(d)
    ensures AddDays(SubDays(d, n), n) == d
    decreases n
  {
    if n > 0 {
      var p := PrevDay(d);
      AddSubDays(p, n - 1);
      AddDaysStep(SubDays(p, n - 1), n - 1);
      NextOfPrev(d);
    }
  }

  /** Adding n + 1 days is adding n days and then one more. */
  lemma {:induction false} AddDaysStep(d: CivilDate, n: nat)
    requires ValidDate(d)
    ensures AddDays(d, n + 1) == NextDay(AddDays(d, n))
    decreases n
  {
    if n > 0 {
      AddDaysStep(NextDay(d), n - 1);
    }
  }

  /** Adding a + b days is adding a days and then b more. */
  lemma {:induction false} AddDaysSum(d: CivilDate, a: nat, b: nat)
    requires ValidDate(d)
    ensures AddDays(d, a + b) == AddDays(AddDays(d, a), b)
    decreases a
  {
    if a > 0 {
      AddDaysSum(NextDay(d), a - 1, b);
    }
  }

  /** Within a month, adding k days to the 1st gives day k + 1 of the same month. */
  lemma {:induction false} AddDaysInMonth(year: int, month: int, k: nat)
    requires 0 <= month < 12 && k < MonthLength(year, month)
    ensures AddDays(FirstOfMonth(year, month), k) == CivilDate(year, month, k + 1)
  {
    if k > 0 {
      AddDaysInMonth(year, month, k - 1);
      AddDaysStep(FirstOfMonth(year, month), k - 1);
    }
  }
}
