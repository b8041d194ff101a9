/**
 Calendar dates as Python's `datetime.date` represents them: the proleptic
 Gregorian calendar, years 1 to 9999, and the day ordinal that date
 subtraction works on (1 January of year 1 is day 1).
 */
module Calendar {

  datatype Date = Date(year: int, month: int, day: int)

  predicate IsLeapYear(y: int) {
    y % 4 == 0 && (y % 100 != 0 || y % 400 == 0)
  }

  function DaysInYear(y: int): (n: int)
    ensures n == 365 || n == 366
  {
    if IsLeapYear(y) then 366 else 365
  }

  function DaysInMonth(y: int, m: int): (n: int)
    requires 1 <= m <= 12
    ensures 28 <= n <= 31
    ensures m == 2 ==> (n == 29 <==> IsLeapYear(y))
  {
    if m == 2 then (if IsLeapYear(y) then 29 else 28)
    else if m == 4 || m == 6 || m == 9 || m == 11 then 30
    else 31
  }

  /** The dates a `datetime.date` can hold. */
  predicate ValidDate(d: Date) {
    1 <= d.year <= 9999 && 1 <= d.month <= 12 && 1 <= d.day <= DaysInMonth(d.year, d.month)
  }

  type CalendarDate = d: Date | ValidDate(d) witness Date(1, 1, 1)

  /** Days in the years before `y`, counted from year 1. */
  function DaysBeforeYear(y: int): int
    requires y >= 1
  {
    var p := y - 1;
    p * 365 + p / 4 - p / 100 + p / 400
  }

  /** Days in the months of year `y` before month `m`. */
  function DaysBeforeMonth(y: int, m: int): (n: int)
    requires 1 <= m <= 13
    ensures 28 * (m - 1) <= n <= 31 * (m - 1)
  {
    if m == 1 then 0 else DaysBeforeMonth(y, m - 1) + DaysInMonth(y, m - 1)
  }

  /** `date.toordinal()`. */
  function Ordinal(d: CalendarDate): int {
    DaysBeforeYear(d.year) + DaysBeforeMonth(d.year, d.month) + d.day
  }

  /** Chronological order: `a` is strictly earlier than `b`. */
  predicate Before(a: Date, b: Date) {
    || a.year < b.year
    || (a.year == b.year && a.month < b.month)
    || (a.year == b.year && a.month == b.month && a.day < b.day)
  }

  /** The formula for the days before a year grows by exactly that year's length. */
  lemma DaysBeforeYearStep(y: int)
    requires y >= 1
    ensures DaysBeforeYear(y + 1) == DaysBeforeYear(y) + DaysInYear(y)
  {
    var p := y - 1;
    assert (p + 1) / 4 == p / 4 + (if y % 4 == 0 then 1 else 0);
    assert (p + 1) / 100 == p / 100 + (if y % 100 == 0 then 1 else 0);
    assert (p + 1) / 400 == p / 400 + (if y % 400 == 0 then 1 else 0);
  }

  /** Years before a later year cover all days of the earlier year. */
  lemma {:induction false} DaysBeforeYearMonotone(x: int, y: int)
    requires 1 <= x < y
    ensures DaysBeforeYear(x) + DaysInYear(x) <= DaysBeforeYear(y)
    decreases y - x
  {
    DaysBeforeYearStep(x);
    if x + 1 < y {
      DaysBeforeYearMonotone(x + 1, y);
    }
  }

  /** The twelve months add up to the year. */
  lemma MonthsFillYear(y: int)
    ensures DaysBeforeMonth(y, 13) == DaysInYear(y)
  {
    assert DaysBeforeMonth(y, 2) == 31;
    assert DaysBeforeMonth(y, 3) == 31 + DaysInMonth(y, 2);
    assert DaysBeforeMonth(y, 4) == 62 + DaysInMonth(y, 2);
    assert DaysBeforeMonth(y, 5) == 92 + DaysInMonth(y, 2);
    assert DaysBeforeMonth(y, 6) == 123 + DaysInMonth(y, 2);
    assert DaysBeforeMonth(y, 7) == 153 + DaysInMonth(y, 2);
    assert DaysBeforeMonth(y, 8) == 184 + DaysInMonth(y, 2);
    assert DaysBeforeMonth(y, 9) == 215 + DaysInMonth(y, 2);
    assert DaysBeforeMonth(y, 10) == 245 + DaysInMonth(y, 2);
    assert DaysBeforeMonth(y, 11) == 276 + DaysInMonth(y, 2);
    assert DaysBeforeMonth(y, 12) == 306 + DaysInMonth(y, 2);
    assert DaysBeforeMonth(y, 13) == 337 + DaysInMonth(y, 2);
  }

  /** Months before a later month cover all days of the earlier month. */
  lemma {:induction false} DaysBeforeMonthMonotone(y: int, m: int, k: int)
    requires 1 <= m < k <= 13
    ensures DaysBeforeMonth(y, m) + DaysInMonth(y, m) <= DaysBeforeMonth(y, k)
    decreases k - m
  {
    if m + 1 < k {
      DaysBeforeMonthMonotone(y, m + 1, k);
    }
  }

  /** A day of the year never reaches past the year's length. */
  lemma DayOfYearBound(d: CalendarDate)
    ensures DaysBeforeMonth(d.year, d.month) + d.day <= DaysInYear(d.year)
  {
    MonthsFillYear(d.year);
    if d.month < 12 {
      DaysBeforeMonthMonotone(d.year, d.month, 13);
    }
  }

  /** The ordinal is strictly increasing in chronological order. */
  lemma OrdinalMonotone(a: CalendarDate, b: CalendarDate)
    requires Before(a, b)
    ensures Ordinal(a) < Ordinal(b)
  {
    if a.year < b.year {
      DayOfYearBound(a);
      DaysBeforeYearMonotone(a.year, b.year);
    } else if a.month < b.month {
      DaysBeforeMonthMonotone(a.year, a.month, b.month);
    }
  }

  /** Distinct dates have distinct ordinals. */
  lemma OrdinalInjective(a: CalendarDate, b: CalendarDate)
    requires Ordinal(a) == Ordinal(b)
    ensures a == b
  {
    if Before(a, b) {
      OrdinalMonotone(a, b);
    } else if Before(b, a) {
      OrdinalMonotone(b, a);
    }
  }

  /** The last date a `datetime.date` can hold. */
  const MaxDate: Date := Date(9999, 12, 31)

  /** The following calendar day. */
  function NextDay(d: CalendarDate): (n: Date)
    ensures d != MaxDate ==> ValidDate(n) && Before(d, n)
  {
    if d.day < DaysInMonth(d.year, d.month) then Date(d.year, d.month, d.day + 1)
    else if d.month < 12 then Date(d.year, d.month + 1, 1)
    else Date(d.year + 1, 1, 1)
  }

  /** The following day is exactly one ordinal later. */
  lemma NextDayOrdinal(d: CalendarDate)
    requires d != MaxDate
    ensures Ordinal(NextDay(d)) == Ordinal(d) + 1
  {
    var n: CalendarDate := NextDay(d);
    if d.day == DaysInMonth(d.year, d.month) {
      if d.month < 12 {
        assert DaysBeforeMonth(d.year, d.month + 1) == DaysBeforeMonth(d.year, d.month) + d.day;
      } else {
        MonthsFillYear(d.year);
        DaysBeforeYearStep(d.year);
      }
    }
  }
}
