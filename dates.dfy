/**
 * Proleptic Gregorian date arithmetic used by the calendar renderer:
 * month lengths, the linear day count, the day before a date, the last
 * day of a month obtained as the day before the first of the next month,
 * and the weekday counted from Sunday = 1 to Saturday = 7.
 */
module Dates {

  import opened Wrappers

  /** A calendar date; it is a real date of the calendar when ValidDate holds. */
  datatype Date = Date(year: int, month: int, day: int)

  /** The Gregorian rule: every fourth year, except centuries that 400 does not divide. */
  function IsLeapYear(y: int): (leap: bool)
    ensures y % 400 == 0 ==> leap
    ensures y % 4 == 0 && y % 100 != 0 ==> leap
    ensures y % 4 != 0 ==> !leap
    ensures y % 100 == 0 && y % 400 != 0 ==> !leap
  {
    DivisibilityChain(y);
    y % 4 == 0 && (y % 100 != 0 || y % 400 == 0)
  }

  /** The reference month lengths of the Gregorian calendar. */
  function DaysInMonth(y: int, m: int): (n: int)
    requires 1 <= m <= 12
    ensures 28 <= n <= 31
    ensures m == 2 ==> (n == 29 <==> IsLeapYear(y))
  {
    if m == 2 then (if IsLeapYear(y) then 29 else 28)
    else if m == 4 || m == 6 || m == 9 || m == 11 then 30
    else 31
  }

  predicate ValidDate(d: Date) {
    1 <= d.month <= 12 && 1 <= d.day <= DaysInMonth(d.year, d.month)
  }

  /** The date (y, m, d) when it exists in the calendar, as a date constructor that checks its fields. */
  function FromYmd(y: int, m: int, d: int): (r: Option<Date>)
    ensures r.Some? <==> ValidDate(Date(y, m, d))
    ensures r.Some? ==> r.value == Date(y, m, d)
  {
    if 1 <= m <= 12 && 1 <= d <= DaysInMonth(y, m) then Some(Date(y, m, d)) else None
  }

  /** Days of a common year that precede the first of month m. */
  const CommonDaysBefore: seq<int> := [0, 31, 59, 90, 120, 151, 181, 212, 243, 273, 304, 334]

  function DaysBeforeMonth(y: int, m: int): int
    requires 1 <= m <= 12
  {
    CommonDaysBefore[m - 1] + (if m > 2 && IsLeapYear(y) then 1 else 0)
  }

  function DaysInYear(y: int): int {
    if IsLeapYear(y) then 366 else 365
  }

  /** Days from 0001-01-01 to the first of year y; `/` is floor division here. */
  function DaysBeforeYear(y: int): int {
    365 * (y - 1) + (y - 1) / 4 - (y - 1) / 100 + (y - 1) / 400
  }

  /** The linear day count: 0001-01-01 is day 0, and consecutive dates have consecutive numbers. */
  function DayNumber(d: Date): (n: int)
    requires 1 <= d.month <= 12
    ensures d == Date(1, 1, 1) ==> n == 0
    ensures d.year >= 1 && d.day >= 1 ==> n >= 0
    ensures d.year <= 0 && d.day <= DaysInMonth(d.year, d.month) ==> n < 0
  {
    DaysBeforeYear(d.year) + DaysBeforeMonth(d.year, d.month) + d.day - 1
  }

  /** Weekday counted from Sunday = 1 to Saturday = 7; 0001-01-01 was a Monday. */
  function NumberFromSunday(d: Date): (w: int)
    requires 1 <= d.month <= 12
    ensures 1 <= w <= 7
    ensures w == (DayNumber(d) + 1) % 7 + 1
  {
    (DayNumber(d) + 1) % 7 + 1
  }

  /** The day before a valid date, rolling over month and year boundaries. */
  function Pred(d: Date): (p: Date)
    requires ValidDate(d)
    ensures ValidDate(p)
  {
    if d.day > 1 then Date(d.year, d.month, d.day - 1)
    else if d.month > 1 then Date(d.year, d.month - 1, DaysInMonth(d.year, d.month - 1))
    else Date(d.year - 1, 12, 31)
  }

  /** The first day of the following month; December rolls over to January of the next year. */
  function FirstOfNextMonth(y: int, m: int): (d: Date)
    requires 1 <= m <= 12
    ensures ValidDate(d) && d.day == 1
    ensures m < 12 ==> d == Date(y, m + 1, 1)
    ensures m == 12 ==> d == Date(y + 1, 1, 1)
  {
    match FromYmd(y, m + 1, 1)
    case Some(d) => d
    case None => Date(y + 1, 1, 1)
  }

  /** The last day of month m of year y, computed as the day before the first of the next month. */
  function LastDayInMonth(y: int, m: int): (d: Date)
    requires 1 <= m <= 12
    ensures ValidDate(d)
  {
    Pred(FirstOfNextMonth(y, m))
  }

  lemma {:induction false} FloorStep(a: int, k: int)
    requires k == 4 || k == 100 || k == 400
    ensures a / k - (a - 1) / k == (if a % k == 0 then 1 else 0)
  {
    var q, r := a / k, a % k;
    assert a == k * q + r && 0 <= r < k;
    if r == 0 {
      assert a - 1 == k * (q - 1) + (k - 1);
    } else {
      assert a - 1 == k * q + (r - 1);
    }
  }

  lemma {:induction false} DivisibilityChain(a: int)
    ensures a % 400 == 0 ==> a % 100 == 0
    ensures a % 100 == 0 ==> a % 4 == 0
  {
    if a % 400 == 0 {
      Multiple100(a, 4 * (a / 400));
    }
    if a % 100 == 0 {
      Multiple4(a, 25 * (a / 100));
    }
  }

  lemma Multiple100(a: int, t: int)
    requires a == 100 * t
    ensures a % 100 == 0
  {
  }

  lemma Multiple4(a: int, t: int)
    requires a == 4 * t
    ensures a % 4 == 0
  {
  }

  /** Successive years start DaysInYear apart. */
  lemma {:induction false} YearStep(y: int)
    ensures DaysBeforeYear(y + 1) == DaysBeforeYear(y) + DaysInYear(y)
  {
    FloorStep(y, 4);
    FloorStep(y, 100);
    FloorStep(y, 400);
    DivisibilityChain(y);
  }

  /** Pred is the previous day of the linear day count. */
  lemma {:induction false} PredIsPreviousDay(d: Date)
    requires ValidDate(d)
    ensures DayNumber(Pred(d)) == DayNumber(d) - 1
  {
    if d.day > 1 {
    } else if d.month > 1 {
      MonthBoundary(d.year, d.month);
    } else {
      YearBoundary(d.year, d.year - 1);
    }
  }

  /** The last day of month m - 1 directly precedes the first of month m. */
  lemma MonthBoundary(y: int, m: int)
    requires 2 <= m <= 12
    ensures DayNumber(Date(y, m - 1, DaysInMonth(y, m - 1))) == DayNumber(Date(y, m, 1)) - 1
  {
  }

  /** The 31st of December of year p directly precedes the first of year y = p + 1. */
  lemma YearBoundary(y: int, p: int)
    requires p + 1 == y
    ensures DayNumber(Date(p, 12, 31)) == DayNumber(Date(y, 1, 1)) - 1
  {
    YearStep(p);
  }

  /**
   * The last day of a month is in that month and its day is the month's
   * length; it is the day before the first of the next month.
   */
  lemma LastDayInMonthIsMonthEnd(y: int, m: int)
    requires 1 <= m <= 12
    ensures LastDayInMonth(y, m) == Date(y, m, DaysInMonth(y, m))
    ensures DayNumber(LastDayInMonth(y, m)) + 1 == DayNumber(FirstOfNextMonth(y, m))
  {
    PredIsPreviousDay(FirstOfNextMonth(y, m));
  }

  /** February has 29 days exactly in leap years and 28 otherwise. */
  lemma FebruaryLength(y: int)
    ensures LastDayInMonth(y, 2).day == (if IsLeapYear(y) then 29 else 28)
  {
    LastDayInMonthIsMonthEnd(y, 2);
  }

  /** Weekdays advance by one per day within a month. */
  lemma {:induction false} WeekdayInMonth(y: int, m: int, d: int)
    requires 1 <= m <= 12
    ensures NumberFromSunday(Date(y, m, d)) - 1 == (NumberFromSunday(Date(y, m, 1)) - 1 + d - 1) % 7
  {
    var n := DayNumber(Date(y, m, 1));
    assert DayNumber(Date(y, m, d)) == n + d - 1;
    ModAdd(n + 1, d - 1);
  }

  lemma {:induction false} ModAdd(a: int, b: int)
    ensures (a + b) % 7 == (a % 7 + b) % 7
  {
    var q := a / 7;
    assert a == 7 * q + a % 7;
    assert a + b == 7 * q + (a % 7 + b);
    ModShift(a % 7 + b, q);
  }

  lemma {:induction false} ModShift(x: int, q: int)
    ensures (7 * q + x) % 7 == x % 7
  {
    var r := x % 7;
    assert x == 7 * (x / 7) + r;
    assert 7 * q + x == 7 * (q + x / 7) + r;
  }

  /** The unit-test values: January 2024 has 31 days, February 2024 29, April 2024 30. */
  lemma LastDayExamples()
    ensures LastDayInMonth(2024, 1) == Date(2024, 1, 31)
    ensures LastDayInMonth(2024, 2) == Date(2024, 2, 29)
    ensures LastDayInMonth(2024, 4) == Date(2024, 4, 30)
  {
  }

  /** Days from 0001-01-01 to 2024-01-01. */
  lemma DaysBefore2024()
    ensures DaysBeforeYear(2024) == 738885
  {
  }

  /** 2024-02-01 was a Thursday, 2024-05-01 a Wednesday and 2024-04-01 a Monday. */
  lemma WeekdayExamples()
    ensures NumberFromSunday(Date(2024, 2, 1)) == 5
    ensures NumberFromSunday(Date(2024, 5, 1)) == 4
    ensures NumberFromSunday(Date(2024, 4, 1)) == 2
  {
    DaysBefore2024();
  }
}
