/**
 * The proleptic Gregorian calendar as ECMAScript's `Date` computes with it:
 * day numbers counted from 1970-01-01, months indexed from 0, out-of-range
 * months and days carried into the next unit, and the two-digit-year rule of
 * the `new Date(y, m, d)` constructor.
 */
module CivilCalendar {

  predicate IsLeapYear(y: int) {
    y % 4 == 0 && (y % 100 != 0 || y % 400 == 0)
  }

  /** The number of days of month `m` (1 = January) of year `y`. */
  function DaysInMonth(y: int, m: int): (d: int)
    requires 1 <= m <= 12
    ensures 28 <= d <= 31
    ensures m == 2 ==> (d == 29 <==> IsLeapYear(y)) && (d == 28 <==> !IsLeapYear(y))
    ensures m != 2 ==> (d == 30 <==> m in {4, 6, 9, 11}) && (d == 31 <==> m !in {4, 6, 9, 11})
  {
    if m == 2 then (if IsLeapYear(y) then 29 else 28)
    else if m == 4 || m == 6 || m == 9 || m == 11 then 30
    else 31
  }

  function DaysInYear(y: int): int {
    if IsLeapYear(y) then 366 else 365
  }

  /** ECMAScript's DayFromYear: the day number of January 1 of year `y`. */
  function DayFromYear(y: int): int {
    365 * (y - 1970) + (y - 1969) / 4 - (y - 1901) / 100 + (y - 1601) / 400
  }

  /** The days of year `y` before month index `mi` (0 = January). */
  function DaysBeforeMonth(y: int, mi: int): int
    requires 0 <= mi < 12
  {
    var leap := if IsLeapYear(y) && mi >= 2 then 1 else 0;
    [0, 31, 59, 90, 120, 151, 181, 212, 243, 273, 304, 334][mi] + leap
  }

  /** The days before a month are the lengths of the months before it. */
  lemma DaysBeforeMonthStep(y: int, mi: int)
    requires 0 <= mi < 12
    ensures mi == 0 ==> DaysBeforeMonth(y, mi) == 0
    ensures mi > 0 ==> DaysBeforeMonth(y, mi) == DaysBeforeMonth(y, mi - 1) + DaysInMonth(y, mi)
  {
    if mi < 6 {
      assert mi == 0 || mi == 1 || mi == 2 || mi == 3 || mi == 4 || mi == 5;
    } else {
      assert mi == 6 || mi == 7 || mi == 8 || mi == 9 || mi == 10 || mi == 11;
    }
  }

  /**
   * ECMAScript's MakeDay: the day number of day `d` of month index `mi` of year
   * `y`, where a month index outside 0..11 carries into the year and a day
   * outside the month carries into the neighbouring months.
   */
  function MakeDay(y: int, mi: int, d: int): int {
    var ym := y + mi / 12;
    var mn := mi % 12;
    DayFromYear(ym) + DaysBeforeMonth(ym, mn) + d - 1
  }

  /** `new Date(y, ...)` reads a year from 0 to 99 as 1900 to 1999. */
  function ConstructorYear(y: int): (r: int)
    ensures 0 <= y <= 99 ==> r == 1900 + y
    ensures !(0 <= y <= 99) ==> r == y
  {
    if 0 <= y <= 99 then 1900 + y else y
  }

  /** Floor division by a positive constant steps by one exactly at multiples. */
  lemma FloorStep(a: int)
    ensures (a + 1) / 4 - a / 4 == if (a + 1) % 4 == 0 then 1 else 0
    ensures (a + 1) / 100 - a / 100 == if (a + 1) % 100 == 0 then 1 else 0
    ensures (a + 1) / 400 - a / 400 == if (a + 1) % 400 == 0 then 1 else 0
  {
  }

  lemma ShiftedMultiples(y: int)
    ensures (y - 1968) % 4 == 0 <==> y % 4 == 0
    ensures (y - 1900) % 100 == 0 <==> y % 100 == 0
    ensures (y - 1600) % 400 == 0 <==> y % 400 == 0
  {
    assert (y - 1968) % 4 == y % 4 by { assert y - 1968 == y + 4 * (-492); }
    assert (y - 1900) % 100 == y % 100 by { assert y - 1900 == y + 100 * (-19); }
    assert (y - 1600) % 400 == y % 400 by { assert y - 1600 == y + 400 * (-4); }
  }

  lemma DivisibilityChain(y: int)
    ensures y % 400 == 0 ==> y % 100 == 0
    ensures y % 100 == 0 ==> y % 4 == 0
  {
    if y % 400 == 0 {
      var k := y / 400;
      assert y == 100 * (4 * k);
    }
    if y % 100 == 0 {
      var k := y / 100;
      assert y == 4 * (25 * k);
    }
  }

  /** Consecutive years start 365 or 366 days apart, by the Gregorian leap rule. */
  lemma {:induction false} YearLength(y: int)
    ensures DayFromYear(y + 1) - DayFromYear(y) == DaysInYear(y)
  {
    FloorStep(y - 1969);
    FloorStep(y - 1901);
    FloorStep(y - 1601);
    ShiftedMultiples(y);
    DivisibilityChain(y);
    var a := (y - 1968) / 4 - (y - 1969) / 4;
    var b := (y - 1900) / 100 - (y - 1901) / 100;
    var c := (y - 1600) / 400 - (y - 1601) / 400;
    assert DayFromYear(y + 1) - DayFromYear(y) == 365 + a - b + c;
    if y % 400 == 0 {
      assert a == 1 && b == 1 && c == 1;
    } else if y % 100 == 0 {
      assert a == 1 && b == 1 && c == 0;
    } else if y % 4 == 0 {
      assert a == 1 && b == 0 && c == 0;
    } else {
      assert a == 0 && b == 0 && c == 0;
    }
  }

  /**
   * Day 0 of a month is the last day of the month before: for `1 <= m <= 12`
   * the days 1 .. DaysInMonth(y, m) of month index `m - 1` are consecutive and
   * end exactly where day 0 of month index `m` falls.
   */
  lemma DayZeroIsLastDay(y: int, m: int)
    requires 1 <= m <= 12
    ensures MakeDay(y, m, 0) == MakeDay(y, m - 1, 1) + DaysInMonth(y, m) - 1
  {
    if m == 12 {
      DecemberEndsYear(y);
    } else {
      DaysBeforeMonthStep(y, m);
      assert m / 12 == 0 && m % 12 == m && (m - 1) / 12 == 0 && (m - 1) % 12 == m - 1;
    }
  }

  /** Day 0 of month index 12 is December 31. */
  lemma DecemberEndsYear(y: int)
    ensures MakeDay(y, 12, 0) == MakeDay(y, 11, 1) + 30
  {
    assert MakeDay(y, 12, 0) == DayFromYear(y + 1) - 1;
    YearLength(y);
  }

  /** Day 1 of a month follows the last day of the month before it. */
  lemma {:induction false} NextMonthFollows(y: int, mi: int)
    requires 0 <= mi < 12
    ensures MakeDay(y, mi + 1, 1) == MakeDay(y, mi, DaysInMonth(y, mi + 1)) + 1
  {
    DayZeroIsLastDay(y, mi + 1);
  }

  /**
   * `new Date(y, m, 0).getDate()`: the length of the month before month index
   * `m`, where an index outside 0..11 carries into the year.
   */
  function LastDayBefore(y: int, m: int): (d: int)
    ensures 28 <= d <= 31
  {
    DaysInMonth(y + (m - 1) / 12, (m - 1) % 12 + 1)
  }

  /** Twelve months more are a year more. */
  lemma MonthCarry(y: int, q: int, j: int, d: int, m: int)
    requires 0 <= j <= 12 && m == 12 * q + j
    ensures MakeDay(y, m, d) == MakeDay(y + q, j, d)
  {
    if j < 12 {
      assert m / 12 == q && m % 12 == j;
    } else {
      assert m / 12 == q + 1 && m % 12 == 0;
    }
  }

  /**
   * For a month from 1 to 12, day 0 of month index `m` is the day
   * `LastDayBefore(y, m)` of month index `m - 1`, and that is the length of
   * month `m` by the leap rule. (Other months reduce to these by `MonthCarry`.)
   */
  lemma LastDayOfMonth(y: int, m: int)
    requires 1 <= m <= 12
    ensures LastDayBefore(y, m) == DaysInMonth(y, m)
    ensures MakeDay(y, m, 0) == MakeDay(y, m - 1, LastDayBefore(y, m))
  {
    assert (m - 1) / 12 == 0 && (m - 1) % 12 == m - 1;
    DayZeroIsLastDay(y, m);
    DayOffset(y, m - 1, DaysInMonth(y, m));
  }

  /** Within a month the day number grows with the day. */
  lemma DayOffset(y: int, mi: int, d: int)
    requires 0 <= mi < 12
    ensures MakeDay(y, mi, d) == MakeDay(y, mi, 1) + d - 1
  {
  }
}
