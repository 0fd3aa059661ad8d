/**
 Day numbers and civil dates in the proleptic Gregorian calendar: the day, year,
 month, date and weekday functions of section 21.4.1 of ECMA-262, on unbounded
 integers. Day 0 is 1 January 1970. Months count from 0, as in ECMA-262.
 */
module Calendar {

  predicate IsLeap(y: int) {
    y % 4 == 0 && (y % 100 != 0 || y % 400 == 0)
  }

  function DaysInYear(y: int): int {
    if IsLeap(y) then 366 else 365
  }

  /** The number of the first day of year `y`. Division rounds toward minus infinity. */
  function DayFromYear(y: int): int {
    365 * (y - 1970) + (y - 1969) / 4 - (y - 1901) / 100 + (y - 1601) / 400
  }

  lemma FourthYears(y: int)
    ensures (y - 1968) / 4 == (y - 1969) / 4 + (if y % 4 == 0 then 1 else 0)
  {
    var q, r := y / 4, y % 4;
    assert y - 1968 == 4 * (q - 492) + r;
    assert y - 1969 == if r == 0 then 4 * (q - 493) + 3 else 4 * (q - 492) + (r - 1);
  }

  lemma HundredthYears(y: int)
    ensures (y - 1900) / 100 == (y - 1901) / 100 + (if y % 100 == 0 then 1 else 0)
  {
    var q, r := y / 100, y % 100;
    assert y - 1900 == 100 * (q - 19) + r;
    assert y - 1901 == if r == 0 then 100 * (q - 20) + 99 else 100 * (q - 19) + (r - 1);
  }

  lemma FourHundredthYears(y: int)
    ensures (y - 1600) / 400 == (y - 1601) / 400 + (if y % 400 == 0 then 1 else 0)
  {
    var q, r := y / 400, y % 400;
    assert y - 1600 == 400 * (q - 4) + r;
    assert y - 1601 == if r == 0 then 400 * (q - 5) + 399 else 400 * (q - 4) + (r - 1);
  }

  lemma MultipleOfFour(y: int, q: int)
    requires y == 4 * q
    ensures y % 4 == 0
  {
  }

  lemma MultipleOfHundred(y: int, q: int)
    requires y == 100 * q
    ensures y % 100 == 0
  {
  }

  lemma HundredfoldOf(y: int) returns (q: int)
    requires y % 100 == 0
    ensures y == 100 * q
  {
    q := y / 100;
  }

  lemma FourHundredfoldOf(y: int) returns (q: int)
    requires y % 400 == 0
    ensures y == 400 * q
  {
    q := y / 400;
  }

  /** Every fourth hundredth year is a hundredth year, and that a fourth one. */
  lemma CyclesNest(y: int)
    ensures y % 400 == 0 ==> y % 100 == 0
    ensures y % 100 == 0 ==> y % 4 == 0
  {
    if y % 400 == 0 {
      var q := FourHundredfoldOf(y);
      MultipleOfHundred(y, 4 * q);
    }
    if y % 100 == 0 {
      var q := HundredfoldOf(y);
      MultipleOfFour(y, 25 * q);
    }
  }

  lemma YearLength(y: int)
    ensures DayFromYear(y + 1) == DayFromYear(y) + DaysInYear(y)
  {
    FourthYears(y);
    HundredthYears(y);
    FourHundredthYears(y);
    CyclesNest(y);
  }

  lemma {:induction false} YearsAreOrdered(y: int, z: int)
    requires y < z
    ensures DayFromYear(y) + 365 * (z - y) <= DayFromYear(z) <= DayFromYear(y) + 366 * (z - y)
    decreases z - y
  {
    YearLength(z - 1);
    if y < z - 1 {
      YearsAreOrdered(y, z - 1);
    }
  }

  /** The year that contains day `d`, found by walking from the candidate `y`. */
  function YearSearch(d: int, y: int): (r: int)
    ensures DayFromYear(r) <= d < DayFromYear(r + 1)
    decreases if d < DayFromYear(y) then DayFromYear(y) - d
              else if DayFromYear(y + 1) <= d then d - DayFromYear(y + 1) + 1 else 0
  {
    hide DayFromYear;
    YearLength(y);
    if d < DayFromYear(y) then
      YearLength(y - 1);
      YearSearch(d, y - 1)
    else if DayFromYear(y + 1) <= d then
      YearLength(y + 1);
      YearSearch(d, y + 1)
    else
      y
  }

  /** YearFromTime: the largest year whose first day is not after `d`. */
  function YearFromDay(d: int): (y: int)
    ensures DayFromYear(y) <= d < DayFromYear(y + 1)
  {
    YearSearch(d, 1970)
  }

  lemma YearIsUnique(d: int, y: int)
    requires DayFromYear(y) <= d < DayFromYear(y + 1)
    ensures YearFromDay(d) == y
  {
    var z := YearFromDay(d);
    if z < y {
      if z + 1 < y { YearsAreOrdered(z + 1, y); }
    } else if y < z {
      if y + 1 < z { YearsAreOrdered(y + 1, z); }
    }
  }

  /** Days of the year before month `m`; `m` is 12 for the whole year. */
  function MonthStart(m: int, leap: bool): int
    requires 0 <= m <= 12
  {
    var l := if leap then 1 else 0;
    [0, 31, 59 + l, 90 + l, 120 + l, 151 + l, 181 + l, 212 + l, 243 + l, 273 + l, 304 + l, 334 + l, 365 + l][m]
  }

  function MonthLength(m: int, leap: bool): int
    requires 0 <= m < 12
  {
    MonthStart(m + 1, leap) - MonthStart(m, leap)
  }

  /** MonthFromTime, by the number of days since the year began. */
  function MonthOfYearDay(n: int, leap: bool): (m: int)
    requires 0 <= n < if leap then 366 else 365
    ensures 0 <= m < 12
    ensures MonthStart(m, leap) <= n < MonthStart(m + 1, leap)
  {
    if n < MonthStart(1, leap) then 0
    else if n < MonthStart(2, leap) then 1
    else if n < MonthStart(3, leap) then 2
    else if n < MonthStart(4, leap) then 3
    else if n < MonthStart(5, leap) then 4
    else if n < MonthStart(6, leap) then 5
    else if n < MonthStart(7, leap) then 6
    else if n < MonthStart(8, leap) then 7
    else if n < MonthStart(9, leap) then 8
    else if n < MonthStart(10, leap) then 9
    else if n < MonthStart(11, leap) then 10
    else 11
  }

  function DayWithinYear(d: int): (n: int)
    ensures 0 <= n < DaysInYear(YearFromDay(d))
  {
    YearLength(YearFromDay(d));
    d - DayFromYear(YearFromDay(d))
  }

  function MonthFromDay(d: int): (m: int)
    ensures 0 <= m < 12
  {
    MonthOfYearDay(DayWithinYear(d), IsLeap(YearFromDay(d)))
  }

  function DateFromDay(d: int): (dt: int)
    ensures 1 <= dt <= MonthLength(MonthFromDay(d), IsLeap(YearFromDay(d)))
  {
    DayWithinYear(d) - MonthStart(MonthFromDay(d), IsLeap(YearFromDay(d))) + 1
  }

  /** 0 is Sunday. */
  function WeekDay(d: int): (w: int)
    ensures 0 <= w < 7
  {
    (d + 4) % 7
  }

  /** MakeDay: month and date may lie outside their ranges and then carry over. */
  function MakeDay(year: int, month: int, date: int): int {
    var y := year + month / 12;
    DayFromYear(y) + MonthStart(month % 12, IsLeap(y)) + date - 1
  }

  predicate IsCivil(year: int, month: int, date: int) {
    0 <= month < 12 && 1 <= date <= MonthLength(month, IsLeap(year))
  }

  // ---- Round trips between civil dates and day numbers

  lemma MonthStartsAreOrdered(a: int, b: int, leap: bool)
    requires 0 <= a < b <= 12
    ensures MonthStart(a, leap) + 28 <= MonthStart(b, leap)
  {
  }

  /** The months of a year do not overlap. */
  lemma MonthIsUnique(n: int, month: int, leap: bool)
    requires 0 <= n < (if leap then 366 else 365) && 0 <= month < 12
    requires MonthStart(month, leap) <= n < MonthStart(month + 1, leap)
    ensures MonthOfYearDay(n, leap) == month
  {
    var m := MonthOfYearDay(n, leap);
    hide MonthStart, MonthOfYearDay;
    if m < month {
      if m + 1 < month { MonthStartsAreOrdered(m + 1, month, leap); }
    } else if month < m {
      if month + 1 < m { MonthStartsAreOrdered(month + 1, m, leap); }
    }
  }

  lemma MonthIsInYear(month: int, leap: bool)
    requires 0 <= month < 12
    ensures 0 <= MonthStart(month, leap) && MonthStart(month + 1, leap) <= if leap then 366 else 365
  {
  }

  lemma CivilRoundTrip(year: int, month: int, date: int)
    requires IsCivil(year, month, date)
    ensures var d := MakeDay(year, month, date);
            YearFromDay(d) == year && MonthFromDay(d) == month && DateFromDay(d) == date
  {
    hide DayFromYear, MonthStart, IsLeap, MonthOfYearDay, YearFromDay;
    var d, n := MakeDay(year, month, date), MonthStart(month, IsLeap(year)) + date - 1;
    MakeDayInYear(year, month, date);
    YearLength(year);
    MonthIsInYear(month, IsLeap(year));
    YearIsUnique(d, year);
    MonthIsUnique(n, month, IsLeap(year));
  }

  lemma MakeDayInYear(year: int, month: int, date: int)
    requires 0 <= month < 12
    ensures MakeDay(year, month, date) == DayFromYear(year) + MonthStart(month, IsLeap(year)) + date - 1
  {
  }

  lemma DayRoundTrip(d: int)
    ensures IsCivil(YearFromDay(d), MonthFromDay(d), DateFromDay(d))
    ensures MakeDay(YearFromDay(d), MonthFromDay(d), DateFromDay(d)) == d
  {
    hide DayFromYear, MonthStart, IsLeap, YearFromDay, MonthFromDay;
    MakeDayInYear(YearFromDay(d), MonthFromDay(d), DateFromDay(d));
  }

  lemma WeekDayAdvances(d: int)
    ensures WeekDay(d + 1) == if WeekDay(d) == 6 then 0 else WeekDay(d) + 1
  {
  }

  lemma CivilDay(d: int, year: int, month: int, date: int)
    requires IsCivil(year, month, date)
    requires d == DayFromYear(year) + MonthStart(month, IsLeap(year)) + date - 1
    ensures YearFromDay(d) == year && MonthFromDay(d) == month && DateFromDay(d) == date
  {
    MakeDayInYear(year, month, date);
    CivilRoundTrip(year, month, date);
  }

  predicate IsLastOfMonth(d: int) {
    DateFromDay(d) == MonthLength(MonthFromDay(d), IsLeap(YearFromDay(d)))
  }

  lemma NextDateInMonth(d: int)
    requires !IsLastOfMonth(d)
    ensures YearFromDay(d + 1) == YearFromDay(d) && MonthFromDay(d + 1) == MonthFromDay(d)
    ensures DateFromDay(d + 1) == DateFromDay(d) + 1
  {
    CivilDay(d + 1, YearFromDay(d), MonthFromDay(d), DateFromDay(d) + 1);
  }

  lemma NextMonth(d: int)
    requires IsLastOfMonth(d) && MonthFromDay(d) < 11
    ensures YearFromDay(d + 1) == YearFromDay(d) && MonthFromDay(d + 1) == MonthFromDay(d) + 1
    ensures DateFromDay(d + 1) == 1
  {
    hide DayFromYear, MonthStart, IsLeap, YearFromDay, MonthFromDay;
    var m := MonthFromDay(d) + 1;
    MonthStartsAreOrdered(m, m + 1, IsLeap(YearFromDay(d)));
    CivilDay(d + 1, YearFromDay(d), m, 1);
  }

  lemma NextYear(d: int)
    requires IsLastOfMonth(d) && MonthFromDay(d) == 11
    ensures YearFromDay(d + 1) == YearFromDay(d) + 1 && MonthFromDay(d + 1) == 0 && DateFromDay(d + 1) == 1
  {
    hide DayFromYear, IsLeap, YearFromDay, MonthFromDay;
    YearLength(YearFromDay(d));
    CivilDay(d + 1, YearFromDay(d) + 1, 0, 1);
  }

  datatype Civil = Civil(year: int, month: int, date: int)

  function CivilOf(d: int): Civil {
    Civil(YearFromDay(d), MonthFromDay(d), DateFromDay(d))
  }

  /** The day after, as a wall calendar has it. */
  function DayAfter(c: Civil): Civil
    requires 0 <= c.month < 12
  {
    if c.date < MonthLength(c.month, IsLeap(c.year)) then c.(date := c.date + 1)
    else if c.month < 11 then Civil(c.year, c.month + 1, 1)
    else Civil(c.year + 1, 0, 1)
  }

  /** Day numbers count the days of the calendar one by one. */
  lemma NextDay(d: int)
    ensures CivilOf(d + 1) == DayAfter(CivilOf(d))
  {
    hide DayFromYear, MonthStart, MonthLength, IsLeap, YearFromDay, MonthFromDay, DateFromDay;
    if !IsLastOfMonth(d) {
      NextDateInMonth(d);
    } else if MonthFromDay(d) < 11 {
      NextMonth(d);
    } else {
      NextYear(d);
    }
  }

  // ---- Leap days

  predicate IsLeapDay(d: int) {
    MonthFromDay(d) == 1 && DateFromDay(d) == 29
  }

  function LeapDayOf(y: int): int {
    MakeDay(y, 1, 29)
  }

  /** Years until the next multiple of 400, which is a leap year. */
  function YearsToCycle(y: int): nat {
    if y % 400 == 0 then 0 else 400 - y % 400
  }

  lemma CycleApproaches(y: int)
    requires y % 400 != 0
    ensures YearsToCycle(y + 1) < YearsToCycle(y)
  {
    var q, r := y / 400, y % 400;
    if r < 399 {
      assert (y + 1) / 400 == q;
    } else {
      assert y + 1 == 400 * (q + 1);
    }
  }

  /** The first leap year from `y` on. */
  function NextLeapYear(y: int): (z: int)
    ensures y <= z && IsLeap(z)
    ensures forall x :: y <= x < z ==> !IsLeap(x)
    decreases YearsToCycle(y)
  {
    if IsLeap(y) then y
    else
      CycleApproaches(y);
      NextLeapYear(y + 1)
  }

  lemma LeapDayIsInLeapYear(d: int)
    ensures IsLeapDay(d) <==> IsLeap(YearFromDay(d)) && d == LeapDayOf(YearFromDay(d))
  {
    DayRoundTrip(d);
    if IsLeap(YearFromDay(d)) { CivilRoundTrip(YearFromDay(d), 1, 29); }
  }
}
