/**
 The date ranges of src/tools/DateRange.ts. A date at midnight UTC is its day number;
 the anchor is the current date of the requested time zone.
 */
module DateRange {
  import opened Calendar
  import opened Outcomes

  // ---- Date helpers

  /** MakeFullYear of ECMA-262: Date.UTC reads the years 0 to 99 as 1900 to 1999. */
  function MakeFullYear(year: int): int {
    if 0 <= year <= 99 then 1900 + year else year
  }

  function DateUtc(year: int, month: int, date: int): int {
    MakeDay(MakeFullYear(year), month, date)
  }

  /** setUTCDate on a copy: the date may lie outside the month. */
  function AddDays(d: int, days: int): int {
    MakeDay(YearFromDay(d), MonthFromDay(d), DateFromDay(d) + days)
  }

  function DayCountInclusive(start: int, end: int): int {
    (end * 86_400_000 - start * 86_400_000) / 86_400_000 + 1
  }

  function StartOfMonth(d: int): int {
    DateUtc(YearFromDay(d), MonthFromDay(d), 1)
  }

  function StartOfYear(d: int): int {
    DateUtc(YearFromDay(d), 0, 1)
  }

  datatype Range = Range(start: int, end: int)

  function PreviousMonthRange(anchor: int): Range {
    Range(DateUtc(YearFromDay(anchor), MonthFromDay(anchor) - 1, 1),
          DateUtc(YearFromDay(anchor), MonthFromDay(anchor), 0))
  }

  // ---- The tool

  /** Parsed input: dates that fail to parse, and missing ones, are None. */
  datatype Input =
    | Explicit(startDate: Option<int>, endDate: Option<int>)
    | LastNDays(days: Option<int>)
    | MonthToDate
    | PreviousMonth
    | YearToDate

  datatype Problem = BadTimezone | BadDays | BadDates | StartAfterEnd

  datatype Output = Output(range: Range, dayCount: int)

  function Validate(input: Input, zoneIsValid: bool): Option<Problem> {
    if !zoneIsValid then Some(BadTimezone)
    else match input
      case LastNDays(days) => if days.None? || days.value < 1 then Some(BadDays) else None
      case Explicit(start, end) =>
        if start.None? || end.None? then Some(BadDates)
        else if start.value > end.value then Some(StartAfterEnd)
        else None
      case _ => None
  }

  function Execute(input: Input, anchor: int, zoneIsValid: bool): Result<Output, Problem> {
    var problem := Validate(input, zoneIsValid);
    if problem.Some? then Err(problem.value)
    else
      var range := match input
        case Explicit(start, end) => Range(start.value, end.value)
        case LastNDays(days) => Range(AddDays(anchor, -(days.value - 1)), anchor)
        case MonthToDate => Range(StartOfMonth(anchor), anchor)
        case PreviousMonth => PreviousMonthRange(anchor)
        case YearToDate => Range(StartOfYear(anchor), anchor);
      Ok(Output(range, DayCountInclusive(range.start, range.end)))
  }

  predicate Covers(range: Range, d: int) { range.start <= d <= range.end }

  /** Date.UTC keeps the year; every date the tool's own formatter can print has such a year. */
  predicate FullYear(year: int) { !(0 <= year <= 99) }

  // ---- What the modes mean

  lemma DayCount(start: int, end: int)
    ensures DayCountInclusive(start, end) == end - start + 1
  {
    assert end * 86_400_000 - start * 86_400_000 == (end - start) * 86_400_000;
  }

  lemma AddDaysShifts(d: int, days: int)
    ensures AddDays(d, days) == d + days
  {
    hide DayFromYear, MonthStart, IsLeap, MonthFromDay, YearFromDay, MakeDay, DateFromDay;
    MakeDayInYear(YearFromDay(d), MonthFromDay(d), DateFromDay(d));
    MakeDayInYear(YearFromDay(d), MonthFromDay(d), DateFromDay(d) + days);
    DayRoundTrip(d);
  }

  /** `last_n_days` covers n days, the last of them the anchor. */
  lemma LastNDaysCoversN(anchor: int, n: int)
    requires n >= 1
    ensures var r := Execute(LastNDays(Some(n)), anchor, true);
            r.Ok? && r.value.dayCount == n && forall d :: Covers(r.value.range, d) <==> anchor - n < d <= anchor
  {
    hide AddDays, DayCountInclusive;
    AddDaysShifts(anchor, -(n - 1));
    DayCount(anchor - n + 1, anchor);
  }

  /** An explicit range is refused exactly when a date is missing or they are out of order; else it counts both its ends. */
  lemma ExplicitCountsBothEnds(start: Option<int>, end: Option<int>, anchor: int)
    ensures var r := Execute(Explicit(start, end), anchor, true);
            && (r.Ok? <==> start.Some? && end.Some? && start.value <= end.value)
            && (r.Ok? ==> r.value.range == Range(start.value, end.value) && r.value.dayCount == end.value - start.value + 1)
  {
    if start.Some? && end.Some? { DayCount(start.value, end.value); }
    hide DayCountInclusive;
  }

  predicate SameMonth(d: int, e: int) {
    YearFromDay(d) == YearFromDay(e) && MonthFromDay(d) == MonthFromDay(e)
  }

  /** A month is the run of its days. */
  lemma MonthIsInterval(d: int, year: int, month: int)
    requires 0 <= month < 12
    ensures YearFromDay(d) == year && MonthFromDay(d) == month
       <==> MakeDay(year, month, 1) <= d < MakeDay(year, month, 1) + MonthLength(month, IsLeap(year))
  {
    hide DayFromYear, MonthStart, IsLeap, MonthFromDay, YearFromDay, MakeDay, DateFromDay, MonthLength;
    var s := MakeDay(year, month, 1);
    MakeDayInYear(year, month, 1);
    if s <= d < s + MonthLength(month, IsLeap(year)) {
      CivilDay(d, year, month, d - s + 1);
    }
    if YearFromDay(d) == year && MonthFromDay(d) == month {
      DayRoundTrip(d);
      MakeDayInYear(year, month, DateFromDay(d));
    }
  }

  lemma DecemberBefore(year: int)
    ensures MakeDay(year, -1, 1) == MakeDay(year - 1, 11, 1)
    ensures MakeDay(year, 0, 0) == MakeDay(year - 1, 11, 1) + 30
  {
    YearLength(year - 1);
    assert -1 / 12 == -1 && -1 % 12 == 11;
    hide DayFromYear, IsLeap;
    MakeDayInYear(year, 0, 0);
    MakeDayInYear(year - 1, 11, 1);
  }

  lemma MonthBefore(year: int, month: int)
    requires 0 <= month < 12
    ensures var y, m := if month == 0 then year - 1 else year, if month == 0 then 11 else month - 1;
            && MakeDay(year, month - 1, 1) == MakeDay(y, m, 1)
            && MakeDay(year, month, 0) == MakeDay(y, m, 1) + MonthLength(m, IsLeap(y)) - 1
  {
    hide DayFromYear, IsLeap, MakeDay;
    if month == 0 {
      DecemberBefore(year);
    } else {
      MakeDayInYear(year, month, 0);
      MakeDayInYear(year, month - 1, 1);
    }
  }

  /** `d` lies in the month before that of the anchor. */
  predicate InMonthBefore(d: int, anchor: int) {
    var y, m := YearFromDay(anchor), MonthFromDay(anchor);
    && YearFromDay(d) == (if m == 0 then y - 1 else y)
    && MonthFromDay(d) == (if m == 0 then 11 else m - 1)
  }

  /** `previous_month` covers exactly the days of the month before the anchor's. */
  lemma PreviousMonthIsWholeMonth(anchor: int, d: int)
    requires FullYear(YearFromDay(anchor))
    ensures Covers(PreviousMonthRange(anchor), d) <==> InMonthBefore(d, anchor)
  {
    hide DayFromYear, MonthStart, IsLeap, MonthFromDay, YearFromDay, MakeDay, MonthLength;
    var y, m := YearFromDay(anchor), MonthFromDay(anchor);
    MonthBefore(y, m);
    MonthIsInterval(d, if m == 0 then y - 1 else y, if m == 0 then 11 else m - 1);
  }

  /** `month_to_date` counts the day of the month and covers the month up to the anchor. */
  lemma MonthToDateIsMonthSoFar(anchor: int, d: int)
    requires FullYear(YearFromDay(anchor))
    ensures var r := Execute(MonthToDate, anchor, true);
            && r.Ok? && r.value.dayCount == DateFromDay(anchor)
            && (Covers(r.value.range, d) <==> SameMonth(d, anchor) && d <= anchor)
  {
    hide DayFromYear, MonthStart, IsLeap, MonthFromDay, YearFromDay, MakeDay, MonthLength, DateFromDay, DayCountInclusive;
    var y, m := YearFromDay(anchor), MonthFromDay(anchor);
    DayRoundTrip(anchor);
    MakeDayInYear(y, m, 1);
    MakeDayInYear(y, m, DateFromDay(anchor));
    DayCount(StartOfMonth(anchor), anchor);
    MonthIsInterval(d, y, m);
    MonthIsInterval(anchor, y, m);
  }

  /** `year_to_date` counts the day of the year and covers the year up to the anchor. */
  lemma YearToDateIsYearSoFar(anchor: int, d: int)
    requires FullYear(YearFromDay(anchor))
    ensures var r := Execute(YearToDate, anchor, true);
            && r.Ok? && r.value.dayCount == DayWithinYear(anchor) + 1
            && (Covers(r.value.range, d) <==> YearFromDay(d) == YearFromDay(anchor) && d <= anchor)
  {
    hide DayFromYear, IsLeap, MonthFromDay, YearFromDay, MakeDay, MonthLength, DateFromDay, DayCountInclusive;
    var y := YearFromDay(anchor);
    MakeDayInYear(y, 0, 1);
    DayCount(StartOfYear(anchor), anchor);
    if DayFromYear(y) <= d <= anchor {
      YearIsUnique(d, y);
    }
  }

  /** The years 0 to 99 are read as 1900 to 1999: the counts are right exactly outside them. */
  lemma ToDateCountsAreRightExactlyWhen(anchor: int)
    ensures Execute(MonthToDate, anchor, true).value.dayCount == DateFromDay(anchor) <==> FullYear(YearFromDay(anchor))
    ensures Execute(YearToDate, anchor, true).value.dayCount == DayWithinYear(anchor) + 1 <==> FullYear(YearFromDay(anchor))
  {
    hide DayFromYear, MonthStart, IsLeap, MonthFromDay, YearFromDay, MakeDay, MonthLength, DateFromDay, DayWithinYear, DayCountInclusive;
    var y, m := YearFromDay(anchor), MonthFromDay(anchor);
    if FullYear(y) {
      MonthToDateIsMonthSoFar(anchor, anchor);
      YearToDateIsYearSoFar(anchor, anchor);
    } else {
      CenturyShift(y, m);
      CenturyShift(y, 0);
      DayCount(StartOfMonth(anchor), anchor);
      DayCount(StartOfYear(anchor), anchor);
      DayStarts(anchor);
    }
  }

  /** In the years 0 to 99 `previous_month` covers a month 1900 years later; outside them it is right. */
  lemma PreviousMonthIsRightExactlyWhen(anchor: int)
    ensures (forall d :: Covers(PreviousMonthRange(anchor), d) <==> InMonthBefore(d, anchor)) <==> FullYear(YearFromDay(anchor))
  {
    if FullYear(YearFromDay(anchor)) {
      hide *;
      forall d ensures Covers(PreviousMonthRange(anchor), d) <==> InMonthBefore(d, anchor) {
        PreviousMonthIsWholeMonth(anchor, d);
      }
    } else {
      EarlyYearsCoverAnother(anchor);
    }
  }

  lemma EarlyYearsCoverAnother(anchor: int)
    requires !FullYear(YearFromDay(anchor))
    ensures var start := PreviousMonthRange(anchor).start;
            Covers(PreviousMonthRange(anchor), start) && !InMonthBefore(start, anchor)
  {
    hide DayFromYear, IsLeap, MonthFromDay, YearFromDay, MakeDay, DateFromDay;
    var y, m := 1900 + YearFromDay(anchor), MonthFromDay(anchor);
    MonthBefore(y, m);
    var y', m' := if m == 0 then y - 1 else y, if m == 0 then 11 else m - 1;
    var start := PreviousMonthRange(anchor).start;
    assert MonthLength(m', IsLeap(y')) >= 1;
    MonthIsInterval(start, y', m');
  }

  lemma DayStarts(d: int)
    ensures d == MakeDay(YearFromDay(d), MonthFromDay(d), 1) + DateFromDay(d) - 1
    ensures d == MakeDay(YearFromDay(d), 0, 1) + DayWithinYear(d)
  {
    hide DayFromYear, IsLeap, MonthFromDay, YearFromDay, MakeDay, DateFromDay;
    DayRoundTrip(d);
    MakeDayInYear(YearFromDay(d), MonthFromDay(d), DateFromDay(d));
    MakeDayInYear(YearFromDay(d), MonthFromDay(d), 1);
    MakeDayInYear(YearFromDay(d), 0, 1);
  }

  lemma CenturyShift(y: int, m: int)
    requires 0 <= m < 12
    ensures MakeDay(y, m, 1) < MakeDay(1900 + y, m, 1)
  {
    hide DayFromYear, IsLeap, MakeDay;
    MakeDayInYear(y, m, 1);
    MakeDayInYear(1900 + y, m, 1);
    YearsAreOrdered(y, 1900 + y);
  }
}
