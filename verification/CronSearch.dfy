/**
 The calendar search of src/cron/cronParser.ts: the first whole minute after a
 given time at which five accepted cron fields match, looked for minute by minute
 under a bound of 4 * 525600 steps. Local time is UTC plus a fixed offset.
 */
module CronSearch {
  import opened Calendar
  import opened CronParser
  import opened Outcomes

  const MAX_STEPS: nat := 525_600 * 4
  const MINUTES_PER_DAY: nat := 1440

  // ---- Time values in milliseconds (section 21.4.1 of ECMA-262)

  function DayOf(t: int): int { t / 86_400_000 }
  function HourOf(t: int): int { t / 3_600_000 % 24 }
  function MinuteOf(t: int): int { t / 60_000 % 60 }
  function SecondOf(t: int): int { t / 1000 % 60 }
  function MillisecondOf(t: int): int { t % 1000 }

  function MakeTime(hour: int, minute: int, second: int, ms: int): int {
    hour * 3_600_000 + minute * 60_000 + second * 1000 + ms
  }

  function MakeDate(day: int, time: int): int {
    day * 86_400_000 + time
  }

  /** Date.prototype.setSeconds on a local time value. */
  function SetSeconds(t: int, second: int, ms: int): int {
    MakeDate(DayOf(t), MakeTime(HourOf(t), MinuteOf(t), second, ms))
  }

  /** Date.prototype.setMinutes on a local time value; 60 carries into the hour. */
  function SetMinutes(t: int, minute: int): int {
    MakeDate(DayOf(t), MakeTime(HourOf(t), minute, SecondOf(t), MillisecondOf(t)))
  }

  lemma TimeParts(t: int)
    ensures t == MakeDate(DayOf(t), MakeTime(HourOf(t), MinuteOf(t), SecondOf(t), MillisecondOf(t)))
  {
    var s, m, h := t / 1000, t / 60_000, t / 3_600_000;
    assert t == 1000 * s + MillisecondOf(t);
    assert s / 60 == m && s == 60 * m + SecondOf(t);
    assert m / 60 == h && m == 60 * h + MinuteOf(t);
    assert h / 24 == DayOf(t) && h == 24 * DayOf(t) + HourOf(t);
  }

  lemma SetSecondsRoundsDown(t: int)
    ensures SetSeconds(t, 0, 0) == 60_000 * (t / 60_000)
  {
    TimeParts(t);
    var r := 1000 * SecondOf(t) + MillisecondOf(t);
    assert t == SetSeconds(t, 0, 0) + r && 0 <= r < 60_000;
    var q := DayOf(t) * 1440 + HourOf(t) * 60 + MinuteOf(t);
    assert SetSeconds(t, 0, 0) == 60_000 * q;
    assert t / 60_000 == q;
  }

  lemma SetMinutesAdvances(t: int)
    ensures SetMinutes(t, MinuteOf(t) + 1) == t + 60_000
  {
    TimeParts(t);
  }

  /** The parts of a whole local minute, counted from day 0. */
  lemma MinuteParts(m: int)
    ensures MinuteOf(60_000 * m) == m % 60
    ensures HourOf(60_000 * m) == m / 60 % 24
    ensures DayOf(60_000 * m) == m / 1440
  {
    var h := m / 60;
    assert 60_000 * m / 60_000 == m;
    assert m == 60 * h + m % 60;
    assert 60_000 * m / 3_600_000 == h;
    assert h == 24 * (h / 24) + h % 24;
    assert 60_000 * m / 86_400_000 == h / 24 == m / 1440;
  }

  // ---- Matching

  /** `matches`, on a local time value. */
  predicate Matches(t: int, f: CronFields) {
    var d := DayOf(t);
    if MinuteOf(t) !in f.minute then false
    else if HourOf(t) !in f.hour then false
    else if MonthFromDay(d) + 1 !in f.month then false
    else
      var domRestricted := |f.dayOfMonth| != 31;
      var dowRestricted := |f.dayOfWeek| != 7;
      var domOk := DateFromDay(d) in f.dayOfMonth;
      var dowOk := WeekDay(d) in f.dayOfWeek;
      if domRestricted && dowRestricted then domOk || dowOk
      else if domRestricted then domOk
      else if dowRestricted then dowOk
      else true
  }

  /** A field is restricted when it leaves out a value of its range. */
  ghost predicate Restricts(s: set<int>, lo: int, hi: int) {
    exists v :: lo <= v <= hi && v !in s
  }

  ghost predicate DateRestricted(f: CronFields) { Restricts(f.dayOfMonth, 1, 31) }
  ghost predicate WeekDayRestricted(f: CronFields) { Restricts(f.dayOfWeek, 0, 6) }

  /** The `crontab` rule of POSIX.1-2017: two restricted day fields match on either. */
  ghost predicate DayMatches(f: CronFields, d: int) {
    && MonthFromDay(d) + 1 in f.month
    && ( || (!DateRestricted(f) && !WeekDayRestricted(f))
         || (DateRestricted(f) && DateFromDay(d) in f.dayOfMonth)
         || (WeekDayRestricted(f) && WeekDay(d) in f.dayOfWeek))
  }

  ghost predicate TimeMatches(f: CronFields, minuteOfDay: int) {
    minuteOfDay % 60 in f.minute && minuteOfDay / 60 in f.hour
  }

  /** The fields match the local minute `m`. */
  ghost predicate FiresAt(f: CronFields, m: int) {
    DayMatches(f, m / MINUTES_PER_DAY) && TimeMatches(f, m % MINUTES_PER_DAY)
  }

  ghost function Interval(lo: int, hi: int): (s: set<int>)
    requires lo <= hi + 1
    ensures forall v :: v in s <==> lo <= v <= hi
    ensures |s| == hi - lo + 1
    decreases hi - lo + 1
  {
    if hi < lo then {} else Interval(lo, hi - 1) + {hi}
  }

  /** The source tests a size; that is the same as a missing value. */
  lemma SizeTellsRestriction(s: set<int>, lo: int, hi: int)
    requires lo <= hi && InRange(s, lo, hi)
    ensures Restricts(s, lo, hi) <==> |s| != hi - lo + 1
  {
    var all := Interval(lo, hi);
    assert s <= all;
    assert |all| == |s| + |all - s|;
    if Restricts(s, lo, hi) {
      var v :| lo <= v <= hi && v !in s;
      assert v in all - s;
    } else {
      assert s == all;
    }
  }

  lemma MatchesIsFiring(m: int, f: CronFields)
    requires Accepted(f)
    ensures Matches(60_000 * m, f) <==> FiresAt(f, m)
  {
    MinuteParts(m);
    SizeTellsRestriction(f.dayOfMonth, 1, 31);
    SizeTellsRestriction(f.dayOfWeek, 0, 6);
    assert m % 1440 % 60 == m % 60 && m % 1440 / 60 == m / 60 % 24 by { DayMinutes(m); }
  }

  lemma DayMinutes(m: int)
    ensures m % 1440 % 60 == m % 60
    ensures m % 1440 / 60 == m / 60 % 24
  {
    var d, h, i := m / 1440, m % 1440 / 60, m % 1440 % 60;
    assert m == 1440 * d + 60 * h + i;
    assert m / 60 == 24 * d + h;
  }

  // ---- The search

  /** The first matching minute among `steps` minutes from `m`. */
  ghost function FirstFire(f: CronFields, m: int, steps: nat): Option<int>
    decreases steps
  {
    if steps == 0 then None
    else if FiresAt(f, m) then Some(m)
    else FirstFire(f, m + 1, steps - 1)
  }

  lemma {:induction false} FirstFireIsLeast(f: CronFields, m: int, steps: nat)
    ensures match FirstFire(f, m, steps)
            case Some(x) => m <= x < m + steps && FiresAt(f, x) && forall y :: m <= y < x ==> !FiresAt(f, y)
            case None => forall y :: m <= y < m + steps ==> !FiresAt(f, y)
    decreases steps
  {
    hide FiresAt;
    if steps > 0 && !FiresAt(f, m) {
      FirstFireIsLeast(f, m + 1, steps - 1);
    }
  }

  /** The first whole local minute strictly after the UTC time `after`. */
  function FirstMinuteAfter(after: int, offset: int): int {
    (after + offset) / 60_000 + 1
  }

  lemma FirstMinuteIsNext(after: int, offset: int)
    ensures var t := 60_000 * FirstMinuteAfter(after, offset) - offset; after < t <= after + 60_000
  {
  }

  /** What `getNextFireAt` returns: a UTC time, or why there is none. */
  ghost function NextFire(expression: string, after: int, offset: int): Result<int, CronError> {
    match CronMeaning(expression)
    case Err(error) => Err(error)
    case Ok(f) =>
      match FirstFire(f, FirstMinuteAfter(after, offset), MAX_STEPS)
      case Some(m) => Ok(60_000 * m - offset)
      case None => Err(NoFireTime)
  }

  /** The loop of `getNextFireAt`, from a whole local minute. */
  method Search(f: CronFields, start: int, maxSteps: nat) returns (r: Option<int>)
    requires Accepted(f)
    ensures r == match FirstFire(f, start, maxSteps) case Some(m) => Some(60_000 * m) case None => None
  {
    hide Matches, FiresAt, FirstFire, SetMinutes, MinuteOf, Accepted;
    var d := 60_000 * start;
    for i := 0 to maxSteps
      invariant d == 60_000 * (start + i)
      invariant FirstFire(f, start, maxSteps) == FirstFire(f, start + i, maxSteps - i)
    {
      MatchesIsFiring(start + i, f);
      FirstFireUnfolds(f, start + i, maxSteps - i);
      if Matches(d, f) {
        return Some(d);
      }
      SetMinutesAdvances(d);
      d := SetMinutes(d, MinuteOf(d) + 1);
    }
    FirstFireEnds(f, start + maxSteps);
    r := None;
  }

  method GetNextFireAt(expression: string, after: int, offset: int) returns (r: Result<int, CronError>)
    ensures r == NextFire(expression, after, offset)
  {
    hide FiresAt, FirstFire, SetSeconds, CronMeaning;
    var fields := ParseCron(expression);
    if fields.Err? {
      return Err(fields.error);
    }
    ParsedFieldsAreAccepted(expression);
    var d := SetSeconds(after + 60_000 + offset, 0, 0);
    SetSecondsRoundsDown(after + 60_000 + offset);
    var found := Search(fields.value, d / 60_000, MAX_STEPS);
    r := if found.Some? then Ok(found.value - offset) else Err(NoFireTime);
  }

  lemma FirstFireUnfolds(f: CronFields, m: int, steps: nat)
    requires steps > 0
    ensures FirstFire(f, m, steps) == if FiresAt(f, m) then Some(m) else FirstFire(f, m + 1, steps - 1)
  {
  }

  lemma FirstFireEnds(f: CronFields, m: int)
    ensures FirstFire(f, m, 0) == None
  {
  }

  /** A returned time is the least whole local minute after `after` that matches. */
  lemma NextFireIsLeastMatch(expression: string, after: int, offset: int)
    requires NextFire(expression, after, offset).Ok?
    ensures var f, t := CronMeaning(expression).value, NextFire(expression, after, offset).value;
            && after < t && (t + offset) % 60_000 == 0
            && FiresAt(f, (t + offset) / 60_000)
            && forall m :: after < 60_000 * m - offset < t ==> !FiresAt(f, m)
  {
    hide FiresAt, FirstFire, CronMeaning;
    var f := CronMeaning(expression).value;
    var start := FirstMinuteAfter(after, offset);
    FirstFireIsLeast(f, start, MAX_STEPS);
    FirstMinuteIsNext(after, offset);
    var x := FirstFire(f, start, MAX_STEPS).value;
    assert 60_000 * x % 60_000 == 0 && 60_000 * x / 60_000 == x;
  }

  // ---- Which days can match

  ghost predicate MatchesOrdinaryDay(f: CronFields) {
    exists d :: DayMatches(f, d) && !IsLeapDay(d)
  }

  /** What a caller can read off the fields: some date other than 29 February is possible. */
  ghost predicate OrdinaryPossible(f: CronFields) {
    || WeekDayRestricted(f)
    || exists m, d :: m in f.month && 1 <= m <= 12 && d in f.dayOfMonth && d <= MonthLength(m - 1, false)
  }

  ghost predicate LeapDayPossible(f: CronFields) {
    2 in f.month && 29 in f.dayOfMonth
  }

  lemma DateMatches(f: CronFields, d: int)
    requires Accepted(f) && !WeekDayRestricted(f)
    ensures DayMatches(f, d) <==> MonthFromDay(d) + 1 in f.month && DateFromDay(d) in f.dayOfMonth
  {
    var leap := IsLeap(YearFromDay(d));
    assert MonthLength(MonthFromDay(d), leap) <= 31;
  }

  lemma LeapYearsAreFourApart(y: int, z: int)
    requires IsLeap(y) && y < z < y + 4
    ensures !IsLeap(z)
  {
    assert y % 4 == 0 && z % 4 == z - y;
  }

  lemma DatesAYearApart(y: int, month: int, date: int)
    requires 0 <= month < 12
    ensures 365 <= MakeDay(y + 1, month, date) - MakeDay(y, month, date) <= 366
  {
    hide DayFromYear, IsLeap, MakeDay;
    YearLength(y);
    if IsLeap(y) { LeapYearsAreFourApart(y, y + 1); }
    MakeDayInYear(y, month, date);
    MakeDayInYear(y + 1, month, date);
  }

  /** A date of the year recurs at most 366 days after any day. */
  lemma DateRecurs(d0: int, month: int, date: int) returns (d: int)
    requires 0 <= month < 12 && 1 <= date <= MonthLength(month, false)
    ensures d0 < d <= d0 + 366 && MonthFromDay(d) == month && DateFromDay(d) == date
    ensures d == d0 + 366 ==> MonthFromDay(d0) == month && DateFromDay(d0) == date
  {
    hide DayFromYear, IsLeap, MakeDay, MonthStart, YearFromDay, MonthFromDay, DateFromDay, DayWithinYear;
    var y := YearFromDay(d0);
    MonthsAreNoShorter(month);
    var c, c' := MakeDay(y, month, date), MakeDay(y + 1, month, date);
    CivilRoundTrip(y, month, date);
    CivilRoundTrip(y + 1, month, date);
    YearLength(y);
    DatesAYearApart(y, month, date);
    DayIsInYear(c);
    DayIsInYear(c');
    d := if d0 < c then c else c';
  }

  lemma MonthsAreNoShorter(month: int)
    requires 0 <= month < 12
    ensures forall leap :: MonthLength(month, false) <= MonthLength(month, leap)
  {
  }

  lemma DayIsInYear(d: int)
    ensures DayFromYear(YearFromDay(d)) <= d < DayFromYear(YearFromDay(d)) + DaysInYear(YearFromDay(d))
  {
    YearLength(YearFromDay(d));
  }

  /** Seven days in a row hold every weekday. */
  lemma WeekDayInWeek(d: int, w: int) returns (j: int)
    requires 0 <= w < 7
    ensures 0 <= j < 7 && WeekDay(d + j) == w
  {
    j := (w - WeekDay(d)) % 7;
    assert (WeekDay(d) + j) % 7 == w;
  }

  /** A weekday recurs within a month of the year in at most 365 days, before the 29th. */
  lemma WeekDayRecurs(d0: int, month: int, w: int) returns (d: int)
    requires 0 <= month < 12 && 0 <= w < 7
    ensures d0 < d <= d0 + 365 && MonthFromDay(d) == month && WeekDay(d) == w && DateFromDay(d) <= 28
  {
    hide DayFromYear, IsLeap, MakeDay, YearFromDay, MonthFromDay, DateFromDay, WeekDay;
    var y := YearFromDay(d0);
    var s := MakeDay(y, month, 1);
    YearLength(y);
    MakeDayInYear(y, month, 1);
    DatesAYearApart(y, month, 1);
    var leap := IsLeap(y);
    MonthStartsAreOrdered(month, 12, leap);
    var base;
    if d0 <= s + 20 {
      base := if d0 < s then s else d0 + 1;
      var j := WeekDayInWeek(base, w);
      d := base + j;
      assert MonthLength(month, leap) >= 28;
      CivilDay(d, y, month, d - s + 1);
    } else {
      base := MakeDay(y + 1, month, 1);
      MakeDayInYear(y + 1, month, 1);
      assert MonthLength(month, IsLeap(y + 1)) >= 28;
      var j := WeekDayInWeek(base, w);
      d := base + j;
      CivilDay(d, y + 1, month, j + 1);
    }
  }

  lemma Member(s: set<int>) returns (v: int)
    requires exists v :: v in s
    ensures v in s
  {
    v :| v in s;
  }

  lemma OrdinaryDaySoon(f: CronFields, d0: int) returns (d: int)
    requires Accepted(f) && OrdinaryPossible(f)
    ensures d0 < d <= d0 + 366 && DayMatches(f, d) && !IsLeapDay(d)
    ensures d == d0 + 366 ==> DayMatches(f, d0)
  {
    hide DayFromYear, IsLeap, MakeDay, YearFromDay, MonthFromDay, DateFromDay, WeekDay;
    if WeekDayRestricted(f) {
      var m := Member(f.month);
      var w := Member(f.dayOfWeek);
      d := WeekDayRecurs(d0, m - 1, w);
    } else {
      var m, date :| m in f.month && 1 <= m <= 12 && date in f.dayOfMonth && date <= MonthLength(m - 1, false);
      d := DateRecurs(d0, m - 1, date);
      DateMatches(f, d);
      DateMatches(f, d0);
    }
  }

  lemma OrdinaryDatesAreCommon(d: int)
    requires !IsLeapDay(d)
    ensures DateFromDay(d) <= MonthLength(MonthFromDay(d), false)
  {
    hide DayFromYear, YearFromDay, MonthFromDay, IsLeap, DayWithinYear;
  }

  lemma OrdinaryPossibleIsExact(f: CronFields)
    requires Accepted(f)
    ensures MatchesOrdinaryDay(f) <==> OrdinaryPossible(f)
  {
    hide DayFromYear, IsLeap, MakeDay, YearFromDay, MonthFromDay, WeekDay, MonthStart, DayWithinYear;
    if OrdinaryPossible(f) {
      var d := OrdinaryDaySoon(f, 0);
    }
    if MatchesOrdinaryDay(f) && !WeekDayRestricted(f) {
      var d :| DayMatches(f, d) && !IsLeapDay(d);
      DateMatches(f, d);
      OrdinaryDatesAreCommon(d);
    }
  }

  lemma OnlyLeapDaysMatch(f: CronFields, d: int)
    requires Accepted(f) && !OrdinaryPossible(f)
    ensures DayMatches(f, d) <==> LeapDayPossible(f) && IsLeapDay(d)
  {
    DateMatches(f, d);
    if DayMatches(f, d) {
      OrdinaryPossibleIsExact(f);
      assert IsLeapDay(d);
    }
  }

  // ---- How far the search has to look

  /** Minute and hour fields are never empty, so every day has a matching time. */
  lemma SomeTimeMatches(f: CronFields) returns (t: int)
    requires Accepted(f)
    ensures 0 <= t < MINUTES_PER_DAY && TimeMatches(f, t)
  {
    var h := Member(f.hour);
    var i := Member(f.minute);
    t := 60 * h + i;
  }

  lemma FiringMinute(f: CronFields, d: int, t: int)
    requires DayMatches(f, d) && 0 <= t < MINUTES_PER_DAY && TimeMatches(f, t)
    ensures FiresAt(f, MINUTES_PER_DAY * d + t)
  {
    hide DayMatches, TimeMatches;
    assert (1440 * d + t) / 1440 == d && (1440 * d + t) % 1440 == t;
  }

  lemma FoundIfFires(f: CronFields, m: int, x: int, steps: nat)
    requires m <= x < m + steps && FiresAt(f, x)
    ensures FirstFire(f, m, steps).Some? && FirstFire(f, m, steps).value <= x
  {
    hide FiresAt, FirstFire;
    FirstFireIsLeast(f, m, steps);
  }

  /** Fields that can match an ordinary date are found within 366 days of any start. */
  lemma OrdinaryFoundWithin366Days(f: CronFields, m: int)
    requires Accepted(f) && OrdinaryPossible(f)
    ensures FirstFire(f, m, 366 * MINUTES_PER_DAY).Some?
  {
    hide DayMatches, TimeMatches, FiresAt, FirstFire;
    var d0 := m / MINUTES_PER_DAY;
    var d := OrdinaryDaySoon(f, d0);
    var t := SomeTimeMatches(f);
    if d == d0 + 366 && m % MINUTES_PER_DAY <= t {
      FiringMinute(f, d0, t);
      FoundIfFires(f, m, MINUTES_PER_DAY * d0 + t, 366 * MINUTES_PER_DAY);
    } else {
      FiringMinute(f, d, t);
      FoundIfFires(f, m, MINUTES_PER_DAY * d + t, 366 * MINUTES_PER_DAY);
    }
  }

  /** The 1 March midnight schedule, started one minute after it fired in 2023. */
  const MARCH_FIRST := CronFields({0}, {0}, {1}, {3}, {0, 1, 2, 3, 4, 5, 6})

  lemma MarchFirstDays(d: int)
    ensures DayMatches(MARCH_FIRST, d) <==> d == MakeDay(YearFromDay(d), 2, 1)
  {
    hide DayFromYear, IsLeap, YearFromDay, MonthFromDay, DateFromDay, DayMatches, MakeDay;
    DateMatches(MARCH_FIRST, d);
    DayRoundTrip(d);
    CivilRoundTrip(YearFromDay(d), 2, 1);
  }

  const MARCH_SECOND: int := MINUTES_PER_DAY * MakeDay(2023, 2, 1) + 1

  /** 366 days cannot be improved: one step fewer misses a date across a leap day. */
  lemma BoundOf366DaysIsTight()
    ensures Accepted(MARCH_FIRST) && OrdinaryPossible(MARCH_FIRST)
    ensures FirstFire(MARCH_FIRST, MARCH_SECOND, 366 * MINUTES_PER_DAY - 1).None?
  {
    MarchFirstIsOrdinary();
    var n := 366 * MINUTES_PER_DAY - 1;
    hide FirstFire, FiresAt, DayMatches, MakeDay, YearFromDay, DayFromYear, IsLeap, Accepted, OrdinaryPossible;
    FirstFireIsLeast(MARCH_FIRST, MARCH_SECOND, n);
    if FirstFire(MARCH_FIRST, MARCH_SECOND, n).Some? {
      var x := FirstFire(MARCH_FIRST, MARCH_SECOND, n).value;
      MarchFirstMinutes(x);
      MarchFirstGap(x / 1440);
      MarchFirstYears();
    }
  }

  lemma MarchFirstIsOrdinary()
    ensures Accepted(MARCH_FIRST) && OrdinaryPossible(MARCH_FIRST)
  {
    var f := MARCH_FIRST;
    assert 0 in f.minute && 0 in f.hour && 0 in f.dayOfWeek;
    assert 3 in f.month && 1 in f.dayOfMonth && 1 <= MonthLength(2, false);
  }

  lemma MarchFirstYears()
    ensures MakeDay(2024, 2, 1) == MakeDay(2023, 2, 1) + 366
  {
    assert DayFromYear(2023) == 19358 && DayFromYear(2024) == 19723;
    MakeDayInYear(2023, 2, 1);
    MakeDayInYear(2024, 2, 1);
    hide DayFromYear, MakeDay;
  }

  lemma MarchFirstMinutes(x: int)
    requires FiresAt(MARCH_FIRST, x)
    ensures x == 1440 * (x / 1440) && x / 1440 == MakeDay(YearFromDay(x / 1440), 2, 1)
  {
    MarchFirstDays(x / 1440);
    var t := x % 1440;
    assert t % 60 == 0 && t / 60 == 0;
  }

  lemma MarchFirstGap(d: int)
    requires d == MakeDay(YearFromDay(d), 2, 1)
    requires MakeDay(2023, 2, 1) < d
    ensures MakeDay(2024, 2, 1) <= d
  {
    hide MakeDay, DayFromYear, YearFromDay, IsLeap;
    var y := YearFromDay(d);
    if y <= 2023 {
      if y < 2023 { LaterYearLaterDate(y, 2023, 2, 1); }
    } else if 2024 < y {
      LaterYearLaterDate(2024, y, 2, 1);
    }
  }

  lemma LaterYearLaterDate(y: int, z: int, month: int, date: int)
    requires y < z && 0 <= month < 12
    ensures MakeDay(y, month, date) + 365 * (z - y) <= MakeDay(z, month, date)
    decreases z - y
  {
    hide MakeDay, DayFromYear, IsLeap;
    DatesAYearApart(z - 1, month, date);
    if y < z - 1 { LaterYearLaterDate(y, z - 1, month, date); }
  }

  // ---- Fields that match nothing but 29 February

  /** The leap day the search runs into: this year's while a matching time remains, else the next. */
  ghost function LeapDayAhead(f: CronFields, m: int): int {
    var y := YearFromDay(m / MINUTES_PER_DAY);
    if IsLeap(y) && TimeRemains(f, m, LeapDayOf(y)) then LeapDayOf(y) else LeapDayOf(NextLeapYear(y + 1))
  }

  ghost predicate TimeRemains(f: CronFields, m: int, d: int) {
    exists t :: 0 <= t < MINUTES_PER_DAY && TimeMatches(f, t) && m <= MINUTES_PER_DAY * d + t
  }

  /** Every matching time of day `d` lies `MAX_STEPS` minutes or more after `m`. */
  ghost predicate BeyondReach(f: CronFields, m: int, d: int) {
    forall t :: 0 <= t < MINUTES_PER_DAY && TimeMatches(f, t) ==> m + MAX_STEPS <= MINUTES_PER_DAY * d + t
  }

  lemma FiresOnLeapDays(f: CronFields, x: int)
    requires Accepted(f) && !OrdinaryPossible(f)
    ensures FiresAt(f, x) <==>
            && LeapDayPossible(f) && TimeMatches(f, x % MINUTES_PER_DAY)
            && IsLeap(YearFromDay(x / MINUTES_PER_DAY))
            && x / MINUTES_PER_DAY == LeapDayOf(YearFromDay(x / MINUTES_PER_DAY))
  {
    hide DayMatches, TimeMatches, IsLeap, IsLeapDay, LeapDayOf, YearFromDay;
    OnlyLeapDaysMatch(f, x / MINUTES_PER_DAY);
    LeapDayIsInLeapYear(x / MINUTES_PER_DAY);
  }

  lemma LeapDayAheadIsNext(f: CronFields, m: int, x: int)
    requires Accepted(f) && !OrdinaryPossible(f) && m <= x && FiresAt(f, x)
    ensures LeapDayAhead(f, m) <= x / MINUTES_PER_DAY
  {
    hide FiresAt, TimeMatches, IsLeap, MakeDay, YearFromDay, NextLeapYear, DayFromYear;
    FiresOnLeapDays(f, x);
    var y, d := YearFromDay(m / MINUTES_PER_DAY), x / MINUTES_PER_DAY;
    var z := YearFromDay(d);
    assert y <= z by {
      if z < y { YearsOfLaterDays(m / MINUTES_PER_DAY, d); }
    }
    if z == y {
      assert TimeRemains(f, m, LeapDayOf(y)) by { assert x == MINUTES_PER_DAY * d + x % MINUTES_PER_DAY; }
    } else {
      var n := NextLeapYear(y + 1);
      assert n <= z;
      if n < z { LaterYearLaterDate(n, z, 1, 29); }
      if IsLeap(y) && TimeRemains(f, m, LeapDayOf(y)) { LaterYearLaterDate(y, z, 1, 29); }
    }
  }

  lemma YearsOfLaterDays(a: int, b: int)
    requires a <= b
    ensures YearFromDay(a) <= YearFromDay(b)
  {
    hide DayFromYear, YearFromDay;
    var y, z := YearFromDay(a), YearFromDay(b);
    if z < y {
      if z + 1 < y { YearsAreOrdered(z + 1, y); }
    }
  }

  lemma LeapDayAheadFires(f: CronFields, m: int, t: int)
    requires Accepted(f) && !OrdinaryPossible(f) && LeapDayPossible(f)
    requires 0 <= t < MINUTES_PER_DAY && TimeMatches(f, t)
    ensures FiresAt(f, MINUTES_PER_DAY * LeapDayAhead(f, m) + t)
  {
    hide DayMatches, TimeMatches, FiresAt, IsLeap, IsLeapDay, DayFromYear, YearFromDay, MakeDay, MonthStart;
    var d := LeapDayAhead(f, m);
    var y := YearFromDay(m / MINUTES_PER_DAY);
    var z := if IsLeap(y) && TimeRemains(f, m, LeapDayOf(y)) then y else NextLeapYear(y + 1);
    assert d == LeapDayOf(z) && IsLeap(z);
    LeapDayHasItsYear(z);
    LeapDayIsInLeapYear(d);
    OnlyLeapDaysMatch(f, d);
    FiringMinute(f, d, t);
  }

  lemma LeapDayHasItsYear(y: int)
    requires IsLeap(y)
    ensures YearFromDay(LeapDayOf(y)) == y
  {
    CivilRoundTrip(y, 1, 29);
  }

  /** When the search fails, for every accepted field set and every start. */
  lemma SearchFailsExactlyWhen(f: CronFields, m: int)
    requires Accepted(f)
    ensures FirstFire(f, m, MAX_STEPS).None? <==>
            && !OrdinaryPossible(f)
            && (LeapDayPossible(f) ==> BeyondReach(f, m, LeapDayAhead(f, m)))
  {
    hide FiresAt, FirstFire, TimeMatches, LeapDayAhead, DayMatches;
    FirstFireIsLeast(f, m, MAX_STEPS);
    if OrdinaryPossible(f) {
      OrdinaryFoundWithin366Days(f, m);
      FirstFireIsLeast(f, m, 366 * MINUTES_PER_DAY);
    } else if !LeapDayPossible(f) {
      forall x ensures !FiresAt(f, x) { FiresOnLeapDays(f, x); }
    } else {
      LeapSearchFailsExactlyWhen(f, m);
    }
  }

  lemma LeapSearchFailsExactlyWhen(f: CronFields, m: int)
    requires Accepted(f) && !OrdinaryPossible(f) && LeapDayPossible(f)
    ensures FirstFire(f, m, MAX_STEPS).None? <==> BeyondReach(f, m, LeapDayAhead(f, m))
  {
    hide FiresAt, FirstFire, TimeMatches, OrdinaryPossible, Accepted, LeapDayAhead, LeapDayPossible, IsLeap, LeapDayOf, YearFromDay;
    var d := LeapDayAhead(f, m);
    FirstFireIsLeast(f, m, MAX_STEPS);
    if FirstFire(f, m, MAX_STEPS).Some? {
      var x := FirstFire(f, m, MAX_STEPS).value;
      LeapDayAheadIsNext(f, m, x);
      FiresOnLeapDays(f, x);
      assert x == MINUTES_PER_DAY * (x / MINUTES_PER_DAY) + x % MINUTES_PER_DAY;
    }
    if !BeyondReach(f, m, d) {
      var t := ReachableTime(f, m);
      LeapDayAheadFires(f, m, t);
      FoundIfFires(f, m, MINUTES_PER_DAY * d + t, MAX_STEPS);
    }
  }

  lemma ReachableTime(f: CronFields, m: int) returns (t: int)
    requires !BeyondReach(f, m, LeapDayAhead(f, m))
    ensures 0 <= t < MINUTES_PER_DAY && TimeMatches(f, t)
    ensures m <= MINUTES_PER_DAY * LeapDayAhead(f, m) + t < m + MAX_STEPS
  {
    hide TimeMatches, IsLeap, MakeDay, DayFromYear, YearFromDay;
    var d := LeapDayAhead(f, m);
    var d0 := m / MINUTES_PER_DAY;
    var y := YearFromDay(d0);
    DayIsInYear(d0);
    if IsLeap(y) && TimeRemains(f, m, LeapDayOf(y)) {
      t :| 0 <= t < MINUTES_PER_DAY && TimeMatches(f, t) && m <= MINUTES_PER_DAY * d + t;
      LeapDayHasItsYear(y);
      DayIsInYear(d);
    } else {
      t :| 0 <= t < MINUTES_PER_DAY && TimeMatches(f, t) && MINUTES_PER_DAY * d + t < m + MAX_STEPS;
      var z := NextLeapYear(y + 1);
      LeapDayHasItsYear(z);
      DayIsInYear(d);
      if y + 1 < z { YearsAreOrdered(y + 1, z); }
    }
  }

  /** Two leap days are at least 1461 days apart, one more than the search covers. */
  lemma LeapDaysAreFarApart(y: int)
    requires IsLeap(y)
    ensures LeapDayOf(y) + 1461 <= LeapDayOf(NextLeapYear(y + 1))
  {
    hide DayFromYear, MakeDay, NextLeapYear, IsLeap;
    var z := NextLeapYear(y + 1);
    if z < y + 4 { LeapYearsAreFourApart(y, z); }
    if IsLeap(y) { LeapYearsAreFourApart(y, y + 1); }
    YearLength(y);
    MakeDayInYear(y, 1, 29);
    MakeDayInYear(y + 1, 1, 29);
    if y + 1 < z { LaterYearLaterDate(y + 1, z, 1, 29); }
  }

  /**
   The comment at src/cron/cronParser.ts:89-90 says four years are always enough.
   They never are for a 29 February schedule asked again once it has fired that day.
   */
  lemma LeapDayScheduleFailsAfterFiring(f: CronFields, m: int)
    requires Accepted(f) && !OrdinaryPossible(f)
    requires IsLeapDay(m / MINUTES_PER_DAY) && !TimeRemains(f, m, m / MINUTES_PER_DAY)
    ensures FirstFire(f, m, MAX_STEPS).None?
  {
    hide FirstFire, TimeMatches, OrdinaryPossible, Accepted, MakeDay, DayFromYear, IsLeap, YearFromDay, NextLeapYear, IsLeapDay;
    var d := m / MINUTES_PER_DAY;
    LeapDayIsInLeapYear(d);
    LeapDaysAreFarApart(YearFromDay(d));
    SearchFailsExactlyWhen(f, m);
  }

  /** `getNextFireAt` throws for a well-formed expression exactly when the search must fail. */
  lemma NoFireTimeExactlyWhen(expression: string, after: int, offset: int)
    requires CronMeaning(expression).Ok?
    ensures var f, m := CronMeaning(expression).value, FirstMinuteAfter(after, offset);
            NextFire(expression, after, offset) == Err(NoFireTime) <==>
            && !OrdinaryPossible(f)
            && (LeapDayPossible(f) ==> BeyondReach(f, m, LeapDayAhead(f, m)))
  {
    hide FirstFire, CronMeaning, OrdinaryPossible, LeapDayPossible, BeyondReach, LeapDayAhead;
    ParsedFieldsAreAccepted(expression);
    SearchFailsExactlyWhen(CronMeaning(expression).value, FirstMinuteAfter(after, offset));
  }

  // ---- Midnight of 29 February 2024

  const MIDNIGHT: int := MINUTES_PER_DAY * MakeDay(2024, 1, 29)

  lemma LeapDayFieldsAreExtraordinary()
    ensures Accepted(LEAP_DAY) && !OrdinaryPossible(LEAP_DAY) && LeapDayPossible(LEAP_DAY)
  {
    var f := LEAP_DAY;
    assert 0 in f.minute && 0 in f.hour && 29 in f.dayOfMonth && 2 in f.month && 0 in f.dayOfWeek;
    assert MonthLength(1, false) == 28;
    hide DayMatches;
  }

  lemma OnlyMidnight(t: int)
    requires 0 <= t < MINUTES_PER_DAY
    ensures TimeMatches(LEAP_DAY, t) <==> t == 0
  {
  }

  lemma MinutesOfDay(d: int)
    ensures 1440 * d / 1440 == d && (1440 * d + 1) / 1440 == d && 1440 * d % 1440 == 0
  {
  }

  lemma MidnightIsLeapDay()
    ensures IsLeapDay(MakeDay(2024, 1, 29))
  {
    assert IsCivil(2024, 1, 29) by { assert IsLeap(2024); }
    hide MakeDay, MonthFromDay, DateFromDay, IsCivil;
    CivilRoundTrip(2024, 1, 29);
  }

  lemma MidnightDay()
    ensures IsLeapDay(MakeDay(2024, 1, 29))
    ensures MIDNIGHT / MINUTES_PER_DAY == MakeDay(2024, 1, 29) && (MIDNIGHT + 1) / MINUTES_PER_DAY == MakeDay(2024, 1, 29)
    ensures MIDNIGHT % MINUTES_PER_DAY == 0
  {
    hide MakeDay, IsLeapDay;
    MidnightIsLeapDay();
    MinutesOfDay(MakeDay(2024, 1, 29));
  }

  lemma FiresAtMidnight()
    ensures FiresAt(LEAP_DAY, MIDNIGHT)
  {
    hide MakeDay, IsLeapDay, DayMatches, OrdinaryPossible, Accepted;
    LeapDayFieldsAreExtraordinary();
    MidnightDay();
    OnlyLeapDaysMatch(LEAP_DAY, MIDNIGHT / MINUTES_PER_DAY);
    OnlyMidnight(0);
  }

  lemma NothingAfterMidnight()
    ensures FirstFire(LEAP_DAY, MIDNIGHT + 1, MAX_STEPS).None?
  {
    hide MakeDay, IsLeapDay, FirstFire, OrdinaryPossible, Accepted, TimeMatches;
    LeapDayFieldsAreExtraordinary();
    MidnightDay();
    var d := MakeDay(2024, 1, 29);
    forall t | 0 <= t < MINUTES_PER_DAY && TimeMatches(LEAP_DAY, t) ensures MIDNIGHT + 1 > MINUTES_PER_DAY * d + t {
      OnlyMidnight(t);
    }
    LeapDayScheduleFailsAfterFiring(LEAP_DAY, MIDNIGHT + 1);
  }

  /** "0 0 29 2 *" fires at midnight of 29 February 2024; asked again at that time, `getNextFireAt` throws. */
  lemma LeapDayOf2024()
    ensures NextFire(LEAP_DAY_TEXT, 60_000 * MIDNIGHT - 1, 0) == Ok(60_000 * MIDNIGHT)
    ensures NextFire(LEAP_DAY_TEXT, 60_000 * MIDNIGHT, 0) == Err(NoFireTime)
  {
    hide CronMeaning, FirstFire, FiresAt, MakeDay;
    LeapDayMeans();
    FiresAtMidnight();
    FirstFireUnfolds(LEAP_DAY, MIDNIGHT, MAX_STEPS);
    NothingAfterMidnight();
    assert FirstMinuteAfter(60_000 * MIDNIGHT - 1, 0) == MIDNIGHT && FirstMinuteAfter(60_000 * MIDNIGHT, 0) == MIDNIGHT + 1;
  }
}
