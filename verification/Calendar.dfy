/** The proleptic Gregorian calendar of section 3.2.1 of ISO 8601:2004, and the
    two conversions the acceptance harness carries instead of a date library:
    days to date (`utc`) and date to days (`shanghai_midnight_ms`).
 */
module Calendar {

  datatype Date = Date(year: int, month: int, day: int)

  // ---------------------------------------------------------------------
  // The calendar, stated independently of either conversion
  // ---------------------------------------------------------------------

  predicate Leap(year: int) {
    year % 4 == 0 && (year % 100 != 0 || year % 400 == 0)
  }

  function DaysInMonth(year: int, month: int): int {
    if month == 2 then (if Leap(year) then 29 else 28)
    else if month == 4 || month == 6 || month == 9 || month == 11 then 30
    else 31
  }

  predicate Valid(d: Date) {
    1 <= d.month <= 12 && 1 <= d.day <= DaysInMonth(d.year, d.month)
  }

  /** The Gregorian successor of a date: next day, next month, next year. */
  function NextDate(d: Date): Date {
    if d.day < DaysInMonth(d.year, d.month) then d.(day := d.day + 1)
    else if d.month < 12 then Date(d.year, d.month + 1, 1)
    else Date(d.year + 1, 1, 1)
  }

  predicate Before(a: Date, b: Date) {
    a.year < b.year
    || (a.year == b.year && a.month < b.month)
    || (a.year == b.year && a.month == b.month && a.day < b.day)
  }

  // ---------------------------------------------------------------------
  // The two conversions
  // ---------------------------------------------------------------------

  /** The year of a 400-year era that day-of-era `doe` falls in, counting from
      March. */
  function YearOfEra(doe: int): int {
    (doe - doe / 1460 + doe / 36524 - doe / 146096) / 365
  }

  /** Days of an era that come before its March-year `yoe`. */
  function YearStart(yoe: int): int {
    365 * yoe + yoe / 4 - yoe / 100
  }

  function CivilFromDays(days: int): Date {
    var shifted := days + 719468;
    var era := shifted / 146097;
    var doe := shifted - era * 146097;
    var yoe := YearOfEra(doe);
    var doy := doe - YearStart(yoe);
    var mp := (5 * doy + 2) / 153;
    var day := doy - (153 * mp + 2) / 5 + 1;
    var month := if mp < 10 then mp + 3 else mp - 9;
    var year := yoe + era * 400 + (if month <= 2 then 1 else 0);
    Date(year, month, day)
  }

  function DaysFromCivil(d: Date): int {
    var year := d.year - (if d.month <= 2 then 1 else 0);
    var era := year / 400;
    var yoe := year - era * 400;
    var mp := if d.month > 2 then d.month - 3 else d.month + 9;
    var doy := (153 * mp + 2) / 5 + d.day - 1;
    var doe := YearStart(yoe) + doy;
    era * 146097 + doe - 719468
  }

  // ---------------------------------------------------------------------
  // The era arithmetic
  // ---------------------------------------------------------------------

  /** A day of an era written as century, four-year cycle, year and day: the
      leap day is the last one of its March-year. */
  ghost predicate Split(doe: int, c: int, q: int, r: int, d: int) {
    && 0 <= c <= 3 && 0 <= q <= 24 && 0 <= r <= 3
    && doe == 36524 * c + 1461 * q + 365 * r + d
    && 0 <= d < (if r == 3 && (q < 24 || c == 3) then 366 else 365)
  }

  lemma SplitExists(doe: int) returns (c: int, q: int, r: int, d: int)
    requires 0 <= doe < 146097
    ensures Split(doe, c, q, r, d)
  {
    c := if doe / 36524 > 3 then 3 else doe / 36524;
    var doc := doe - 36524 * c;
    q := doc / 1461;
    var doq := doc - 1461 * q;
    r := if doq / 365 > 3 then 3 else doq / 365;
    d := doq - 365 * r;
  }

  lemma YearStartSplit(c: int, q: int, r: int)
    requires 0 <= c <= 3 && 0 <= q <= 24 && 0 <= r <= 3
    ensures YearStart(100 * c + 4 * q + r) == 36524 * c + 1461 * q + 365 * r
  {
    assert (100 * c + 4 * q + r) / 4 == 25 * c + q;
    assert (100 * c + 4 * q + r) / 100 == c;
  }

  /** The nested divisions find the March-year a day of the era is in. */
  lemma YearOfEraSplit(doe: int, c: int, q: int, r: int, d: int)
    requires Split(doe, c, q, r, d)
    ensures YearOfEra(doe) == 100 * c + 4 * q + r
  {
    var past := 24 * c + q + 365 * r + d;
    assert doe == 1460 * (25 * c + q) + past;
    var e := if past >= 1460 then 1 else 0;
    assert doe / 1460 == 25 * c + q + e;
    var f := if doe == 146096 then 1 else 0;
    assert doe / 36524 == c + f && doe / 146096 == f;
    assert 0 <= d - e < 365;
  }

  /** Where a March-year's months start, counted in days from 1 March. */
  function MonthStart(mp: int): int {
    (153 * mp + 2) / 5
  }

  lemma MonthLength(mp: int, year: int)
    requires 0 <= mp <= 10
    ensures MonthStart(mp + 1) - MonthStart(mp)
         == DaysInMonth(year, if mp < 10 then mp + 3 else mp - 9)
         || mp >= 11
  {
  }

  lemma MonthOfDay(doy: int) returns (mp: int)
    requires 0 <= doy <= 365
    ensures mp == (5 * doy + 2) / 153 && 0 <= mp <= 11
    ensures MonthStart(mp) <= doy
    ensures mp < 11 ==> doy < MonthStart(mp + 1)
  {
    mp := (5 * doy + 2) / 153;
  }

  /** January and February of March-year `yoe` lie in the next civil year. */
  lemma LeapSplit(era: int, c: int, q: int, r: int)
    requires 0 <= c <= 3 && 0 <= q <= 24 && 0 <= r <= 3
    ensures Leap(100 * c + 4 * q + r + era * 400 + 1) <==> r == 3 && (q < 24 || c == 3)
  {
    var y := 100 * c + 4 * q + r + era * 400 + 1;
    assert y == 4 * (25 * c + q + 100 * era) + (r + 1);
    if r == 3 {
      assert y == 100 * (c + 4 * era) + 4 * (q + 1);
      if q == 24 {
        assert y == 400 * era + 100 * (c + 1);
      }
    }
  }

  /** The civil date of March-year 100c + 4q + r of an era, month mp, day k. */
  function Assemble(era: int, c: int, q: int, r: int, mp: int, day: int): Date {
    var month := if mp < 10 then mp + 3 else mp - 9;
    Date(100 * c + 4 * q + r + era * 400 + (if month <= 2 then 1 else 0), month, day)
  }

  lemma CivilOf(era: int, doe: int, c: int, q: int, r: int, d: int, mp: int)
    requires Split(doe, c, q, r, d) && mp == (5 * d + 2) / 153
    ensures CivilFromDays(era * 146097 + doe - 719468)
         == Assemble(era, c, q, r, mp, d - MonthStart(mp) + 1)
  {
    YearOfEraSplit(doe, c, q, r, d);
    YearStartSplit(c, q, r);
    hide YearOfEra, YearStart;
    EraOf(era, doe);
  }

  lemma EraOf(era: int, doe: int)
    requires 0 <= doe < 146097
    ensures (era * 146097 + doe) / 146097 == era
  {
  }

  lemma DaysOf(era: int, c: int, q: int, r: int, mp: int, day: int)
    requires 0 <= c <= 3 && 0 <= q <= 24 && 0 <= r <= 3 && 0 <= mp <= 11
    ensures DaysFromCivil(Assemble(era, c, q, r, mp, day))
         == era * 146097 + 36524 * c + 1461 * q + 365 * r + MonthStart(mp) + day - 1 - 719468
  {
    YearStartSplit(c, q, r);
    assert (100 * c + 4 * q + r + era * 400) / 400 == era;
  }

  /** A date assembled from a split day of an era is in the calendar. */
  lemma AssembleValid(era: int, doe: int, c: int, q: int, r: int, d: int, mp: int)
    requires Split(doe, c, q, r, d) && mp == (5 * d + 2) / 153
    ensures 0 <= mp <= 11
    ensures Valid(Assemble(era, c, q, r, mp, d - MonthStart(mp) + 1))
  {
    var m := MonthOfDay(d);
    var date := Assemble(era, c, q, r, mp, d - MonthStart(mp) + 1);
    if mp <= 10 {
      MonthLength(mp, date.year);
    } else {
      LeapSplit(era, c, q, r);
    }
  }

  // ---------------------------------------------------------------------
  // Main results: mutual inverses, range, successor, order
  // ---------------------------------------------------------------------

  /** Every day number gives a date of the calendar, and that date gives the
      day number back. */
  lemma DaysRoundTrip(days: int)
    ensures Valid(CivilFromDays(days))
    ensures DaysFromCivil(CivilFromDays(days)) == days
  {
    hide CivilFromDays, DaysFromCivil, Assemble, Valid;
    var era := (days + 719468) / 146097;
    var doe := days + 719468 - era * 146097;
    var c, q, r, d := SplitExists(doe);
    var mp := MonthOfDay(d);
    CivilOf(era, doe, c, q, r, d, mp);
    AssembleValid(era, doe, c, q, r, d, mp);
    DaysOf(era, c, q, r, mp, d - MonthStart(mp) + 1);
  }

  /** A date of the calendar taken apart as `DaysFromCivil` does. */
  lemma TakeApart(date: Date) returns (era: int, c: int, q: int, r: int, mp: int)
    requires Valid(date)
    ensures 0 <= mp <= 11 && date == Assemble(era, c, q, r, mp, date.day)
    ensures var d := MonthStart(mp) + date.day - 1;
            && Split(36524 * c + 1461 * q + 365 * r + d, c, q, r, d)
            && mp == (5 * d + 2) / 153
  {
    var year := date.year - (if date.month <= 2 then 1 else 0);
    era := year / 400;
    var yoe := year - era * 400;
    c := yoe / 100;
    q := (yoe - 100 * c) / 4;
    r := yoe - 100 * c - 4 * q;
    mp := if date.month > 2 then date.month - 3 else date.month + 9;
    if mp <= 10 {
      MonthLength(mp, date.year);
    } else {
      LeapSplit(era, c, q, r);
    }
  }

  /** Every date of the calendar gives a day number that gives the date back. */
  lemma DateRoundTrip(date: Date)
    requires Valid(date)
    ensures CivilFromDays(DaysFromCivil(date)) == date
  {
    var era, c, q, r, mp := TakeApart(date);
    var d := MonthStart(mp) + date.day - 1;
    DaysOf(era, c, q, r, mp, date.day);
    CivilOf(era, 36524 * c + 1461 * q + 365 * r + d, c, q, r, d, mp);
  }

  lemma NextDateValid(date: Date)
    requires Valid(date)
    ensures Valid(NextDate(date)) && Before(date, NextDate(date))
  {
  }

  /** `DaysFromCivil` steps by one along the calendar. */
  lemma DaysOfNext(date: Date)
    requires Valid(date)
    ensures DaysFromCivil(NextDate(date)) == DaysFromCivil(date) + 1
  {
    hide DaysFromCivil, Leap;
    var era, c, q, r, mp := TakeApart(date);
    DaysOf(era, c, q, r, mp, date.day);
    LeapSplit(era, c, q, r);
    if date.day < DaysInMonth(date.year, date.month) {
      DaysOf(era, c, q, r, mp, date.day + 1);
    } else if mp <= 10 {
      MonthLength(mp, date.year);
      DaysOf(era, c, q, r, mp + 1, 1);
    } else if r < 3 {
      DaysOf(era, c, q, r + 1, 0, 1);
    } else if q < 24 {
      DaysOf(era, c, q + 1, 0, 0, 1);
    } else if c < 3 {
      DaysOf(era, c + 1, 0, 0, 0, 1);
    } else {
      DaysOf(era + 1, 0, 0, 0, 0, 1);
    }
  }

  lemma Epoch()
    ensures CivilFromDays(0) == Date(1970, 1, 1)
  {
    assert YearOfEra(135080) == 369;
    assert YearStart(369) == 134774;
    hide YearOfEra, YearStart;
    assert 719468 / 146097 == 4;
  }

  /** Consecutive days give consecutive dates, anchored at 1970-01-01. */
  lemma Successor(days: int)
    ensures CivilFromDays(days + 1) == NextDate(CivilFromDays(days))
    ensures CivilFromDays(0) == Date(1970, 1, 1)
  {
    hide CivilFromDays, DaysFromCivil, Valid, NextDate;
    Epoch();
    DaysRoundTrip(days);
    var date := CivilFromDays(days);
    NextDateValid(date);
    DaysOfNext(date);
    DateRoundTrip(NextDate(date));
  }

  lemma {:induction false} LaterIsAfter(a: int, b: int)
    requires a < b
    ensures Before(CivilFromDays(a), CivilFromDays(b))
    decreases b - a
  {
    hide CivilFromDays, Valid, NextDate;
    Successor(b - 1);
    DaysRoundTrip(b - 1);
    NextDateValid(CivilFromDays(b - 1));
    if a < b - 1 {
      LaterIsAfter(a, b - 1);
    }
  }

  /** Day order is calendar order. */
  lemma OrderIsDateOrder(a: int, b: int)
    ensures a < b <==> Before(CivilFromDays(a), CivilFromDays(b))
    ensures a == b <==> CivilFromDays(a) == CivilFromDays(b)
  {
    hide CivilFromDays;
    if a < b {
      LaterIsAfter(a, b);
    } else if b < a {
      LaterIsAfter(b, a);
    }
  }

  // ---------------------------------------------------------------------
  // Weekdays
  // ---------------------------------------------------------------------

  /** The weekday of a day number, from Sunday 0 to Saturday 6. */
  function WeekdayOf(days: int): int {
    (days + 4) % 7
  }

  /** The weekday of a date by Zeller's congruence, Sunday 0. */
  function ZellerWeekday(d: Date): int {
    var year := d.year - (if d.month <= 2 then 1 else 0);
    var month := if d.month <= 2 then d.month + 12 else d.month;
    (d.day + 13 * (month + 1) / 5 + year + year / 4 - year / 100 + year / 400 + 6) % 7
  }

  lemma YearCycle(era: int, yoe: int)
    requires 0 <= yoe < 400
    ensures var year := 400 * era + yoe;
            year / 4 == 100 * era + yoe / 4 && year / 100 == 4 * era + yoe / 100 && year / 400 == era
  {
  }

  lemma SameWeekday(days: int, sum: int, weeks: int)
    requires days + 4 == sum + 7 * weeks
    ensures WeekdayOf(days) == sum % 7
  {
  }

  /** Counting from the Thursday of day 0 gives every date its weekday. */
  lemma WeekdayIsZellers(date: Date)
    requires Valid(date)
    ensures WeekdayOf(DaysFromCivil(date)) == ZellerWeekday(date)
  {
    var year := date.year - (if date.month <= 2 then 1 else 0);
    var era := year / 400;
    var yoe := year - era * 400;
    var mp := if date.month > 2 then date.month - 3 else date.month + 9;
    YearCycle(era, yoe);
    var month := if date.month <= 2 then date.month + 12 else date.month;
    var sum := date.day + 13 * (month + 1) / 5 + year + year / 4 - year / 100 + year / 400 + 6;
    assert MonthStart(mp) == 13 * (month + 1) / 5 - 10 + 28 * mp;
    SameWeekday(DaysFromCivil(date), sum, era * 20800 + 52 * yoe + 4 * mp - 102783);
  }
}
