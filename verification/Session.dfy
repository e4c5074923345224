/** The CN session clock: Shanghai days and times of a nanosecond instant, the
    supported sessions, the status an instrument carries, the day-lifetime
    deadline and the boundary alerts. An instant is an unsigned nanosecond count
    that conversions clamp to the signed range, as the daemon's do; Shanghai is
    UTC+8 flat.
 */
module Session {
  import opened Calendar
  import opened CalendarText

  const SECOND_NS := 1_000_000_000
  const MINUTE_NS := 60 * SECOND_NS
  const DAY_NS := 1440 * MINUTE_NS
  const SHIFT_NS := 480 * MINUTE_NS
  const I64_MAX := 0x7FFF_FFFF_FFFF_FFFF

  /** Minutes from Shanghai midnight: [09:30,11:30) and [13:00,14:57). */
  const MORNING_OPEN := 570
  const MORNING_CLOSE := 690
  const AFTERNOON_OPEN := 780
  const AFTERNOON_CLOSE := 897

  function Clamped(t: nat): nat {
    if t > I64_MAX then I64_MAX else t
  }

  /** The Shanghai day number of an instant. */
  function Day(t: nat): (d: int)
    ensures d >= 0
  {
    (Clamped(t) + SHIFT_NS) / DAY_NS
  }

  /** The nanoseconds since that day's Shanghai midnight. */
  function TimeOfDay(t: nat): (n: int)
    ensures 0 <= n < DAY_NS
  {
    (Clamped(t) + SHIFT_NS) % DAY_NS
  }

  /** An instant of Shanghai day `day`; it may lie outside the signed range. */
  function Instant(day: int, minute: int): int {
    day * DAY_NS + minute * MINUTE_NS - SHIFT_NS
  }

  /** `at_shanghai`: an instant beyond the signed range answers `t` itself. */
  function AtShanghai(t: nat, minute: nat): nat {
    var ns := Instant(Day(t), minute);
    if ns > I64_MAX then t else if ns < 0 then 0 else ns
  }

  function Deadline(t: nat): nat {
    AtShanghai(t, AFTERNOON_CLOSE)
  }

  function DayStart(t: nat): nat {
    AtShanghai(t, 0)
  }

  /** Day 0 was a Thursday, so 0 is Sunday and 6 is Saturday. */
  predicate Weekend(day: int) {
    WeekdayOf(day) == 0 || WeekdayOf(day) == 6
  }

  predicate InSession(t: nat) {
    var minute := TimeOfDay(t) / MINUTE_NS;
    && !Weekend(Day(t))
    && (MORNING_OPEN <= minute < MORNING_CLOSE || AFTERNOON_OPEN <= minute < AFTERNOON_CLOSE)
  }

  predicate InLunch(t: nat) {
    var minute := TimeOfDay(t) / MINUTE_NS;
    !Weekend(Day(t)) && MORNING_CLOSE <= minute < AFTERNOON_OPEN
  }

  datatype Action = Trading | Pause | Close

  function StatusFor(t: nat, ready: bool): Action {
    if InSession(t) then (if ready then Trading else Pause)
    else if InLunch(t) then Pause
    else Close
  }

  // ---------------------------------------------------------------------
  // Dates as the daemon compares them
  // ---------------------------------------------------------------------

  /** The `yyyyMMdd` text of an instant's Shanghai date. */
  function DateText(t: nat): string {
    ShanghaiDate(Clamped(t) / SECOND_NS)
  }

  lemma DayOfSecond(t: nat)
    ensures ShanghaiDay(Clamped(t) / SECOND_NS) == Day(t)
    ensures FourDigitDay(Day(t))
  {
    var s := Clamped(t) / SECOND_NS;
    var d := Day(t);
    assert d * DAY_NS <= Clamped(t) + SHIFT_NS < (d + 1) * DAY_NS;
    assert d * DAY <= s + SHANGHAI < (d + 1) * DAY;
  }

  /** The harness's weekdays are the days the daemon trades on. */
  lemma WeekdaysAgree(t: nat)
    ensures Weekday(Clamped(t) / SECOND_NS) <==> !Weekend(Day(t))
  {
    DayOfSecond(t);
  }

  /** Comparing the texts is comparing the days, at every instant. */
  lemma DateTextOrder(s: nat, t: nat)
    ensures TextLess(DateText(s), DateText(t)) <==> Day(s) < Day(t)
    ensures DateText(s) == DateText(t) <==> Day(s) == Day(t)
  {
    hide ShanghaiDate, TextLess;
    DayOfSecond(s);
    DayOfSecond(t);
    TextOrderIsDayOrder(Clamped(s) / SECOND_NS, Clamped(t) / SECOND_NS);
  }

  /** Has an order dated `owned` outlived its trading day? */
  predicate Expired(owned: nat, now: nat) {
    TextLess(DateText(owned), DateText(now)) || now >= Deadline(now)
  }

  lemma ExpiredByDay(owned: nat, now: nat)
    ensures Expired(owned, now) <==> Day(owned) < Day(now) || now >= Deadline(now)
  {
    hide DateText, TextLess;
    DateTextOrder(owned, now);
  }

  // ---------------------------------------------------------------------
  // The boundary alerts
  // ---------------------------------------------------------------------

  const BOUNDARIES: seq<nat> := [MORNING_OPEN, MORNING_CLOSE, AFTERNOON_OPEN, AFTERNOON_CLOSE]

  /** `next_boundary_ns`: the first of today's four after `t`, else 09:30 of the
      date a day on. */
  function NextBoundary(t: nat): nat {
    if AtShanghai(t, BOUNDARIES[0]) > t then AtShanghai(t, BOUNDARIES[0])
    else if AtShanghai(t, BOUNDARIES[1]) > t then AtShanghai(t, BOUNDARIES[1])
    else if AtShanghai(t, BOUNDARIES[2]) > t then AtShanghai(t, BOUNDARIES[2])
    else if AtShanghai(t, BOUNDARIES[3]) > t then AtShanghai(t, BOUNDARIES[3])
    else AtShanghai(t + DAY_NS, BOUNDARIES[0])
  }

  /** A boundary instant of the calendar, whatever the signed range. */
  ghost predicate Boundary(b: int) {
    exists day: int, k: nat :: k < 4 && b == Instant(day, BOUNDARIES[k])
  }

  /** 14:57 of 2262-04-11, the last boundary the signed range can express. */
  const HORIZON := 106751 * DAY_NS + AFTERNOON_CLOSE * MINUTE_NS - SHIFT_NS

  lemma DayBounds(t: nat)
    requires t <= I64_MAX
    ensures Instant(Day(t), 0) <= t < Instant(Day(t) + 1, 0)
    ensures TimeOfDay(t) == t - Instant(Day(t), 0)
  {
  }

  lemma DayOfInstant(day: int, t: nat)
    requires t <= I64_MAX && Instant(day, 0) <= t < Instant(day + 1, 0)
    ensures Day(t) == day
  {
  }

  /** Which of the five stretches between boundaries a time of day is in. */
  function Stretch(t: nat): (k: nat)
    ensures k <= 4
  {
    var n := TimeOfDay(t);
    if n < MORNING_OPEN * MINUTE_NS then 0
    else if n < MORNING_CLOSE * MINUTE_NS then 1
    else if n < AFTERNOON_OPEN * MINUTE_NS then 2
    else if n < AFTERNOON_CLOSE * MINUTE_NS then 3
    else 4
  }

  /** A session is a weekday's [09:30,11:30) or [13:00,14:57), to the nanosecond. */
  lemma InSessionIs(t: nat)
    ensures InSession(t) <==>
              && !Weekend(Day(t))
              && (570 * MINUTE_NS <= TimeOfDay(t) < 690 * MINUTE_NS
                  || 780 * MINUTE_NS <= TimeOfDay(t) < 897 * MINUTE_NS)
  {
    var n := TimeOfDay(t);
    assert forall m: nat :: n / MINUTE_NS < m <==> n < m * MINUTE_NS;
  }

  lemma StretchStatus(t: nat, ready: bool)
    ensures StatusFor(t, ready) ==
            if Weekend(Day(t)) || Stretch(t) == 0 || Stretch(t) == 4 then Close
            else if Stretch(t) == 2 || !ready then Pause
            else Trading
  {
    var n := TimeOfDay(t);
    assert forall m: nat :: n / MINUTE_NS < m <==> n < m * MINUTE_NS;
  }

  /** Within the range, the next boundary ends the stretch `t` is in. */
  lemma NextBoundaryEndsStretch(t: nat)
    requires t < HORIZON
    ensures NextBoundary(t) == if Stretch(t) < 4 then Instant(Day(t), BOUNDARIES[Stretch(t)])
                               else Instant(Day(t) + 1, BOUNDARIES[0])
    ensures t < NextBoundary(t)
  {
    DayBounds(t);
    assert Day(t) <= 106751;
    if Stretch(t) == 4 {
      assert Day(t) < 106751;
      DayOfInstant(Day(t) + 1, t + DAY_NS);
    }
  }

  /** Past it, the alert falls back to a day from now. */
  lemma NextBoundaryPastHorizon(t: nat)
    requires t >= HORIZON
    ensures NextBoundary(t) == t + DAY_NS
  {
    assert 106751 <= Day(t) <= 106752;
    assert Day(t + DAY_NS) == 106752;
  }

  ghost predicate LeastBoundaryAfter(t: nat, b: int) {
    Boundary(b) && t < b && forall c :: Boundary(c) && t < c ==> b <= c
  }

  lemma NextBoundaryIsLeast(t: nat, day: int, k: nat)
    requires t < HORIZON && k < 4 && t < Instant(day, BOUNDARIES[k])
    ensures NextBoundary(t) <= Instant(day, BOUNDARIES[k])
  {
    hide NextBoundary;
    NextBoundaryEndsStretch(t);
    DayBounds(t);
    if day == Day(t) {
      assert Stretch(t) <= k;
    }
  }

  /** Every day-long window has a boundary inside it. */
  lemma BoundaryWithinADay(t: nat) returns (c: int)
    ensures Boundary(c) && t < c < t + DAY_NS
  {
    var day := (t + SHIFT_NS) / DAY_NS;
    assert Instant(day, 0) <= t < Instant(day + 1, 0);
    c := Instant(day, BOUNDARIES[0]);
    assert Boundary(c);
    if c <= t {
      c := Instant(day, BOUNDARIES[3]);
      assert Boundary(c);
      if c <= t {
        c := Instant(day + 1, BOUNDARIES[0]);
        assert Boundary(c);
      }
    }
  }

  /** `next_boundary_ns` answers the least boundary strictly after its argument
      at exactly the instants before 14:57 of 2262-04-11. */
  lemma NextBoundaryExact(t: nat)
    ensures LeastBoundaryAfter(t, NextBoundary(t)) <==> t < HORIZON
  {
    hide NextBoundary, Instant, Day;
    if t < HORIZON {
      NextBoundaryEndsStretch(t);
      var b := NextBoundary(t);
      assert Boundary(b);
      forall c | Boundary(c) && t < c
        ensures b <= c
      {
        var day: int, k: nat :| k < 4 && c == Instant(day, BOUNDARIES[k]);
        NextBoundaryIsLeast(t, day, k);
      }
    } else {
      NextBoundaryPastHorizon(t);
      var c := BoundaryWithinADay(t);
    }
  }

  lemma SameStretch(t: nat, u: nat)
    requires t < HORIZON && t <= u < NextBoundary(t)
    ensures (Day(u) == Day(t) && Stretch(u) == Stretch(t))
         || (Stretch(t) == 4 && (Stretch(u) == 4 || Stretch(u) == 0))
  {
    hide NextBoundary, Day, TimeOfDay;
    NextBoundaryEndsStretch(t);
    DayBounds(t);
    DayBounds(u);
    if Instant(Day(t) + 1, 0) <= u {
      DayOfInstant(Day(t) + 1, u);
    } else {
      DayOfInstant(Day(t), u);
    }
  }

  lemma PastHorizonStretch(t: nat)
    requires t >= HORIZON
    ensures Stretch(t) == 4 || Stretch(t) == 0
  {
  }
}
