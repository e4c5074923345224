/** The day lifetime of CN orders: one armed boundary alert, a clock that may
    jump over any number of boundaries or days, the sweep every firing runs, and
    admission only inside a session. A start sweeps at one reading of the clock
    and arms at a later one; a MARKET order is checked in one section and handed
    over in a later one. The desk is a transition system; a run is any sequence
    of its steps.
 */
module DayLife {
  import opened Options
  import opened Session

  type Id = nat

  /** The armed alert, and the reading of the clock it was armed at. */
  datatype Alert = Alert(armedAt: nat, at: nat)

  /** A desk's clock; its alert, none while the node starts; the reading its last
      start swept at; the owning instant of every CN order that is not closed;
      and the MARKET orders checked and not handed over yet. */
  datatype Desk = Desk(now: nat, alert: Option<Alert>, swept: nat, live: map<Id, nat>, checked: set<Id>)

  datatype Step =
    | Tick(to: nat)          // the clock steps forward, however far
    | Fire                   // the due alert runs: sweep, then arm again
    | Admit(id: Id)          // an order is checked and handed over in one section
    | Check(id: Id)          // a MARKET order is checked
    | Hand(id: Id)           // and handed over: dated by its `ts_init`
    | Withdraw(id: Id)       // or not
    | Accept(id: Id)         // the venue accepts it: dated by `ts_accepted`
    | Finish(id: Id)         // an order fills out or is cancelled
    | Restart(to: nat)       // the daemon comes back and sweeps what it restored
    | Arm                    // the end of the start

  function Sweep(live: map<Id, nat>, now: nat): map<Id, nat> {
    map id | id in live && !Expired(live[id], now) :: live[id]
  }

  /** `arm`. */
  function Armed(now: nat): Alert {
    Alert(now, NextBoundary(now))
  }

  /** `boundary` then `arm`: both read the clock, not the alert. */
  function Fired(s: Desk): Desk {
    s.(alert := Some(Armed(s.now)), live := Sweep(s.live, s.now))
  }

  /** `reconcile_cn` up to its sweep: nothing is armed yet. */
  function Reconciled(now: nat, restored: map<Id, nat>): Desk {
    Desk(now, None, now, Sweep(restored, now), {})
  }

  /** No caller reaches the node before its start has armed the alert. */
  predicate Enabled(s: Desk, step: Step) {
    match step
    case Tick(to) => s.now <= to
    case Fire => s.alert.Some? && s.alert.value.at <= s.now
    case Admit(id) => s.alert.Some? && InSession(s.now) && id !in s.live && id !in s.checked
    case Check(id) => s.alert.Some? && InSession(s.now) && id !in s.live && id !in s.checked
    case Hand(id) => id in s.checked
    case Withdraw(id) => id in s.checked
    case Accept(id) => s.alert.Some? && id in s.live
    case Finish(id) => id in s.live
    case Restart(to) => s.now <= to
    case Arm => s.alert.None?
  }

  function Apply(s: Desk, step: Step): Desk
    requires Enabled(s, step)
  {
    match step
    case Tick(to) => s.(now := to)
    case Fire => Fired(s)
    case Admit(id) => s.(live := s.live[id := s.now])
    case Check(id) => s.(checked := s.checked + {id})
    case Hand(id) => s.(checked := s.checked - {id}, live := s.live[id := s.now])
    case Withdraw(id) => s.(checked := s.checked - {id})
    case Accept(id) => s.(live := s.live[id := s.now])
    case Finish(id) => s.(live := s.live - {id})
    case Restart(to) => Reconciled(to, s.live)
    case Arm => s.(alert := Some(Armed(s.now)))
  }

  /** A node starts at some instant with whatever orders were restored, all
      dated in its past. */
  ghost predicate Starts(s: Desk) {
    exists now: nat, restored: map<Id, nat> ::
      (forall id :: id in restored ==> restored[id] <= now) && s == Reconciled(now, restored)
  }

  predicate Legal(s: Desk, steps: seq<Step>)
    decreases |steps|
  {
    steps == [] || (Enabled(s, steps[0]) && Legal(Apply(s, steps[0]), steps[1..]))
  }

  /** The states a run passes through, its own first. */
  function States(s: Desk, steps: seq<Step>): (states: seq<Desk>)
    requires Legal(s, steps)
    ensures |states| == |steps| + 1 && states[0] == s
    decreases |steps|
  {
    if steps == [] then [s] else [s] + States(Apply(s, steps[0]), steps[1..])
  }

  // ---------------------------------------------------------------------
  // The property and its condition
  // ---------------------------------------------------------------------

  /** No order is at or past 14:57 of its own date, unless the alert that will
      end it is already due. */
  ghost predicate WithinDay(s: Desk) {
    s.alert.Some? && s.now < s.alert.value.at ==>
      forall id :: id in s.live ==> s.now < Deadline(s.live[id])
  }

  /** The two sections that trust an earlier reading of the clock: arming after
      the 14:57 of the date the start swept on, with an order left, and handing
      over an order at or past today's 14:57 when that alert has already run. */
  predicate Late(s: Desk, step: Step) {
    || (step.Arm? && s.live != map[] && Deadline(s.swept) <= s.now)
    || (step.Hand? && s.alert.Some? && Deadline(s.now) <= s.now < s.alert.value.at)
  }

  ghost predicate AlwaysWithinDay(states: seq<Desk>) {
    forall i :: 0 <= i < |states| ==> WithinDay(states[i])
  }

  ghost predicate NeverLate(states: seq<Desk>, steps: seq<Step>)
    requires |states| == |steps| + 1
  {
    forall k :: 0 <= k < |steps| ==> !Late(states[k], steps[k])
  }

  // ---------------------------------------------------------------------
  // The invariants
  // ---------------------------------------------------------------------

  /** The armed alert is never later than any live order's own 14:57, unless it
      is already due. */
  predicate Covered(owned: nat, now: nat, alert: Alert) {
    alert.at <= now || alert.at <= Deadline(owned)
  }

  /** What holds in every run. */
  ghost predicate Dated(s: Desk) {
    && (forall id :: id in s.live ==> s.live[id] <= s.now)
    && (s.checked != {} ==> s.alert.Some?)
    && match s.alert
       case Some(alert) => alert.armedAt <= s.now && alert == Armed(alert.armedAt)
       case None =>
         s.swept <= s.now
         && forall id :: id in s.live ==> s.live[id] <= s.swept && !Expired(s.live[id], s.swept)
  }

  /** What holds as long as nothing was late. */
  ghost predicate Inv(s: Desk) {
    && Dated(s)
    && (s.alert.Some? ==> forall id :: id in s.live ==> Covered(s.live[id], s.now, s.alert.value))
  }

  lemma DeadlineAhead(owned: nat, now: nat)
    requires owned <= now < Deadline(owned)
    ensures Day(owned) == Day(now) && Deadline(now) == Deadline(owned)
    ensures now < HORIZON
  {
    DayBounds(owned);
    DayBounds(now);
  }

  lemma SessionDeadline(t: nat)
    requires InSession(t)
    ensures t < Deadline(t)
  {
    var n := TimeOfDay(t);
    assert n / MINUTE_NS < AFTERNOON_CLOSE && n < AFTERNOON_CLOSE * MINUTE_NS;
    if t <= I64_MAX {
      DayBounds(t);
      assert Day(t) <= 106752;
    }
  }

  /** An order dated before today's 14:57 is covered by whatever alert is armed. */
  lemma EarlierCovered(armedAt: nat, now: nat)
    requires armedAt <= now < Deadline(now)
    ensures NextBoundary(armedAt) <= Deadline(now)
  {
    DeadlineAhead(now, now);
    DayBounds(now);
    assert Deadline(now) == Instant(Day(now), BOUNDARIES[3]);
    hide NextBoundary, Deadline, InSession;
    NextBoundaryIsLeast(armedAt, Day(now), 3);
  }

  /** Whatever a sweep leaves belongs to its date and ends its day after it. */
  lemma SweepLeaves(owned: nat, now: nat)
    requires owned <= now && !Expired(owned, now)
    ensures now < Deadline(owned) == Deadline(now)
    ensures Day(owned) == Day(now)
  {
    hide Expired;
    ExpiredByDay(owned, now);
    if now <= I64_MAX {
      DayBounds(now);
      DayBounds(owned);
    }
  }

  lemma AlertAhead(t: nat)
    ensures t < NextBoundary(t)
  {
    if t < HORIZON {
      NextBoundaryEndsStretch(t);
    } else {
      NextBoundaryPastHorizon(t);
    }
  }

  /** Whatever passes the sweep is covered by the alert armed with it. */
  lemma SweepCovered(owned: nat, now: nat)
    requires owned <= now && !Expired(owned, now)
    ensures Covered(owned, now, Armed(now))
  {
    hide Expired, NextBoundary, Deadline;
    SweepLeaves(owned, now);
    EarlierCovered(now, now);
  }

  lemma FiredInv(s: Desk)
    requires Dated(s)
    ensures Inv(Fired(s))
    ensures forall id :: id in Fired(s).live ==>
              s.now < Deadline(Fired(s).live[id]) && Day(Fired(s).live[id]) == Day(s.now)
  {
    hide Expired, NextBoundary, Deadline, Day;
    var t := Fired(s);
    forall id | id in t.live
      ensures Covered(t.live[id], t.now, t.alert.value)
      ensures s.now < Deadline(t.live[id]) && Day(t.live[id]) == Day(s.now)
    {
      SweepCovered(s.live[id], s.now);
      SweepLeaves(s.live[id], s.now);
    }
  }

  /** Arming before the swept date's 14:57 covers what the sweep left. */
  lemma ArmInv(s: Desk)
    requires Dated(s) && s.alert.None? && !Late(s, Arm)
    ensures Inv(Apply(s, Arm))
  {
    hide Expired, NextBoundary, Deadline, Day;
    var t := Apply(s, Arm);
    forall id | id in t.live
      ensures Covered(t.live[id], t.now, t.alert.value)
    {
      SweepLeaves(s.live[id], s.swept);
      DeadlineAhead(s.live[id], s.now);
      EarlierCovered(s.now, s.now);
    }
  }

  lemma StepDated(s: Desk, step: Step)
    requires Dated(s) && Enabled(s, step)
    ensures Dated(Apply(s, step))
  {
    hide Expired, NextBoundary, Deadline, InSession;
  }

  lemma StepInv(s: Desk, step: Step)
    requires Inv(s) && Enabled(s, step) && !Late(s, step)
    ensures Inv(Apply(s, step))
  {
    hide Expired, NextBoundary, Deadline, InSession;
    StepDated(s, step);
    match step
    case Fire => FiredInv(s);
    case Arm => ArmInv(s);
    case Admit(id) =>
      SessionDeadline(s.now);
      EarlierCovered(s.alert.value.armedAt, s.now);
    case Hand(id) =>
      if s.now < Deadline(s.now) && s.alert.Some? {
        EarlierCovered(s.alert.value.armedAt, s.now);
      }
    case Accept(id) =>
      if s.now < s.alert.value.at {
        DeadlineAhead(s.live[id], s.now);
      }
    case _ =>
  }

  lemma InvWithinDay(s: Desk)
    requires Inv(s)
    ensures WithinDay(s)
  {
  }

  /** A late step leaves an order past its day with no alert due. */
  lemma LateBreaks(s: Desk, step: Step)
    requires Dated(s) && Enabled(s, step) && Late(s, step)
    ensures !WithinDay(Apply(s, step))
  {
    hide Expired, NextBoundary, Deadline, InSession;
    var t := Apply(s, step);
    if step.Arm? {
      AlertAhead(s.now);
      var id :| id in s.live;
      SweepLeaves(s.live[id], s.swept);
      assert id in t.live && !(t.now < Deadline(t.live[id]));
    } else {
      assert step.id in t.live && !(t.now < Deadline(t.live[step.id]));
    }
  }

  lemma StartInv(start: Desk)
    requires Starts(start)
    ensures Inv(start)
  {
    hide Expired, NextBoundary, Deadline;
    var now: nat, restored: map<Id, nat> :|
      (forall o :: o in restored ==> restored[o] <= now) && start == Reconciled(now, restored);
  }

  lemma {:induction false} RunDated(s: Desk, steps: seq<Step>)
    requires Dated(s) && Legal(s, steps)
    ensures forall i :: 0 <= i <= |steps| ==> Dated(States(s, steps)[i])
    decreases |steps|
  {
    if steps != [] {
      hide Dated, Apply, Enabled;
      StepDated(s, steps[0]);
      RunDated(Apply(s, steps[0]), steps[1..]);
    }
  }

  // ---------------------------------------------------------------------
  // Main results
  // ---------------------------------------------------------------------

  /** However the clock jumps, no live CN order is ever at or past 14:57 of its
      own date without its alert already due, exactly in the runs in which no
      start armed past the 14:57 of the date it swept on with an order left, and
      no checked order was handed over past a 14:57 that had already run. */
  lemma {:induction false} NoOrderOutlivesItsDay(s: Desk, steps: seq<Step>)
    requires Inv(s) && Legal(s, steps)
    ensures AlwaysWithinDay(States(s, steps)) <==> NeverLate(States(s, steps), steps)
    decreases |steps|
  {
    InvWithinDay(s);
    if steps != [] {
      hide Inv, Dated, WithinDay, Apply, Enabled, Late;
      var t := Apply(s, steps[0]);
      var states, rest := States(s, steps), States(t, steps[1..]);
      assert forall i :: 0 <= i < |rest| ==> states[i + 1] == rest[i];
      assert forall k :: 0 <= k < |steps[1..]| ==> steps[1..][k] == steps[k + 1];
      if Late(s, steps[0]) {
        InvDated(s);
        LateBreaks(s, steps[0]);
        assert states[1] == t;
      } else {
        StepInv(s, steps[0]);
        NoOrderOutlivesItsDay(t, steps[1..]);
        TailAgrees(states, rest, steps);
      }
    }
  }

  lemma InvDated(s: Desk)
    requires Inv(s)
    ensures Dated(s)
  {
  }

  lemma TailAgrees(states: seq<Desk>, rest: seq<Desk>, steps: seq<Step>)
    requires steps != [] && |states| == |steps| + 1 && |rest| == |steps|
    requires forall i :: 0 <= i < |rest| ==> states[i + 1] == rest[i]
    requires WithinDay(states[0]) && !Late(states[0], steps[0])
    ensures AlwaysWithinDay(states) <==> AlwaysWithinDay(rest)
    ensures NeverLate(states, steps) <==> NeverLate(rest, steps[1..])
  {
    hide WithinDay, Late;
    if AlwaysWithinDay(states) {
      forall i | 0 <= i < |rest|
        ensures WithinDay(rest[i])
      {
        assert WithinDay(states[i + 1]);
      }
    }
    if AlwaysWithinDay(rest) {
      forall i | 0 <= i < |states|
        ensures WithinDay(states[i])
      {
        assert i > 0 ==> WithinDay(rest[i - 1]);
      }
    }
    if NeverLate(states, steps) {
      forall k | 0 <= k < |steps[1..]|
        ensures !Late(rest[k], steps[1..][k])
      {
        assert !Late(states[k + 1], steps[k + 1]);
      }
    }
    if NeverLate(rest, steps[1..]) {
      forall k | 0 <= k < |steps|
        ensures !Late(states[k], steps[k])
      {
        assert k > 0 ==> !Late(rest[k - 1], steps[1..][k - 1]);
      }
    }
  }

  /** One firing of a due alert, in any run, late steps included: however many
      boundaries or days it stands for, it leaves no order past its day and the
      next alert still ahead. */
  lemma OneFiringCatchesUp(start: Desk, steps: seq<Step>)
    requires Starts(start) && Legal(start, steps)
    requires Enabled(States(start, steps)[|steps|], Fire)
    ensures var s := Apply(States(start, steps)[|steps|], Fire);
            && s.alert.Some? && s.now < s.alert.value.at
            && forall id :: id in s.live ==> s.now < Deadline(s.live[id]) && Day(s.live[id]) == Day(s.now)
  {
    hide Expired, NextBoundary, Deadline, Day;
    StartInv(start);
    RunDated(start, steps);
    var s := States(start, steps)[|steps|];
    AlertAhead(s.now);
    FiredInv(s);
  }

  /** What a step does to an order: handing over dates it now, its acceptance dates
      it again, its end and a sweep that finds it expired take it, and nothing else
      touches it. */
  lemma WhatBecomesOf(s: Desk, step: Step, id: Id)
    requires Enabled(s, step)
    ensures var t := Apply(s, step);
            && (step == Admit(id) || step == Hand(id) || step == Accept(id) ==> id in t.live && t.live[id] == t.now)
            && (step == Finish(id) ==> id !in t.live)
            && (step.Fire? || step.Restart? ==>
                  (id in t.live <==> id in s.live && !Expired(s.live[id], t.now))
                  && (id in t.live ==> t.live[id] == s.live[id]))
            && (step !in {Admit(id), Hand(id), Accept(id), Finish(id)} && !step.Fire? && !step.Restart? ==>
                  (id in t.live <==> id in s.live) && (id in s.live ==> t.live[id] == s.live[id]))
            && (id in t.checked <==> step == Check(id)
                                     || (id in s.checked && step !in {Hand(id), Withdraw(id)} && !step.Restart?))
  {
    hide Expired, NextBoundary, InSession;
  }

  /** So in every run an order leaves the desk only by its own end, or by a sweep
      that reads the clock at or after its day's. */
  lemma {:induction false} OnlyItsEndOrASweep(s: Desk, steps: seq<Step>, id: Id) returns (k: nat)
    requires Legal(s, steps) && id in s.live && Finish(id) !in steps
    ensures id in States(s, steps)[|steps|].live
         || (k < |steps| && (steps[k].Fire? || steps[k].Restart?)
             && id in States(s, steps)[k].live && Expired(States(s, steps)[k].live[id], States(s, steps)[k + 1].now))
    decreases |steps|
  {
    hide Apply, Enabled, Expired;
    k := 0;
    if steps != [] {
      var t, rest := Apply(s, steps[0]), steps[1..];
      WhatBecomesOf(s, steps[0], id);
      StatesFront(s, steps);
      assert steps[0] in steps && forall x :: x in rest ==> x in steps;
      hide States;
      if id in t.live {
        var j := OnlyItsEndOrASweep(t, rest, id);
        k := j + 1;
      }
    }
  }

  lemma StatesFront(s: Desk, steps: seq<Step>)
    requires steps != [] && Legal(s, steps)
    ensures var states, later := States(s, steps), States(Apply(s, steps[0]), steps[1..]);
            && |states| == |later| + 1 && states[0] == s
            && forall i :: 0 <= i < |later| ==> states[i + 1] == later[i]
  {
    hide Apply, Enabled;
  }

  /** 14:57 of a day within the signed range. */
  predicate Close(t: nat, day: nat) {
    day <= 106751 && t == Instant(day, AFTERNOON_CLOSE)
  }

  lemma AroundClose(close: nat, day: nat)
    requires Close(close, day)
    ensures close > 0 && Day(close - 1) == day
    ensures Deadline(close - 1) == close == Deadline(close)
    ensures NextBoundary(close) > close
    ensures !Weekend(day) ==> InSession(close - 1)
    ensures NextBoundary(close - 1) == close
  {
    DayOfInstant(day, close - 1);
    DayOfInstant(day, close);
    AlertAhead(close);
    assert Deadline(close - 1) == close == Deadline(close);
    hide NextBoundary, Deadline;
    DayBounds(close - 1);
    BeforeClose(close - 1, day);
  }

  lemma BeforeClose(t: nat, day: nat)
    requires Day(t) == day && day <= 106751
    requires TimeOfDay(t) == AFTERNOON_CLOSE * MINUTE_NS - 1 && t < HORIZON
    ensures NextBoundary(t) == Instant(day, AFTERNOON_CLOSE)
    ensures !Weekend(day) ==> InSession(t)
  {
    hide NextBoundary, Day;
    NextBoundaryEndsStretch(t);
  }

  /** Every start that leaves an order, and arms at or after the 14:57 of the
      date it swept on, keeps that order live past its day with no alert due. */
  lemma StartAcrossTheClose(start: Desk, to: nat, id: Id)
    requires Starts(start) && id in start.live && start.now <= to && Deadline(start.swept) <= to
    ensures Legal(start, [Tick(to), Arm])
    ensures var states := States(start, [Tick(to), Arm]); Late(states[1], Arm) && !WithinDay(states[2])
  {
    hide Expired, NextBoundary, Deadline, Day, InSession;
    StartInv(start);
    var ticked := Apply(start, Tick(to));
    StepDated(start, Tick(to));
    assert Late(ticked, Arm);
    LateBreaks(ticked, Arm);
    hide Apply, Enabled, Late, WithinDay, Starts, Dated;
    StatesOf(ticked, Arm, []);
    StatesOf(start, Tick(to), [Arm]);
    assert [Arm] + [] == [Arm] && [Tick(to)] + [Arm] == [Tick(to), Arm];
    assert States(start, [Tick(to), Arm]) == [start, ticked, Apply(ticked, Arm)];
  }

  /** There is such a start on every day: one nanosecond before its 14:57 the
      sweep leaves an order of that instant, and arming there is late. */
  lemma OrderLeftBeforeTheClose(close: nat, day: nat, id: Id)
    requires Close(close, day)
    ensures var start := Reconciled(close - 1, map[id := close - 1]);
            Starts(start) && id in start.live && start.now <= close && Deadline(start.swept) <= close
  {
    AroundClose(close, day);
    hide NextBoundary, Deadline, Day, InSession, Close;
    LastInstantSurvives(close - 1, id);
  }

  lemma LastInstantSurvives(now: nat, id: Id)
    requires now < Deadline(now)
    ensures var start := Reconciled(now, map[id := now]);
            Starts(start) && id in start.live && start.now == start.swept == now
  {
    ExpiredByDay(now, now);
    hide Expired, Deadline, Day;
    StartsFrom(now, map[id := now]);
  }

  lemma StartsFrom(now: nat, restored: map<Id, nat>)
    requires forall id :: id in restored ==> restored[id] <= now
    ensures Starts(Reconciled(now, restored))
  {
  }

  /** And so does a MARKET order checked then and handed over after the 14:57
      alert of a weekday has run. */
  lemma HandedAcrossTheClose(start: Desk, close: nat, day: nat, id: Id)
    requires Close(close, day) && !Weekend(day) && start == Reconciled(close - 1, map[])
    ensures var steps := [Arm, Check(id), Tick(close), Fire, Hand(id)];
            && Starts(start) && Legal(start, steps)
            && var states := States(start, steps);
               Late(states[4], Hand(id)) && id in states[5].live && !WithinDay(states[5])
  {
    var after := HandingAcross(start, close, day, id);
    StartsFrom(close - 1, map[]);
    hide Apply, Enabled, Late, WithinDay, Starts, Reconciled, Close;
    var steps := [Hand(id)] + [];
    StatesOf(after[3], Hand(id), []);
    StatesOf(after[2], Fire, steps);
    steps := [Fire] + steps;
    StatesOf(after[1], Tick(close), steps);
    steps := [Tick(close)] + steps;
    StatesOf(after[0], Check(id), steps);
    steps := [Check(id)] + steps;
    StatesOf(start, Arm, steps);
    steps := [Arm] + steps;
    hide *;
    assert steps == [Arm, Check(id), Tick(close), Fire, Hand(id)];
    assert States(start, steps)[4] == after[3] && States(start, steps)[5] == after[4];
  }

  lemma HandingAcross(start: Desk, close: nat, day: nat, id: Id) returns (after: seq<Desk>)
    requires Close(close, day) && !Weekend(day) && start == Reconciled(close - 1, map[])
    ensures |after| == 5
    ensures Enabled(start, Arm) && after[0] == Apply(start, Arm)
    ensures Enabled(after[0], Check(id)) && after[1] == Apply(after[0], Check(id))
    ensures Enabled(after[1], Tick(close)) && after[2] == Apply(after[1], Tick(close))
    ensures Enabled(after[2], Fire) && after[3] == Apply(after[2], Fire)
    ensures Enabled(after[3], Hand(id)) && after[4] == Apply(after[3], Hand(id))
    ensures Late(after[3], Hand(id)) && id in after[4].live && !WithinDay(after[4])
  {
    AroundClose(close, day);
    hide Expired, NextBoundary, Deadline, Day, InSession;
    var a := Apply(start, Arm);
    var b := Apply(a, Check(id));
    var c := Apply(b, Tick(close));
    var d := Apply(c, Fire);
    after := [a, b, c, d, Apply(d, Hand(id))];
  }

  lemma StatesOf(s: Desk, step: Step, rest: seq<Step>)
    requires Enabled(s, step) && Legal(Apply(s, step), rest)
    ensures Legal(s, [step] + rest) && States(s, [step] + rest) == [s] + States(Apply(s, step), rest)
  {
    hide Apply, Enabled;
    assert ([step] + rest)[1..] == rest;
  }
}
