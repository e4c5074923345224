/** The day law of what is really admitted: a run of checks and hand-overs through
    the critical section, with the desk's alerts and its orders' ends in between,
    is a run of the day lifetime, so its law is theirs.
 */
module TradingDay {
  import opened Options
  import opened Session
  import opened Settlement
  import C = Critical
  import E = Eligibility
  import L = DayLife

  /** A step of the sections, or one of the day lifetime's own. */
  datatype Moment = Trading(step: Step) | Passing(day: L.Step)

  /** What a section's step is to the day: the clock, an order checked and handed
      over in one section, or a MARKET checked, handed over, or given up. */
  function DayStep(step: Step): Option<L.Step> {
    match step
    case Trade(Tick(to)) => Some(L.Tick(to))
    case Section(Attempt(order, _, admitted, sized)) =>
      if !admitted then None else if sized.None? then Some(L.Admit(order)) else Some(L.Check(order))
    case Section(Hand(order)) => Some(L.Hand(order))
    case Section(SizedSeen(order, seen)) => if seen then None else Some(L.Withdraw(order))
    case _ => None
  }

  function DayOf(m: Moment): Option<L.Step> {
    if m.Trading? then DayStep(m.step) else Some(m.day)
  }

  predicate Enabled(d: Desk, s: L.Desk, m: Moment) {
    match m
    case Trading(step) => Settlement.Enabled(d, step)
    case Passing(day) => (day.Fire? || day.Accept? || day.Finish?) && L.Enabled(s, day)
  }

  /** The two keep one clock; the day's checked orders are those checked and not
      yet handed over; and only orders that were handed over are live. */
  ghost predicate Together(d: Desk, s: L.Desk) {
    && s.now == d.account.now && s.alert.Some?
    && (forall order :: order in s.checked <==> Early(d.node, order))
    && forall id :: id in s.live ==> id in d.node.orders && !d.node.orders[id].Asking? && !Early(d.node, id)
  }

  /** Whatever `check` admits, the day lifetime admits too, and the two go on
      together. */
  lemma MomentTogether(d: Desk, s: L.Desk, m: Moment)
    requires Together(d, s) && Enabled(d, s, m)
    ensures DayOf(m).Some? ==> L.Enabled(s, DayOf(m).value)
    ensures Together(if m.Trading? then Settlement.Apply(d, m.step) else d,
                     if DayOf(m).Some? then L.Apply(s, DayOf(m).value) else s)
  {
    hide Expired, NextBoundary, InSession, E.Sellable;
    if m.Passing? {
      PassingTogether(d, s, m.day);
    } else {
      TradingTogether(d, s, m.step);
    }
  }

  lemma PassingTogether(d: Desk, s: L.Desk, day: L.Step)
    requires Together(d, s) && (day.Fire? || day.Accept? || day.Finish?) && L.Enabled(s, day)
    ensures Together(d, L.Apply(s, day))
  {
    hide Early;
  }

  lemma TradingTogether(d: Desk, s: L.Desk, step: Step)
    requires Together(d, s) && Settlement.Enabled(d, step)
    ensures DayStep(step).Some? ==> L.Enabled(s, DayStep(step).value)
    ensures Together(Settlement.Apply(d, step), if DayStep(step).Some? then L.Apply(s, DayStep(step).value) else s)
  {
    TradingAllowed(d, s, step);
    AccountClock(d, step);
    hide C.Enabled, C.Apply, E.Check, E.Apply, E.Enabled, Early, InSession, Settlement.Enabled, Settlement.Apply,
      Expired, NextBoundary;
    var e := Settlement.Apply(d, step);
    var t := if DayStep(step).Some? then L.Apply(s, DayStep(step).value) else s;
    assert t.now == e.account.now && t.alert.Some?;
    hide L.Apply, L.Enabled;
    forall id
      ensures id in t.checked <==> Early(e.node, id)
      ensures id in t.live ==> id in e.node.orders && !e.node.orders[id].Asking? && !Early(e.node, id)
    {
      OrderTogether(d, s, step, id);
    }
  }

  /** The same of one order. */
  lemma OrderTogether(d: Desk, s: L.Desk, step: Step, id: L.Id)
    requires Together(d, s) && Settlement.Enabled(d, step)
    requires DayStep(step).Some? ==> L.Enabled(s, DayStep(step).value)
    ensures var e := Settlement.Apply(d, step);
            var t := if DayStep(step).Some? then L.Apply(s, DayStep(step).value) else s;
            && (id in t.checked <==> Early(e.node, id))
            && (id in t.live ==> id in e.node.orders && !e.node.orders[id].Asking? && !Early(e.node, id))
  {
    hide C.Enabled, C.Apply, E.Check, E.Apply, E.Enabled, Early, InSession, Settlement.Enabled, Settlement.Apply,
      Expired, NextBoundary, L.Apply, L.Enabled;
    StepsOf(d, step);
    OrdersThen(d, step);
    if DayStep(step).Some? {
      L.WhatBecomesOf(s, DayStep(step).value, id);
    }
  }

  /** The orders of the section after its step. */
  lemma OrdersThen(d: Desk, step: Step)
    requires Settlement.Enabled(d, step)
    ensures var e := Settlement.Apply(d, step);
            if NodeStep(step).Some? then
              forall order ::
                && (Early(e.node, order) <==> EarlyThen(d.node, NodeStep(step).value, order))
                && (Asks(e.node, order) <==> AsksThen(d.node, NodeStep(step).value, order))
                && (order in d.node.orders ==> order in e.node.orders)
            else e.node == d.node
  {
    NodeEnabled(d, step);
    hide Settlement.Enabled, Settlement.Apply, C.Apply, C.Enabled, Early, Asks;
    if NodeStep(step).Some? {
      forall order
        ensures Early(Settlement.Apply(d, step).node, order) <==> EarlyThen(d.node, NodeStep(step).value, order)
        ensures Asks(Settlement.Apply(d, step).node, order) <==> AsksThen(d.node, NodeStep(step).value, order)
        ensures order in d.node.orders ==> order in Settlement.Apply(d, step).node.orders
      {
        EarlyAfter(d.node, NodeStep(step).value, order);
      }
    }
  }

  lemma TradingAllowed(d: Desk, s: L.Desk, step: Step)
    requires Together(d, s) && Settlement.Enabled(d, step)
    ensures DayStep(step).Some? ==> L.Enabled(s, DayStep(step).value)
  {
    if step.Section? && step.step.Attempt? && step.step.admitted {
      AdmittedInSession(d, step);
    }
    AccountClock(d, step);
    StepsOf(d, step);
    hide C.Enabled, C.Apply, E.Check, E.Apply, E.Enabled, Early, InSession, Settlement.Enabled, Settlement.Apply;
  }

  predicate EarlyThen(n: C.Node, step: C.Step, order: Order) {
    || (step.Attempt? && step.order == order && step.admitted && step.sized.Some?)
    || (Early(n, order) && step != C.Hand(order) && step != C.SizedSeen(order, false))
  }

  predicate AsksThen(n: C.Node, step: C.Step, order: Order) {
    || (step.Ask? && step.order == order)
    || (Asks(n, order) && step != C.GiveUp(order) && !(step.Attempt? && step.order == order && step.admitted))
  }

  /** The clock is the account's. */
  lemma AccountClock(d: Desk, step: Step)
    requires Settlement.Enabled(d, step)
    ensures Settlement.Apply(d, step).account.now == if step.Trade? && step.trade.Tick? then step.trade.to
                                                     else d.account.now
    ensures step.Trade? ==> Settlement.Apply(d, step).node == d.node
    ensures step.Trade? && step.trade.Tick? ==> d.account.now <= step.trade.to
  {
    hide C.Apply, C.Enabled, E.Check;
  }

  /** Where the orders that step are. */
  lemma StepsOf(d: Desk, step: Step)
    requires Settlement.Enabled(d, step)
    ensures step.Section? && step.step.Attempt? ==> Asks(d.node, step.step.order) && !Early(d.node, step.step.order)
    ensures step.Section? && (step.step.Hand? || step.step.SizedSeen?) ==>
              step.step.order in d.node.orders && Early(d.node, step.step.order) && !Asks(d.node, step.step.order)
    ensures step.Ask? ==> step.order !in d.node.orders
    ensures step.Section? ==> !step.step.Ask?
  {
    hide C.Apply, E.Check;
  }

  lemma AdmittedInSession(d: Desk, step: Step)
    requires Settlement.Enabled(d, step) && step.Section? && step.step.Attempt? && step.step.admitted
    ensures InSession(d.account.now)
  {
    var t := d.terms[step.step.order];
    E.AdmittedExactly(d.account, d.node.inst.gate, t.side, t.quantity, t.price);
    InSessionIs(d.account.now);
    hide InSession, E.Check, C.Apply;
  }

  // ---------------------------------------------------------------------
  // Runs
  // ---------------------------------------------------------------------

  function Traded(d: Desk, m: Moment): Desk
    requires m.Trading? ==> Settlement.Enabled(d, m.step)
  {
    if m.Trading? then Settlement.Apply(d, m.step) else d
  }

  /** A run of the sections, the day's moves in between being any that are due. */
  predicate Trades(d: Desk, s: L.Desk, run: seq<Moment>)
    decreases |run|
  {
    run == [] ||
    (&& Enabled(d, s, run[0])
     && Trades(Traded(d, run[0]),
               if DayOf(run[0]).Some? && L.Enabled(s, DayOf(run[0]).value) then L.Apply(s, DayOf(run[0]).value) else s,
               run[1..]))
  }

  function DaySteps(run: seq<Moment>): seq<L.Step> {
    if run == [] then []
    else (if DayOf(run[0]).Some? then [DayOf(run[0]).value] else []) + DaySteps(run[1..])
  }

  /** Whatever the sections do is what the day lifetime allows. */
  lemma {:induction false} TradesAreDays(d: Desk, s: L.Desk, run: seq<Moment>)
    requires Together(d, s) && Trades(d, s, run)
    ensures L.Legal(s, DaySteps(run))
    decreases |run|
  {
    if run != [] {
      MomentTogether(d, s, run[0]);
      hide Enabled, Settlement.Apply, L.Apply, L.Enabled, Together, DayOf;
      if DayOf(run[0]).Some? {
        var t := L.Apply(s, DayOf(run[0]).value);
        TradesAreDays(Traded(d, run[0]), t, run[1..]);
        L.StatesOf(s, DayOf(run[0]).value, DaySteps(run[1..]));
      } else {
        TradesAreDays(Traded(d, run[0]), s, run[1..]);
        assert DaySteps(run) == [] + DaySteps(run[1..]) == DaySteps(run[1..]);
      }
    }
  }

  /** So the day law is a law of the orders `check` really admits: in every run of
      checks and hand-overs through the critical section, with the alerts between
      them, no live order is at or past 14:57 of its own date with its alert not
      due, exactly when no checked order is handed over past a 14:57 that had run. */
  lemma AdmittedOrdersKeepTheirDay(d: Desk, s: L.Desk, run: seq<Moment>)
    requires Together(d, s) && L.Inv(s) && Trades(d, s, run)
    ensures L.Legal(s, DaySteps(run))
    ensures L.AlwaysWithinDay(L.States(s, DaySteps(run))) <==> L.NeverLate(L.States(s, DaySteps(run)), DaySteps(run))
  {
    TradesAreDays(d, s, run);
    hide L.Legal, L.Inv, L.States, Trades, Together;
    L.NoOrderOutlivesItsDay(s, DaySteps(run));
  }

  /** They are together from the start of any desk and its armed alert. */
  lemma StartTogether(d: Desk, s: L.Desk)
    requires Settlement.Starts(d) && s == L.Apply(L.Reconciled(d.account.now, map[]), L.Arm)
    ensures Together(d, s) && L.Inv(s)
  {
    hide NextBoundary;
  }
}
