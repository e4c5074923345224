/** The sampled-fill rule over whole runs. The node keeps a baseline per order
    (an observation count and a volume) and releases an order only past both.
    The rule it is for needs none of that: an observation in a trading session
    whose volume exceeds that of the preceding accepted one releases every
    compatible resting order. Over every run the two publish the same plans.
 */
module Sampling {
  import opened Options
  import opened Session
  import opened Instrument

  /** An instrument and the ids of its LIMIT orders that are not closed. */
  datatype Node = Node(inst: State, live: set<Id>)

  datatype Step =
    | Poll(o: Observed, evidence: Verdict, now: nat, resting: seq<Resting>)
    | Limit(id: Id)                     // a LIMIT is admitted: `baseline`
    | Closed(id: Id)                    // an order fills out or is cancelled
    | FeedFails(reason: Reason, at: nat)
    | Switch                            // a provider switch: `reset`, `block`
    | Restart(restored: set<Id>, at: nat)   // a node start: those, then `republish_status`
    | Alert(now: nat)                   // a boundary alert: `gate`
    | YahooCycle(day: Verdict, at: nat) // the other provider's cycle: readiness, then `gate`

  const BLOCKED := FRESH.(gate := FRESH.gate.(readiness := Fail(NoCalendar)))

  /** `gate`: the status the instant and the held evidence ask for. */
  function Regated(g: Gate, now: nat): Gate {
    g.(status := Some(Gated(g, now)))
  }

  function Yahoo(g: Gate, day: Verdict, at: nat): Gate {
    Regated(Dated(g, day, at), at)
  }

  predicate Enabled(n: Node, step: Step) {
    match step
    case Poll(o, _, _, resting) => o.tick > 0 && Ids(resting) == n.live
    case Limit(id) => id !in n.live
    case Closed(id) => id in n.live
    case _ => true
  }

  function Apply(n: Node, step: Step): Node
    requires Enabled(n, step)
  {
    match step
    case Poll(o, evidence, now, resting) => n.(inst := Observe(n.inst, o, evidence, now, resting).0)
    case Limit(id) => Node(Baselined(n.inst, id), n.live + {id})
    case Closed(id) => n.(live := n.live - {id})
    case FeedFails(reason, at) => n.(inst := Failed(n.inst, reason, at))
    case Switch => n.(inst := BLOCKED)
    case Restart(restored, at) => Node(BLOCKED.(gate := Regated(BLOCKED.gate, at)), restored)
    case Alert(now) => n.(inst := n.inst.(gate := Regated(n.inst.gate, now)))
    case YahooCycle(day, at) => n.(inst := n.inst.(gate := Yahoo(n.inst.gate, day, at)))
  }

  predicate Legal(n: Node, steps: seq<Step>)
    decreases |steps|
  {
    steps == [] || (Enabled(n, steps[0]) && Legal(Apply(n, steps[0]), steps[1..]))
  }

  function Exec(n: Node, steps: seq<Step>): Node
    requires Legal(n, steps)
    decreases |steps|
  {
    if steps == [] then n else Exec(Apply(n, steps[0]), steps[1..])
  }

  /** The plans of a run, observation by observation. */
  function Plans(n: Node, steps: seq<Step>): seq<Plan>
    requires Legal(n, steps)
    decreases |steps|
  {
    if steps == [] then []
    else
      (match steps[0]
       case Poll(o, evidence, now, resting) => [Observe(n.inst, o, evidence, now, resting).1]
       case _ => [])
      + Plans(Apply(n, steps[0]), steps[1..])
  }

  // ---------------------------------------------------------------------
  // The rule without baselines
  // ---------------------------------------------------------------------

  /** `mark` is the volume of the preceding accepted observation, if one stands
      since the last discard. */
  datatype Simple = Simple(gate: Gate, mark: Option<nat>)

  function AllCompatible(resting: seq<Resting>, last: int): seq<Resting> {
    if resting == [] then []
    else if Compatible(resting[0], last) then [resting[0]] + AllCompatible(resting[1..], last)
    else AllCompatible(resting[1..], last)
  }

  function SimplyReleased(mark: Option<nat>, o: Observed, resting: seq<Resting>): seq<Resting> {
    if mark.Some? && o.volume > mark.value then AllCompatible(resting, o.last) else []
  }

  function SimpleObserve(s: Simple, o: Observed, evidence: Verdict, now: nat, resting: seq<Resting>): (Simple, Plan)
    requires o.tick > 0
  {
    var gate := Settle(s.gate, s.mark, o, evidence, now).0;
    var status := Changed(s.gate.status, gate.status.value);
    if !Trustworthy(s.gate, o, evidence, Day(now)) then (Simple(gate, None), Plan(status, []))
    else if s.mark.Some? && o.volume < s.mark.value then (Simple(gate, None), Plan(status, [Idle(o.last)]))
    else if !InSession(now) then (Simple(gate, s.mark), Plan(status, [Idle(o.last)]))
    else
      (Simple(gate, Some(o.volume)),
       Plan(status, BooksFor(SimplyReleased(s.mark, o, resting), o.last, gate.ready.value)))
  }

  function SimpleApply(s: Simple, step: Step): Simple
    requires step.Poll? ==> step.o.tick > 0
  {
    match step
    case Poll(o, evidence, now, resting) => SimpleObserve(s, o, evidence, now, resting).0
    case FeedFails(reason, _) =>
      Simple(s.gate.(readiness := Fail(reason), ready := None, status := Some(Pause)), None)
    case Switch => Simple(BLOCKED.gate, None)
    case Restart(_, at) => Simple(Regated(BLOCKED.gate, at), None)
    case Alert(now) => s.(gate := Regated(s.gate, now))
    case YahooCycle(day, at) => s.(gate := Yahoo(s.gate, day, at))
    case _ => s
  }

  function SimplePlans(s: Simple, steps: seq<Step>): seq<Plan>
    requires forall k :: 0 <= k < |steps| && steps[k].Poll? ==> steps[k].o.tick > 0
    decreases |steps|
  {
    if steps == [] then []
    else
      (match steps[0]
       case Poll(o, evidence, now, resting) => [SimpleObserve(s, o, evidence, now, resting).1]
       case _ => [])
      + SimplePlans(SimpleApply(s, steps[0]), steps[1..])
  }

  // ---------------------------------------------------------------------
  // The invariant that makes them agree
  // ---------------------------------------------------------------------

  function Volume(s: Samples): nat {
    if s.prevVolume.Some? then s.prevVolume.value else 0
  }

  /** No count without a previous volume, no baseline above the current one, and
      once a volume stands every live order has its baseline. */
  ghost predicate Inv(n: Node) {
    var s := n.inst.samples;
    && (s.count == 0 <==> s.prevVolume.None?)
    && (forall id :: id in s.baselines ==>
          s.baselines[id].count <= s.count && s.baselines[id].volume <= Volume(s))
    && (s.prevVolume.Some? ==> n.live <= s.baselines.Keys)
  }

  lemma AcceptedNotBelow(g: Gate, prev: Option<nat>, o: Observed, evidence: Verdict, now: nat)
    requires o.tick > 0 && Settle(g, prev, o, evidence, now).1 == Accepted
    ensures prev.Some? ==> prev.value <= o.volume
  {
  }

  lemma AcceptedCounts(s: State, o: Observed, evidence: Verdict, now: nat)
    requires o.tick > 0
    ensures var (gate, standing) := Settle(s.gate, s.samples.prevVolume, o, evidence, now);
            && (standing == Accepted <==> Counts(s, o, evidence, now))
            && (standing == Unready <==> !Trustworthy(s.gate, o, evidence, Day(now)))
            && (standing == Decreased <==> Trustworthy(s.gate, o, evidence, Day(now)) && Decreases(s, o))
            && (Trustworthy(s.gate, o, evidence, Day(now)) ==> gate.ready.Some?)
  {
    hide Day;
  }

  lemma StepInv(n: Node, step: Step)
    requires Inv(n) && Enabled(n, step)
    ensures Inv(Apply(n, step))
  {
    hide Settle, BooksFor, Released;
    if step.Poll? {
      if Settle(n.inst.gate, n.inst.samples.prevVolume, step.o, step.evidence, step.now).1 == Accepted {
        AcceptedNotBelow(n.inst.gate, n.inst.samples.prevVolume, step.o, step.evidence, step.now);
      }
    }
  }

  /** Past a bounded baseline, the per-order test is the price test. */
  lemma {:induction false} BaselinesReleaseAll(resting: seq<Resting>, s: Samples, volume: nat, last: int)
    requires forall id :: id in s.baselines ==>
               s.baselines[id].count <= s.count && s.baselines[id].volume <= Volume(s)
    requires Ids(resting) <= s.baselines.Keys && volume > Volume(s)
    ensures Released(resting, s.baselines, s.count + 1, volume, last) == AllCompatible(resting, last)
  {
    if resting != [] {
      assert resting[0].id in Ids(resting);
      forall id | id in Ids(resting[1..])
        ensures id in Ids(resting)
      {
        var k :| 0 <= k < |resting[1..]| && resting[1..][k].id == id;
        assert resting[k + 1].id == id;
      }
      BaselinesReleaseAll(resting[1..], s, volume, last);
    }
  }

  function Simply(n: Node): Simple {
    Simple(n.inst.gate, n.inst.samples.prevVolume)
  }

  lemma ObservationAgrees(n: Node, o: Observed, evidence: Verdict, now: nat, resting: seq<Resting>)
    requires Inv(n) && o.tick > 0 && Ids(resting) == n.live
    ensures var (s, plan) := Observe(n.inst, o, evidence, now, resting);
            SimpleObserve(Simply(n), o, evidence, now, resting)
              == (Simple(s.gate, s.samples.prevVolume), plan)
  {
    AcceptedCounts(n.inst, o, evidence, now);
    hide Settle, BooksFor, Released, Trustworthy, InSession;
    var s := n.inst.samples;
    if s.prevVolume.Some? && o.volume > s.prevVolume.value {
      BaselinesReleaseAll(resting, s, o.volume, o.last);
    }
  }

  // ---------------------------------------------------------------------
  // Main results
  // ---------------------------------------------------------------------

  /** In every run in which each LIMIT admission records its baseline, whatever
      is discarded and restored on the way, the node publishes exactly what the
      rule without baselines publishes. */
  lemma {:induction false} SampledFillRule(n: Node, steps: seq<Step>)
    requires Inv(n) && Legal(n, steps)
    ensures forall k :: 0 <= k < |steps| && steps[k].Poll? ==> steps[k].o.tick > 0
    ensures Plans(n, steps) == SimplePlans(Simply(n), steps)
    decreases |steps|
  {
    if steps != [] {
      hide Observe, SimpleObserve, Inv, Gated;
      var m := Apply(n, steps[0]);
      StepInv(n, steps[0]);
      SampledFillRule(m, steps[1..]);
      assert forall k :: 1 <= k < |steps| ==> steps[k] == steps[1..][k - 1];
      if steps[0].Poll? {
        var Poll(o, evidence, now, resting) := steps[0];
        ObservationAgrees(n, o, evidence, now, resting);
      }
    }
  }

  /** The states a run passes through, its own first. */
  function States(n: Node, steps: seq<Step>): (states: seq<Node>)
    requires Legal(n, steps)
    ensures |states| == |steps| + 1
    decreases |steps|
  {
    if steps == [] then [n] else [n] + States(Apply(n, steps[0]), steps[1..])
  }

  lemma {:induction false} StatesInv(n: Node, steps: seq<Step>)
    requires Inv(n) && Legal(n, steps)
    ensures forall i :: 0 <= i <= |steps| ==> Inv(States(n, steps)[i])
    decreases |steps|
  {
    if steps != [] {
      hide Apply, Inv;
      StepInv(n, steps[0]);
      StatesInv(Apply(n, steps[0]), steps[1..]);
    }
  }

  /** The step is an observation that counts. */
  predicate Accepts(n: Node, step: Step) {
    step.Poll? && Counts(n.inst, step.o, step.evidence, step.now)
  }

  predicate Discards(n: Node, step: Step) {
    step.FeedFails? || step.Switch? || step.Restart?
    || (step.Poll? && (!Trustworthy(n.inst.gate, step.o, step.evidence, Day(step.now)) || Decreases(n.inst, step.o)))
  }

  /** Nothing is accepted or discarded from step `from` on. */
  ghost predicate Quiet(states: seq<Node>, steps: seq<Step>, from: int)
    requires |states| == |steps| + 1
  {
    forall i :: 0 <= from <= i < |steps| ==> !Accepts(states[i], steps[i]) && !Discards(states[i], steps[i])
  }

  /** What a step does to the standing volume. */
  lemma MarkAfter(n: Node, step: Step)
    requires Enabled(n, step)
    ensures var mark := Apply(n, step).inst.samples.prevVolume;
            && (Accepts(n, step) ==> mark == Some(step.o.volume))
            && (Discards(n, step) ==> mark.None?)
            && (!Accepts(n, step) && !Discards(n, step) ==> mark == n.inst.samples.prevVolume)
  {
    if step.Poll? {
      ObservationCounts(n.inst, step.o, step.evidence, step.now, step.resting);
    }
    hide Observe, Trustworthy, Decreases, InSession, Gated;
  }

  /** The volume that stands was accepted in this run with nothing accepted or
      discarded since, or was standing before it. */
  lemma {:induction false} WhereTheMarkComesFrom(n: Node, steps: seq<Step>) returns (j: int)
    requires Legal(n, steps)
    ensures var states := States(n, steps);
            var mark := states[|steps|].inst.samples.prevVolume;
            mark.Some? ==>
              && -1 <= j < |steps|
              && Quiet(states, steps, j + 1)
              && (j == -1 ==> mark == n.inst.samples.prevVolume)
              && (j >= 0 ==> Accepts(states[j], steps[j]) && mark == Some(steps[j].o.volume))
    decreases |steps|
  {
    j := -1;
    if steps != [] {
      hide Apply, Enabled, Accepts, Discards;
      MarkAfter(n, steps[0]);
      var m := Apply(n, steps[0]);
      var k := WhereTheMarkComesFrom(m, steps[1..]);
      var states, rest := States(n, steps), States(m, steps[1..]);
      assert forall i :: 1 <= i <= |steps| ==> states[i] == rest[i - 1];
      assert forall i :: 1 <= i < |steps| ==> steps[i] == steps[1..][i - 1];
      j := if k >= 0 then k + 1 else if Accepts(n, steps[0]) then 0 else -1;
    }
  }

  /** After any discard, no crossing book appears before a second trading
      observation: one that exceeds, with nothing discarded in between, the
      volume of an earlier accepted one. */
  lemma ReEstablishment(n: Node, steps: seq<Step>, step: Step) returns (j: nat)
    requires n.inst.samples.prevVolume.None? && Legal(n, steps)
    requires var m := States(n, steps)[|steps|];
             step.Poll? && Enabled(m, step)
             && exists k :: 0 <= k < |Observe(m.inst, step.o, step.evidence, step.now, step.resting).1.books|
                         && Observe(m.inst, step.o, step.evidence, step.now, step.resting).1.books[k].Crossing?
    ensures var states := States(n, steps);
            && Accepts(states[|steps|], step) && InSession(step.now)
            && j < |steps| && Accepts(states[j], steps[j]) && InSession(steps[j].now)
            && steps[j].o.volume < step.o.volume
            && Quiet(states, steps, j + 1)
  {
    var k := WhereTheMarkComesFrom(n, steps);
    var m := States(n, steps)[|steps|];
    ObservationCounts(m.inst, step.o, step.evidence, step.now, step.resting);
    hide Observe, Trustworthy, Decreases, InSession;
    assert m.inst.samples.prevVolume.Some?;
    j := k;
  }

  // ---------------------------------------------------------------------
  // What an order is measured against
  // ---------------------------------------------------------------------

  /** An order's baseline is the latest counted observation when it was admitted, or
      the first counted one it rested at without one; it keeps that until it is
      discarded, or the order no longer rests. */
  lemma WhatABaselineIs(n: Node, step: Step, id: Id)
    requires Enabled(n, step)
    ensures var s, m := n.inst.samples, Apply(n, step);
            var t := m.inst.samples;
            && (step == Limit(id) ==> id in t.baselines && t.baselines[id] == Baseline(s.count, Volume(s)))
            && (Accepts(n, step) ==>
                  && (id in t.baselines <==> id in n.live)
                  && (id in n.live ==>
                        t.baselines[id] == if id in s.baselines then s.baselines[id]
                                           else Baseline(s.count + 1, step.o.volume)))
            && (Discards(n, step) ==> id !in t.baselines)
            && (step != Limit(id) && !Accepts(n, step) && !Discards(n, step) ==>
                  (id in t.baselines <==> id in s.baselines)
                  && (id in s.baselines ==> t.baselines[id] == s.baselines[id]))
            && (id in m.live <==>
                  if step.Restart? then id in step.restored
                  else step == Limit(id) || (id in n.live && step != Closed(id)))
  {
    if step.Poll? {
      AcceptedCounts(n.inst, step.o, step.evidence, step.now);
    }
    hide Settle, BooksFor, Released, Trustworthy, InSession, Gated;
  }

  // ---------------------------------------------------------------------
  // A moved reference
  // ---------------------------------------------------------------------

  /** Nothing but a switch or a restart lifts a block on its date. */
  ghost predicate OnDate(steps: seq<Step>, date: int) {
    forall k :: 0 <= k < |steps| ==>
      !steps[k].Switch? && !steps[k].Restart? && (steps[k].Poll? ==> Day(steps[k].now) == date)
  }

  lemma BlockStep(n: Node, step: Step, date: int)
    requires Enabled(n, step) && n.inst.gate.blockedDate == Some(date) && OnDate([step], date)
    ensures Apply(n, step).inst.gate.blockedDate == Some(date)
    ensures step.Poll? ==>
              var (t, plan) := Observe(n.inst, step.o, step.evidence, step.now, step.resting);
              plan.books == [] && t.gate.readiness.Fail? && t.gate.status != Some(Trading) && t.samples == FORGOTTEN
  {
    assert [step][0] == step;
    if step.Poll? {
      ObservationCounts(n.inst, step.o, step.evidence, step.now, step.resting);
      ObservationGates(n.inst, step.o, step.evidence, step.now, step.resting);
    }
    hide Observe, Day, Gated;
  }

  /** A reference that moved blocks the instrument for the rest of its date: every
      later observation of the date publishes no book and leaves it unready, with
      whatever feed failures, alerts and orders in between. */
  lemma {:induction false} MovedReferenceBlocksTheDate(n: Node, steps: seq<Step>, date: int)
    requires n.inst.gate.blockedDate == Some(date) && Legal(n, steps) && OnDate(steps, date)
    ensures Exec(n, steps).inst.gate.blockedDate == Some(date)
    ensures forall k :: 0 <= k < |Plans(n, steps)| ==> Plans(n, steps)[k].books == []
    decreases |steps|
  {
    if steps != [] {
      assert OnDate([steps[0]], date);
      assert forall k :: 0 <= k < |steps[1..]| ==> steps[1..][k] == steps[k + 1];
      BlockStep(n, steps[0], date);
      hide Apply, Enabled, Observe, Day;
      MovedReferenceBlocksTheDate(Apply(n, steps[0]), steps[1..], date);
    }
  }

  /** A failed feed forgets the reference: after it only a block that stands makes
      an observation's reference a moved one. */
  lemma FailureForgetsTheReference(s: State, reason: Reason, at: nat, o: Observed, today: int)
    ensures ReferenceMoved(Failed(s, reason, at).gate, o, today) <==> s.gate.blockedDate == Some(today)
  {
    hide Stamp;
  }
}
