/** The delivery dispatcher over whole runs: prompts are inserted, sessions
    activated, the head of a desk's queue handed to its runtime and resolved,
    queues failed, and the daemon crashes and recovers, in any order. `ledger`
    is what was really handed over.
 */
module Dispatch {
  import opened Options
  import opened Prompts

  /** What an adapter answers to a handoff. */
  datatype Outcome = Done | Refused | Unknown | NoChannel | Waiting

  /** `Waiting` alone means the runtime never saw the prompt. */
  datatype Handoff = Handoff(id: Id, outcome: Outcome, named: set<Id>)

  /** One delivery between its units: the attempt is recorded, then the runtime
      has answered. `named` are the failures a disclosure was rendered with. */
  datatype Flight =
    | Attempting(id: Id, desk: Desk, named: set<Id>)
    | Answered(id: Id, desk: Desk, named: set<Id>, outcome: Outcome)

  datatype Daemon = Daemon(table: Table, flight: Option<Flight>, ledger: seq<Handoff>)

  const EMPTY := Daemon(map[], None, [])

  datatype Step =
    | Insert(id: Id, desk: Desk, kind: Kind, createdAt: int)
    | NewSession(desk: Desk, now: int, disclosure: Id, orientation: Id)
    | Attempt(id: Id, desk: Desk, read: bool)   // whether the failures to disclose were read
    | Hand(outcome: Outcome)
    | Settle(committed: bool)     // the resolution unit, or the store failing it
    | FailAll(desk: Desk, code: Code)
    | Crash                       // and the recovery that follows

  function StatusOf(outcome: Outcome): Status
    requires outcome != Waiting
  {
    match outcome
    case Done => Delivered
    case Refused => Failed(DeliveryRefused)
    case Unknown => Failed(HandoffUnknown)
    case NoChannel => Failed(ChannelUnavailable)
  }

  /** What the row's text names; a read that fails names nothing. */
  function ToDisclose(t: Table, id: Id, desk: Desk, read: bool): set<Id>
    requires id in t
  {
    if t[id].kind == Disclosure && read then Undisclosed(t, desk) else {}
  }

  predicate Enabled(d: Daemon, step: Step) {
    match step
    case Insert(id, _, _, _) => id !in d.table
    case NewSession(_, _, disclosure, orientation) =>
      disclosure !in d.table && orientation !in d.table && disclosure != orientation
    case Attempt(id, desk, _) => d.flight.None? && IsHead(d.table, desk, id)
    case Hand(_) => d.flight.Some? && d.flight.value.Attempting?
    case Settle(_) => d.flight.Some? && d.flight.value.Answered?
    case FailAll(desk, _) => d.flight.Some? ==> d.flight.value.desk != desk
    case Crash => true
  }

  function Apply(d: Daemon, step: Step): Daemon
    requires Enabled(d, step)
  {
    match step
    case Insert(id, desk, kind, createdAt) => d.(table := d.table[id := NewRow(desk, kind, createdAt)])
    case NewSession(desk, now, disclosure, orientation) =>
      d.(table := ActivationRows(d.table, desk, now, disclosure, orientation))
    case Attempt(id, desk, read) =>
      var named := ToDisclose(d.table, id, desk, read);
      d.(table := MarkAttempted(d.table, id), flight := Some(Attempting(id, desk, named)))
    case Hand(outcome) =>
      var f := d.flight.value;
      d.(flight := Some(Answered(f.id, f.desk, f.named, outcome)),
         ledger := d.ledger + [Handoff(f.id, outcome, f.named)])
    case Settle(committed) =>
      var f := d.flight.value;
      var table :=
        if !committed then d.table
        else if f.outcome == Waiting then ClearAttempt(d.table, f.id)
        else Resolve(d.table, f.id, StatusOf(f.outcome), f.named);
      d.(table := table, flight := None)
    case FailAll(desk, code) => d.(table := FailQueued(d.table, desk, code))
    case Crash => d.(table := Recover(d.table), flight := None)
  }

  predicate Legal(d: Daemon, steps: seq<Step>)
    decreases |steps|
  {
    steps == [] || (Enabled(d, steps[0]) && Legal(Apply(d, steps[0]), steps[1..]))
  }

  function Exec(d: Daemon, steps: seq<Step>): Daemon
    requires Legal(d, steps)
    decreases |steps|
  {
    if steps == [] then d else Exec(Apply(d, steps[0]), steps[1..])
  }

  /** Every resolution unit of the run commits. */
  predicate Commits(steps: seq<Step>) {
    forall k :: 0 <= k < |steps| && steps[k].Settle? ==> steps[k].committed
  }

  // ---------------------------------------------------------------------
  // The invariant
  // ---------------------------------------------------------------------

  /** A handoff that reached the runtime, or may have. */
  predicate Reached(h: Handoff) {
    h.outcome != Waiting
  }

  /** The last handoff's resolution is still to come. */
  predicate Unsettled(d: Daemon, i: int) {
    d.flight.Some? && d.flight.value.Answered? && i == |d.ledger| - 1
  }

  ghost predicate FlightOk(d: Daemon) {
    d.flight.Some? ==>
      var f := d.flight.value;
      && Waits(d.table, f.desk, f.id) && d.table[f.id].attempted
      && f.named <= Undisclosed(d.table, f.desk)
      && (f.Answered? ==> d.ledger != [] && d.ledger[|d.ledger| - 1] == Handoff(f.id, f.outcome, f.named))
  }

  ghost predicate LedgerOk(d: Daemon) {
    && (forall i :: 0 <= i < |d.ledger| ==> d.ledger[i].id in d.table)
    // Once reached and settled, a prompt no longer waits.
    && (forall i :: 0 <= i < |d.ledger| && Reached(d.ledger[i]) && !Unsettled(d, i) ==>
          d.table[d.ledger[i].id].status != Queued)
    && (forall i, j :: 0 <= i < j < |d.ledger| && Reached(d.ledger[i]) && Reached(d.ledger[j]) ==>
          d.ledger[i].id != d.ledger[j].id)
  }

  ghost predicate Inv(d: Daemon) {
    FlightOk(d) && LedgerOk(d)
  }

  /** A row that no longer waits keeps its state for good. */
  ghost predicate Frozen(t: Table, u: Table) {
    forall id :: id in t ==>
      && id in u && u[id].desk == t[id].desk && u[id].createdAt == t[id].createdAt && u[id].kind == t[id].kind
      && (t[id].status != Queued ==> u[id].status == t[id].status)
      && (t[id].disclosed ==> u[id].disclosed)
  }

  lemma StepFreezes(d: Daemon, step: Step)
    requires FlightOk(d) && Enabled(d, step)
    ensures Frozen(d.table, Apply(d, step).table)
  {
  }

  lemma FlightStep(d: Daemon, step: Step)
    requires FlightOk(d) && Enabled(d, step)
    ensures FlightOk(Apply(d, step))
  {
    hide IsHead;
    assert step.Attempt? ==> Waits(d.table, step.desk, step.id) by {
      if step.Attempt? { HeadWaits(d.table, step.desk, step.id); }
    }
  }

  lemma HeadWaits(t: Table, desk: Desk, id: Id)
    requires IsHead(t, desk, id)
    ensures Waits(t, desk, id)
  {
  }

  lemma LedgerStep(d: Daemon, step: Step)
    requires FlightOk(d) && LedgerOk(d) && Enabled(d, step) && (step.Settle? ==> step.committed)
    ensures LedgerOk(Apply(d, step))
  {
    hide IsHead;
    StepFreezes(d, step);
  }

  lemma StepInv(d: Daemon, step: Step)
    requires Inv(d) && Enabled(d, step) && (step.Settle? ==> step.committed)
    ensures Inv(Apply(d, step))
  {
    hide Apply, Enabled, FlightOk, LedgerOk;
    FlightStep(d, step);
    LedgerStep(d, step);
  }

  lemma {:induction false} RunInv(d: Daemon, steps: seq<Step>)
    requires Inv(d) && Legal(d, steps) && Commits(steps)
    ensures Inv(Exec(d, steps))
    decreases |steps|
  {
    if steps != [] {
      hide Apply, Enabled, Inv;
      StepInv(d, steps[0]);
      assert forall k :: 1 <= k < |steps| ==> steps[k] == steps[1..][k - 1];
      RunInv(Apply(d, steps[0]), steps[1..]);
    }
  }

  // ---------------------------------------------------------------------
  // Main results
  // ---------------------------------------------------------------------

  /** A daemon that has handed nothing over; its table may hold anything
      recovered or queued, with nothing disclosed yet. */
  ghost predicate Starts(d: Daemon) {
    d.flight.None? && d.ledger == [] && forall id :: id in d.table ==> !d.table[id].disclosed
  }

  /** In every run whose resolutions commit, with crashes anywhere: a prompt
      reaches its runtime at most once, and once that is settled it never waits
      again. */
  lemma AtMostOnce(start: Daemon, steps: seq<Step>, i: nat, j: nat)
    requires Starts(start) && Legal(start, steps) && Commits(steps)
    requires var d := Exec(start, steps);
             i < |d.ledger| && j < |d.ledger| && Reached(d.ledger[i]) && Reached(d.ledger[j])
    ensures var d := Exec(start, steps);
            && (d.ledger[i].id == d.ledger[j].id ==> i == j)
            && d.ledger[i].id in d.table
            && (d.table[d.ledger[i].id].status == Queued ==> Unsettled(d, i))
  {
    RunInv(start, steps);
  }

  // ---------------------------------------------------------------------
  // At most once, exactly
  // ---------------------------------------------------------------------

  /** No prompt reached its runtime twice. */
  ghost predicate OnceEach(d: Daemon) {
    forall i, j :: 0 <= i < j < |d.ledger| && Reached(d.ledger[i]) && Reached(d.ledger[j]) ==>
      d.ledger[i].id != d.ledger[j].id
  }

  /** The rows whose resolution the store lost: until one commits, or the desk's
      queue is failed, or a recovery finds the row still marked attempted. */
  function Lost(d: Daemon, step: Step, lost: set<Id>): set<Id>
    requires Enabled(d, step)
  {
    match step
    case Settle(committed) =>
      var f := d.flight.value;
      if f.outcome == Waiting then lost else if committed then lost - {f.id} else lost + {f.id}
    case FailAll(desk, _) => set id | id in lost && !(id in d.table && d.table[id].desk == desk)
    case Crash => set id | id in lost && !(id in d.table && d.table[id].attempted)
    case _ => lost
  }

  /** The step hands over a row whose resolution is lost, for a runtime to take. */
  predicate Again(d: Daemon, step: Step, lost: set<Id>) {
    step.Hand? && step.outcome != Waiting && d.flight.Some? && d.flight.value.id in lost
  }

  predicate NeverAgain(d: Daemon, steps: seq<Step>, lost: set<Id>)
    requires Legal(d, steps)
    decreases |steps|
  {
    steps == [] || (!Again(d, steps[0], lost) && NeverAgain(Apply(d, steps[0]), steps[1..], Lost(d, steps[0], lost)))
  }

  /** A row waits although it reached its runtime and that is settled. */
  ghost predicate Stranded(d: Daemon, id: Id) {
    && id in d.table && d.table[id].status == Queued
    && exists i :: 0 <= i < |d.ledger| && Reached(d.ledger[i]) && !Unsettled(d, i) && d.ledger[i].id == id
  }

  /** The lost rows are exactly those. */
  ghost predicate LostInv(d: Daemon, lost: set<Id>) {
    && (forall i :: 0 <= i < |d.ledger| ==> d.ledger[i].id in d.table)
    && (forall id :: id in lost ==> Stranded(d, id))
    && (forall i :: 0 <= i < |d.ledger| && Reached(d.ledger[i]) && !Unsettled(d, i) ==>
          d.table[d.ledger[i].id].status == Queued ==> d.ledger[i].id in lost)
  }

  lemma LostKept(d: Daemon, step: Step, lost: set<Id>)
    requires FlightOk(d) && LostInv(d, lost) && Enabled(d, step)
    ensures LostInv(Apply(d, step), Lost(d, step, lost))
  {
    hide IsHead, Undisclosed, HeadInstant;
    StepFreezes(d, step);
    var e, after := Apply(d, step), Lost(d, step, lost);
    StandsAsBefore(d, step);
    hide Apply, Enabled;
    forall id | id in after
      ensures Stranded(e, id)
    {
      if id in lost {
        var i :| 0 <= i < |d.ledger| && Reached(d.ledger[i]) && !Unsettled(d, i) && d.ledger[i].id == id;
        assert Reached(e.ledger[i]) && !Unsettled(e, i) && e.ledger[i].id == id;
      } else {
        var i := |d.ledger| - 1;
        assert Reached(e.ledger[i]) && !Unsettled(e, i) && e.ledger[i].id == id;
      }
    }
    forall i | 0 <= i < |e.ledger| && Reached(e.ledger[i]) && !Unsettled(e, i)
               && e.ledger[i].id in e.table && e.table[e.ledger[i].id].status == Queued
      ensures e.ledger[i].id in after
    {
      assert i < |d.ledger| && e.ledger[i] == d.ledger[i];
    }
  }

  /** What a step does to the rows that wait and to the handoffs that are settled. */
  lemma StandsAsBefore(d: Daemon, step: Step)
    requires FlightOk(d) && Enabled(d, step)
    requires forall i :: 0 <= i < |d.ledger| ==> d.ledger[i].id in d.table
    ensures var e := Apply(d, step);
            && d.ledger <= e.ledger && |e.ledger| <= |d.ledger| + 1
            && (forall i :: 0 <= i < |e.ledger| ==> e.ledger[i].id in e.table)
            && (forall i :: 0 <= i < |d.ledger| && !Unsettled(d, i) ==> !Unsettled(e, i))
            && (|e.ledger| > |d.ledger| ==> Unsettled(e, |d.ledger|))
            && (forall i :: 0 <= i < |d.ledger| && Unsettled(d, i) && !Unsettled(e, i) ==>
                  step.Settle? || (step.Crash? && e.table[d.ledger[i].id].status != Queued))
            && (forall id :: id in d.table ==>
                  && id in e.table
                  && (e.table[id].status == Queued <==>
                        d.table[id].status == Queued
                        && !(step.FailAll? && d.table[id].desk == step.desk)
                        && !(step.Crash? && d.table[id].attempted)
                        && !(step.Settle? && step.committed && d.flight.value.outcome != Waiting
                             && id == d.flight.value.id)))
            && (step.Settle? ==>
                  && d.ledger != [] && d.ledger[|d.ledger| - 1].id == d.flight.value.id
                  && d.ledger[|d.ledger| - 1].outcome == d.flight.value.outcome
                  && Unsettled(d, |d.ledger| - 1) && !Unsettled(e, |d.ledger| - 1)
                  && d.flight.value.id in d.table && d.table[d.flight.value.id].status == Queued)
  {
    hide IsHead, Undisclosed, HeadInstant;
  }

  /** A handoff keeps it exactly when the row it hands over is not lost. */
  lemma HandKeepsOnce(d: Daemon, step: Step, lost: set<Id>)
    requires FlightOk(d) && LostInv(d, lost) && OnceEach(d) && Enabled(d, step)
    ensures OnceEach(Apply(d, step)) <==> !Again(d, step, lost)
  {
    hide IsHead, Undisclosed, HeadInstant;
    var e := Apply(d, step);
    if step.Hand? && step.outcome != Waiting {
      var id, last := d.flight.value.id, |d.ledger|;
      assert e.ledger[last].id == id && Reached(e.ledger[last]);
      if id in lost {
        var i :| 0 <= i < |d.ledger| && Reached(d.ledger[i]) && !Unsettled(d, i) && d.ledger[i].id == id;
        assert e.ledger[i] == d.ledger[i];
      } else {
        forall i | 0 <= i < last && Reached(e.ledger[i])
          ensures e.ledger[i].id != id
        {
          assert e.ledger[i] == d.ledger[i] && !Unsettled(d, i);
        }
      }
    }
  }

  lemma {:induction false} LedgerGrows(d: Daemon, steps: seq<Step>)
    requires Legal(d, steps)
    ensures d.ledger <= Exec(d, steps).ledger
    decreases |steps|
  {
    if steps != [] {
      assert d.ledger <= Apply(d, steps[0]).ledger;
      hide Apply, Enabled;
      LedgerGrows(Apply(d, steps[0]), steps[1..]);
    }
  }

  lemma TwiceStaysTwice(d: Daemon, steps: seq<Step>)
    requires Legal(d, steps) && !OnceEach(d)
    ensures !OnceEach(Exec(d, steps))
  {
    LedgerGrows(d, steps);
    var i, j :| 0 <= i < j < |d.ledger| && Reached(d.ledger[i]) && Reached(d.ledger[j])
                && d.ledger[i].id == d.ledger[j].id;
    var e := Exec(d, steps);
    assert e.ledger[i] == d.ledger[i] && e.ledger[j] == d.ledger[j];
  }

  lemma {:induction false} AtMostOnceFrom(d: Daemon, steps: seq<Step>, lost: set<Id>)
    requires FlightOk(d) && LostInv(d, lost) && OnceEach(d) && Legal(d, steps)
    ensures OnceEach(Exec(d, steps)) <==> NeverAgain(d, steps, lost)
    decreases |steps|
  {
    if steps != [] {
      hide Apply, Enabled, FlightOk, LostInv, OnceEach, Again, Lost;
      HandKeepsOnce(d, steps[0], lost);
      if Again(d, steps[0], lost) {
        TwiceStaysTwice(Apply(d, steps[0]), steps[1..]);
      } else {
        FlightStep(d, steps[0]);
        LostKept(d, steps[0], lost);
        AtMostOnceFrom(Apply(d, steps[0]), steps[1..], Lost(d, steps[0], lost));
      }
    }
  }

  /** In every run, with crashes and resolutions the store loses anywhere: no
      prompt reaches its runtime twice exactly when none whose resolution was lost
      is handed over again before a resolution of it commits, its desk's queue is
      failed, or a recovery finds it attempted. */
  lemma AtMostOnceExactly(start: Daemon, steps: seq<Step>)
    requires Starts(start) && Legal(start, steps)
    ensures OnceEach(Exec(start, steps)) <==> NeverAgain(start, steps, {})
  {
    AtMostOnceFrom(start, steps, {});
  }

  /** Nothing hands a row over once it no longer waits. */
  lemma {:induction false} NotHandedAgain(d: Daemon, steps: seq<Step>, id: Id)
    requires FlightOk(d) && id in d.table && d.table[id].status != Queued && Legal(d, steps)
    ensures d.ledger <= Exec(d, steps).ledger
    ensures forall i :: |d.ledger| <= i < |Exec(d, steps).ledger| ==> Exec(d, steps).ledger[i].id != id
    decreases |steps|
  {
    if steps != [] {
      StepFreezes(d, steps[0]);
      var e := Apply(d, steps[0]);
      assert d.ledger <= e.ledger && forall i :: |d.ledger| <= i < |e.ledger| ==> e.ledger[i].id != id;
      FlightStep(d, steps[0]);
      hide Apply, Enabled, FlightOk;
      NotHandedAgain(e, steps[1..], id);
    }
  }

  /** Every way to go on hands the row over to no runtime again. */
  ghost predicate HandedForGood(d: Daemon, id: Id) {
    forall more :: Legal(d, more) ==>
      forall i :: |d.ledger| <= i < |Exec(d, more).ledger| ==>
        !(Exec(d, more).ledger[i].id == id && Reached(Exec(d, more).ledger[i]))
  }

  /** So the one commit decides: once a runtime has taken a row, it is never
      handed over again, however the run goes on, exactly when its resolution
      commits, whatever was queued ahead of it meanwhile. */
  lemma SettleDecides(d: Daemon, committed: bool)
    requires FlightOk(d) && d.flight.Some? && d.flight.value.Answered? && d.flight.value.outcome != Waiting
    ensures HandedForGood(Apply(d, Settle(committed)), d.flight.value.id) <==> committed
  {
    var f := d.flight.value;
    var e := Apply(d, Settle(committed));
    FlightStep(d, Settle(committed));
    if committed {
      assert e.table[f.id].status != Queued;
      forall more | Legal(e, more)
        ensures forall i :: |e.ledger| <= i < |Exec(e, more).ledger| ==> Exec(e, more).ledger[i].id != f.id
      {
        NotHandedAgain(e, more, f.id);
      }
    } else {
      var more := HandedInTurn(e, f.desk, f.id);
    }
  }

  lemma Then(d: Daemon, step: Step, rest: seq<Step>)
    requires Enabled(d, step) && Legal(Apply(d, step), rest)
    ensures Legal(d, [step] + rest) && Exec(d, [step] + rest) == Exec(Apply(d, step), rest)
  {
    hide Apply, Enabled;
    assert ([step] + rest)[1..] == rest;
  }

  lemma HeadServed(d: Daemon, desk: Desk, head: Id) returns (e: Daemon)
    requires d.flight.None? && IsHead(d.table, desk, head)
    ensures e.flight.None? && |e.ledger| == |d.ledger| + 1 && d.ledger <= e.ledger
    ensures e.ledger[|d.ledger|].id == head && Reached(e.ledger[|d.ledger|])
    ensures forall id :: Waits(e.table, desk, id) <==> Waits(d.table, desk, id) && id != head
    ensures forall rest :: Legal(e, rest) ==>
              Legal(d, [Attempt(head, desk, true)] + ([Hand(Done)] + ([Settle(true)] + rest)))
              && Exec(d, [Attempt(head, desk, true)] + ([Hand(Done)] + ([Settle(true)] + rest))) == Exec(e, rest)
  {
    hide IsHead, Undisclosed;
    HeadWaits(d.table, desk, head);
    var d1 := Apply(d, Attempt(head, desk, true));
    var d2 := Apply(d1, Hand(Done));
    e := Apply(d2, Settle(true));
    forall rest | Legal(e, rest)
      ensures Legal(d, [Attempt(head, desk, true)] + ([Hand(Done)] + ([Settle(true)] + rest)))
      ensures Exec(d, [Attempt(head, desk, true)] + ([Hand(Done)] + ([Settle(true)] + rest))) == Exec(e, rest)
    {
      Then(d2, Settle(true), rest);
      Then(d1, Hand(Done), [Settle(true)] + rest);
      Then(d, Attempt(head, desk, true), [Hand(Done)] + ([Settle(true)] + rest));
    }
  }

  /** Serving heads in turn comes to any row that waits. */
  lemma {:induction false} HandedInTurn(d: Daemon, desk: Desk, id: Id) returns (more: seq<Step>)
    requires d.flight.None? && Waits(d.table, desk, id)
    ensures Legal(d, more) && !HandedForGood(d, id)
    decreases set k | k in d.table && Waits(d.table, desk, k)
  {
    HeadExists(d.table, desk, id);
    var head :| IsHead(d.table, desk, head);
    var e := HeadServed(d, desk, head);
    HeadWaits(d.table, desk, head);
    var rest: seq<Step> := [];
    assert (set k | k in e.table && Waits(e.table, desk, k))
        == (set k | k in d.table && Waits(d.table, desk, k)) - {head};
    hide IsHead, Waits;
    if head != id {
      rest := HandedInTurn(e, desk, id);
    }
    more := [Attempt(head, desk, true)] + ([Hand(Done)] + ([Settle(true)] + rest));
  }

  /** From an empty store: a prompt is inserted, attempted and taken. */
  lemma FirstHandoff(id: Id, desk: Desk, createdAt: int)
    ensures var steps := [Insert(id, desk, Other, createdAt), Attempt(id, desk, true), Hand(Done)];
            && Starts(EMPTY) && Legal(EMPTY, steps)
            && var d := Exec(EMPTY, steps);
               && FlightOk(d) && IsHead(d.table, desk, id)
               && d.flight == Some(Answered(id, desk, {}, Done))
  {
    var s1, s2, s3 := Insert(id, desk, Other, createdAt), Attempt(id, desk, true), Hand(Done);
    var d1 := Apply(EMPTY, s1);
    assert d1.table == map[id := NewRow(desk, Other, createdAt)] && IsHead(d1.table, desk, id);
    var d2 := Apply(d1, s2);
    var d3 := Apply(d2, s3);
    assert FlightOk(d3) && IsHead(d3.table, desk, id) && d3.flight == Some(Answered(id, desk, {}, Done));
    assert [s1, s2, s3][1..] == [s2, s3] && [s2, s3][1..] == [s3] && [s3][1..] == [];
    hide IsHead, Undisclosed, FlightOk;
    assert Legal(d2, [s3]) && Exec(d2, [s3]) == d3;
    assert Legal(d1, [s2, s3]) && Exec(d1, [s2, s3]) == d3;
  }

  /** A row leaves the queue once: whatever its state is when it stops waiting,
      it keeps through every later step, committed or not. */
  lemma {:induction false} NeverWaitsAgain(d: Daemon, steps: seq<Step>)
    requires FlightOk(d) && Legal(d, steps)
    ensures Frozen(d.table, Exec(d, steps).table)
    decreases |steps|
  {
    if steps != [] {
      hide Apply, Enabled, FlightOk;
      FlightStep(d, steps[0]);
      StepFreezes(d, steps[0]);
      NeverWaitsAgain(Apply(d, steps[0]), steps[1..]);
    }
  }

  /** Why the condition: from any state whose handoff reached the runtime, a
      resolution the store fails lets the same prompt be handed over again at
      once, as soon as it still heads its queue. */
  lemma LostResolutionHandsOverTwice(d: Daemon, read: bool, again: Outcome)
    requires FlightOk(d) && d.flight.Some? && d.flight.value.Answered? && d.flight.value.outcome != Waiting
    requires IsHead(d.table, d.flight.value.desk, d.flight.value.id)
    ensures var f := d.flight.value;
            var steps := [Settle(false), Attempt(f.id, f.desk, read), Hand(again)];
            && Legal(d, steps)
            && var e := Exec(d, steps);
               |e.ledger| == |d.ledger| + 1 && e.ledger[|d.ledger| - 1].id == e.ledger[|d.ledger|].id == f.id
               && Reached(e.ledger[|d.ledger| - 1])
  {
    var f := d.flight.value;
    var s1, s2, s3 := Settle(false), Attempt(f.id, f.desk, read), Hand(again);
    var d1 := Apply(d, s1);
    var d2 := Apply(d1, s2);
    var d3 := Apply(d2, s3);
    hide IsHead, Undisclosed;
    assert [s1, s2, s3] == [s1] + ([s2] + ([s3] + []));
    Then(d2, s3, []);
    Then(d1, s2, [s3] + []);
    Then(d, s1, [s2] + ([s3] + []));
  }

  // ---------------------------------------------------------------------
  // What becomes of a row
  // ---------------------------------------------------------------------

  /** The step resolves the row: its resolution commits. */
  predicate Resolves(d: Daemon, step: Step, id: Id) {
    step == Settle(true) && d.flight.Some? && d.flight.value.Answered? && d.flight.value.id == id
    && d.flight.value.outcome != Waiting
  }

  /** A row that is there stops waiting just when its resolution commits, with what
      the adapter answered, when its desk's queue is failed, with that code, or when
      a recovery finds it attempted, as handed over for all it knows; otherwise it
      stays as it is, but for its attempt and its disclosure. */
  lemma WhatBecomesOf(d: Daemon, step: Step, id: Id)
    requires FlightOk(d) && Enabled(d, step) && id in d.table
    ensures id in Apply(d, step).table
    ensures var row, next := d.table[id], Apply(d, step).table[id];
            && next.desk == row.desk && next.kind == row.kind && next.createdAt == row.createdAt
            && next.status == (if row.status != Queued then row.status
                               else if Resolves(d, step, id) then
                                 match d.flight.value.outcome
                                 case Done => Delivered
                                 case Refused => Failed(DeliveryRefused)
                                 case NoChannel => Failed(ChannelUnavailable)
                                 case _ => Failed(HandoffUnknown)
                               else if step.FailAll? && step.desk == row.desk then Failed(step.code)
                               else if step.Crash? && row.attempted then Failed(HandoffUnknown)
                               else Queued)
            && (row.status == Queued && next.status == Queued ==>
                  next.attempted == (if step.Attempt? && step.id == id then true
                                     else if step == Settle(true) && InFlight(d, id) then false
                                     else row.attempted))
            && (next.disclosed <==>
                  || row.disclosed
                  || (step == Settle(true) && d.flight.value.outcome == Done && id in d.flight.value.named))
  {
    hide IsHead, HeadInstant, Undisclosed;
  }

  predicate InFlight(d: Daemon, id: Id) {
    d.flight.Some? && d.flight.value.id == id
  }

  /** And the rows a step adds all wait, unattempted and undisclosed: what a
      producer inserts, and, of a new session, a disclosure when a failure of the
      desk is not disclosed, and an orientation. */
  lemma WhatAStepAdds(d: Daemon, step: Step, id: Id)
    requires Enabled(d, step) && id !in d.table
    ensures var t := Apply(d, step).table;
            && (id in t <==>
                  || (step.Insert? && step.id == id)
                  || (step.NewSession? && step.orientation == id)
                  || (step.NewSession? && step.disclosure == id
                      && exists f :: f in d.table && d.table[f].desk == step.desk && d.table[f].status.Failed?
                                     && !d.table[f].disclosed))
            && (id in t ==>
                  && t[id].desk == step.desk && t[id].status == Queued && !t[id].attempted && !t[id].disclosed
                  && t[id].kind == (if step.Insert? then step.kind
                                    else if id == step.orientation then Orientation else Disclosure)
                  && (step.Insert? ==> t[id].createdAt == step.createdAt))
  {
    hide IsHead, HeadInstant;
    if step.NewSession? {
      OwesDisclosure(d.table, step.desk);
    }
    hide Undisclosed;
  }

  lemma OwesDisclosure(t: Table, desk: Desk)
    ensures Undisclosed(t, desk) != {} <==>
              exists f :: f in t && t[f].desk == desk && t[f].status.Failed? && !t[f].disclosed
  {
    if f :| f in t && t[f].desk == desk && t[f].status.Failed? && !t[f].disclosed {
      assert f in Undisclosed(t, desk);
    }
    if Undisclosed(t, desk) != {} {
      var f :| f in Undisclosed(t, desk);
    }
  }

  // ---------------------------------------------------------------------
  // What a recovery takes for handed over
  // ---------------------------------------------------------------------

  /** The rows whose resolving or clearing unit the store lost: until one of
      theirs commits, or the desk's queue is failed, or a recovery takes them. */
  function Unrecorded(d: Daemon, step: Step, ids: set<Id>): set<Id>
    requires Enabled(d, step)
  {
    match step
    case Settle(committed) => if committed then ids - {d.flight.value.id} else ids + {d.flight.value.id}
    case FailAll(desk, _) => set id | id in ids && !(id in d.table && d.table[id].desk == desk)
    case Crash => {}
    case _ => ids
  }

  function UnrecordedAfter(d: Daemon, steps: seq<Step>, ids: set<Id>): set<Id>
    requires Legal(d, steps)
    decreases |steps|
  {
    if steps == [] then ids else UnrecordedAfter(Apply(d, steps[0]), steps[1..], Unrecorded(d, steps[0], ids))
  }

  /** The waiting rows that carry an attempt are the one in flight and those. */
  ghost predicate AttemptsAre(d: Daemon, ids: set<Id>) {
    && FlightOk(d)
    && (forall id :: id in ids ==> id in d.table && d.table[id].status == Queued)
    && forall id :: id in d.table && d.table[id].status == Queued ==>
         (d.table[id].attempted <==> InFlight(d, id) || id in ids)
  }

  lemma AttemptsStep(d: Daemon, step: Step, ids: set<Id>)
    requires AttemptsAre(d, ids) && Enabled(d, step)
    ensures AttemptsAre(Apply(d, step), Unrecorded(d, step, ids))
  {
    FlightStep(d, step);
    FlightAfter(d, step);
    if d.flight.Some? { FlightWaits(d); }
    hide Apply, IsHead, FlightOk;
    var e, after := Apply(d, step), Unrecorded(d, step, ids);
    forall id
      ensures id in after ==> id in e.table && e.table[id].status == Queued
      ensures id in e.table && e.table[id].status == Queued ==>
                (e.table[id].attempted <==> InFlight(e, id) || id in after)
    {
      if id in d.table {
        WhatBecomesOf(d, step, id);
      } else {
        WhatAStepAdds(d, step, id);
      }
    }
  }

  /** What is in flight is what was attempted last, until it is resolved or the
      daemon goes. */
  lemma FlightAfter(d: Daemon, step: Step)
    requires FlightOk(d) && Enabled(d, step)
    ensures var e := Apply(d, step);
            && (e.flight.Some? <==> step.Attempt? || (d.flight.Some? && !step.Settle? && !step.Crash?))
            && (e.flight.Some? ==> e.flight.value.id == (if step.Attempt? then step.id else d.flight.value.id))
            && (step.Attempt? ==> d.flight.None? && step.id in d.table && d.table[step.id].status == Queued)
            && (step.FailAll? && d.flight.Some? ==> d.flight.value.desk != step.desk)
            && (step.Settle? ==> d.flight.Some?)
  {
    hide IsHead;
    if step.Attempt? { HeadWaits(d.table, step.desk, step.id); }
  }

  lemma FlightWaits(d: Daemon)
    requires FlightOk(d) && d.flight.Some?
    ensures d.flight.value.id in d.table && d.table[d.flight.value.id].status == Queued
    ensures d.table[d.flight.value.id].desk == d.flight.value.desk
  {
  }

  lemma {:induction false} AttemptsThroughout(d: Daemon, steps: seq<Step>, ids: set<Id>)
    requires AttemptsAre(d, ids) && Legal(d, steps)
    ensures AttemptsAre(Exec(d, steps), UnrecordedAfter(d, steps, ids))
    decreases |steps|
  {
    if steps != [] {
      hide Apply, Enabled, AttemptsAre, Unrecorded;
      AttemptsStep(d, steps[0], ids);
      AttemptsThroughout(Apply(d, steps[0]), steps[1..], Unrecorded(d, steps[0], ids));
    }
  }

  /** No row that waits carries an attempt, as after a recovery. */
  ghost predicate Recovered(d: Daemon) {
    d.flight.None? && forall id :: id in d.table && d.table[id].status == Queued ==> !d.table[id].attempted
  }

  /** In every run a waiting row carries an attempt exactly while it is in flight
      or its last resolution, or the clearing of its wait, was lost: so a crash
      fails exactly those rows, as handed over for all it knows, and every other
      row keeps its state; what waits then can still be handed over. */
  lemma CrashTakesExactly(start: Daemon, steps: seq<Step>, id: Id)
    requires Recovered(start) && Legal(start, steps) && id in Exec(start, steps).table
    ensures var d, lost := Exec(start, steps), UnrecordedAfter(start, steps, {});
            var e := Apply(d, Crash);
            && e.table.Keys == d.table.Keys && e.flight.None? && e.ledger == d.ledger && Recovered(e)
            && e.table[id] == (if InFlight(d, id) || id in lost then
                                 d.table[id].(status := Failed(HandoffUnknown))
                               else d.table[id])
            && (e.table[id].status == Queued ==> !HandedForGood(e, id))
  {
    AttemptsThroughout(start, steps, {});
    var d, lost := Exec(start, steps), UnrecordedAfter(start, steps, {});
    var e := Apply(d, Crash);
    hide HandedForGood, IsHead;
    assert InFlight(d, id) ==> d.table[id].status == Queued by {
      if d.flight.Some? { FlightWaits(d); }
    }
    if e.table[id].status == Queued {
      var more := HandedInTurn(e, e.table[id].desk, id);
    }
  }

  lemma {:induction false} NothingUnrecorded(d: Daemon, steps: seq<Step>)
    requires Legal(d, steps) && Commits(steps)
    ensures UnrecordedAfter(d, steps, {}) == {}
    decreases |steps|
  {
    if steps != [] {
      assert forall k :: 0 <= k < |steps[1..]| ==> steps[1..][k] == steps[k + 1];
      assert Unrecorded(d, steps[0], {}) == {};
      hide Apply, Enabled, Unrecorded;
      NothingUnrecorded(Apply(d, steps[0]), steps[1..]);
    }
  }

  /** In particular a wait is never taken for a handoff while those units commit:
      nothing but the row in flight carries an attempt, and a crash fails it
      alone. */
  lemma WaitIsNoHandoff(start: Daemon, steps: seq<Step>, id: Id)
    requires Recovered(start) && Legal(start, steps) && Commits(steps) && id in Exec(start, steps).table
    ensures var d := Exec(start, steps);
            && (d.table[id].status == Queued ==> (d.table[id].attempted <==> InFlight(d, id)))
            && (!InFlight(d, id) ==> Apply(d, Crash).table[id] == d.table[id])
  {
    AttemptsThroughout(start, steps, {});
    NothingUnrecorded(start, steps);
    CrashTakesExactly(start, steps, id);
    hide HandedForGood;
  }

  // ---------------------------------------------------------------------
  // What is disclosed
  // ---------------------------------------------------------------------

  /** The handoff a step records as delivered, if it does. */
  function RecordedBy(d: Daemon, step: Step): seq<Handoff>
    requires Enabled(d, step)
  {
    if step == Settle(true) && d.flight.value.outcome == Done then
      [Handoff(d.flight.value.id, Done, d.flight.value.named)]
    else []
  }

  /** The deliveries a run records, in order. */
  function Recorded(d: Daemon, steps: seq<Step>): seq<Handoff>
    requires Legal(d, steps)
    decreases |steps|
  {
    if steps == [] then [] else RecordedBy(d, steps[0]) + Recorded(Apply(d, steps[0]), steps[1..])
  }

  predicate Marked(d: Daemon, id: Id) {
    id in d.table && d.table[id].disclosed
  }

  predicate IsDelivered(d: Daemon, id: Id) {
    id in d.table && d.table[id].status == Delivered
  }

  ghost predicate MarkedFailed(d: Daemon) {
    forall id :: Marked(d, id) ==> d.table[id].status.Failed?
  }

  predicate Named(told: seq<Handoff>, id: Id) {
    exists k :: 0 <= k < |told| && id in told[k].named
  }

  predicate Told(told: seq<Handoff>, id: Id) {
    exists k :: 0 <= k < |told| && told[k].id == id
  }

  /** From `d` to `e` just what is told was marked and delivered, each once. */
  ghost predicate Accounted(d: Daemon, e: Daemon, told: seq<Handoff>) {
    && (forall id :: Marked(e, id) <==> Marked(d, id) || Named(told, id))
    && (forall id :: IsDelivered(e, id) <==> IsDelivered(d, id) || Told(told, id))
    && (forall id :: !(Marked(d, id) && Named(told, id)) && !(IsDelivered(d, id) && Told(told, id)))
    && (forall i, j :: 0 <= i < j < |told| ==> told[i].named !! told[j].named && told[i].id != told[j].id)
    && d.ledger <= e.ledger && forall k :: 0 <= k < |told| ==> told[k] in e.ledger && told[k].outcome == Done
  }

  lemma SettleRecords(d: Daemon, committed: bool)
    requires FlightOk(d) && Enabled(d, Settle(committed))
    ensures var e, told := Apply(d, Settle(committed)), RecordedBy(d, Settle(committed));
            && (told != [] ==> told[0] in d.ledger && told[0].named <= Undisclosed(d.table, d.flight.value.desk)
                               && Waits(d.table, d.flight.value.desk, told[0].id))
            && (forall id :: Marked(e, id) <==> Marked(d, id) || (told != [] && id in told[0].named))
            && (forall id :: IsDelivered(e, id) <==> IsDelivered(d, id) || (told != [] && id == told[0].id))
  {
  }

  lemma OthersRecordNothing(d: Daemon, step: Step)
    requires Enabled(d, step) && !step.Settle? && FlightOk(d)
    ensures var e := Apply(d, step);
            && (forall id :: Marked(e, id) <==> Marked(d, id))
            && (forall id :: IsDelivered(e, id) <==> IsDelivered(d, id))
  {
    hide IsHead, HeadInstant, Undisclosed;
  }

  lemma AccountedStep(d: Daemon, step: Step)
    requires FlightOk(d) && MarkedFailed(d) && Enabled(d, step)
    ensures MarkedFailed(Apply(d, step)) && Accounted(d, Apply(d, step), RecordedBy(d, step))
  {
    var e, told := Apply(d, step), RecordedBy(d, step);
    assert MarkedFailed(e) by { MarkedStaysFailed(d, step); }
    assert d.ledger <= e.ledger;
    if step.Settle? {
      SettleRecords(d, step.committed);
    } else {
      OthersRecordNothing(d, step);
    }
    hide Apply, Enabled, FlightOk, MarkedFailed;
    if told != [] {
      assert forall id :: Named(told, id) <==> id in told[0].named;
      assert forall id :: Told(told, id) <==> id == told[0].id;
    }
  }

  lemma MarkedStaysFailed(d: Daemon, step: Step)
    requires FlightOk(d) && MarkedFailed(d) && Enabled(d, step)
    ensures MarkedFailed(Apply(d, step))
  {
    hide IsHead, HeadInstant;
    StepFreezes(d, step);
    if step.Settle? {
      SettleRecords(d, step.committed);
    } else {
      OthersRecordNothing(d, step);
    }
    hide Apply;
    assert step.Settle? && RecordedBy(d, step) != [] ==>
        forall id :: id in RecordedBy(d, step)[0].named ==> d.table[id].status.Failed?;
  }

  lemma AccountedThen(d: Daemon, e: Daemon, x: Daemon, told: seq<Handoff>, more: seq<Handoff>)
    requires Accounted(d, e, told) && Accounted(e, x, more)
    ensures Accounted(d, x, told + more)
  {
    hide Marked, IsDelivered;
    var all := told + more;
    forall id
      ensures Named(all, id) <==> Named(told, id) || Named(more, id)
      ensures Told(all, id) <==> Told(told, id) || Told(more, id)
    {
      assert forall k :: 0 <= k < |told| ==> all[k] == told[k];
      assert forall k :: 0 <= k < |more| ==> all[|told| + k] == more[k];
    }
    forall i, j | 0 <= i < j < |all|
      ensures all[i].named !! all[j].named && all[i].id != all[j].id
    {
      if i < |told| <= j {
        assert forall id :: id in told[i].named ==> Named(told, id) && Marked(e, id);
        assert forall id :: id in more[j - |told|].named ==> Named(more, id);
        assert Told(told, told[i].id) && Told(more, more[j - |told|].id);
      }
    }
  }

  lemma {:induction false} RunAccounts(d: Daemon, steps: seq<Step>)
    requires FlightOk(d) && MarkedFailed(d) && Legal(d, steps)
    ensures MarkedFailed(Exec(d, steps)) && Accounted(d, Exec(d, steps), Recorded(d, steps))
    decreases |steps|
  {
    if steps != [] {
      hide Apply, Enabled, FlightOk, MarkedFailed, Accounted, RecordedBy;
      FlightStep(d, steps[0]);
      AccountedStep(d, steps[0]);
      var e := Apply(d, steps[0]);
      RunAccounts(e, steps[1..]);
      AccountedThen(d, e, Exec(e, steps[1..]), RecordedBy(d, steps[0]), Recorded(e, steps[1..]));
    }
  }

  /** A desk's failures that no recorded delivery names. */
  function Owed(t: Table, desk: Desk, told: seq<Handoff>): set<Id> {
    set id | id in t && t[id].desk == desk && t[id].status.Failed? && !Named(told, id)
  }

  /** What the recorded deliveries say of the rows: a row is marked disclosed
      exactly when one of them named it, and no two name the same row or are of
      the same row; what a desk has still to disclose are exactly its failures
      none of them named, and a disclosure attempted next names exactly those, or
      nothing when they could not be read. Each was really handed over. */
  ghost predicate Disclosing(d: Daemon, told: seq<Handoff>) {
    && (forall id :: Marked(d, id) <==> Named(told, id))
    && (forall i, j :: 0 <= i < j < |told| ==> told[i].named !! told[j].named && told[i].id != told[j].id)
    && (forall desk :: Undisclosed(d.table, desk) == Owed(d.table, desk, told))
    && (forall k :: 0 <= k < |told| ==> told[k] in d.ledger && told[k].outcome == Done && IsDelivered(d, told[k].id))
    && (forall id, desk, read :: Enabled(d, Attempt(id, desk, read)) && d.table[id].kind == Disclosure ==>
          Apply(d, Attempt(id, desk, read)).flight.value.named == if read then Owed(d.table, desk, told) else {})
  }

  /** Disclosure accounting over every run, with crashes, reads that fail and
      resolutions the store loses anywhere. */
  lemma DisclosureAccounting(start: Daemon, steps: seq<Step>)
    requires Starts(start) && Legal(start, steps)
    ensures Disclosing(Exec(start, steps), Recorded(start, steps))
  {
    RunAccounts(start, steps);
    var d, told := Exec(start, steps), Recorded(start, steps);
    hide IsHead, FlightOk;
    assert forall id :: !Marked(start, id);
    hide Starts, Recorded, Exec, Legal;
    forall desk
      ensures Undisclosed(d.table, desk) == Owed(d.table, desk, told)
    {
      assert forall id :: id in d.table ==> (d.table[id].disclosed <==> Marked(d, id));
    }
    NextNames(d, told);
    assert forall k :: 0 <= k < |told| ==> Told(told, told[k].id);
  }

  lemma NextNames(d: Daemon, told: seq<Handoff>)
    requires forall desk :: Undisclosed(d.table, desk) == Owed(d.table, desk, told)
    ensures forall id, desk, read :: Enabled(d, Attempt(id, desk, read)) && d.table[id].kind == Disclosure ==>
              Apply(d, Attempt(id, desk, read)).flight.value.named == if read then Owed(d.table, desk, told) else {}
  {
    hide IsHead, Undisclosed, Owed;
  }

  /** A row is delivered exactly when it was before the run or the run records
      its delivery. */
  lemma DeliveredExactly(start: Daemon, steps: seq<Step>, id: Id)
    requires Starts(start) && Legal(start, steps)
    ensures IsDelivered(Exec(start, steps), id) <==> IsDelivered(start, id) || Told(Recorded(start, steps), id)
  {
    RunAccounts(start, steps);
  }
}
