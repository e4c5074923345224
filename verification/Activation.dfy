/** The dispatcher as the object that owns the maps and the table. `Activate`,
    `Handle` and `Ended` call one another: an activation drains what its child
    reported meanwhile, and an exit among that may activate once more. What a
    spawn answers and reports, and what the store commits, is arbitrary. `trace`
    is the run of the delivery state machine the object has made so far.
 */
module Activation {
  import opened Options
  import opened Prompts
  import D = Dispatch

  type Session = nat

  datatype Mode = Auto | Continue | New

  /** What an adapter reports of a desk. */
  datatype Event = Ready | Pointer(session: Session) | Attention | Exited

  /** What one activation meets: the runtime, the spawn with everything the
      child reports while it is in flight, and the store opening its row. */
  datatype Spawn = SpawnFails | Spawned(native: Option<Session>, opens: bool, reports: seq<Event>)
  datatype Env = Env(available: bool, spawn: Spawn, now: int)

  datatype Activated = Started | SessionLive | Unavailable | NoNativeSession | SpawnFailed | StoreFailed

  datatype Live = Live(process: nat, resumed: Option<Session>, explicit: bool, ready: bool, retried: bool)
  /** What had happened so far: new sessions ready, and failing units lost. */
  datatype Mark = Mark(ready: nat, lost: nat)

  datatype Process = Process(id: nat, ready: bool, native: Option<Session>)

  // ---------------------------------------------------------------------
  // The table and the ledger are those of a run
  // ---------------------------------------------------------------------

  ghost predicate IsRun(trace: seq<D.Step>, table: Table, ledger: seq<D.Handoff>) {
    D.Legal(D.EMPTY, trace) && D.Exec(D.EMPTY, trace) == D.Daemon(table, None, ledger)
  }

  lemma {:induction false} RunsConcatenate(d: D.Daemon, steps: seq<D.Step>, more: seq<D.Step>)
    requires D.Legal(d, steps) && D.Legal(D.Exec(d, steps), more)
    ensures D.Legal(d, steps + more) && D.Exec(d, steps + more) == D.Exec(D.Exec(d, steps), more)
    decreases |steps|
  {
    hide D.Apply, D.Enabled;
    if steps == [] {
      assert steps + more == more;
    } else {
      RunsConcatenate(D.Apply(d, steps[0]), steps[1..], more);
      assert (steps + more)[1..] == steps[1..] + more;
    }
  }

  lemma OneStep(d: D.Daemon, step: D.Step)
    requires D.Enabled(d, step)
    ensures D.Legal(d, [step]) && D.Exec(d, [step]) == D.Apply(d, step)
  {
    hide D.Apply, D.Enabled;
    assert [step][1..] == [];
  }

  lemma RunGoesOn(trace: seq<D.Step>, table: Table, ledger: seq<D.Handoff>, step: D.Step)
    requires IsRun(trace, table, ledger)
    requires step.Insert? || step.NewSession? || step.FailAll?
    requires D.Enabled(D.Daemon(table, None, ledger), step)
    ensures IsRun(trace + [step], D.Apply(D.Daemon(table, None, ledger), step).table, ledger)
  {
    hide IsHead;
    OneStep(D.Daemon(table, None, ledger), step);
    RunsConcatenate(D.EMPTY, trace, [step]);
  }

  /** One delivery: the attempt, the answer and its resolution. */
  function Delivery(id: Id, desk: Desk, read: bool, outcome: D.Outcome, committed: bool): seq<D.Step> {
    [D.Attempt(id, desk, read)] + ([D.Hand(outcome)] + [D.Settle(committed)])
  }

  lemma DeliveryGoesOn(trace: seq<D.Step>, table: Table, ledger: seq<D.Handoff>,
                       id: Id, desk: Desk, read: bool, outcome: D.Outcome, committed: bool)
    requires IsRun(trace, table, ledger) && IsHead(table, desk, id)
    ensures var named := D.ToDisclose(table, id, desk, read);
            var marked := MarkAttempted(table, id);
            IsRun(trace + Delivery(id, desk, read, outcome, committed),
                  if !committed then marked
                  else if outcome == D.Waiting then ClearAttempt(marked, id)
                  else Resolve(marked, id, D.StatusOf(outcome), named),
                  ledger + [D.Handoff(id, outcome, named)])
  {
    hide IsHead, D.ToDisclose, D.Exec, D.Legal, MarkAttempted, ClearAttempt, Resolve;
    var d := D.Daemon(table, None, ledger);
    assert id in table by { D.HeadWaits(table, desk, id); }
    var a, h, s := D.Attempt(id, desk, read), D.Hand(outcome), D.Settle(committed);
    var d1 := D.Apply(d, a);
    var d2 := D.Apply(d1, h);
    OneStep(d, a);
    OneStep(d1, h);
    OneStep(d2, s);
    RunsConcatenate(d1, [h], [s]);
    RunsConcatenate(d, [a], [h] + [s]);
    RunsConcatenate(D.EMPTY, trace, Delivery(id, desk, read, outcome, committed));
  }

  // ---------------------------------------------------------------------
  // What an activation does to the queue
  // ---------------------------------------------------------------------

  /** A desk's activation leaves every row alone, but may fail what waits. */
  predicate RowKept(desk: Desk, before: Row, after: Row) {
    || after == before
    || (before.desk == desk && before.status == Queued
        && after == before.(status := Failed(ActivationFailed), attempted := false))
  }

  ghost predicate RowsKept(desk: Desk, before: Table, after: Table) {
    forall id :: id in before ==> id in after && RowKept(desk, before[id], after[id])
  }

  lemma RowsStay(desk: Desk, t: Table)
    ensures RowsKept(desk, t, t)
  {
  }

  lemma RowsKeptThen(desk: Desk, t: Table, u: Table, v: Table)
    requires RowsKept(desk, t, u) && RowsKept(desk, u, v)
    ensures RowsKept(desk, t, v)
  {
  }

  lemma FailingKeepsRows(desk: Desk, t: Table)
    ensures RowsKept(desk, t, FailQueued(t, desk, ActivationFailed))
  {
  }

  lemma ActivationKeepsRows(desk: Desk, t: Table, now: int, disclosure: Id, orientation: Id)
    requires disclosure !in t && orientation !in t
    ensures RowsKept(desk, t, ActivationRows(t, desk, now, disclosure, orientation))
    ensures ActivationRows(t, desk, now, disclosure, orientation).Keys <= t.Keys + {disclosure, orientation}
  {
    hide HeadInstant, Undisclosed;
  }

  /** The thread an activation resumes: the pointer, unless a new session is
      asked for. */
  function ResumeFor(mode: Mode, pointers: map<Desk, Session>, desk: Desk): Option<Session> {
    if mode == New || desk !in pointers then None else Some(pointers[desk])
  }

  /** The table of a session just opened. */
  function Headed(t: Table, desk: Desk, resume: Option<Session>, now: int, id: nat): Table {
    if resume.None? then ActivationRows(t, desk, now, id + 1, id + 2) else t
  }

  /** What a spawn comes to. */
  function SpawnAnswer(spawn: Spawn): Activated {
    if spawn.SpawnFails? then SpawnFailed else if !spawn.opens then StoreFailed else Started
  }

  /** The queue failed with a code, unless the store lost the unit. */
  function Failing(t: Table, desk: Desk, code: Code, committed: bool): Table {
    if committed then FailQueued(t, desk, code) else t
  }

  /** Two maps agree on every other desk. */
  ghost predicate Elsewhere<T(!new)>(desk: Desk, before: map<Desk, T>, after: map<Desk, T>) {
    forall d :: d != desk ==> (d in before <==> d in after) && (d in before && d in after ==> before[d] == after[d])
  }

  lemma ElsewhereThen<T(!new)>(desk: Desk, a: map<Desk, T>, b: map<Desk, T>, c: map<Desk, T>)
    requires Elsewhere(desk, a, b) && Elsewhere(desk, b, c)
    ensures Elsewhere(desk, a, c)
  {
  }

  lemma ElsewhereSame<T(!new)>(desk: Desk, a: map<Desk, T>)
    ensures Elsewhere(desk, a, a)
  {
  }

  lemma ElsewhereSet<T(!new)>(desk: Desk, a: map<Desk, T>, v: T)
    ensures Elsewhere(desk, a, a[desk := v])
  {
  }

  lemma ElsewhereWithout<T(!new)>(desk: Desk, a: map<Desk, T>)
    ensures Elsewhere(desk, a, a - {desk})
  {
  }

  // ---------------------------------------------------------------------
  // What a session's events tell
  // ---------------------------------------------------------------------

  /** Its live entry, its process row and its desk's pointer after what it reports,
      an exit aside: readiness; and each thread, the row keeping the first. */
  datatype Standing = Standing(live: Option<Live>, process: Option<Process>, pointer: Option<Session>)

  function Hears(t: Standing, event: Event): Standing {
    match event
    case Ready =>
      Standing(if t.live.Some? then Some(t.live.value.(ready := true)) else None,
           if t.process.Some? then Some(t.process.value.(ready := true)) else None, t.pointer)
    case Pointer(session) =>
      var known := t.process.None? || t.process.value.native.Some?;
      t.(process := if known then t.process else Some(t.process.value.(native := Some(session))),
         pointer := Some(session))
    case _ => t
  }

  /** A session just opened: the thread it resumes, unless its adapter minted one,
      is the desk's. */
  function Opened(id: nat, resume: Option<Session>, explicit: bool, minted: Option<Session>,
                  pointer: Option<Session>): Standing {
    var native := if minted.Some? then minted else resume;
    Standing(Some(Live(id, resume, explicit, false, false)), Some(Process(id, false, native)),
         if native.Some? then native else pointer)
  }

  function HearsAll(t: Standing, events: seq<Event>): Standing {
    if events == [] then t else Hears(HearsAll(t, events[..|events| - 1]), events[|events| - 1])
  }

  /** A session that reports readiness is ready, one that does not is not; the
      desk's pointer is the last thread reported. */
  lemma {:induction false} HearsWhatIsSaid(t: Standing, events: seq<Event>)
    ensures var u := HearsAll(t, events);
            && (u.live.Some? <==> t.live.Some?) && (u.process.Some? <==> t.process.Some?)
            && (t.live.Some? ==> u.live.value == t.live.value.(ready := t.live.value.ready || Ready in events))
            && (t.process.Some? ==>
                  && u.process.value.id == t.process.value.id
                  && u.process.value.ready == (t.process.value.ready || Ready in events)
                  && (t.process.value.native.Some? ==> u.process.value.native == t.process.value.native)
                  && (t.process.value.native.None? ==>
                        if exists k :: 0 <= k < |events| && events[k].Pointer? then
                          exists k :: 0 <= k < |events| && events[k].Pointer?
                                      && u.process.value.native == Some(events[k].session)
                                      && forall j :: 0 <= j < k ==> !events[j].Pointer?
                        else u.process.value.native.None?))
            && (u.pointer != t.pointer ==> u.pointer.Some? && Pointer(u.pointer.value) in events)
    ensures forall k :: 0 <= k < |events| && events[k].Pointer?
                        && (forall j :: k < j < |events| ==> !events[j].Pointer?) ==>
              HearsAll(t, events).pointer == Some(events[k].session)
    decreases |events|
  {
    if events != [] {
      var before, last := events[..|events| - 1], events[|events| - 1];
      assert events == before + [last];
      HearsWhatIsSaid(t, before);
      assert forall k :: 0 <= k < |before| ==> before[k] == events[k];
      forall k | 0 <= k < |events| && events[k].Pointer? && (forall j :: k < j < |events| ==> !events[j].Pointer?)
        ensures HearsAll(t, events).pointer == Some(events[k].session)
      {
        if k < |before| {
          assert before[k].Pointer? && forall j :: k < j < |before| ==> !before[j].Pointer?;
        }
      }
    }
  }

  /** A session resumes the desk's pointer, unless it is to be new or there is none;
      just opened, it is not ready, and its thread, the one it resumes unless its
      adapter minted one, is its row's and its desk's; without one the desk's
      pointer stays. */
  lemma HowASessionOpens(mode: Mode, pointers: map<Desk, Session>, desk: Desk, id: nat, minted: Option<Session>)
    ensures var resume := ResumeFor(mode, pointers, desk);
            var s := Opened(id, resume, mode == Continue, minted, At(pointers, desk));
            && (resume.Some? <==> mode != New && desk in pointers)
            && (resume.Some? ==> resume.value == pointers[desk])
            && s.live.Some? && s.process.Some? && s.live.value.process == s.process.value.id == id
            && !s.live.value.ready && !s.process.value.ready && !s.live.value.retried
            && s.live.value.resumed == resume && (s.live.value.explicit <==> mode == Continue)
            && (minted.Some? ==> s.process.value.native == s.pointer == minted)
            && (minted.None? && resume.Some? ==> s.process.value.native == s.pointer == Some(pointers[desk]))
            && (minted.None? && resume.None? ==>
                  s.process.value.native.None?
                  && (if desk in pointers then s.pointer == Some(pointers[desk]) else s.pointer.None?))
  {
  }

  /** A new session's rows head the queue, a disclosure before the orientation when
      one is owed; a resumed one leaves it as it is. */
  lemma HowItHeadsTheQueue(t: Table, desk: Desk, resume: Option<Session>, now: int, id: nat, queue: seq<Id>)
    requires IsQueue(t, desk, queue) && id + 1 !in t && id + 2 !in t
    ensures IsQueue(Headed(t, desk, resume, now, id), desk,
                    (if resume.Some? then []
                     else (if Undisclosed(t, desk) != {} then [id + 1] else []) + [id + 2]) + queue)
    ensures resume.Some? ==> Headed(t, desk, resume, now, id) == t
  {
    if resume.None? {
      NewSessionHeadsTheQueue(t, desk, now, id + 1, id + 2, queue);
    } else {
      assert [] + queue == queue;
    }
    hide IsQueue, ActivationRows, Undisclosed;
  }

  function At<T>(m: map<Desk, T>, desk: Desk): Option<T> {
    if desk in m then Some(m[desk]) else None
  }

  class Dispatcher {
    const env: nat -> Env
    /** Whether the store commits each unit that fails a queue. */
    const commits: nat -> bool
    var table: Table
    var ledger: seq<D.Handoff>
    var process: map<Desk, Process>
    var live: map<Desk, Live>
    var activating: map<Desk, seq<Event>>
    var pointers: map<Desk, Session>
    /** How many activations consulted their environment, and how many spawned. */
    var attempts: nat
    var spawns: nat
    var nextId: nat
    /** How often a new session became ready. */
    ghost var newReady: nat
    /** How many units failing a queue there were, and how many the store lost. */
    var failUnits: nat
    ghost var lostUnits: nat
    ghost var trace: seq<D.Step>

    constructor (env: nat -> Env, commits: nat -> bool)
      ensures Valid() && trace == [] && table == map[] && ledger == [] && process == map[] && live == map[]
      ensures activating == map[] && pointers == map[] && attempts == spawns == failUnits == nextId == 0
      ensures this.env == env && this.commits == commits && newReady == lostUnits == 0
    {
      this.env, this.commits := env, commits;
      table, ledger, process, live, activating, pointers := map[], [], map[], map[], map[], map[];
      attempts, spawns, nextId, newReady, failUnits, lostUnits, trace := 0, 0, 0, 0, 0, 0, [];
    }

    ghost predicate Valid()
      reads this
    {
      && (forall id :: id in table ==> id < nextId)
      && (forall d :: d in live ==> d in process && process[d].id == live[d].process)
      && (forall d :: d in live && live[d].retried ==> live[d].resumed.None?)
      && IsRun(trace, table, ledger)
    }

    /** Whether a desk's session could still be replaced by one more spawn: a
        resume, not asked for explicitly, not yet retried. */
    ghost function Rank(desk: Desk): nat
      reads this
    {
      if desk in live && live[desk].resumed.Some? && !live[desk].explicit && !live[desk].retried then 1 else 0
    }

    ghost function StandingOf(desk: Desk): Standing
      reads this
    {
      Standing(At(live, desk), At(process, desk), At(pointers, desk))
    }

    /** A desk's session is the one it was, or opened since. */
    twostate predicate SameOrNewer(desk: Desk)
      reads this
    {
      && nextId >= old(nextId)
      && (desk in live ==>
            || (desk in old(live) && live[desk].process == old(live)[desk].process)
            || live[desk].process >= old(nextId))
    }

    ghost function Marks(): Mark
      reads this
    {
      Mark(newReady, lostUnits)
    }

    /** Activation is over for the desk: a new session runs, or one became ready
        since, or nothing of its queue waits, or the store lost the unit that was
        to fail it, which is only logged. */
    ghost predicate Concluded(desk: Desk, since: Mark)
      reads this
    {
      || (desk in live && live[desk].resumed.None?)
      || newReady > since.ready
      || lostUnits > since.lost
      || forall id :: !Waits(table, desk, id)
    }

    /** The desk is past its resume: only a new session can be live. */
    ghost predicate Renewed(desk: Desk, since: Mark)
      reads this
    {
      && since.ready <= newReady && since.lost <= lostUnits && Concluded(desk, since)
      && (desk in live ==> live[desk].resumed.None? && (live[desk].ready ==> newReady > since.ready))
    }

    /** Nothing of any other desk changes, nothing is handed over, and no row
        changes but one that fails waiting. */
    twostate predicate OthersKeep(desk: Desk)
      reads this
    {
      && Elsewhere(desk, old(live), live)
      && Elsewhere(desk, old(process), process)
      && Elsewhere(desk, old(pointers), pointers)
      && Elsewhere(desk, old(activating), activating)
      && ledger == old(ledger) && newReady >= old(newReady) && lostUnits >= old(lostUnits) && spawns >= old(spawns)
      && RowsKept(desk, old(table), table)
    }

    /** `activate`: nothing but a started session leaves a mark, and a new
        session's activation spawns once, whatever its child reports meanwhile. */
    method Activate(desk: Desk, mode: Mode) returns (r: Activated)
      requires Valid() && desk !in activating
      modifies this
      ensures Valid() && desk !in activating && OthersKeep(desk)
      ensures r == SessionLive <==> desk in old(process)
      ensures r == Unavailable <==> desk !in old(process) && !env(old(attempts)).available
      ensures r == NoNativeSession <==>
                desk !in old(process) && env(old(attempts)).available && mode == Continue && desk !in old(pointers)
      ensures r != Started ==>
                live == old(live) && table == old(table) && process == old(process) && pointers == old(pointers)
                && failUnits == old(failUnits)
      ensures r != Started ==> spawns <= old(spawns) + 1 && (r == SessionLive ==> spawns == old(spawns))
      ensures r in {SpawnFailed, StoreFailed, Started} ==> r == SpawnAnswer(env(old(attempts)).spawn)
      ensures r == Started ==> spawns > old(spawns)
      ensures r == Started ==> spawns + Rank(desk) <= old(spawns) + (if mode == Auto then 2 else 1)
      ensures r == Started && mode == New ==> Renewed(desk, old(Marks()))
      ensures SameOrNewer(desk)
      ensures r == Started && env(old(attempts)).spawn.Spawned? && Exited !in env(old(attempts)).spawn.reports ==>
                var e, resume := env(old(attempts)), ResumeFor(mode, old(pointers), desk);
                && StandingOf(desk) == HearsAll(Opened(old(nextId), resume, mode == Continue, e.spawn.native,
                                                       At(old(pointers), desk)), e.spawn.reports)
                && table == Headed(old(table), desk, resume, e.now, old(nextId))
      decreases if mode == New then 0 else 1, 6
    {
      hide IsRun, RowsKept, Waits, Headed;
      RowsStay(desk, table);
      if desk in process {
        return SessionLive;
      }
      var e := env(attempts);
      attempts := attempts + 1;
      if !e.available {
        return Unavailable;
      }
      var resume: Option<Session> := None;
      if mode != New {
        if desk in pointers {
          resume := Some(pointers[desk]);
        } else if mode == Continue {
          return NoNativeSession;
        }
      }
      r := Launch(desk, resume, mode == Continue, e);
    }

    /** The spawn, the window in which its child's events are held, and, once the
        row is open, what they were. */
    method Launch(desk: Desk, resume: Option<Session>, explicit: bool, e: Env) returns (r: Activated)
      requires Valid() && desk !in activating && desk !in process
      modifies this
      ensures Valid() && desk !in activating && OthersKeep(desk)
      ensures r == SpawnAnswer(e.spawn)
      ensures r != Started ==>
                live == old(live) && table == old(table) && process == old(process) && pointers == old(pointers)
                && failUnits == old(failUnits)
      ensures r != Started ==> spawns == old(spawns) + 1
      ensures r == Started ==> spawns > old(spawns)
      ensures r == Started ==> spawns + Rank(desk) <= old(spawns) + (if resume.None? || explicit then 1 else 2)
      ensures r == Started && resume.None? ==> Renewed(desk, old(Marks()))
      ensures SameOrNewer(desk)
      ensures r == Started && e.spawn.Spawned? && Exited !in e.spawn.reports ==>
                && StandingOf(desk) == HearsAll(Opened(old(nextId), resume, explicit, e.spawn.native,
                                                       At(old(pointers), desk)), e.spawn.reports)
                && table == Headed(old(table), desk, resume, e.now, old(nextId))
      decreases if resume.None? then 0 else 1, 5
    {
      hide IsRun, RowsKept, Waits, Concluded, Renewed, Rank, Headed;
      RowsStay(desk, table);
      r := Spawns(desk, e);
      if r == Started {
        Begin(desk, resume, e.spawn.native, explicit, e.now);
      }
    }

    /** The spawn itself: what the child reports before its row exists is held,
        and dropped when there is to be none. */
    method Spawns(desk: Desk, e: Env) returns (r: Activated)
      requires desk !in activating
      modifies this`activating, this`spawns
      ensures spawns == old(spawns) + 1
      ensures r == SpawnAnswer(e.spawn)
      ensures activating == if r == Started then old(activating)[desk := e.spawn.reports] else old(activating)
    {
      activating := activating[desk := []];
      spawns := spawns + 1;
      if e.spawn.SpawnFails? {
        var dropped := Buffered(desk);
        return SpawnFailed;
      }
      activating := activating[desk := activating[desk] + e.spawn.reports];
      if !e.spawn.opens {
        var dropped := Buffered(desk);
        return StoreFailed;
      }
      assert activating[desk] == e.spawn.reports;
      r := Started;
    }

    /** The session's row and live entry; the window closes, and whatever arrived
        inside it is handled. */
    method Begin(desk: Desk, resume: Option<Session>, spawned: Option<Session>, explicit: bool, now: int)
      requires Valid() && desk in activating && desk !in process
      modifies this
      ensures Valid() && desk !in activating && OthersKeep(desk)
      ensures spawns + Rank(desk) <= old(spawns) + (if resume.None? || explicit then 0 else 1)
      ensures resume.None? ==> Renewed(desk, old(Marks()))
      ensures SameOrNewer(desk)
      ensures Exited !in old(activating)[desk] ==>
                && StandingOf(desk) == HearsAll(Opened(old(nextId), resume, explicit, spawned,
                                                       At(old(pointers), desk)), old(activating)[desk])
                && table == Headed(old(table), desk, resume, now, old(nextId))
      decreases if resume.None? then 0 else 1, 4
    {
      hide IsRun, RowsKept, Waits, Headed, Elsewhere;
      Open(desk, resume, spawned, explicit, now);
      ElsewhereSet(desk, old(live), live[desk]);
      ElsewhereSet(desk, old(process), process[desk]);
      ElsewhereWithout(desk, activating);
      var held := Buffered(desk);
      label Opened:
      Drain(desk, held, old(Marks()));
      RowsKeptThen(desk, old(table), old@Opened(table), table);
      ElsewhereThen(desk, old(live), old@Opened(live), live);
      ElsewhereThen(desk, old(process), old@Opened(process), process);
      ElsewhereThen(desk, old(pointers), old@Opened(pointers), pointers);
      ElsewhereThen(desk, old(activating), old@Opened(activating), activating);
    }

    /** The unit that opens the process row and, for a new session, heads the
        queue; then the live entry. */
    method Open(desk: Desk, resume: Option<Session>, spawned: Option<Session>, explicit: bool, now: int)
      requires Valid() && desk !in process
      modifies this`process, this`live, this`pointers, this`table, this`trace, this`nextId
      ensures Valid() && RowsKept(desk, old(table), table)
      ensures live == old(live)[desk := Live(old(nextId), resume, explicit, false, false)]
      ensures desk in process && process == old(process)[desk := process[desk]]
      ensures Elsewhere(desk, old(pointers), pointers) && nextId >= old(nextId)
      ensures StandingOf(desk) == Opened(old(nextId), resume, explicit, spawned, At(old(pointers), desk))
      ensures table == Headed(old(table), desk, resume, now, old(nextId))
    {
      RowsStay(desk, table);
      hide IsRun, RowsKept, ActivationRows;
      var native := if spawned.Some? then spawned else resume;
      if resume.None? {
        HeadQueue(desk, now);
      }
      process := process[desk := Process(nextId, false, native)];
      if native.Some? {
        pointers := pointers[desk := native.value];
      }
      live := live[desk := Live(nextId, resume, explicit, false, false)];
      nextId := nextId + 3;
    }

    /** A new session's own prompts, before whatever waits. */
    method HeadQueue(desk: Desk, now: int)
      requires IsRun(trace, table, ledger) && forall id :: id in table ==> id < nextId
      modifies this`table, this`trace
      ensures table == ActivationRows(old(table), desk, now, nextId + 1, nextId + 2)
      ensures IsRun(trace, table, ledger) && RowsKept(desk, old(table), table)
      ensures forall id :: id in table ==> id < nextId + 3
    {
      ghost var step := D.NewSession(desk, now, nextId + 1, nextId + 2);
      RunGoesOn(trace, table, ledger, step);
      ActivationKeepsRows(desk, table, now, nextId + 1, nextId + 2);
      hide D.Exec, D.Legal, IsRun, RowsKept, ActivationRows;
      trace := trace + [step];
      table := ActivationRows(table, desk, now, nextId + 1, nextId + 2);
    }

    /** Whatever arrived inside the window is handled now. */
    method Drain(desk: Desk, held: seq<Event>, ghost since: Mark)
      requires Valid() && desk !in activating
      modifies this
      ensures Valid() && desk !in activating && OthersKeep(desk)
      ensures spawns + Rank(desk) <= old(spawns) + old(Rank(desk))
      ensures old(Renewed(desk, since)) ==> Renewed(desk, since)
      ensures SameOrNewer(desk)
      ensures Exited !in held ==> StandingOf(desk) == HearsAll(old(StandingOf(desk)), held) && table == old(table)
      ensures Exited in held && desk in live ==> live[desk].process >= old(nextId)
      decreases Rank(desk), 3
    {
      hide IsRun, RowsKept, Waits, Hears;
      RowsStay(desk, table);
      for k := 0 to |held|
        invariant SameOrNewer(desk)
        invariant Exited !in held[..k] ==>
                    StandingOf(desk) == HearsAll(old(StandingOf(desk)), held[..k]) && table == old(table)
        invariant Exited in held[..k] && desk in live ==> live[desk].process >= old(nextId)
        invariant Valid() && desk !in activating && OthersKeep(desk)
        invariant spawns + Rank(desk) <= old(spawns) + old(Rank(desk))
        invariant old(Renewed(desk, since)) ==> Renewed(desk, since)
      {
        ghost var was := table;
        assert held[..k + 1] == held[..k] + [held[k]];
        Handle(desk, held[k]);
        RowsKeptThen(desk, old(table), was, table);
      }
      assert held[..|held|] == held;
    }

    /** Takes, and stops, the desk's activation buffer. */
    method Buffered(desk: Desk) returns (held: seq<Event>)
      modifies this`activating
      ensures activating == old(activating) - {desk}
      ensures held == if desk in old(activating) then old(activating)[desk] else []
    {
      held := if desk in activating then activating[desk] else [];
      activating := activating - {desk};
    }

    /** One adapter event: held while the desk's spawn is in flight, otherwise
        handled, spawning at most what the desk's session still allowed. */
    method Handle(desk: Desk, event: Event)
      requires Valid()
      modifies this
      ensures Valid() && OthersKeep(desk)
      ensures desk in old(activating) ==>
                activating == old(activating)[desk := old(activating)[desk] + [event]]
                && live == old(live) && process == old(process) && table == old(table) && spawns == old(spawns)
      ensures desk !in old(activating) ==> desk !in activating
      ensures spawns + Rank(desk) <= old(spawns) + old(Rank(desk))
      ensures forall since :: old(Renewed(desk, since)) ==> Renewed(desk, since)
      ensures SameOrNewer(desk)
      ensures desk !in old(activating) && event != Exited ==> StandingOf(desk) == Hears(old(StandingOf(desk)), event)
      ensures desk !in old(activating) && event == Exited && desk in live ==> live[desk].process >= old(nextId)
      ensures event != Exited ==> table == old(table) && live.Keys == old(live).Keys && spawns == old(spawns)
      decreases Rank(desk), 2
    {
      hide IsRun, RowsKept, Waits, Elsewhere;
      RowsStay(desk, table);
      ElsewhereSame(desk, live);
      ElsewhereSame(desk, process);
      ElsewhereSame(desk, pointers);
      ElsewhereSame(desk, activating);
      if desk in activating {
        ElsewhereSet(desk, activating, activating[desk] + [event]);
        activating := activating[desk := activating[desk] + [event]];
        return;
      }
      match event
      case Ready =>
        MarkReady(desk);
      case Pointer(session) =>
        Discovered(desk, session);
      case Attention =>
      case Exited =>
        Ended(desk);
    }

    /** The thread is the desk's from now on, and its row's if that had none. */
    method Discovered(desk: Desk, session: Session)
      requires Valid()
      modifies this`pointers, this`process
      ensures Valid() && pointers == old(pointers)[desk := session]
      ensures process == if desk in old(process) && old(process)[desk].native.None?
                         then old(process)[desk := old(process)[desk].(native := Some(session))] else old(process)
      ensures Elsewhere(desk, old(pointers), pointers) && Elsewhere(desk, old(process), process)
    {
      hide IsRun;
      pointers := pointers[desk := session];
      if desk in process && process[desk].native.None? {
        process := process[desk := process[desk].(native := Some(session))];
      }
    }

    method MarkReady(desk: Desk)
      requires Valid()
      modifies this`live, this`process, this`newReady
      ensures Valid()
      ensures live == if desk in old(live) then old(live)[desk := old(live)[desk].(ready := true)] else old(live)
      ensures process == if desk in old(process) then old(process)[desk := old(process)[desk].(ready := true)]
                         else old(process)
      ensures newReady == old(newReady) + if desk in live && live[desk].resumed.None? then 1 else 0
      ensures Elsewhere(desk, old(live), live) && Elsewhere(desk, old(process), process)
    {
      hide IsRun;
      if desk in live {
        newReady := if live[desk].resumed.None? then newReady + 1 else newReady;
        live := live[desk := live[desk].(ready := true)];
      }
      if desk in process {
        process := process[desk := process[desk].(ready := true)];
      }
    }

    /** One exit. A session that was ready leaves its queue alone, and so does an
        explicit resume; any other resume that never was ready is tried once as a
        new session, which ends in one of three ways; otherwise the queue fails. */
    method Ended(desk: Desk)
      requires Valid() && desk !in activating
      modifies this
      ensures Valid() && desk !in activating && OthersKeep(desk)
      ensures spawns + Rank(desk) <= old(spawns) + old(Rank(desk))
      ensures spawns <= old(spawns) + 1
      ensures old(desk in live && !live[desk].ready && !live[desk].explicit) ==> Concluded(desk, old(Marks()))
      ensures old(desk !in live || live[desk].ready || (live[desk].explicit && live[desk].resumed.Some?)) ==>
                table == old(table) && desk !in live && desk !in process && spawns == old(spawns)
      ensures old(Rank(desk) == 1 && !live[desk].ready) ==> desk !in pointers || spawns == old(spawns) + 1
      ensures old(desk in live && !live[desk].ready && live[desk].resumed.None?) ==>
                desk !in live && spawns == old(spawns)
                && table == if commits(old(failUnits)) then FailQueued(old(table), desk, ActivationFailed)
                            else old(table)
      ensures forall since :: old(Renewed(desk, since)) ==> Renewed(desk, since)
      ensures nextId >= old(nextId) && (desk in live ==> live[desk].process >= old(nextId))
      decreases Rank(desk), 1
    {
      hide IsRun, RowsKept, Waits, Elsewhere;
      ElsewhereSame(desk, pointers);
      ElsewhereSame(desk, activating);
      RowsStay(desk, table);
      var ended := Close(desk);
      if ended.None? || ended.value.ready {
        return;
      }
      if ended.value.resumed.Some? && !ended.value.retried {
        if ended.value.explicit {
          return;
        }
        label Closed:
        Renew(desk);
        ElsewhereThen(desk, old(live), old@Closed(live), live);
        ElsewhereThen(desk, old(process), old@Closed(process), process);
      } else {
        FailingKeepsRows(desk, table);
        Fail(desk, ActivationFailed);
      }
    }

    /** Takes the live entry, if any, and closes the process row. */
    method Close(desk: Desk) returns (ended: Option<Live>)
      requires Valid()
      modifies this`live, this`process
      ensures Valid()
      ensures ended == if desk in old(live) then Some(old(live)[desk]) else None
      ensures live == old(live) - {desk} && process == old(process) - {desk}
      ensures Elsewhere(desk, old(live), live) && Elsewhere(desk, old(process), process)
    {
      hide IsRun;
      if desk !in live {
        process := process - {desk};
        return None;
      }
      ended := Some(live[desk]);
      live := live - {desk};
      if desk in process && process[desk].id == ended.value.process {
        process := process - {desk};
      }
    }

    /** A resume that never was ready: its pointer is dropped and a new session
        tried, once. */
    method Renew(desk: Desk)
      requires Valid() && desk !in activating && desk !in live
      modifies this
      ensures Valid() && desk !in activating && OthersKeep(desk)
      ensures spawns + Rank(desk) <= old(spawns) + 1
      ensures Concluded(desk, old(Marks()))
      ensures desk !in pointers || spawns == old(spawns) + 1
      ensures SameOrNewer(desk)
      decreases 0, 7
    {
      hide IsRun, RowsKept, FailQueued, Waits, Elsewhere;
      ElsewhereWithout(desk, pointers);
      pointers := pointers - {desk};
      label Dropped:
      var r := Activate(desk, New);
      ElsewhereThen(desk, old(pointers), old@Dropped(pointers), pointers);
      assert r == Started ==> Concluded(desk, old(Marks()));
      hide Concluded, Renewed;
      label Tried:
      Retried(desk, r == Started);
      ElsewhereThen(desk, old(live), old@Tried(live), live);
    }

    /** The new session is the retried one; without it the queue fails. */
    method Retried(desk: Desk, started: bool)
      requires Valid() && (started && desk in live ==> live[desk].resumed.None?)
      modifies this`live, this`table, this`trace, this`failUnits, this`lostUnits
      ensures Valid() && Rank(desk) == old(Rank(desk)) && lostUnits >= old(lostUnits) && SameOrNewer(desk)
      ensures Elsewhere(desk, old(live), live) && (started ==> table == old(table))
      ensures RowsKept(desk, old(table), table)
      ensures forall since: Mark :: since.lost <= old(lostUnits) && (started ==> old(Concluded(desk, since))) ==>
                Concluded(desk, since)
    {
      hide IsRun, RowsKept, FailQueued, Waits, Elsewhere, Concluded;
      if started {
        MarkRetried(desk);
        RowsStay(desk, table);
      } else {
        FailingKeepsRows(desk, table);
        ElsewhereSame(desk, live);
        RowsStay(desk, table);
        Fail(desk, ActivationFailed);
      }
    }

    method MarkRetried(desk: Desk)
      requires Valid() && (desk in live ==> live[desk].resumed.None?)
      modifies this`live
      ensures Valid()
      ensures live == if desk in old(live) then old(live)[desk := old(live)[desk].(retried := true)] else old(live)
      ensures Elsewhere(desk, old(live), live) && Rank(desk) == old(Rank(desk))
      ensures forall since: Mark :: old(Concluded(desk, since)) ==> Concluded(desk, since)
    {
      hide IsRun, Waits;
      if desk in live {
        live := live[desk := live[desk].(retried := true)];
      }
    }

    /** Every prompt of the desk still waiting fails with one code, in one unit;
        a unit the store does not commit is only logged. */
    method Fail(desk: Desk, code: Code)
      requires Valid()
      modifies this`table, this`trace, this`failUnits, this`lostUnits
      ensures Valid() && table.Keys == old(table).Keys && failUnits == old(failUnits) + 1
      ensures if commits(old(failUnits)) then
                table == FailQueued(old(table), desk, code) && lostUnits == old(lostUnits)
                && forall id :: !Waits(table, desk, id)
              else
                table == old(table) && lostUnits == old(lostUnits) + 1
      ensures forall since: Mark :: since.lost <= old(lostUnits) ==> Concluded(desk, since)
    {
      hide D.Exec, D.Legal, IsRun;
      var committed := commits(failUnits);
      failUnits := failUnits + 1;
      if !committed {
        lostUnits := lostUnits + 1;
        return;
      }
      RunGoesOn(trace, table, ledger, D.FailAll(desk, code));
      trace := trace + [D.FailAll(desk, code)];
      table := FailQueued(table, desk, code);
    }

    /** A producer appends a prompt. */
    method Enqueue(desk: Desk, createdAt: int) returns (id: Id)
      requires Valid()
      modifies this`table, this`trace, this`nextId
      ensures Valid() && id !in old(table) && table == old(table)[id := NewRow(desk, Other, createdAt)]
    {
      hide D.Exec, D.Legal, IsRun;
      id := nextId;
      ghost var step := D.Insert(id, desk, Other, createdAt);
      RunGoesOn(trace, table, ledger, step);
      trace := trace + [step];
      table := table[id := NewRow(desk, Other, createdAt)];
      nextId := nextId + 1;
    }

    /** The delivery attempt. Nothing but the desk's head is handed over, and
        a head whose attempt the store will not record is not; a disclosure names
        the desk's failures, or nothing when they could not be read. */
    method DeliverHead(desk: Desk, read: bool, marks: bool, outcome: D.Outcome, settles: bool)
      requires Valid()
      modifies this`table, this`ledger, this`trace
      ensures Valid()
      ensures var head := HeadPrompt(old(table), desk);
              if head.None? || !marks then
                trace == old(trace) && table == old(table) && ledger == old(ledger)
              else
                && trace == old(trace) + Delivery(head.value, desk, read, outcome, settles)
                && head.value in old(table)
                && ledger == old(ledger)
                           + [D.Handoff(head.value, outcome, D.ToDisclose(old(table), head.value, desk, read))]
    {
      hide D.Exec, D.Legal, IsRun, IsHead;
      var head := HeadPrompt(table, desk);
      if head.None? {
        return;
      }
      var id := head.value;
      D.HeadWaits(table, desk, id);
      var named := D.ToDisclose(table, id, desk, read);
      if !marks {
        return;
      }
      DeliveryGoesOn(trace, table, ledger, id, desk, read, outcome, settles);
      trace := trace + Delivery(id, desk, read, outcome, settles);
      table := MarkAttempted(table, id);
      ledger := ledger + [D.Handoff(id, outcome, named)];
      if outcome == D.Waiting {
        if settles {
          table := ClearAttempt(table, id);
        }
        return;
      }
      if settles {
        table := Resolve(table, id, D.StatusOf(outcome), named);
      }
    }

    /** What a pass does with one desk whose queue waits: activates when it has
        no session, hands its head over once the session is ready. */
    method Visit(desk: Desk, read: bool, marks: bool, outcome: D.Outcome, settles: bool)
      requires Valid() && desk !in activating
      modifies this
      ensures Valid()
      ensures ledger != old(ledger) ==> desk in old(process) && old(process)[desk].ready
      ensures desk in old(process) && old(process)[desk].ready && marks && HeadPrompt(old(table), desk).Some? ==>
                trace == old(trace) + Delivery(HeadPrompt(old(table), desk).value, desk, read, outcome, settles)
      ensures desk in old(process) && !old(process)[desk].ready ==> table == old(table)
      ensures HeadPrompt(old(table), desk).None? ==>
                trace == old(trace) && table == old(table) && live == old(live) && spawns == old(spawns)
      ensures desk !in old(process) && HeadPrompt(old(table), desk).Some? ==>
                QueueActivated(desk, env(old(attempts)))
      ensures spawns <= old(spawns) + 2 && (desk in old(process) ==> spawns == old(spawns))
    {
      if HeadPrompt(table, desk).None? {
        return;
      }
      if desk in process {
        if process[desk].ready {
          DeliverHead(desk, read, marks, outcome, settles);
        }
        return;
      }
      ActivateForQueue(desk);
    }

    /** What an activation for a waiting queue comes to: the queue fails when the
        runtime is unavailable or the spawn fails, is left alone when the store would
        not open the row, and otherwise the session resumes the desk's pointer, or is
        a new one that heads the queue, and hears what was reported meanwhile. */
    twostate predicate QueueActivated(desk: Desk, e: Env)
      reads this
    {
      if !e.available then
        live == old(live) && table == Failing(old(table), desk, RuntimeUnavailable, commits(old(failUnits)))
      else
        match e.spawn
        case SpawnFails =>
          live == old(live) && table == Failing(old(table), desk, ActivationFailed, commits(old(failUnits)))
        case Spawned(native, opens, reports) =>
          var resume := ResumeFor(Auto, old(pointers), desk);
          && (!opens ==> live == old(live) && table == old(table))
          && (opens && Exited !in reports ==>
                && StandingOf(desk) == HearsAll(Opened(old(nextId), resume, false, native,
                                                       At(old(pointers), desk)), reports)
                && table == Headed(old(table), desk, resume, e.now, old(nextId)))
    }

    method ActivateForQueue(desk: Desk)
      requires Valid() && desk !in activating && desk !in process
      modifies this
      ensures Valid() && ledger == old(ledger) && spawns <= old(spawns) + 2
      ensures QueueActivated(desk, env(old(attempts)))
    {
      hide IsRun, RowsKept, Waits, Headed, FailQueued, Elsewhere;
      var r := Activate(desk, Auto);
      if r == Unavailable {
        Fail(desk, RuntimeUnavailable);
      } else if r == SpawnFailed {
        Fail(desk, ActivationFailed);
      }
    }

    /** No two handoffs of a prompt ever reach a runtime, through every method
        above, exactly when none whose resolution the store lost is handed over
        again before it is recovered or failed. */
    lemma HandedOverOnceExactly()
      requires Valid()
      ensures D.OnceEach(D.Daemon(table, None, ledger)) <==> D.NeverAgain(D.EMPTY, trace, {})
    {
      hide D.Legal, D.Exec;
      D.AtMostOnceExactly(D.EMPTY, trace);
    }

    /** A row of the object is disclosed exactly when a delivery it recorded named
        it, no two of those name the same row, and what it has still to disclose
        is what none of them named. */
    lemma DisclosedOnce()
      requires Valid()
      ensures D.Disclosing(D.Daemon(table, None, ledger), D.Recorded(D.EMPTY, trace))
    {
      hide D.Legal, D.Exec, D.Disclosing;
      D.DisclosureAccounting(D.EMPTY, trace);
    }

    /** Between its methods a waiting row carries an attempt exactly when a unit
        that was to resolve it or clear its wait was lost; none does while they
        commit, so a restart takes no waiting row of the object for handed over. */
    lemma WaitingIsUnattempted(id: Id)
      requires Valid() && id in table && table[id].status == Queued
      ensures D.Legal(D.EMPTY, trace)
      ensures table[id].attempted <==> id in D.UnrecordedAfter(D.EMPTY, trace, {})
      ensures D.Commits(trace) ==> !table[id].attempted && Recover(table)[id] == table[id]
    {
      hide D.Legal, D.Exec, D.UnrecordedAfter;
      assert D.AttemptsAre(D.EMPTY, {});
      D.AttemptsThroughout(D.EMPTY, trace, {});
      if D.Commits(trace) {
        D.NothingUnrecorded(D.EMPTY, trace);
      }
    }

    /** At most one handoff of a prompt ever reaches a runtime, through every
        method above, as long as the resolutions commit. */
    lemma HandedOverOnce(i: nat, j: nat)
      requires Valid() && D.Commits(trace)
      requires i < |ledger| && j < |ledger| && D.Reached(ledger[i]) && D.Reached(ledger[j])
      requires ledger[i].id == ledger[j].id
      ensures i == j
    {
      hide D.Legal, D.Exec;
      D.AtMostOnce(D.EMPTY, trace, i, j);
    }
  }
}
