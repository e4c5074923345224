/** The Codex adapter's control plane. Connections drop, loss handlers drain
    and count, sessions are spawned and exited and threads report themselves, in
    any interleaving of the sections the adapter's locks make atomic. `Inner` is
    the object those sections are methods of. `log` is what was emitted; its
    order across sections is not modelled, how often is.
 */
module Codex {
  import opened Options

  type Desk = nat
  type Thread = nat
  type Path = nat
  type Conn = nat

  datatype Status = Idle | SystemError | Closed | Busy

  datatype Event =
    | Discovered(desk: Desk, thread: Thread)
    | Ready(desk: Desk)
    | Attention(desk: Desk)
    | Exited(desk: Desk)

  /** The control lock: `start` runs under it, for a loss handler or for a caller
      that found no live client. */
  datatype Lock = Free | Starting(forLoss: bool, conn: Option<Conn>)

  /** `restarts` is an unsigned 32-bit counter; `fetch_add` wraps. */
  const WRAP := 0x1_0000_0000

  /** What the adapter knows of the app-server's threads. */
  datatype Threads = Threads(byDesk: map<Desk, Thread>, live: map<Desk, nat>, awaiting: map<Path, Desk>,
                             status: map<Thread, Status>, ready: set<Desk>)

  /** The connections, the slot and its lock, and the loss handlers: before
      their drain, before their count, and the starts they made. */
  datatype Link = Link(alive: set<Conn>, connected: nat, slot: Option<Conn>, control: Lock,
                       dropping: nat, counting: nat, restarts: nat, unavailable: bool, handlerStarts: nat)

  /** What was emitted, every terminal a spawn started, and those that an exit or
      a later spawn took out of `live`. */
  datatype Tally = Tally(log: multiset<Event>, terminals: multiset<Desk>, dismissed: multiset<Desk>)

  /** `claims` are taken from `awaiting` and not recorded yet. */
  datatype Plane = Plane(threads: Threads, claims: multiset<(Desk, Thread)>, link: Link, tally: Tally)

  datatype Step =
    | Claim(path: Path, thread: Thread)
    | Record(desk: Desk, thread: Thread)
    | Report(thread: Thread, status: Status, owner: Option<Desk>)
    | SpawnBegin(desk: Desk, path: Path, resume: Option<Thread>)
    | SpawnDone(desk: Desk, pid: nat)
    | Exit(desk: Desk)
    | Drop(conn: Conn)
    | Drain
    | Count
    | ClientStart
    | Connect
    | StartEnds(ok: bool)
    | Reset

  const FRESH := Plane(Threads(map[], map[], map[], map[], {}), multiset{},
                       Link({}, 0, None, Free, 0, 0, 0, false, 0), Tally(multiset{}, multiset{}, multiset{}))

  predicate Owns(byDesk: map<Desk, Thread>, desk: Desk, thread: Thread) {
    desk in byDesk && byDesk[desk] == thread
  }

  predicate Unowned(byDesk: map<Desk, Thread>, thread: Thread) {
    forall d | d in byDesk :: !Owns(byDesk, d, thread)
  }

  /** The slot holds a client whose connection is up. */
  predicate Up(l: Link) {
    l.slot.Some? && l.slot.value in l.alive
  }

  predicate Enabled(s: Plane, step: Step) {
    match step
    case Claim(path, _) => path in s.threads.awaiting
    case Record(desk, thread) => (desk, thread) in s.claims
    // `desk_of` answers some desk that maps to the thread, if any does.
    case Report(thread, _, owner) =>
      if owner.Some? then Owns(s.threads.byDesk, owner.value, thread)
      else Unowned(s.threads.byDesk, thread)
    case Drop(conn) => conn in s.link.alive
    case Drain => s.link.dropping > 0
    case Count => s.link.counting > 0 && s.link.control.Free?
    case ClientStart => s.link.control.Free? && !Up(s.link)
    case Connect => s.link.control.Starting? && s.link.control.conn.None?
    case StartEnds(ok) => s.link.control.Starting? && (ok ==> s.link.control.conn.Some?)
    case _ => true
  }

  function Withdrawn(awaiting: map<Path, Desk>, desk: Desk): map<Path, Desk> {
    map p | p in awaiting && awaiting[p] != desk :: awaiting[p]
  }

  function Exits(live: map<Desk, nat>): set<Event> {
    set d | d in live :: Exited(d)
  }

  function Reported(t: Threads, thread: Thread, status: Status, owner: Option<Desk>): Threads {
    t.(status := t.status[thread := status],
       ready := if status == Idle && owner.Some? then t.ready + {owner.value} else t.ready)
  }

  /** What a status emits. */
  function Told(ready: set<Desk>, status: Status, owner: Option<Desk>): multiset<Event> {
    if owner.None? then multiset{}
    else if status == Idle && owner.value !in ready then multiset{Ready(owner.value)}
    else if status == SystemError then multiset{Attention(owner.value)}
    else multiset{}
  }

  function Spawning(t: Threads, desk: Desk, path: Path, resume: Option<Thread>): Threads {
    if resume.Some? then
      t.(ready := t.ready - {desk}, byDesk := t.byDesk[desk := resume.value], status := t.status - {resume.value})
    else
      t.(ready := t.ready - {desk}, byDesk := t.byDesk - {desk}, awaiting := t.awaiting[path := desk])
  }

  function Exiting(t: Threads, desk: Desk): Threads {
    t.(ready := t.ready - {desk}, live := t.live - {desk}, awaiting := Withdrawn(t.awaiting, desk))
  }

  function Drained(t: Threads): Threads {
    t.(ready := {}, awaiting := map[], live := map[])
  }

  function Dismissing(y: Tally, live: map<Desk, nat>, desk: Desk): Tally {
    if desk in live then y.(dismissed := y.dismissed + multiset{desk}) else y
  }

  function Emitting(y: Tally, events: multiset<Event>): Tally {
    y.(log := y.log + events)
  }

  /** The half of a loss handler that runs under the control lock. */
  function Counted(l: Link): Link
    requires l.counting > 0
  {
    var first := l.restarts == 0;
    l.(counting := l.counting - 1, slot := None, restarts := (l.restarts + 1) % WRAP,
       unavailable := l.unavailable || !first, control := if first then Starting(true, None) else Free,
       handlerStarts := if first then l.handlerStarts + 1 else l.handlerStarts)
  }

  function Apply(s: Plane, step: Step): Plane
    requires Enabled(s, step)
  {
    match step
    case Claim(path, thread) =>
      s.(threads := s.threads.(awaiting := s.threads.awaiting - {path}),
         claims := s.claims + multiset{(s.threads.awaiting[path], thread)})
    case Record(desk, thread) =>
      s.(claims := s.claims - multiset{(desk, thread)},
         threads := s.threads.(byDesk := s.threads.byDesk[desk := thread]),
         tally := Emitting(s.tally, multiset{Discovered(desk, thread)}))
    case Report(thread, status, owner) =>
      s.(threads := Reported(s.threads, thread, status, owner),
         tally := Emitting(s.tally, Told(s.threads.ready, status, owner)))
    case SpawnBegin(desk, path, resume) => s.(threads := Spawning(s.threads, desk, path, resume))
    case SpawnDone(desk, pid) =>
      var y := Dismissing(s.tally, s.threads.live, desk);
      s.(threads := s.threads.(live := s.threads.live[desk := pid]),
         tally := y.(terminals := y.terminals + multiset{desk}))
    case Exit(desk) =>
      s.(threads := Exiting(s.threads, desk), tally := Dismissing(s.tally, s.threads.live, desk))
    case Drop(conn) => s.(link := s.link.(alive := s.link.alive - {conn}, dropping := s.link.dropping + 1))
    case Drain =>
      s.(threads := Drained(s.threads), tally := Emitting(s.tally, multiset(Exits(s.threads.live))),
         link := s.link.(dropping := s.link.dropping - 1, counting := s.link.counting + 1))
    case Count => s.(link := Counted(s.link))
    case ClientStart => s.(link := s.link.(control := Starting(false, None)))
    // The reader is running from here, whether or not `initialize` succeeds.
    case Connect =>
      s.(link := s.link.(control := Starting(s.link.control.forLoss, Some(s.link.connected)),
                         alive := s.link.alive + {s.link.connected}, connected := s.link.connected + 1))
    case StartEnds(ok) =>
      s.(link := s.link.(control := Free, slot := if ok then s.link.control.conn else s.link.slot,
                         unavailable := s.link.unavailable || (!ok && s.link.control.forLoss)))
    // A retry of the runtime clears the row and the count it came from.
    case Reset => s.(link := s.link.(restarts := 0, unavailable := false))
  }

  predicate Legal(s: Plane, steps: seq<Step>)
    decreases |steps|
  {
    steps == [] || (Enabled(s, steps[0]) && Legal(Apply(s, steps[0]), steps[1..]))
  }

  function Exec(s: Plane, steps: seq<Step>): Plane
    requires Legal(s, steps)
    decreases |steps|
  {
    if steps == [] then s else Exec(Apply(s, steps[0]), steps[1..])
  }

  lemma Then(s: Plane, step: Step, rest: seq<Step>)
    requires Enabled(s, step) && Legal(Apply(s, step), rest)
    ensures Legal(s, [step] + rest) && Exec(s, [step] + rest) == Exec(Apply(s, step), rest)
  {
    hide Apply, Enabled;
    assert ([step] + rest)[1..] == rest;
  }

  lemma {:induction false} Concatenate(s: Plane, steps: seq<Step>, more: seq<Step>)
    requires Legal(s, steps) && Legal(Exec(s, steps), more)
    ensures Legal(s, steps + more) && Exec(s, steps + more) == Exec(Exec(s, steps), more)
    decreases |steps|
  {
    hide Apply, Enabled;
    if steps == [] {
      assert steps + more == more;
    } else {
      Concatenate(Apply(s, steps[0]), steps[1..], more);
      assert (steps + more)[1..] == steps[1..] + more;
    }
  }

  // ---------------------------------------------------------------------
  // The restart budget
  // ---------------------------------------------------------------------

  /** How many loss handlers of a run count themselves. */
  function Losses(steps: seq<Step>): nat
    decreases |steps|
  {
    if steps == [] then 0 else (if steps[0] == Count then 1 else 0) + Losses(steps[1..])
  }

  /** How many of `n` successive values from `c` on are zero modulo the width. */
  function ZeroPasses(c: int, n: int): int {
    (c + n - 1) / WRAP - (c - 1) / WRAP
  }

  lemma PassesStep(c: nat, n: nat)
    requires c < WRAP && n > 0
    ensures ZeroPasses(c, n) == (if c == 0 then 1 else 0) + ZeroPasses((c + 1) % WRAP, n - 1)
  {
  }

  lemma BudgetStep(s: Plane, step: Step)
    requires Enabled(s, step) && s.link.restarts < WRAP && step != Reset
    ensures var t := Apply(s, step);
            && t.link.restarts == (if step == Count then (s.link.restarts + 1) % WRAP else s.link.restarts)
            && t.link.restarts < WRAP
            && t.link.handlerStarts == s.link.handlerStarts + (if step == Count && s.link.restarts == 0 then 1 else 0)
            && (s.link.unavailable || (step == Count && s.link.restarts > 0) ==> t.link.unavailable)
  {
  }

  lemma {:induction false} BudgetFrom(s: Plane, steps: seq<Step>)
    requires Legal(s, steps) && s.link.restarts < WRAP && Reset !in steps
    ensures var e := Exec(s, steps);
            e.link.handlerStarts == s.link.handlerStarts + ZeroPasses(s.link.restarts, Losses(steps))
    decreases |steps|
  {
    hide Apply, Enabled, ZeroPasses;
    if steps == [] {
      NoPasses(s.link.restarts);
    } else {
      assert steps[0] in steps && forall x :: x in steps[1..] ==> x in steps;
      BudgetStep(s, steps[0]);
      if steps[0] == Count {
        PassesStep(s.link.restarts, Losses(steps));
      }
      BudgetFrom(Apply(s, steps[0]), steps[1..]);
    }
  }

  lemma NoPasses(c: nat)
    ensures ZeroPasses(c, 0) == 0
  {
  }

  /** Between two resets, in every interleaving, the loss handlers start the
      control plane once when anything is lost, and at most once exactly up to
      as many losses as the counter has values: one more wraps it. */
  lemma RestartBudget(s: Plane, steps: seq<Step>)
    requires Enabled(s, Reset) && Legal(Apply(s, Reset), steps) && Reset !in steps
    ensures var e := Exec(Apply(s, Reset), steps);
            && (e.link.handlerStarts == s.link.handlerStarts <==> Losses(steps) == 0)
            && (e.link.handlerStarts <= s.link.handlerStarts + 1 <==> Losses(steps) <= WRAP)
  {
    BudgetFrom(Apply(s, Reset), steps);
  }

  /** The budget's second half: from a plane that is not reset, any run with two
      losses leaves the runtime unavailable. */
  lemma {:induction false} SecondLossIsFinal(s: Plane, steps: seq<Step>)
    requires Legal(s, steps) && s.link.restarts < WRAP && Reset !in steps
    requires s.link.unavailable || (s.link.restarts + Losses(steps) >= 2 && Losses(steps) > 0)
    ensures Exec(s, steps).link.unavailable
    decreases |steps|
  {
    if steps != [] {
      assert steps[0] in steps && forall x :: x in steps[1..] ==> x in steps;
      BudgetStep(s, steps[0]);
      hide Apply, Enabled;
      SecondLossIsFinal(Apply(s, steps[0]), steps[1..]);
    }
  }

  // ---------------------------------------------------------------------
  // Exits
  // ---------------------------------------------------------------------

  /** One drain tells every desk then live once, and no other; pointers stay. */
  lemma DrainTellsEachOnce(s: Plane, desk: Desk)
    requires Enabled(s, Drain)
    ensures var t := Apply(s, Drain);
            && t.tally.log[Exited(desk)] == s.tally.log[Exited(desk)] + (if desk in s.threads.live then 1 else 0)
            && t.threads.live == map[] && t.threads.ready == {}
            && t.threads.byDesk == s.threads.byDesk && t.threads.status == s.threads.status
            && forall e: Event :: !e.Exited? ==> t.tally.log[e] == s.tally.log[e]
  {
    ExitsOf(s.threads.live, desk);
  }

  lemma ExitsOf(live: map<Desk, nat>, desk: Desk)
    ensures multiset(Exits(live))[Exited(desk)] == if desk in live then 1 else 0
    ensures forall e: Event :: !e.Exited? ==> multiset(Exits(live))[e] == 0
  {
    assert Exited(desk) in Exits(live) <==> desk in live;
  }

  /** Every terminal a spawn started is live, was told exited, or was dismissed. */
  predicate AccountedFor(s: Plane, d: Desk) {
    s.tally.terminals[d] == s.tally.log[Exited(d)] + s.tally.dismissed[d] + (if d in s.threads.live then 1 else 0)
  }

  ghost predicate Accounted(s: Plane) {
    forall d: Desk :: AccountedFor(s, d)
  }

  lemma ToldExits(ready: set<Desk>, status: Status, owner: Option<Desk>, desk: Desk)
    ensures Told(ready, status, owner)[Exited(desk)] == 0
  {
  }

  lemma AccountedForStep(s: Plane, step: Step, d: Desk)
    requires AccountedFor(s, d) && Enabled(s, step)
    ensures AccountedFor(Apply(s, step), d)
  {
    hide Apply;
    LiveUntil(s, step, d);
    ExitsTold(s, step, d);
    TerminalsCounted(s, step, d);
  }

  lemma ExitsTold(s: Plane, step: Step, d: Desk)
    requires Enabled(s, step)
    ensures Apply(s, step).tally.log[Exited(d)]
         == s.tally.log[Exited(d)] + if step.Drain? && d in s.threads.live then 1 else 0
  {
    hide Withdrawn, Exits, Owns, Unowned, Counted, Told, Spawning, Exiting, Reported;
    match step
    case Drain => ExitsOf(s.threads.live, d);
    case Report(_, status, owner) => ToldExits(s.threads.ready, status, owner, d);
    case _ =>
  }

  /** A spawn starts one terminal; it and an exit dismiss the one that was live. */
  lemma TerminalsCounted(s: Plane, step: Step, d: Desk)
    requires Enabled(s, step)
    ensures var before, after := s.tally, Apply(s, step).tally;
            && after.terminals[d] == before.terminals[d] + (if step.SpawnDone? && step.desk == d then 1 else 0)
            && after.dismissed[d] == before.dismissed[d]
                 + (if (step.SpawnDone? || step.Exit?) && step.desk == d && d in s.threads.live then 1 else 0)
  {
    hide Withdrawn, Exits, Owns, Unowned, Counted, Told, Spawning, Exiting, Reported;
  }

  lemma AccountedStep(s: Plane, step: Step)
    requires Accounted(s) && Enabled(s, step)
    ensures Accounted(Apply(s, step))
  {
    hide Apply, Enabled, AccountedFor;
    forall d: Desk
      ensures AccountedFor(Apply(s, step), d)
    {
      AccountedForStep(s, step, d);
    }
  }

  /** No run reports a terminal's end twice, or one that never started, or one
      that `exit` already took away. */
  lemma {:induction false} ExitsAreAccounted(s: Plane, steps: seq<Step>)
    requires Accounted(s) && Legal(s, steps)
    ensures Accounted(Exec(s, steps))
    decreases |steps|
  {
    if steps != [] {
      AccountedStep(s, steps[0]);
      hide Accounted, Apply, Enabled;
      ExitsAreAccounted(Apply(s, steps[0]), steps[1..]);
    }
  }

  lemma FreshIsAccounted()
    ensures Accounted(FRESH)
  {
  }

  predicate SamePointer(before: map<Desk, Thread>, after: map<Desk, Thread>, desk: Desk) {
    (desk in after <==> desk in before) && (desk in before ==> after[desk] == before[desk])
  }

  predicate Repoints(step: Step, desk: Desk) {
    (step.SpawnBegin? || step.Record?) && step.desk == desk
  }

  lemma PointerStep(s: Plane, step: Step, desk: Desk)
    requires Enabled(s, step) && !Repoints(step, desk)
    ensures var t := Apply(s, step);
            SamePointer(s.threads.byDesk, t.threads.byDesk, desk)
  {
    hide Exits, Withdrawn;
  }

  /** Losses, restarts, exits and broadcasts keep every pointer: only a spawn of
      the desk, or the thread it was awaiting, changes it. */
  lemma {:induction false} PointersSurvive(s: Plane, steps: seq<Step>, desk: Desk)
    requires Legal(s, steps) && forall k :: 0 <= k < |steps| ==> !Repoints(steps[k], desk)
    ensures var e := Exec(s, steps);
            SamePointer(s.threads.byDesk, e.threads.byDesk, desk)
    decreases |steps|
  {
    if steps != [] {
      PointerStep(s, steps[0], desk);
      hide Apply, Enabled;
      assert !Repoints(steps[0], desk);
      assert forall k :: 0 <= k < |steps[1..]| ==> steps[1..][k] == steps[k + 1];
      PointersSurvive(Apply(s, steps[0]), steps[1..], desk);
    }
  }

  // ---------------------------------------------------------------------
  // Readiness
  // ---------------------------------------------------------------------

  /** What lets a desk be announced again: a spawn or an exit of it, or a loss. */
  predicate Clears(step: Step, desk: Desk) {
    step.Drain? || ((step.SpawnBegin? || step.Exit?) && step.desk == desk)
  }

  function Gained(before: set<Desk>, after: set<Desk>, desk: Desk): nat {
    if desk !in before && desk in after then 1 else 0
  }

  lemma ToldReady(ready: set<Desk>, status: Status, owner: Option<Desk>, desk: Desk)
    ensures Told(ready, status, owner)[Ready(desk)] ==
            if status == Idle && owner == Some(desk) && desk !in ready then 1 else 0
  {
  }

  lemma ReadyStep(s: Plane, step: Step, desk: Desk)
    requires Enabled(s, step)
    ensures var t := Apply(s, step);
            && t.tally.log[Ready(desk)] == s.tally.log[Ready(desk)] + Gained(s.threads.ready, t.threads.ready, desk)
            && (desk in s.threads.ready && !Clears(step, desk) ==> desk in t.threads.ready)
  {
    hide Apply;
    ReadyUntil(s, step, desk);
    ReadyTold(s, step, desk);
  }

  /** A desk is told ready by an idle of its thread, when it was not. */
  lemma ReadyTold(s: Plane, step: Step, desk: Desk)
    requires Enabled(s, step)
    ensures Apply(s, step).tally.log[Ready(desk)]
         == s.tally.log[Ready(desk)] + if Announces(s, step, desk) then 1 else 0
  {
    hide Withdrawn, Told, Exits, Owns, Unowned, Counted, Spawning, Exiting, Reported;
    match step
    case Report(_, status, owner) => ToldReady(s.threads.ready, status, owner, desk);
    case Drain => ExitsOf(s.threads.live, desk);
    case _ =>
  }

  /** Between two clears of a desk it is announced at most once: exactly when it
      becomes ready, and never when it already was. */
  lemma {:induction false} ReadyOnce(s: Plane, steps: seq<Step>, desk: Desk)
    requires Legal(s, steps) && forall k :: 0 <= k < |steps| ==> !Clears(steps[k], desk)
    ensures var e := Exec(s, steps);
            && e.tally.log[Ready(desk)] == s.tally.log[Ready(desk)] + Gained(s.threads.ready, e.threads.ready, desk)
            && (desk in s.threads.ready ==> desk in e.threads.ready)
    decreases |steps|
  {
    if steps != [] {
      ReadyStep(s, steps[0], desk);
      assert !Clears(steps[0], desk);
      assert forall k :: 0 <= k < |steps[1..]| ==> steps[1..][k] == steps[k + 1];
      hide Apply, Enabled;
      ReadyOnce(Apply(s, steps[0]), steps[1..], desk);
    }
  }

  /** Only an `idle` of the very thread a desk points at announces it; and when
      no other desk points there, it always does. */
  lemma ReadyIsItsOwnThread(s: Plane, step: Step, desk: Desk)
    requires Enabled(s, step)
    ensures Apply(s, step).tally.log[Ready(desk)] != s.tally.log[Ready(desk)] ==>
              && step.Report? && step.status == Idle && step.owner == Some(desk)
              && Owns(s.threads.byDesk, desk, step.thread)
    ensures step.Report? && step.status == Idle && Owns(s.threads.byDesk, desk, step.thread) && desk !in s.threads.ready
            && (forall d | d in s.threads.byDesk :: Owns(s.threads.byDesk, d, step.thread) ==> d == desk) ==>
              Apply(s, step).tally.log[Ready(desk)] == s.tally.log[Ready(desk)] + 1
  {
    hide Withdrawn, Told, Exits;
    if step.Report? {
      ToldReady(s.threads.ready, step.status, step.owner, desk);
    }
    ExitsOf(s.threads.live, desk);
  }

  // ---------------------------------------------------------------------
  // What each step leaves known
  // ---------------------------------------------------------------------

  /** A desk is ready from an idle of its thread until a spawn or an exit of it, or
      a loss. */
  lemma ReadyUntil(s: Plane, step: Step, desk: Desk)
    requires Enabled(s, step)
    ensures desk in Apply(s, step).threads.ready <==>
              || (step.Report? && step.status == Idle && step.owner == Some(desk))
              || (desk in s.threads.ready && !Clears(step, desk))
  {
    hide Withdrawn, Told, Exits, Owns;
  }

  /** A directory is awaited from the spawn of a new session there until a thread
      is claimed through it, its desk exits, a loss, or another desk's spawn. */
  lemma AwaitedUntil(s: Plane, step: Step, path: Path, desk: Desk)
    requires Enabled(s, step)
    ensures path in Apply(s, step).threads.awaiting && Apply(s, step).threads.awaiting[path] == desk <==>
              || step == SpawnBegin(desk, path, None)
              || (&& path in s.threads.awaiting && s.threads.awaiting[path] == desk
                  && !(step.Claim? && step.path == path) && step != Exit(desk) && !step.Drain?
                  && !(step.SpawnBegin? && step.resume.None? && step.path == path))
  {
    hide Told, Exits, Owns;
  }

  /** A thread's status is the one last reported, forgotten when it is resumed. */
  lemma StatusUntil(s: Plane, step: Step, thread: Thread)
    requires Enabled(s, step)
    ensures var before, after := s.threads.status, Apply(s, step).threads.status;
            if step.Report? && step.thread == thread then thread in after && after[thread] == step.status
            else if step.SpawnBegin? && step.resume == Some(thread) then thread !in after
            else (thread in after <==> thread in before) && (thread in before ==> after[thread] == before[thread])
  {
    hide Withdrawn, Told, Exits, Owns;
  }

  /** A desk's terminal is live from its spawn's end until its exit or a loss. */
  lemma LiveUntil(s: Plane, step: Step, desk: Desk)
    requires Enabled(s, step)
    ensures var before, after := s.threads.live, Apply(s, step).threads.live;
            if step.SpawnDone? && step.desk == desk then desk in after && after[desk] == step.pid
            else if step == Exit(desk) || step.Drain? then desk !in after
            else (desk in after <==> desk in before) && (desk in before ==> after[desk] == before[desk])
  {
    hide Withdrawn, Told, Exits, Owns;
  }

  /** A system error of a desk's thread raises attention to the desk, each time and
      nothing else does; a recorded claim tells of its thread, once. */
  lemma WhatIsTold(s: Plane, step: Step, desk: Desk, thread: Thread)
    requires Enabled(s, step)
    ensures var before, after := s.tally.log, Apply(s, step).tally.log;
            && after[Attention(desk)] == before[Attention(desk)]
                 + (if step.Report? && step.status == SystemError && step.owner == Some(desk) then 1 else 0)
            && after[Discovered(desk, thread)] == before[Discovered(desk, thread)]
                 + (if step == Record(desk, thread) then 1 else 0)
  {
    hide Withdrawn, Owns, Unowned, Told, Exits, Counted, Spawning, Exiting, Reported;
    match step
    case Report(_, status, owner) => ToldAttention(s.threads.ready, status, owner, desk, thread);
    case Drain => ExitsOf(s.threads.live, desk);
    case _ =>
  }

  lemma ToldAttention(ready: set<Desk>, status: Status, owner: Option<Desk>, desk: Desk, thread: Thread)
    ensures var told := Told(ready, status, owner);
            && told[Attention(desk)] == (if status == SystemError && owner == Some(desk) then 1 else 0)
            && told[Discovered(desk, thread)] == 0
  {
  }

  /** The runtime is unavailable from a loss counted after another, or a loss
      handler's start that failed, until a reset. */
  lemma UnavailableUntil(s: Plane, step: Step)
    requires Enabled(s, step)
    ensures Apply(s, step).link.unavailable <==>
              && step != Reset
              && (|| s.link.unavailable
                  || (step == Count && s.link.restarts != 0)
                  || (step == StartEnds(false) && s.link.control.forLoss))
    ensures step == Reset ==> Apply(s, step).link.restarts == 0
  {
    hide Withdrawn, Told, Exits, Owns;
  }

  /** A start is a loss handler's or a caller's; it has no connection until it makes
      one, which is new; it ends by putting that in the slot, or leaves it. */
  lemma StartUntil(s: Plane, step: Step)
    requires Enabled(s, step) && SlotOk(s)
    ensures var l, m := s.link, Apply(s, step).link;
            && m.control == (match step
                             case ClientStart => Starting(false, None)
                             case Count => if l.restarts == 0 then Starting(true, None) else Free
                             case Connect => Starting(l.control.forLoss, Some(l.connected))
                             case StartEnds(_) => Free
                             case _ => l.control)
            && m.slot == (match step
                          case Count => None
                          case StartEnds(ok) => if ok then l.control.conn else l.slot
                          case _ => l.slot)
            && (forall c :: c in m.alive <==>
                  (c in l.alive && step != Drop(c)) || (step == Connect && c == l.connected && c !in l.alive))
  {
    hide Withdrawn, Told, Exits, Owns;
  }

  /** How many steps of a run are of a kind. */
  function HowMany(steps: seq<Step>, what: Step -> bool): nat {
    if steps == [] then 0 else (if what(steps[0]) then 1 else 0) + HowMany(steps[1..], what)
  }

  /** Every connection that drops is drained once and counted once, by one loss
      handler: at any moment of any run, those dropped are those still to drain,
      with those still to count, with those counted. */
  lemma {:induction false} EachLossIsHandledOnce(s: Plane, steps: seq<Step>)
    requires Legal(s, steps)
    ensures var e := Exec(s, steps);
            var drops, drains := HowMany(steps, (x: Step) => x.Drop?), HowMany(steps, (x: Step) => x.Drain?);
            && s.link.dropping + drops == e.link.dropping + drains
            && s.link.counting + drains == e.link.counting + HowMany(steps, (x: Step) => x.Count?)
    decreases |steps|
  {
    if steps != [] {
      HandlersStep(s, steps[0]);
      hide Apply, Enabled;
      EachLossIsHandledOnce(Apply(s, steps[0]), steps[1..]);
    }
  }

  lemma HandlersStep(s: Plane, step: Step)
    requires Enabled(s, step)
    ensures var l, m := s.link, Apply(s, step).link;
            && m.dropping == l.dropping + (if step.Drop? then 1 else 0) - (if step.Drain? then 1 else 0)
            && m.counting == l.counting + (if step.Drain? then 1 else 0) - (if step.Count? then 1 else 0)
  {
    hide Withdrawn, Told, Exits, Owns;
  }

  // ---------------------------------------------------------------------
  // Whose readiness it is
  // ---------------------------------------------------------------------

  /** A desk's latest spawn: the directory it awaits a thread in, none when it
      resumed one, and its threads: the one it resumed, or those since claimed
      through that directory. */
  datatype Latest = Latest(home: Option<Path>, own: set<Thread>)

  const NOSPAWN := Latest(None, {})

  function Following(s: Plane, l: Latest, step: Step, desk: Desk): Latest
    requires Enabled(s, step)
  {
    match step
    case SpawnBegin(d, path, resume) =>
      if d != desk then l
      else if resume.Some? then Latest(None, {resume.value})
      else Latest(Some(path), {})
    case Claim(path, thread) =>
      if s.threads.awaiting[path] == desk && l.home == Some(path) then l.(own := l.own + {thread}) else l
    case _ => l
  }

  /** The step announces the desk ready. */
  predicate Announces(s: Plane, step: Step, desk: Desk) {
    step.Report? && step.status == Idle && step.owner == Some(desk) && desk !in s.threads.ready
  }

  /** Every announcement of the desk is for a thread of its latest spawn. */
  predicate OwnReadies(s: Plane, l: Latest, steps: seq<Step>, desk: Desk)
    requires Legal(s, steps)
    decreases |steps|
  {
    steps == [] ||
    ((Announces(s, steps[0], desk) ==> steps[0].thread in l.own)
     && OwnReadies(Apply(s, steps[0]), Following(s, l, steps[0], desk), steps[1..], desk))
  }

  /** A spawn of the desk begins while a claim of the desk, of another thread
      than the one it resumes, is still to be recorded. */
  predicate Overlaps(s: Plane, step: Step, desk: Desk) {
    step.SpawnBegin? && step.desk == desk && exists c | c in s.claims :: c.0 == desk && step.resume != Some(c.1)
  }

  /** A spawn of the desk begins while the desk still awaits a thread in a
      directory the spawn will not await one in: only an exit or a loss withdraws
      what an earlier spawn awaits. */
  predicate Stale(s: Plane, step: Step, desk: Desk) {
    step.SpawnBegin? && step.desk == desk
    && exists p | p in s.threads.awaiting :: s.threads.awaiting[p] == desk && (step.resume.Some? || step.path != p)
  }

  /** The spawn comes upon what an earlier one left. */
  predicate Inherits(s: Plane, step: Step, desk: Desk) {
    Overlaps(s, step, desk) || Stale(s, step, desk)
  }

  predicate NeverInherits(s: Plane, steps: seq<Step>, desk: Desk)
    requires Legal(s, steps)
    decreases |steps|
  {
    steps == [] || (!Inherits(s, steps[0], desk) && NeverInherits(Apply(s, steps[0]), steps[1..], desk))
  }

  /** The desk's pointer, its claims still to be recorded and what it awaits are
      its latest spawn's. */
  ghost predicate OwnInv(s: Plane, l: Latest, desk: Desk) {
    && (desk in s.threads.byDesk ==> s.threads.byDesk[desk] in l.own)
    && (forall c :: c in s.claims && c.0 == desk ==> c.1 in l.own)
    && forall p :: p in s.threads.awaiting && s.threads.awaiting[p] == desk ==> l.home == Some(p)
  }

  lemma OwnStep(s: Plane, l: Latest, step: Step, desk: Desk)
    requires OwnInv(s, l, desk) && Enabled(s, step) && !Inherits(s, step, desk)
    ensures OwnInv(Apply(s, step), Following(s, l, step, desk), desk)
    ensures Announces(s, step, desk) ==> step.thread in l.own
  {
    hide Apply, Inherits;
    if step.SpawnBegin? && step.desk == desk {
      hide Following, OwnInv;
      SpawnRestores(s, l, step, desk);
    } else {
      AwaitsNothingNew(s, step, desk);
      PointerAndClaims(s, step, desk);
    }
  }

  lemma AwaitsNothingNew(s: Plane, step: Step, desk: Desk)
    requires Enabled(s, step) && !(step.SpawnBegin? && step.desk == desk)
    ensures forall p :: p in Apply(s, step).threads.awaiting && Apply(s, step).threads.awaiting[p] == desk ==>
              p in s.threads.awaiting && s.threads.awaiting[p] == desk
  {
    hide Apply;
    forall p
      ensures p in Apply(s, step).threads.awaiting && Apply(s, step).threads.awaiting[p] == desk ==>
                p in s.threads.awaiting && s.threads.awaiting[p] == desk
    {
      AwaitedUntil(s, step, p, desk);
    }
  }

  /** The pointer and the claims of a desk that is not being spawned. */
  lemma PointerAndClaims(s: Plane, step: Step, desk: Desk)
    requires Enabled(s, step) && !(step.SpawnBegin? && step.desk == desk)
    ensures var t := Apply(s, step);
            && (desk in t.threads.byDesk ==>
                  || (desk in s.threads.byDesk && s.threads.byDesk[desk] == t.threads.byDesk[desk])
                  || (step == Record(desk, t.threads.byDesk[desk])))
            && (forall c :: c in t.claims && c.0 == desk ==>
                  || c in s.claims
                  || (step.Claim? && s.threads.awaiting[step.path] == desk && c.1 == step.thread))
  {
    hide Withdrawn, Told, Exits, Counted, Dismissing;
  }

  /** A spawn that inherits nothing makes whatever the desk points at, has still
      to record and awaits its own, whatever went before. */
  lemma SpawnRestores(s: Plane, l: Latest, spawn: Step, desk: Desk)
    requires Enabled(s, spawn) && spawn.SpawnBegin? && spawn.desk == desk && !Inherits(s, spawn, desk)
    ensures OwnInv(Apply(s, spawn), Following(s, l, spawn, desk), desk)
  {
    assert forall c :: c in s.claims && c.0 == desk ==> spawn.resume == Some(c.1);
    assert forall p :: p in s.threads.awaiting && s.threads.awaiting[p] == desk ==>
        spawn.resume.None? && spawn.path == p;
  }

  lemma {:induction false} OwnRun(s: Plane, l: Latest, steps: seq<Step>, desk: Desk)
    requires OwnInv(s, l, desk) && Legal(s, steps) && NeverInherits(s, steps, desk)
    ensures OwnReadies(s, l, steps, desk)
    decreases |steps|
  {
    if steps != [] {
      hide Apply, Enabled, OwnInv, Inherits, Announces, Following;
      OwnStep(s, l, steps[0], desk);
      OwnRun(Apply(s, steps[0]), Following(s, l, steps[0], desk), steps[1..], desk);
    }
  }

  /** In every run from a fresh adapter whose spawns of the desk inherit nothing
      of an earlier one, every announcement of the desk is for the thread its
      latest spawn resumed, or one claimed through the directory it awaits. */
  lemma ReadyIsLatestSpawns(steps: seq<Step>, desk: Desk)
    requires Legal(FRESH, steps) && NeverInherits(FRESH, steps, desk)
    ensures OwnReadies(FRESH, NOSPAWN, steps, desk)
  {
    OwnRun(FRESH, NOSPAWN, steps, desk);
  }

  predicate NoSpawn(steps: seq<Step>, desk: Desk) {
    forall k :: 0 <= k < |steps| ==> !(steps[k].SpawnBegin? && steps[k].desk == desk)
  }

  lemma {:induction false} NoSpawnInheritsNothing(s: Plane, steps: seq<Step>, desk: Desk)
    requires Legal(s, steps) && NoSpawn(steps, desk)
    ensures NeverInherits(s, steps, desk)
    decreases |steps|
  {
    if steps != [] {
      hide Apply, Enabled;
      assert !(steps[0].SpawnBegin? && steps[0].desk == desk);
      assert forall k :: 0 <= k < |steps[1..]| ==> steps[1..][k] == steps[k + 1];
      NoSpawnInheritsNothing(Apply(s, steps[0]), steps[1..], desk);
    }
  }

  /** Every way a spawn can go on, up to the desk's next one, announces only the
      spawn's own threads. */
  ghost predicate AnnouncesOnlyItsOwn(s: Plane, spawn: Step, desk: Desk)
    requires Enabled(s, spawn) && spawn.SpawnBegin? && spawn.desk == desk
  {
    forall more ::
      Legal(Apply(s, spawn), more) && NoSpawn(more, desk) ==>
        OwnReadies(Apply(s, spawn), Following(s, NOSPAWN, spawn, desk), more, desk)
  }

  /** And that condition is exact: in any state whatever, a spawn of the desk
      announces only its own threads, however it goes on, if and only if it
      overlaps no claim and comes upon no other directory the desk awaits. */
  lemma SpawnAnnouncesItsOwnExactly(s: Plane, spawn: Step, desk: Desk)
    requires Enabled(s, spawn) && spawn.SpawnBegin? && spawn.desk == desk
    ensures AnnouncesOnlyItsOwn(s, spawn, desk) <==> !Overlaps(s, spawn, desk) && !Stale(s, spawn, desk)
  {
    if Overlaps(s, spawn, desk) {
      var c :| c in s.claims && c.0 == desk && spawn.resume != Some(c.1);
      var more := SupersededThreadAnnounces(s, spawn, desk, c.1);
    } else if Stale(s, spawn, desk) {
      var p :| p in s.threads.awaiting && s.threads.awaiting[p] == desk && (spawn.resume.Some? || spawn.path != p);
      var other := if spawn.resume.Some? then spawn.resume.value + 1 else 0;
      var more := StaleThreadAnnounces(s, spawn, desk, p, other);
    } else {
      SpawnRestores(s, NOSPAWN, spawn, desk);
      hide Apply, OwnInv, OwnReadies;
      forall more | Legal(Apply(s, spawn), more) && NoSpawn(more, desk)
        ensures OwnReadies(Apply(s, spawn), Following(s, NOSPAWN, spawn, desk), more, desk)
      {
        NoSpawnInheritsNothing(Apply(s, spawn), more, desk);
        OwnRun(Apply(s, spawn), Following(s, NOSPAWN, spawn, desk), more, desk);
      }
    }
  }

  /** A step of a run of which the rest is not all the spawn's own. */
  lemma NotOwnThen(s: Plane, l: Latest, step: Step, rest: seq<Step>, desk: Desk)
    requires Enabled(s, step) && Legal(Apply(s, step), rest)
    requires !OwnReadies(Apply(s, step), Following(s, l, step, desk), rest, desk)
    ensures Legal(s, [step] + rest) && Exec(s, [step] + rest) == Exec(Apply(s, step), rest)
    ensures !OwnReadies(s, l, [step] + rest, desk)
  {
    Then(s, step, rest);
    hide Apply, Enabled, Following, Announces;
    assert ([step] + rest)[1..] == rest;
  }

  /** A claim of a thread that is not the spawn's is recorded, and its idle
      announces the desk. */
  lemma ForeignThreadAnnounces(s: Plane, l: Latest, desk: Desk, thread: Thread) returns (more: seq<Step>)
    requires (desk, thread) in s.claims && thread !in l.own && desk !in s.threads.ready
    ensures more == [Record(desk, thread)] + [Report(thread, Idle, Some(desk))]
    ensures Legal(s, more) && !OwnReadies(s, l, more, desk)
    ensures var e := Exec(s, more);
            Owns(e.threads.byDesk, desk, thread) && e.tally.log[Ready(desk)] == s.tally.log[Ready(desk)] + 1
  {
    var record, report := Record(desk, thread), Report(thread, Idle, Some(desk));
    var p := Apply(s, record);
    assert Enabled(p, report) && Announces(p, report, desk) && Following(s, l, record, desk) == l;
    ToldReady(p.threads.ready, Idle, Some(desk), desk);
    var e := Apply(p, report);
    assert Owns(e.threads.byDesk, desk, thread) && e.tally.log[Ready(desk)] == s.tally.log[Ready(desk)] + 1;
    hide Apply, Enabled, Following, Announces;
    Then(p, report, []);
    assert [report] + [] == [report] && [report][1..] == [];
    NotOwnThen(s, l, record, [report], desk);
    more := [record] + [report];
  }

  /** A spawn that overlaps is announced ready by the thread of the session it
      replaced: the frame that claims a thread lets go of the lock before it
      records it. */
  lemma SupersededThreadAnnounces(s: Plane, spawn: Step, desk: Desk, thread: Thread) returns (more: seq<Step>)
    requires Enabled(s, spawn) && spawn.SpawnBegin? && spawn.desk == desk
    requires (desk, thread) in s.claims && spawn.resume != Some(thread)
    ensures more == [Record(desk, thread)] + [Report(thread, Idle, Some(desk))]
    ensures Legal(Apply(s, spawn), more) && NoSpawn(more, desk)
    ensures !OwnReadies(Apply(s, spawn), Following(s, NOSPAWN, spawn, desk), more, desk)
    ensures Exec(Apply(s, spawn), more).tally.log[Ready(desk)] == s.tally.log[Ready(desk)] + 1
  {
    hide OwnReadies, Exec, Legal;
    more := ForeignThreadAnnounces(Apply(s, spawn), Following(s, NOSPAWN, spawn, desk), desk, thread);
  }

  /** A spawn that comes upon another awaited directory is announced ready by
      whatever thread starts there, though it resumed another, or awaits its own
      elsewhere. */
  lemma StaleThreadAnnounces(s: Plane, spawn: Step, desk: Desk, path: Path, thread: Thread) returns (more: seq<Step>)
    requires Enabled(s, spawn) && spawn.SpawnBegin? && spawn.desk == desk && spawn.resume != Some(thread)
    requires path in s.threads.awaiting && s.threads.awaiting[path] == desk
    requires spawn.resume.Some? || spawn.path != path
    ensures more == [Claim(path, thread)] + ([Record(desk, thread)] + [Report(thread, Idle, Some(desk))])
    ensures Legal(Apply(s, spawn), more) && NoSpawn(more, desk)
    ensures !OwnReadies(Apply(s, spawn), Following(s, NOSPAWN, spawn, desk), more, desk)
    ensures var e := Exec(Apply(s, spawn), more);
            Owns(e.threads.byDesk, desk, thread) && e.tally.log[Ready(desk)] == s.tally.log[Ready(desk)] + 1
  {
    hide OwnReadies, Exec, Legal;
    var l := Following(s, NOSPAWN, spawn, desk);
    var spawned, claim := Apply(s, spawn), Claim(path, thread);
    assert Enabled(spawned, claim) && Following(spawned, l, claim, desk) == l;
    more := ForeignThreadAnnounces(Apply(spawned, claim), l, desk, thread);
    NotOwnThen(spawned, l, claim, more, desk);
    more := [claim] + more;
  }

  /** Both are reached from a fresh adapter. A spawn, its thread's claim, a second
      spawn, and only then the record. */
  lemma FreshSpawnOverlaps(desk: Desk, path: Path, thread: Thread)
    ensures var first, claim := SpawnBegin(desk, path, None), Claim(path, thread);
            && Enabled(FRESH, first) && Enabled(Apply(FRESH, first), claim)
            && Legal(FRESH, [first] + [claim]) && NeverInherits(FRESH, [first] + [claim], desk)
            && Overlaps(Exec(FRESH, [first] + [claim]), first, desk)
            && !Stale(Exec(FRESH, [first] + [claim]), first, desk)
  {
    var first, claim := SpawnBegin(desk, path, None), Claim(path, thread);
    var s := Apply(FRESH, first);
    var t := Apply(s, claim);
    assert (desk, thread) in t.claims && Overlaps(t, first, desk) && !Stale(t, first, desk);
    assert !Inherits(FRESH, first, desk) && !Inherits(s, claim, desk);
    hide Apply, Enabled, Inherits, Overlaps, Stale;
    Then(s, claim, []);
    assert [claim] + [] == [claim] && [claim][1..] == [] && ([first] + [claim])[1..] == [claim];
    Then(FRESH, first, [claim]);
    assert NeverInherits(s, [claim], desk);
  }

  /** And a spawn that dies before its thread starts, after which the desk resumes
      another: the thread that then starts in the first one's directory takes the
      desk over, and the desk is announced ready for it. */
  lemma ResumedDeskIsTakenOver(desk: Desk, path: Path, resumed: Thread, started: Thread)
    returns (steps: seq<Step>)
    requires resumed != started
    ensures var first, again := SpawnBegin(desk, path, None), SpawnBegin(desk, path, Some(resumed));
            && steps == [first] + ([again] + ([Claim(path, started)]
                                              + ([Record(desk, started)] + [Report(started, Idle, Some(desk))])))
            && !Inherits(FRESH, first, desk)
            && !Overlaps(Apply(FRESH, first), again, desk) && Stale(Apply(FRESH, first), again, desk)
    ensures Legal(FRESH, steps) && !OwnReadies(FRESH, NOSPAWN, steps, desk)
    ensures var e := Exec(FRESH, steps); Owns(e.threads.byDesk, desk, started) && e.tally.log[Ready(desk)] == 1
  {
    hide OwnReadies, Exec, Legal, Following, Apply, Overlaps, Stale, Inherits;
    ResumedOver(desk, path, resumed);
    var first, again := SpawnBegin(desk, path, None), SpawnBegin(desk, path, Some(resumed));
    var s := Apply(FRESH, first);
    steps := StaleThreadAnnounces(s, again, desk, path, started);
    NotOwnThen(s, Following(FRESH, NOSPAWN, first, desk), again, steps, desk);
    steps := [again] + steps;
    NotOwnThen(FRESH, NOSPAWN, first, steps, desk);
    steps := [first] + steps;
  }

  lemma ResumedOver(desk: Desk, path: Path, resumed: Thread)
    ensures var first, again := SpawnBegin(desk, path, None), SpawnBegin(desk, path, Some(resumed));
            var s := Apply(FRESH, first);
            && !Inherits(FRESH, first, desk) && !Overlaps(s, again, desk) && Stale(s, again, desk)
            && path in s.threads.awaiting && s.threads.awaiting[path] == desk
            && s.tally.log[Ready(desk)] == 0
            && Following(s, NOSPAWN, again, desk) == Following(s, Following(FRESH, NOSPAWN, first, desk), again, desk)
  {
    var s := Apply(FRESH, SpawnBegin(desk, path, None));
    assert path in s.threads.awaiting && s.threads.awaiting[path] == desk;
  }

  // ---------------------------------------------------------------------
  // The control slot
  // ---------------------------------------------------------------------

  ghost predicate SlotOk(s: Plane) {
    && (forall c :: c in s.link.alive ==> c < s.link.connected)
    && (s.link.slot.Some? ==> s.link.slot.value < s.link.connected)
    && (s.link.control.Starting? && s.link.control.conn.Some? ==> s.link.control.conn.value < s.link.connected)
  }

  predicate Restores(step: Step) {
    step.StartEnds? && step.ok
  }

  lemma SlotStep(s: Plane, step: Step)
    requires SlotOk(s) && Enabled(s, step)
    ensures var t := Apply(s, step);
            SlotOk(t) && (!Up(s.link) && !Restores(step) ==>
                            !Up(t.link))
  {
  }

  /** A connection that dropped never comes back; so until some start succeeds,
      the slot it was in holds no live connection. */
  lemma {:induction false} DroppedStaysDown(s: Plane, steps: seq<Step>)
    requires SlotOk(s) && Legal(s, steps) && !Up(s.link)
    requires forall k :: 0 <= k < |steps| ==> !Restores(steps[k])
    ensures var e := Exec(s, steps); SlotOk(e) && !Up(e.link)
    decreases |steps|
  {
    if steps != [] {
      assert !Restores(steps[0]);
      assert forall k :: 0 <= k < |steps[1..]| ==> steps[1..][k] == steps[k + 1];
      SlotStep(s, steps[0]);
      hide Apply, Enabled, SlotOk;
      DroppedStaysDown(Apply(s, steps[0]), steps[1..]);
    }
  }

  /** A caller restarts the plane its connection dropped. */
  lemma RestartSteps(s: Plane, conn: Conn) returns (p: seq<Plane>)
    requires SlotOk(s) && s.link.control.Free? && s.link.slot == Some(conn) && conn in s.link.alive
    ensures |p| == 4 && Enabled(s, Drop(conn)) && p[0] == Apply(s, Drop(conn))
    ensures Enabled(p[0], ClientStart) && p[1] == Apply(p[0], ClientStart)
    ensures Enabled(p[1], Connect) && p[2] == Apply(p[1], Connect)
    ensures Enabled(p[2], StartEnds(true)) && p[3] == Apply(p[2], StartEnds(true))
    ensures p[3].link.slot == Some(s.link.connected) && s.link.connected in p[3].link.alive
    ensures p[3].link.control.Free? && p[3].link.restarts == s.link.restarts && p[3].link.dropping > 0
  {
    hide Exits, Withdrawn, Owns, Unowned, Spawning, Exiting, Dismissing, Reported, Told, Drained, Counted, Emitting;
    var p1 := Apply(s, Drop(conn));
    var p2 := Apply(p1, ClientStart);
    var p3 := Apply(p2, Connect);
    p := [p1, p2, p3, Apply(p3, StartEnds(true))];
  }

  /** A loss handler with the whole budget drains and counts. */
  lemma LossSteps(s: Plane) returns (p: seq<Plane>)
    requires s.link.dropping > 0 && s.link.control.Free? && s.link.restarts == 0
    ensures |p| == 2 && Enabled(s, Drain) && p[0] == Apply(s, Drain)
    ensures Enabled(p[0], Count) && p[1] == Apply(p[0], Count)
    ensures p[1].link.slot == None && p[1].link.alive == s.link.alive
    ensures p[1].link.control == Starting(true, None) && p[1].link.restarts == 1
  {
    hide Exits, Withdrawn, Owns, Unowned, Spawning, Exiting, Dismissing, Reported, Told, Emitting;
    var drained := Apply(s, Drain);
    p := [drained, Apply(drained, Count)];
  }

  /** Why that condition: a caller that restarts the plane while the old one's
      loss handler waits for the lock has its healthy client discarded by it, and
      the budget spent on a third. */
  lemma HandlerDiscardsHealthyClient(s: Plane, conn: Conn)
    requires SlotOk(s) && s.link.control.Free? && s.link.restarts == 0
    requires s.link.slot == Some(conn) && conn in s.link.alive
    ensures var steps := [Drop(conn), ClientStart, Connect, StartEnds(true), Drain, Count];
            && Legal(s, steps)
            && var e := Exec(s, steps);
               && e.link.slot == None && s.link.connected in e.link.alive
               && e.link.control == Starting(true, None) && e.link.restarts == 1
  {
    var starts := RestartSteps(s, conn);
    var losses := LossSteps(starts[3]);
    var p := starts + losses;
    hide Apply, Enabled, SlotOk;
    Then(p[4], Count, []);
    Then(p[3], Drain, [Count]);
    Then(p[2], StartEnds(true), [Drain, Count]);
    Then(p[1], Connect, [StartEnds(true), Drain, Count]);
    Then(p[0], ClientStart, [Connect, StartEnds(true), Drain, Count]);
    Then(s, Drop(conn), [ClientStart, Connect, StartEnds(true), Drain, Count]);
    assert [Count] + [] == [Count] && [Drain] + [Count] == [Drain, Count];
    assert [StartEnds(true)] + [Drain, Count] == [StartEnds(true), Drain, Count];
    assert [Connect] + [StartEnds(true), Drain, Count] == [Connect, StartEnds(true), Drain, Count];
    assert [ClientStart] + [Connect, StartEnds(true), Drain, Count]
        == [ClientStart, Connect, StartEnds(true), Drain, Count];
    assert [Drop(conn)] + [ClientStart, Connect, StartEnds(true), Drain, Count]
        == [Drop(conn), ClientStart, Connect, StartEnds(true), Drain, Count];
  }

  /** And that is reached from a fresh adapter: its first client. */
  lemma FreshClient()
    ensures Legal(FRESH, [ClientStart, Connect, StartEnds(true)])
    ensures var s := Exec(FRESH, [ClientStart, Connect, StartEnds(true)]);
            && SlotOk(s) && s.link.control.Free? && s.link.restarts == 0
            && s.link.slot == Some(0) && 0 in s.link.alive
  {
    var a := Apply(FRESH, ClientStart);
    var b := Apply(a, Connect);
    var c := Apply(b, StartEnds(true));
    assert Enabled(FRESH, ClientStart) && Enabled(a, Connect) && Enabled(b, StartEnds(true));
    assert SlotOk(c) && c.link.slot == Some(0) && 0 in c.link.alive && c.link.control.Free? && c.link.restarts == 0;
    hide Apply, Enabled, SlotOk;
    Then(b, StartEnds(true), []);
    Then(a, Connect, [StartEnds(true)]);
    Then(FRESH, ClientStart, [Connect, StartEnds(true)]);
    assert [StartEnds(true)] + [] == [StartEnds(true)] && [Connect] + [StartEnds(true)] == [Connect, StartEnds(true)];
    assert [ClientStart] + [Connect, StartEnds(true)] == [ClientStart, Connect, StartEnds(true)];
  }
}
