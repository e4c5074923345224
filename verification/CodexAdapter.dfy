/** The Codex adapter as an object: each method is one section its locks make
    atomic. `trace` is the run of the control plane's state machine the object
    has made since it was new, so what is proved of runs holds of the object.
 */
module CodexAdapter {
  import opened Options
  import opened Codex

  /** The frame that announces a thread, when nothing comes between its sections. */
  function StartedSteps(s: Plane, thread: Thread, cwd: Path, ephemeral: bool, status: Option<Status>,
                        owner: Option<Desk>): seq<Step> {
    if ephemeral then []
    else
      (if cwd in s.threads.awaiting then [Claim(cwd, thread)] + [Record(s.threads.awaiting[cwd], thread)] else [])
      + (if status.Some? then [Report(thread, status.value, owner)] else [])
  }

  lemma RecordIs(s: Plane, desk: Desk, thread: Thread)
    requires (desk, thread) in s.claims
    ensures Apply(s, Record(desk, thread))
         == Plane(s.threads.(byDesk := s.threads.byDesk[desk := thread]), s.claims - multiset{(desk, thread)}, s.link,
                  Emitting(s.tally, multiset{Discovered(desk, thread)}))
  {
  }

  lemma ReportIs(s: Plane, thread: Thread, status: Status, owner: Option<Desk>)
    requires if owner.Some? then Owns(s.threads.byDesk, owner.value, thread) else Unowned(s.threads.byDesk, thread)
    ensures Enabled(s, Report(thread, status, owner))
    ensures Apply(s, Report(thread, status, owner))
         == Plane(Reported(s.threads, thread, status, owner), s.claims, s.link,
                  Emitting(s.tally, Told(s.threads.ready, status, owner)))
  {
  }

  lemma SpawnIs(s: Plane, desk: Desk, path: Path, resume: Option<Thread>)
    ensures Enabled(s, SpawnBegin(desk, path, resume))
    ensures Apply(s, SpawnBegin(desk, path, resume))
         == s.(threads := Spawning(s.threads, desk, path, resume))
  {
  }

  lemma ExitIs(s: Plane, desk: Desk)
    ensures Apply(s, Exit(desk))
         == Plane(Exiting(s.threads, desk), s.claims, s.link, Dismissing(s.tally, s.threads.live, desk))
  {
  }

  lemma DrainIs(s: Plane)
    requires s.link.dropping > 0
    ensures Enabled(s, Drain)
    ensures Apply(s, Drain)
         == Plane(Drained(s.threads), s.claims,
                  s.link.(dropping := s.link.dropping - 1, counting := s.link.counting + 1),
                  Emitting(s.tally, multiset(Exits(s.threads.live))))
  {
  }

  // ---------------------------------------------------------------------
  // The object's history is a run
  // ---------------------------------------------------------------------

  ghost predicate Ran(trace: seq<Step>, s: Plane) {
    Legal(FRESH, trace) && Exec(FRESH, trace) == s
  }

  lemma RanOn(trace: seq<Step>, s: Plane, steps: seq<Step>)
    requires Ran(trace, s) && Legal(s, steps)
    ensures Ran(trace + steps, Exec(s, steps))
  {
    hide Apply, Enabled;
    Concatenate(FRESH, trace, steps);
  }

  lemma RanOne(trace: seq<Step>, s: Plane, step: Step)
    requires Ran(trace, s) && Enabled(s, step)
    ensures Ran(trace + [step], Apply(s, step))
  {
    hide Apply, Enabled;
    Then(s, step, []);
    assert [step] + [] == [step];
    RanOn(trace, s, [step]);
  }

  lemma {:induction false} SplitRun(s: Plane, steps: seq<Step>, more: seq<Step>)
    requires Legal(s, steps + more)
    ensures Legal(s, steps) && Legal(Exec(s, steps), more) && Exec(Exec(s, steps), more) == Exec(s, steps + more)
    decreases |steps|
  {
    hide Apply, Enabled;
    if steps == [] {
      assert steps + more == more;
    } else {
      assert (steps + more)[1..] == steps[1..] + more && (steps + more)[0] == steps[0];
      SplitRun(Apply(s, steps[0]), steps[1..], more);
    }
  }

  class Inner {
    var byDesk: map<Desk, Thread>
    var live: map<Desk, nat>
    var awaiting: map<Path, Desk>
    var status: map<Thread, Status>
    var ready: set<Desk>
    var slot: Option<Conn>
    var restarts: nat
    var unavailable: bool
    var events: multiset<Event>
    var claims: multiset<(Desk, Thread)>
    var link: Link
    ghost var tally: Tally
    ghost var trace: seq<Step>

    ghost function Now(): Plane
      reads this
    {
      Plane(Threads(byDesk, live, awaiting, status, ready), claims,
            link.(slot := slot, restarts := restarts, unavailable := unavailable), tally.(log := events))
    }

    ghost predicate Valid()
      reads this
    {
      Ran(trace, Now())
    }

    constructor ()
      ensures Valid() && trace == [] && Now() == FRESH
    {
      byDesk, live, awaiting, status, ready := map[], map[], map[], map[], {};
      slot, restarts, unavailable, events := None, 0, false, multiset{};
      claims, link, tally, trace := multiset{}, FRESH.link, FRESH.tally, [];
    }

    // -------------------------------------------------------------------
    // What holds of the object, whatever was called on it
    // -------------------------------------------------------------------

    /** Since any moment of its life, a desk that was not cleared was announced
        ready at most once, and exactly if it became ready. */
    lemma AnnouncedOnce(from: nat, desk: Desk)
      requires Valid() && from <= |trace| && forall k :: from <= k < |trace| ==> !Clears(trace[k], desk)
      ensures Legal(FRESH, trace[..from])
      ensures var before := Exec(FRESH, trace[..from]);
              events[Ready(desk)] == before.tally.log[Ready(desk)] + Gained(before.threads.ready, ready, desk)
    {
      assert trace == trace[..from] + trace[from..];
      SplitRun(FRESH, trace[..from], trace[from..]);
      assert forall k :: 0 <= k < |trace[from..]| ==> trace[from..][k] == trace[from + k];
      ReadyOnce(Exec(FRESH, trace[..from]), trace[from..], desk);
    }

    /** Since its last reset, its loss handlers started the plane exactly if any
        loss was counted, and at most once up to as many as the counter holds. */
    lemma RestartedOnce(reset: nat)
      requires Valid() && reset < |trace| && trace[reset] == Reset && Reset !in trace[reset + 1..]
      ensures Legal(FRESH, trace[..reset])
      ensures var before, losses := Exec(FRESH, trace[..reset]), Losses(trace[reset + 1..]);
              && (Now().link.handlerStarts == before.link.handlerStarts <==> losses == 0)
              && (Now().link.handlerStarts <= before.link.handlerStarts + 1 <==> losses <= WRAP)
    {
      hide Apply, Enabled;
      assert trace == trace[..reset] + trace[reset..];
      SplitRun(FRESH, trace[..reset], trace[reset..]);
      var before := Exec(FRESH, trace[..reset]);
      assert trace[reset..][0] == Reset && trace[reset..][1..] == trace[reset + 1..];
      RestartBudget(before, trace[reset + 1..]);
    }

    /** Every terminal it started is live, was told exited once, or was dismissed. */
    lemma TerminalsAccounted(desk: Desk)
      requires Valid()
      ensures tally.terminals[desk]
           == events[Exited(desk)] + tally.dismissed[desk] + (if desk in live then 1 else 0)
    {
      FreshIsAccounted();
      ExitsAreAccounted(FRESH, trace);
      assert AccountedFor(Now(), desk);
    }

    /** Its announcements of a desk are all for threads of the desk's latest spawn
        then, as long as no spawn of the desk came upon what an earlier one left. */
    lemma AnnouncesItsOwn(desk: Desk)
      requires Valid() && NeverInherits(FRESH, trace, desk)
      ensures OwnReadies(FRESH, NOSPAWN, trace, desk)
    {
      ReadyIsLatestSpawns(trace, desk);
    }

    /** And whatever it has been through, the next spawn of a desk is announced
        only for its own threads exactly when no claim of the desk is still to be
        recorded but of the thread it resumes, and the desk awaits a thread in no
        directory but the one the spawn is to await it in. */
    lemma NextSpawnAnnouncesItsOwn(desk: Desk, workspace: Path, resume: Option<Thread>)
      requires Valid()
      ensures AnnouncesOnlyItsOwn(Now(), SpawnBegin(desk, workspace, resume), desk)
         <==> && (forall c :: c in claims && c.0 == desk ==> resume == Some(c.1))
              && (forall p :: p in awaiting && awaiting[p] == desk ==> resume.None? && p == workspace)
    {
      SpawnAnnouncesItsOwnExactly(Now(), SpawnBegin(desk, workspace, resume), desk);
      hide AnnouncesOnlyItsOwn;
    }

    // -------------------------------------------------------------------
    // Threads
    // -------------------------------------------------------------------

    /** `thread/started`: a desk that awaits this directory takes the thread, and
        a status the frame carries is reported. */
    method ThreadStarted(thread: Thread, cwd: Path, ephemeral: bool, reported: Option<Status>)
      returns (ghost owner: Option<Desk>)
      requires Valid()
      modifies this
      ensures Valid() && trace == old(trace) + StartedSteps(old(Now()), thread, cwd, ephemeral, reported, owner)
    {
      hide Apply, Enabled, Ran;
      owner := None;
      if ephemeral {
        assert trace == trace + [];
        return;
      }
      if cwd in awaiting {
        var desk := Take(cwd, thread);
        Record(desk, thread);
      }
      if reported.Some? {
        owner := Report(thread, reported.value);
      }
    }

    method Take(cwd: Path, thread: Thread) returns (desk: Desk)
      requires Valid() && cwd in awaiting
      modifies this`awaiting, this`claims, this`trace
      ensures Valid() && trace == old(trace) + [Step.Claim(cwd, thread)]
      ensures desk == old(awaiting)[cwd] && (desk, thread) in claims
    {
      ghost var s, step := Now(), Step.Claim(cwd, thread);
      RanOne(trace, s, step);
      hide Ran, Enabled;
      desk := awaiting[cwd];
      awaiting := awaiting - {cwd};
      claims := claims + multiset{(desk, thread)};
      trace := trace + [step];
      assert Now() == Apply(s, step);
    }

    method Record(desk: Desk, thread: Thread)
      requires Valid() && (desk, thread) in claims
      modifies this`byDesk, this`claims, this`events, this`trace
      ensures Valid() && trace == old(trace) + [Step.Record(desk, thread)]
    {
      ghost var s, step := Now(), Step.Record(desk, thread);
      RecordIs(s, desk, thread);
      RanOne(trace, s, step);
      hide Ran, Apply, Enabled;
      byDesk := byDesk[desk := thread];
      claims := claims - multiset{(desk, thread)};
      events := events + multiset{Discovered(desk, thread)};
      trace := trace + [step];
      assert Now() == Apply(s, step);
    }

    /** The one place readiness is decided. */
    method Report(thread: Thread, seen: Status) returns (ghost owner: Option<Desk>)
      requires Valid()
      modifies this`status, this`ready, this`events, this`trace
      ensures Valid() && trace == old(trace) + [Step.Report(thread, seen, owner)]
    {
      hide Apply, Enabled, Unowned, Owns, Told, Ran, Reported;
      var found := DeskOf(thread);
      owner := found;
      ghost var s, step := Now(), Step.Report(thread, seen, found);
      ReportIs(s, thread, seen, found);
      RanOne(trace, s, step);
      Remember(thread, seen, found);
      trace := trace + [step];
      assert Now() == Apply(s, step);
    }

    /** The status, and what it makes known of the desk that maps to its thread. */
    method Remember(thread: Thread, seen: Status, found: Option<Desk>)
      modifies this`status, this`ready, this`events
      ensures Now().threads == Reported(old(Now()).threads, thread, seen, found)
      ensures events == old(events) + Told(old(ready), seen, found)
    {
      status := status[thread := seen];
      if found.None? {
        return;
      }
      var desk := found.value;
      if seen == Idle {
        if desk !in ready {
          events := events + multiset{Ready(desk)};
        }
        ready := ready + {desk};
      }
      if seen == SystemError {
        events := events + multiset{Attention(desk)};
      }
    }

    /** Some desk that maps to the thread. */
    method DeskOf(thread: Thread) returns (found: Option<Desk>)
      ensures if found.Some? then Owns(byDesk, found.value, thread)
              else Unowned(byDesk, thread)
    {
      if Unowned(byDesk, thread) {
        return None;
      }
      var desk :| desk in byDesk && Owns(byDesk, desk, thread);
      found := Some(desk);
    }

    // -------------------------------------------------------------------
    // Sessions
    // -------------------------------------------------------------------

    /** What a spawn clears and awaits, before its terminal starts. */
    method BeginSpawn(desk: Desk, workspace: Path, resume: Option<Thread>)
      requires Valid()
      modifies this`ready, this`byDesk, this`status, this`awaiting, this`trace
      ensures Valid() && trace == old(trace) + [SpawnBegin(desk, workspace, resume)]
    {
      ghost var s, step := Now(), SpawnBegin(desk, workspace, resume);
      SpawnIs(s, desk, workspace, resume);
      RanOne(trace, s, step);
      hide Ran, Apply, Enabled, Spawning;
      Forget(desk, workspace, resume);
      assert Now() == Apply(s, step);
      trace := trace + [step];
    }

    /** The thread the desk resumes, or the directory it awaits a new one from;
        nothing known of an earlier one. */
    method Forget(desk: Desk, workspace: Path, resume: Option<Thread>)
      modifies this`ready, this`byDesk, this`status, this`awaiting
      ensures Now() == old(Now()).(threads := Spawning(old(Now()).threads, desk, workspace, resume))
    {
      ready := ready - {desk};
      if resume.Some? {
        byDesk := byDesk[desk := resume.value];
        status := status - {resume.value};
      } else {
        byDesk := byDesk - {desk};
        awaiting := awaiting[workspace := desk];
      }
    }

    method EndSpawn(desk: Desk, pid: nat)
      requires Valid()
      modifies this`live, this`tally, this`trace
      ensures Valid() && trace == old(trace) + [SpawnDone(desk, pid)]
    {
      ghost var s, step := Now(), SpawnDone(desk, pid);
      RanOne(trace, s, step);
      hide Ran, Enabled;
      tally := Dismissing(tally, live, desk);
      tally := tally.(terminals := tally.terminals + multiset{desk});
      live := live[desk := pid];
      trace := trace + [step];
      assert Now() == Apply(s, step);
    }

    method LeaveDesk(desk: Desk)
      requires Valid()
      modifies this`ready, this`live, this`awaiting, this`tally, this`trace
      ensures Valid() && trace == old(trace) + [Exit(desk)]
    {
      ghost var s, step := Now(), Exit(desk);
      ExitIs(s, desk);
      RanOne(trace, s, step);
      hide Ran, Apply, Enabled;
      tally := Dismissing(tally, live, desk);
      ready := ready - {desk};
      live := live - {desk};
      awaiting := Withdrawn(awaiting, desk);
      trace := trace + [step];
      assert Now() == Apply(s, step);
    }

    // -------------------------------------------------------------------
    // Losses
    // -------------------------------------------------------------------

    /** A connection's reader ends. */
    method Dropped(conn: Conn)
      requires Valid() && conn in link.alive
      modifies this`link, this`trace
      ensures Valid() && trace == old(trace) + [Drop(conn)]
    {
      ghost var s, step := Now(), Drop(conn);
      RanOne(trace, s, step);
      hide Ran, Enabled;
      link := link.(alive := link.alive - {conn}, dropping := link.dropping + 1);
      trace := trace + [step];
      assert Now() == Apply(s, step);
    }

    /** A loss handler's first half: every desk then live is told, one at a time. */
    method DrainLive()
      requires Valid() && link.dropping > 0
      modifies this`ready, this`awaiting, this`live, this`events, this`link, this`trace
      ensures Valid() && trace == old(trace) + [Drain]
    {
      ghost var s := Now();
      DrainIs(s);
      RanOne(trace, s, Drain);
      hide Ran, Apply, Enabled, Exits, Drained;
      var desks := TakeLive();
      trace := trace + [Drain];
      TellExited(desks);
      assert Now() == Apply(s, Drain);
    }

    method TakeLive() returns (desks: map<Desk, nat>)
      requires link.dropping > 0
      modifies this`ready, this`awaiting, this`live, this`link
      ensures desks == old(live) && Now().threads == Drained(old(Now()).threads)
      ensures link == old(link).(dropping := old(link).dropping - 1, counting := old(link).counting + 1)
    {
      desks := live;
      ready, awaiting, live := {}, map[], map[];
      link := link.(dropping := link.dropping - 1, counting := link.counting + 1);
    }

    method TellExited(live: map<Desk, nat>)
      modifies this`events
      ensures events == old(events) + multiset(Exits(live))
    {
      var left := live;
      while left != map[]
        invariant left.Keys <= live.Keys
        invariant events == old(events) + multiset(Exits(live) - Exits(left))
        decreases |left|
      {
        var desk :| desk in left;
        var rest := left - {desk};
        assert Exits(live) - Exits(rest) == (Exits(live) - Exits(left)) + {Exited(desk)};
        assert Exited(desk) !in Exits(live) - Exits(left);
        events := events + multiset{Exited(desk)};
        left := rest;
      }
      assert Exits(live) - Exits(left) == Exits(live);
    }

    /** Its second half, under the control lock: whether it starts the plane. */
    method CountLoss() returns (starts: bool)
      requires Valid() && link.counting > 0 && link.control.Free?
      modifies this`slot, this`restarts, this`unavailable, this`link, this`trace
      ensures Valid() && trace == old(trace) + [Count]
      ensures starts <==> old(restarts) == 0
    {
      ghost var s := Now();
      RanOne(trace, s, Count);
      hide Ran, Enabled;
      slot := None;
      starts := restarts == 0;
      link := link.(counting := link.counting - 1, control := if starts then Starting(true, None) else Free,
                    handlerStarts := if starts then link.handlerStarts + 1 else link.handlerStarts);
      restarts := (restarts + 1) % WRAP;
      unavailable := unavailable || !starts;
      trace := trace + [Count];
      assert Now() == Apply(s, Count);
    }

    method ResetFailures()
      requires Valid()
      modifies this`restarts, this`unavailable, this`trace
      ensures Valid() && trace == old(trace) + [Reset]
    {
      ghost var s := Now();
      RanOne(trace, s, Reset);
      hide Ran, Enabled;
      restarts, unavailable := 0, false;
      trace := trace + [Reset];
      assert Now() == Apply(s, Reset);
    }

    // -------------------------------------------------------------------
    // Starts, under the control lock
    // -------------------------------------------------------------------

    /** `client`: the live client in the slot, or the beginning of a start. */
    method FindClient() returns (found: Option<Conn>)
      requires Valid() && link.control.Free?
      modifies this`link, this`trace
      ensures Valid() && trace == if found.Some? then old(trace) else old(trace) + [ClientStart]
      ensures found.Some? ==> found == slot && found.value in link.alive && link == old(link)
    {
      if slot.Some? && slot.value in link.alive {
        return slot;
      }
      found := None;
      ghost var s := Now();
      RanOne(trace, s, ClientStart);
      hide Ran, Enabled;
      link := link.(control := Starting(false, None));
      trace := trace + [ClientStart];
      assert Now() == Apply(s, ClientStart);
    }

    /** The start's connection is up, and its reader running. */
    method Connected() returns (conn: Conn)
      requires Valid() && link.control.Starting? && link.control.conn.None?
      modifies this`link, this`trace
      ensures Valid() && trace == old(trace) + [Connect] && conn in link.alive
    {
      ghost var s := Now();
      RanOne(trace, s, Connect);
      hide Ran, Enabled;
      conn := link.connected;
      link := link.(control := Starting(link.control.forLoss, Some(conn)), alive := link.alive + {conn},
                    connected := conn + 1);
      trace := trace + [Connect];
      assert Now() == Apply(s, Connect);
    }

    method FinishStart(ok: bool)
      requires Valid() && link.control.Starting? && (ok ==> link.control.conn.Some?)
      modifies this`link, this`slot, this`unavailable, this`trace
      ensures Valid() && trace == old(trace) + [StartEnds(ok)]
    {
      ghost var s, step := Now(), StartEnds(ok);
      RanOne(trace, s, step);
      hide Ran, Enabled;
      if ok {
        slot := link.control.conn;
      } else if link.control.forLoss {
        unavailable := true;
      }
      link := link.(control := Free);
      trace := trace + [step];
      assert Now() == Apply(s, step);
    }
  }
}
