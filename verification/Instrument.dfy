/** One CN instrument's execution state on a node: readiness and its band, the
    published status, and the sampled observations whose volume growth decides
    what is released. `State` and the functions on it are the specification;
    class `Inst` is the state the node thread updates in place.

    Prices and volumes are whole numbers of a fixed decimal unit. A Shanghai date
    is its day number: dates are only compared for equality here, and
    `Session.DateTextOrder` makes that the comparison of their texts.
 */
module Instrument {
  import opened Options
  import opened Session
  import Catalog

  type Id = nat

  datatype Side = Buy | Sell

  datatype Reason =
    | NoCalendar | CalendarRefused | NotTradingDay | DateUnproven | NoReference | ReferenceChanged
    | PriceOutOfBand | FeedLost | RateLimited | PublicationFailed | PublicationPending | NodeNotStarted

  /** A check that passed, or why it did not. */
  datatype Verdict = Pass | Fail(reason: Reason)

  datatype Ready = Ready(prevClose: int, limitUp: int, limitDown: int, bandDate: int)
  datatype Baseline = Baseline(count: nat, volume: nat)

  /** A LIMIT order that is not closed. */
  datatype Resting = Resting(id: Id, side: Side, limit: int, remaining: nat)

  /** One polled item of an instrument with a positive tick. */
  datatype Observed = Observed(board: Catalog.Board, tick: nat, last: int, prevClose: int, volume: nat, ok: Verdict)

  /** A book with one price and size a side; a zero size is an empty side. The
      idle book has both empty. */
  datatype Book =
    | Idle(price: int)
    | Crossing(bidSize: nat, askSize: nat, price: int)

  datatype Plan = Plan(status: Option<Action>, books: seq<Book>)

  /** What gates the instrument. */
  datatype Gate = Gate(
    readiness: Verdict, readyDate: Option<int>, ready: Option<Ready>, blockedDate: Option<int>,
    status: Option<Action>, idleLast: Option<int>)

  /** What the sampled-fill rule remembers. */
  datatype Samples = Samples(count: nat, prevVolume: Option<nat>, baselines: map<Id, Baseline>)

  datatype State = State(busy: bool, tsLast: nat, gate: Gate, samples: Samples)

  const FORGOTTEN := Samples(0, None, map[])
  const FRESH := State(false, 0, Gate(Pass, None, None, None, None, None), FORGOTTEN)

  // ---------------------------------------------------------------------
  // The rules, as functions
  // ---------------------------------------------------------------------

  predicate Compatible(order: Resting, last: int) {
    match order.side
    case Buy => last <= order.limit
    case Sell => last >= order.limit
  }

  /** The status to publish, none when it has not changed. */
  function Changed(held: Option<Action>, action: Action): Option<Action> {
    if held == Some(action) then None else Some(action)
  }

  /** `readiness`: the held gate with its block updated, and the verdict. */
  function Readiness(g: Gate, o: Observed, evidence: Verdict, today: int): (Gate, Verdict) {
    if o.ok.Fail? then (g, o.ok)
    else if evidence.Fail? then (g, evidence)
    else if o.prevClose <= 0 then (g, Fail(NoReference))
    else if g.blockedDate == Some(today) then (g, Fail(ReferenceChanged))
    else if g.ready.Some? && g.ready.value.bandDate == today && g.ready.value.prevClose != o.prevClose then
      (g.(blockedDate := Some(today)), Fail(ReferenceChanged))
    else (g.(blockedDate := None), Pass)
  }

  function ReadyOf(o: Observed, today: int): Ready
    requires o.prevClose > 0 && o.tick > 0
  {
    var band := Catalog.Band(o.prevClose, o.tick, o.board);
    Ready(o.prevClose, band.up, band.down, today)
  }

  /** How an observation stands before anything is released. */
  datatype Standing = Unready | Decreased | Shut | Accepted

  /** Readiness, the volume decrease and the session gate, in that order. */
  function Settle(g: Gate, prevVolume: Option<nat>, o: Observed, evidence: Verdict, now: nat): (Gate, Standing)
    requires o.tick > 0
  {
    var today := Day(now);
    var (blocked, verdict) := Readiness(g, o, evidence, today);
    if verdict.Fail? then
      (blocked.(readiness := verdict, ready := None, status := Some(StatusFor(now, false))), Unready)
    else
      var open := blocked.(readiness := Pass, readyDate := Some(today), ready := Some(ReadyOf(o, today)),
                           idleLast := Some(o.last));
      if prevVolume.Some? && o.volume < prevVolume.value then
        (open.(status := Some(Pause)), Decreased)
      else
        var action := StatusFor(now, true);
        (open.(status := Some(action)), if action == Trading then Accepted else Shut)
  }

  /** The resting orders the per-order baselines release. */
  function Released(resting: seq<Resting>, b: map<Id, Baseline>, count: nat, volume: nat, last: int): seq<Resting> {
    if resting == [] then []
    else
      var order := resting[0];
      var rest := Released(resting[1..], b, count, volume, last);
      if order.id in b && count > b[order.id].count && volume > b[order.id].volume && Compatible(order, last)
      then [order] + rest else rest
  }

  function SideSize(orders: seq<Resting>, side: Side): nat {
    if orders == [] then 0
    else (if orders[0].side == side then orders[0].remaining else 0) + SideSize(orders[1..], side)
  }

  /** A book for each side that has something to fill, or the idle book when
      neither has. A price standing at one of the day's limits shuts the side
      that would push past it. */
  function BooksFor(released: seq<Resting>, last: int, ready: Ready): seq<Book> {
    var buys := if last == ready.limitUp then 0 else SideSize(released, Buy);
    var sells := if last == ready.limitDown then 0 else SideSize(released, Sell);
    var books := (if buys > 0 then [Crossing(0, buys, last)] else [])
               + (if sells > 0 then [Crossing(sells, 0, last)] else []);
    if books == [] then [Idle(last)] else books
  }

  function Ids(resting: seq<Resting>): set<Id> {
    set k | 0 <= k < |resting| :: resting[k].id
  }

  /** Every resting order keeps its baseline or gets this observation's; no
      other order keeps one. */
  function Rebased(b: map<Id, Baseline>, resting: seq<Resting>, first: Baseline): map<Id, Baseline> {
    map id | id in Ids(resting) :: if id in b then b[id] else first
  }

  /** `observe`. */
  function Observe(s: State, o: Observed, evidence: Verdict, now: nat, resting: seq<Resting>): (State, Plan)
    requires o.tick > 0
  {
    var (gate, standing) := Settle(s.gate, s.samples.prevVolume, o, evidence, now);
    var status := Changed(s.gate.status, gate.status.value);
    match standing
    case Unready => (s.(gate := gate, samples := FORGOTTEN), Plan(status, []))
    case Decreased => (s.(gate := gate, samples := FORGOTTEN), Plan(status, [Idle(o.last)]))
    case Shut => (s.(gate := gate), Plan(status, [Idle(o.last)]))
    case Accepted =>
      var count := s.samples.count + 1;
      var grown := s.samples.prevVolume.Some? && o.volume > s.samples.prevVolume.value;
      var released := if grown then Released(resting, s.samples.baselines, count, o.volume, o.last) else [];
      var samples := Samples(count, Some(o.volume),
                             Rebased(s.samples.baselines, resting, Baseline(count, o.volume)));
      (s.(gate := gate, samples := samples), Plan(status, BooksFor(released, o.last, gate.ready.value)))
  }

  // ---------------------------------------------------------------------
  // When an observation counts
  // ---------------------------------------------------------------------

  /** The date's reference is not the one accepted earlier on it, now or before. */
  predicate ReferenceMoved(g: Gate, o: Observed, today: int) {
    || g.blockedDate == Some(today)
    || (g.ready.Some? && g.ready.value.bandDate == today && g.ready.value.prevClose != o.prevClose)
  }

  /** The poll, the day's evidence and a positive reference, all before the block. */
  predicate Evidenced(o: Observed, evidence: Verdict) {
    o.ok.Pass? && evidence.Pass? && o.prevClose > 0
  }

  predicate Trustworthy(g: Gate, o: Observed, evidence: Verdict, today: int) {
    Evidenced(o, evidence) && !ReferenceMoved(g, o, today)
  }

  predicate Decreases(s: State, o: Observed) {
    s.samples.prevVolume.Some? && o.volume < s.samples.prevVolume.value
  }

  predicate Counts(s: State, o: Observed, evidence: Verdict, now: nat) {
    Trustworthy(s.gate, o, evidence, Day(now)) && !Decreases(s, o) && InSession(now)
  }

  /** An observation is counted exactly when it can be trusted, its volume did not
      decrease and its instant is in a session; the instrument trades then and
      only then, and nothing crosses otherwise. One that cannot be trusted, or
      decreases, leaves nothing remembered; one outside a session changes nothing
      of what is. */
  lemma ObservationCounts(s: State, o: Observed, evidence: Verdict, now: nat, resting: seq<Resting>)
    requires o.tick > 0
    ensures var (t, plan) := Observe(s, o, evidence, now, resting);
            var counts, trusted := Counts(s, o, evidence, now), Trustworthy(s.gate, o, evidence, Day(now));
            && (t.samples.count == s.samples.count + 1 <==> counts)
            && (t.gate.status == Some(Trading) <==> counts)
            && (counts ==> t.samples.prevVolume == Some(o.volume))
            && (trusted && !Decreases(s, o) && !InSession(now) ==> t.samples == s.samples)
            && (!trusted || Decreases(s, o) ==> t.samples == FORGOTTEN)
            && (plan.books == [] <==> !trusted)
            && (trusted && !counts ==> plan.books == [Idle(o.last)])
            && (forall k :: 0 <= k < |plan.books| && plan.books[k].Crossing? ==>
                  counts && s.samples.prevVolume.Some? && o.volume > s.samples.prevVolume.value)
            && plan.status == (if t.gate.status == s.gate.status then None else t.gate.status)
            && t.busy == s.busy && t.tsLast == s.tsLast
  {
    hide Released, Rebased, Day;
    assert SideSize([], Buy) == 0 && SideSize([], Sell) == 0;
  }

  /** What it does to the gate: readiness, today's reference and its band inside
      the limits, the price a MARKET executes against; or why not, with the block
      that a moved reference leaves for the rest of the date. */
  lemma ObservationGates(s: State, o: Observed, evidence: Verdict, now: nat, resting: seq<Resting>)
    requires o.tick > 0
    ensures var g, today := Observe(s, o, evidence, now, resting).0.gate, Day(now);
            && (g.readiness.Pass? <==> Trustworthy(s.gate, o, evidence, today))
            && (if g.readiness.Pass? then
                  && g.readyDate == Some(today) && g.idleLast == Some(o.last) && g.blockedDate.None?
                  && g.ready.Some? && g.ready.value.prevClose == o.prevClose && g.ready.value.bandDate == today
                  && Catalog.Bounds(g.ready.value.limitUp, g.ready.value.limitDown)
                     == Catalog.Band(o.prevClose, o.tick, o.board)
                  && 0 < g.ready.value.limitDown < g.ready.value.limitUp && o.prevClose < g.ready.value.limitUp
                  && ReadyAt(g, now).Pass?
                else
                  && g.ready.None? && g.readyDate == s.gate.readyDate && g.idleLast == s.gate.idleLast
                  && g.readiness == (if o.ok.Fail? then o.ok
                                     else if evidence.Fail? then evidence
                                     else Fail(if o.prevClose <= 0 then NoReference else ReferenceChanged))
                  && g.blockedDate == (if Evidenced(o, evidence) then Some(today) else s.gate.blockedDate))
            && g.status.Some? && (g.status == Some(Close) ==> !InSession(now))
  {
    hide Released, Rebased, BooksFor, Catalog.Band, Day;
    if o.prevClose > 0 {
      Catalog.BandHasRoom(o.prevClose, o.tick, o.board);
    }
  }

  /** `baseline`: a LIMIT is admitted at the latest accepted observation. */
  function Baselined(s: State, id: Id): State {
    var volume := if s.samples.prevVolume.Some? then s.samples.prevVolume.value else 0;
    s.(samples := s.samples.(baselines := s.samples.baselines[id := Baseline(s.samples.count, volume)]))
  }

  /** `stamp`: at least the candidate, and above everything stamped before. */
  function Stamp(s: State, candidate: nat): nat {
    if candidate > s.tsLast + 1 then candidate else s.tsLast + 1
  }

  /** It is the least such. */
  lemma StampIsLeast(s: State, candidate: nat)
    ensures var ts := Stamp(s, candidate);
            && ts >= candidate && ts > s.tsLast
            && (ts == candidate || ts == s.tsLast + 1)
  {
  }

  /** `fail_local`: non-executable, paused, not busy, and nothing remembered. */
  function Failed(s: State, reason: Reason, at: nat): State {
    var gate := s.gate.(readiness := Fail(reason), ready := None, status := Some(Pause));
    var t := s.(busy := false, gate := gate, samples := FORGOTTEN);
    if s.gate.status == Some(Pause) then t else t.(tsLast := Stamp(s, at))
  }

  // ---------------------------------------------------------------------
  // Readiness as of an instant, and the status it gives
  // ---------------------------------------------------------------------

  /** `ready_at`: readiness held from another date is no calendar. */
  function ReadyAt(g: Gate, now: nat): Verdict {
    if g.readiness.Fail? then g.readiness
    else if g.readyDate.Some? && g.readyDate.value != Day(now) then Fail(NoCalendar)
    else Pass
  }

  /** The status the gate asks for at an instant. */
  function Gated(g: Gate, now: nat): Action {
    StatusFor(now, ReadyAt(g, now).Pass?)
  }

  /** What Yahoo's cycle writes: the calendar's verdict for today, and no band. */
  function Dated(g: Gate, day: Verdict, now: nat): Gate {
    g.(readiness := day, readyDate := if day.Pass? then Some(Day(now)) else None)
  }

  /** Yahoo's cycle makes the instrument ready on its own date exactly when the
      calendar passes it, and on no other; the rest of the gate stays. */
  lemma CalendarOfTheDay(g: Gate, day: Verdict, now: nat, t: nat)
    ensures var h := Dated(g, day, now);
            && ReadyAt(h, t) == (if day.Fail? then day else if Day(t) == Day(now) then Pass else Fail(NoCalendar))
            && h.ready == g.ready && h.blockedDate == g.blockedDate && h.status == g.status && h.idleLast == g.idleLast
  {
    hide Day;
  }

  /** Between one boundary and the next the status held evidence asks for cannot
      change, so the one armed alert loses none: across the break, midnight,
      weekends and the rollover of readiness. */
  lemma StatusConstantBetweenBoundaries(g: Gate, t: nat, u: nat)
    requires t <= u < NextBoundary(t)
    ensures Gated(g, u) == Gated(g, t)
  {
    hide StatusFor, NextBoundary, Day, Stretch;
    StretchStatus(t, ReadyAt(g, t).Pass?);
    StretchStatus(u, ReadyAt(g, u).Pass?);
    if t < HORIZON {
      SameStretch(t, u);
    } else {
      NextBoundaryPastHorizon(t);
      PastHorizonStretch(t);
      PastHorizonStretch(u);
    }
  }

  /** And every weekday boundary does change it for an instrument ready that
      day: none of the four alerts could be dropped. */
  lemma EveryBoundaryChangesStatus(g: Gate, day: int, k: nat, t: nat)
    requires k < 4 && !Weekend(day) && t == Instant(day, BOUNDARIES[k]) && 0 < t <= HORIZON
    requires g.readiness.Pass? && g.readyDate == Some(day)
    ensures Gated(g, t - 1) != Gated(g, t)
  {
    hide StatusFor;
    DayOfInstant(day, t);
    DayOfInstant(day, t - 1);
    DayBounds(t);
    DayBounds(t - 1);
    StretchStatus(t, true);
    StretchStatus(t - 1, true);
    assert Stretch(t) == k + 1 && Stretch(t - 1) == k;
  }

  // ---------------------------------------------------------------------
  // The state the node thread updates
  // ---------------------------------------------------------------------

  class Inst {
    var busy: bool
    var tsLast: nat
    var readiness: Verdict
    var readyDate: Option<int>
    var ready: Option<Ready>
    var status: Option<Action>
    var idleLast: Option<int>
    var count: nat
    var prevVolume: Option<nat>
    var baselines: map<Id, Baseline>
    var blockedDate: Option<int>

    ghost function View(): State
      reads this
    {
      State(busy, tsLast, Gate(readiness, readyDate, ready, blockedDate, status, idleLast),
            Samples(count, prevVolume, baselines))
    }

    constructor ()
      ensures View() == FRESH
    {
      busy, tsLast, readiness := false, 0, Pass;
      readyDate, ready, status, idleLast := None, None, None, None;
      count, prevVolume, baselines, blockedDate := 0, None, map[], None;
    }

    method Forget()
      modifies this
      ensures View() == old(View()).(samples := FORGOTTEN)
    {
      count := 0;
      prevVolume := None;
      baselines := map[];
    }

    method SetStatus(action: Action) returns (changed: Option<Action>)
      modifies this`status
      ensures changed == Changed(old(status), action)
      ensures status == Some(action)
    {
      if status == Some(action) {
        return None;
      }
      status := Some(action);
      changed := Some(action);
    }

    method NextStamp(candidate: nat) returns (ts: nat)
      modifies this`tsLast
      ensures ts == Stamp(old(View()), candidate) && tsLast == ts
      ensures ts > old(tsLast) && ts >= candidate
    {
      ts := if candidate > tsLast + 1 then candidate else tsLast + 1;
      tsLast := ts;
    }

    method RecordBaseline(id: Id)
      modifies this
      ensures View() == Baselined(old(View()), id)
    {
      var volume := match prevVolume case Some(v) => v case None => 0;
      baselines := baselines[id := Baseline(count, volume)];
    }

    /** `readiness`: the verdict, and the block a changed reference leaves. */
    method CheckReadiness(o: Observed, evidence: Verdict, today: int) returns (verdict: Verdict)
      modifies this`blockedDate
      ensures (View().gate, verdict) == Readiness(old(View().gate), o, evidence, today)
    {
      if o.ok.Fail? {
        return o.ok;
      }
      if evidence.Fail? {
        return evidence;
      }
      if o.prevClose <= 0 {
        return Fail(NoReference);
      }
      if blockedDate == Some(today) {
        return Fail(ReferenceChanged);
      }
      blockedDate := None;
      if ready.Some? && ready.value.bandDate == today && ready.value.prevClose != o.prevClose {
        blockedDate := Some(today);
        return Fail(ReferenceChanged);
      }
      verdict := Pass;
    }

    /** The baselines after an accepted observation: an order without one gets
        it, an order no longer resting loses it. */
    method Rebase(resting: seq<Resting>, volume: nat)
      modifies this`baselines
      ensures baselines == Rebased(old(baselines), resting, Baseline(count, volume))
    {
      var was := baselines;
      for k := 0 to |resting|
        invariant baselines.Keys == was.Keys + Ids(resting[..k])
        invariant forall id :: id in baselines ==>
                    baselines[id] == if id in was then was[id] else Baseline(count, volume)
      {
        assert Ids(resting[..k + 1]) == Ids(resting[..k]) + {resting[k].id} by {
          assert resting[..k + 1][k] == resting[k];
          assert forall i :: 0 <= i < k ==> resting[..k + 1][i] == resting[..k][i];
        }
        if resting[k].id !in baselines {
          baselines := baselines[resting[k].id := Baseline(count, volume)];
        }
      }
      assert resting[..|resting|] == resting;
      baselines := map id | id in baselines && id in Ids(resting) :: baselines[id];
    }

    /** One provider observation, turned into what the node is told. */
    method ObserveItem(o: Observed, evidence: Verdict, now: nat, resting: seq<Resting>) returns (plan: Plan)
      requires o.tick > 0
      modifies this
      ensures (View(), plan) == Observe(old(View()), o, evidence, now, resting)
    {
      hide Released, BooksFor, StatusFor, Day, Rebased;
      var today := Day(now);
      var verdict := CheckReadiness(o, evidence, today);
      if verdict.Fail? {
        readiness := verdict;
        ready := None;
        Forget();
        var changed := SetStatus(StatusFor(now, false));
        return Plan(changed, []);
      }
      readiness := Pass;
      readyDate := Some(today);
      ready := Some(ReadyOf(o, today));
      idleLast := Some(o.last);
      if prevVolume.Some? && o.volume < prevVolume.value {
        Forget();
        var changed := SetStatus(Pause);
        return Plan(changed, [Idle(o.last)]);
      }
      var action := StatusFor(now, true);
      var changed := SetStatus(action);
      if action != Trading {
        return Plan(changed, [Idle(o.last)]);
      }
      var released := Accept(o, resting);
      plan := Plan(changed, BooksFor(released, o.last, ready.value));
    }

    /** An accepted observation: what it releases, and the baselines after it. */
    method Accept(o: Observed, resting: seq<Resting>) returns (released: seq<Resting>)
      modifies this`count, this`prevVolume, this`baselines
      ensures count == old(count) + 1 && prevVolume == Some(o.volume)
      ensures baselines == Rebased(old(baselines), resting, Baseline(count, o.volume))
      ensures released == if old(prevVolume).Some? && o.volume > old(prevVolume).value
                          then Released(resting, old(baselines), count, o.volume, o.last) else []
    {
      count := count + 1;
      var grown := prevVolume.Some? && o.volume > prevVolume.value;
      released := if grown then Released(resting, baselines, count, o.volume, o.last) else [];
      prevVolume := Some(o.volume);
      Rebase(resting, o.volume);
    }

    /** A publication that could not be confirmed, or a feed that failed. */
    method FailLocal(reason: Reason, at: nat)
      modifies this
      ensures View() == Failed(old(View()), reason, at)
    {
      readiness := Fail(reason);
      ready := None;
      busy := false;
      Forget();
      var changed := SetStatus(Pause);
      if changed.Some? {
        var ts := NextStamp(at);
      }
    }
  }
}
