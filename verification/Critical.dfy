/** The critical section of one instrument: a crossing book the poller has up,
    or a sized book a MARKET admission has up, until the idle book is back. The
    poller and any number of admissions interleave at every point where the code
    waits; a step is what runs between two waits.
 */
module Critical {
  import opened Options
  import opened Session
  import opened Instrument
  import Catalog
  import M = Matching

  type Order = nat

  datatype Actor = Poller | By(order: Order)

  /** What left the node since the last reset, oldest first: a book, a status,
      an advance of the baselines, an order handed over. */
  datatype Event =
    | Quote(who: Actor, ts: nat, book: Book)
    | Status(ts: nat, action: Action)
    | Advance(who: Actor)
    | Handed(who: Actor)

  /** Where the poller waits: between cycles, for a crossing book to be seen, or
      for the idle book after it; `rest` are the books still to publish. */
  datatype PollAt = Between | CrossingUp(at: nat, price: int, rest: seq<Book>) | IdleUp(at: nat, rest: seq<Book>)

  /** Where an admission waits. `Loose` has released the instrument on an idle
      book it never saw, and still has to mark the instrument failed. */
  datatype OrderAt =
    | Asking(market: bool) | SizedUp(at: nat, book: Book) | Confirmed(at: nat, book: Book)
    | Settling(at: nat, book: Book) | RestoredUp(at: nat) | Loose(at: nat) | Done

  /** What a MARKET's book is sized for: its own side and quantity, and the LIMIT
      orders resting then. */
  datatype Intent = Intent(side: Side, quantity: nat, resting: seq<Resting>)

  /** Whose quotes the A-share leg runs on: Hithink's sampled observations, or
      Yahoo's, which size nothing. */
  datatype Feed = Hithink | Yahoo

  datatype Node = Node(feed: Feed, inst: State, poll: PollAt, orders: map<Order, OrderAt>, log: seq<Event>)

  datatype Step =
    | Observation(o: Observed, evidence: Verdict, now: nat, resting: seq<Resting>)
    | PollSees(seen: bool)
    | FeedFails(reason: Reason, at: nat)
    | Switch(at: nat)
    | Alert(now: nat)
    | YahooCycle(day: Verdict, at: nat)
    | Ask(order: Order, market: bool)
    | Attempt(order: Order, now: nat, admitted: bool, sized: Option<Intent>)
    | SizedSeen(order: Order, seen: bool)
    | Hand(order: Order)
    | Restore(order: Order)
    | RestoreSeen(order: Order, seen: bool)
    | MarkFailed(order: Order)
    | GiveUp(order: Order)

  // ---------------------------------------------------------------------
  // Publishing
  // ---------------------------------------------------------------------

  function Stamped(n: Node, candidate: nat): Node {
    n.(inst := n.inst.(tsLast := Stamp(n.inst, candidate)))
  }

  function PublishStatus(n: Node, status: Option<Action>, at: nat): Node {
    if status.None? then n
    else
      var m := Stamped(n, at);
      m.(log := m.log + [Status(m.inst.tsLast, status.value)])
  }

  function PublishQuote(n: Node, who: Actor, at: nat, book: Book): Node {
    var m := Stamped(n, at);
    m.(log := m.log + [Quote(who, m.inst.tsLast, book)])
  }

  function SetBusy(n: Node, busy: bool): Node {
    n.(inst := n.inst.(busy := busy))
  }

  function Fails(n: Node, reason: Reason, at: nat): Node {
    var m := n.(inst := Failed(n.inst, reason, at));
    if n.inst.gate.status == Some(Pause) then m else m.(log := m.log + [Status(m.inst.tsLast, Pause)])
  }

  /** The gate as held, and the status it asks for, published when it is news. */
  function Regate(n: Node, gate: Gate, now: nat): Node {
    var action := Gated(gate, now);
    PublishStatus(n.(inst := n.inst.(gate := gate.(status := Some(action)))), Changed(gate.status, action), now)
  }

  /** The poller's next book, or the end of its cycle. */
  function NextBook(n: Node, at: nat, books: seq<Book>): Node
    decreases |books|
  {
    if books == [] then n.(poll := Between)
    else if books[0].Idle? then NextBook(PublishQuote(n, Poller, at, books[0]), at, books[1..])
    else SetBusy(PublishQuote(n, Poller, at, books[0]), true).(poll := CrossingUp(at, books[0].price, books[1..]))
  }

  predicate Crosses(books: seq<Book>) {
    exists k :: 0 <= k < |books| && books[k].Crossing?
  }

  /** `execute`, up to its first wait: the status before a crossing book, after
      an idle one. */
  function Execute(n: Node, plan: Plan, at: nat): Node {
    if Crosses(plan.books) then NextBook(PublishStatus(n, plan.status, at), at, plan.books)
    else PublishStatus(NextBook(n, at, plan.books), plan.status, at)
  }

  // ---------------------------------------------------------------------
  // Steps
  // ---------------------------------------------------------------------

  /** The readiness `admit` answers with: as of now inside a session, as held
      outside one. */
  predicate Admissible(g: Gate, now: nat) {
    if InSession(now) then ReadyAt(g, now).Pass? else g.readiness.Pass?
  }

  predicate At(n: Node, order: Order, at: OrderAt) {
    order in n.orders && n.orders[order] == at
  }

  /** `size_for_market`: the book a MARKET is published with. */
  function SizedBook(g: Gate, i: Intent): Book
    requires g.idleLast.Some? && g.ready.Some?
  {
    var (bid, ask) := M.MarketSizes(i.resting, g.idleLast.value, g.ready.value, i.side, i.quantity);
    Crossing(bid, ask, g.idleLast.value)
  }

  predicate Enabled(n: Node, step: Step) {
    match step
    case Observation(o, _, _, _) => n.poll == Between && n.feed == Hithink && o.tick > 0
    case PollSees(_) => n.poll != Between
    case FeedFails(_, _) => n.poll == Between && n.feed == Hithink
    case Switch(_) => n.poll == Between
    case Alert(_) => true
    case YahooCycle(_, _) => n.poll == Between && n.feed == Yahoo
    case Ask(order, _) => order !in n.orders
    case Attempt(order, now, admitted, sized) =>
      && order in n.orders && n.orders[order].Asking?
      && (admitted ==> !n.inst.busy && Admissible(n.inst.gate, now))
      && (sized.Some? <==> admitted && n.orders[order].market && n.feed == Hithink
                           && n.inst.gate.idleLast.Some? && n.inst.gate.ready.Some?)
    case SizedSeen(order, _) => order in n.orders && n.orders[order].SizedUp?
    case Hand(order) => order in n.orders && n.orders[order].Confirmed?
    case Restore(order) => order in n.orders && n.orders[order].Settling?
    case RestoreSeen(order, _) => order in n.orders && n.orders[order].RestoredUp?
    case MarkFailed(order) => order in n.orders && n.orders[order].Loose?
    case GiveUp(order) => order in n.orders && n.orders[order].Asking?
  }

  function Move(n: Node, order: Order, at: OrderAt): Node {
    n.(orders := n.orders[order := at])
  }

  function Log(n: Node, event: Event): Node {
    n.(log := n.log + [event])
  }

  function Apply(n: Node, step: Step): Node
    requires Enabled(n, step)
  {
    match step
    case Observation(o, evidence, now, resting) =>
      if n.inst.busy then n
      else
        var (inst, plan) := Observe(n.inst, o, evidence, now, resting);
        Execute(Log(n.(inst := inst), Advance(Poller)), plan, now)
    case PollSees(seen) =>
      if !seen then Fails(SetBusy(n, false), PublicationFailed, n.poll.at).(poll := Between)
      else if n.poll.CrossingUp? then
        PublishQuote(n, Poller, n.poll.at, Idle(n.poll.price)).(poll := IdleUp(n.poll.at, n.poll.rest))
      else NextBook(SetBusy(n, false), n.poll.at, n.poll.rest)
    case FeedFails(reason, at) => Fails(n, reason, at)
    case Switch(at) =>
      n.(feed := if n.feed == Hithink then Yahoo else Hithink,
         inst := FRESH.(gate := FRESH.gate.(readiness := Fail(NoCalendar))), log := [])
    case Alert(now) => Regate(n, n.inst.gate, now)
    case YahooCycle(day, at) => Regate(n, Dated(n.inst.gate, day, at), at)
    case Ask(order, market) => Move(n, order, Asking(market))
    case Attempt(order, now, admitted, sized) =>
      if !admitted then n
      else if sized.Some? then
        var book := SizedBook(n.inst.gate, sized.value);
        var m := PublishQuote(n, By(order), now, book);
        SetBusy(Move(m, order, SizedUp(m.inst.tsLast, book)), true)
      else if n.orders[order].market then Log(Move(n, order, Done), Handed(By(order)))
      else
        Log(Log(Move(n.(inst := Baselined(n.inst, order)), order, Done), Advance(By(order))), Handed(By(order)))
    case SizedSeen(order, seen) =>
      var SizedUp(at, book) := n.orders[order];
      if seen then Move(n, order, Confirmed(at, book)) else Fails(Move(n, order, Done), PublicationFailed, at)
    case Hand(order) =>
      Log(Move(n, order, Settling(n.orders[order].at, n.orders[order].book)), Handed(By(order)))
    case Restore(order) =>
      var at := n.orders[order].at + 1;
      PublishQuote(Move(n, order, RestoredUp(at)), By(order), at, Idle(n.orders[order].book.price))
    case RestoreSeen(order, seen) =>
      SetBusy(Move(n, order, if seen then Done else Loose(n.orders[order].at)), false)
    case MarkFailed(order) => Fails(Move(n, order, Done), PublicationFailed, n.orders[order].at)
    case GiveUp(order) => Move(n, order, Done)
  }

  // ---------------------------------------------------------------------
  // The section and who holds it
  // ---------------------------------------------------------------------

  predicate HeldByOrder(n: Node, order: Order) {
    order in n.orders
    && var at := n.orders[order]; at.SizedUp? || at.Confirmed? || at.Settling? || at.RestoredUp?
  }

  predicate Holds(n: Node, who: Actor) {
    match who
    case Poller => n.poll != Between
    case By(order) => HeldByOrder(n, order)
  }

  ghost predicate Free(n: Node) {
    !n.inst.busy && forall who :: !Holds(n, who)
  }

  ghost predicate Held(n: Node, holder: Actor) {
    n.inst.busy && forall who :: Holds(n, who) <==> who == holder
  }

  /** The instrument is busy exactly while someone is in the section, and no
      two ever are. */
  ghost predicate Exclusive(n: Node) {
    Free(n) || exists holder :: Held(n, holder)
  }

  /** The steps that clear the flag without having asked for it. */
  predicate Clears(step: Step) {
    step.FeedFails? || step.Switch? || step.MarkFailed?
  }

  lemma NextBookPolls(n: Node, at: nat, books: seq<Book>)
    ensures var m := NextBook(n, at, books);
            && m.orders == n.orders && m.feed == n.feed
            && (m.poll != Between ==> m.inst.busy)
            && (m.poll == Between ==> m.inst.busy == n.inst.busy)
    decreases |books|
  {
  }

  lemma FrameHolds(n: Node, m: Node)
    requires m.orders == n.orders
    ensures forall order :: Holds(m, By(order)) <==> Holds(n, By(order))
    ensures m.poll == n.poll ==> forall who :: Holds(m, who) <==> Holds(n, who)
  {
    forall who | m.poll == n.poll
      ensures Holds(m, who) <==> Holds(n, who)
    {
      assert who == Poller || who == By(who.order);
    }
  }

  lemma MoveHolds(n: Node, order: Order, at: OrderAt)
    ensures forall who :: Holds(Move(n, order, at), who) <==>
              if who == By(order) then at.SizedUp? || at.Confirmed? || at.Settling? || at.RestoredUp?
              else Holds(n, who)
  {
  }

  /** An observation on a free instrument leaves it free, or the poller in. */
  lemma ExecuteSection(n: Node, plan: Plan, at: nat)
    requires Free(n)
    ensures var m := Execute(n, plan, at); m.orders == n.orders && (Free(m) || Held(m, Poller))
  {
    var status := PublishStatus(n, plan.status, at);
    NextBookPolls(status, at, plan.books);
    NextBookPolls(n, at, plan.books);
    var m := Execute(n, plan, at);
    assert forall order :: HeldByOrder(m, order) <==> HeldByOrder(n, order);
    assert forall order :: !Holds(n, By(order));
    assert !Holds(n, Poller);
    assert m.poll != Between ==> m.inst.busy;
    assert m.poll == Between ==> !m.inst.busy;
  }

  lemma NoOrderHolds(n: Node, order: Order)
    requires Free(n)
    ensures !HeldByOrder(n, order)
  {
    assert !Holds(n, By(order));
  }

  /** On a free instrument a step keeps it free or lets its own actor in. */
  lemma FreeStep(n: Node, step: Step) returns (now: Actor)
    requires Free(n) && Enabled(n, step)
    ensures Free(Apply(n, step)) || Held(Apply(n, step), now)
  {
    hide Observe, Gated, Stamp, Changed, Execute;
    now := Poller;
    assert !Holds(n, Poller);
    match step
    case Observation(o, evidence, at, resting) =>
      var (inst, plan) := Observe(n.inst, o, evidence, at, resting);
      ObserveKeepsBusy(n.inst, o, evidence, at, resting);
      var m := Log(n.(inst := inst), Advance(Poller));
      assert forall who :: Holds(m, who) <==> Holds(n, who);
      ExecuteSection(m, plan, at);
    case PollSees(_) => assert false;
    case Ask(order, market) => MoveHolds(n, order, Asking(market));
    case Attempt(order, at, admitted, sized) =>
      if sized.Some? {
        now := By(order);
        var book := SizedBook(n.inst.gate, sized.value);
        var m := PublishQuote(n, By(order), at, book);
        assert forall who :: Holds(m, who) <==> Holds(n, who);
        MoveHolds(m, order, SizedUp(m.inst.tsLast, book));
        FrameHolds(Move(m, order, SizedUp(m.inst.tsLast, book)), Apply(n, step));
      } else {
        MoveHolds(n, order, Done);
        if admitted {
          FrameHolds(Move(n, order, Done), Apply(n, step));
        }
      }
    case SizedSeen(order, _) =>
      NoOrderHolds(n, order);
      assert false;
    case Hand(order) =>
      NoOrderHolds(n, order);
      assert false;
    case Restore(order) =>
      NoOrderHolds(n, order);
      assert false;
    case RestoreSeen(order, _) =>
      NoOrderHolds(n, order);
      assert false;
    case MarkFailed(order) =>
      MoveHolds(n, order, Done);
      FrameHolds(Move(n, order, Done), Apply(n, step));
    case GiveUp(order) => MoveHolds(n, order, Done);
    case _ => FrameHolds(n, Apply(n, step));
  }

  lemma ObserveKeepsBusy(s: State, o: Observed, evidence: Verdict, now: nat, resting: seq<Resting>)
    requires o.tick > 0
    ensures Observe(s, o, evidence, now, resting).0.busy == s.busy
    ensures Observe(s, o, evidence, now, resting).0.tsLast == s.tsLast
  {
    hide Settle, BooksFor, Released, Rebased;
  }

  /** On a held one, a step keeps the holder or is the holder leaving. */
  lemma HeldStep(n: Node, holder: Actor, step: Step)
    requires Held(n, holder) && Enabled(n, step) && !Clears(step)
    ensures Free(Apply(n, step)) || Held(Apply(n, step), holder)
  {
    hide Observe, Gated, Stamp, Changed;
    match step
    case PollSees(seen) =>
      assert Holds(n, Poller);
      NextBookPolls(SetBusy(n, false), n.poll.at, n.poll.rest);
      var m := Apply(n, step);
      FrameHolds(n, m);
      assert m.poll == Between ==> !m.inst.busy;
    case Ask(order, market) =>
      assert !Holds(n, By(order));
      MoveHolds(n, order, Asking(market));
    case SizedSeen(order, seen) =>
      assert Holds(n, By(order));
      var next := if seen then Confirmed(n.orders[order].at, n.orders[order].book) else Done;
      MoveHolds(n, order, next);
      FrameHolds(Move(n, order, next), Apply(n, step));
    case Hand(order) =>
      assert Holds(n, By(order));
      var next := Settling(n.orders[order].at, n.orders[order].book);
      MoveHolds(n, order, next);
      FrameHolds(Move(n, order, next), Apply(n, step));
    case Restore(order) =>
      assert Holds(n, By(order));
      MoveHolds(n, order, RestoredUp(n.orders[order].at + 1));
      FrameHolds(Move(n, order, RestoredUp(n.orders[order].at + 1)), Apply(n, step));
    case RestoreSeen(order, seen) =>
      assert Holds(n, By(order));
      MoveHolds(n, order, if seen then Done else Loose(n.orders[order].at));
      FrameHolds(Move(n, order, if seen then Done else Loose(n.orders[order].at)), Apply(n, step));
    case GiveUp(order) =>
      assert !Holds(n, By(order));
      MoveHolds(n, order, Done);
    case Alert(_) => FrameHolds(n, Apply(n, step));
    case YahooCycle(_, _) => FrameHolds(n, Apply(n, step));
    case _ =>
  }

  lemma StepExclusive(n: Node, step: Step)
    requires Exclusive(n) && Enabled(n, step) && (Clears(step) ==> !n.inst.busy)
    ensures Exclusive(Apply(n, step))
  {
    hide Apply, Enabled, Holds;
    if Free(n) {
      var holder := FreeStep(n, step);
    } else {
      var holder :| Held(n, holder);
      HeldStep(n, holder, step);
    }
  }

  /** A clear that finds the section held takes the flag from under its holder. */
  lemma BlindClearBreaks(n: Node, step: Step)
    requires Exclusive(n) && Enabled(n, step) && Clears(step) && n.inst.busy
    ensures !Exclusive(Apply(n, step))
  {
    hide Gated, Stamp, Changed;
    var holder :| Held(n, holder);
    var m := Apply(n, step);
    assert Holds(n, holder);
    match step
    case MarkFailed(order) =>
      MoveHolds(n, order, Done);
      FrameHolds(Move(n, order, Done), m);
      assert Holds(m, holder);
    case FeedFails(_, _) =>
      FrameHolds(n, m);
      assert Holds(m, holder);
    case Switch(_) =>
      FrameHolds(n, m);
      assert Holds(m, holder);
    case _ =>
  }

  // ---------------------------------------------------------------------
  // Runs
  // ---------------------------------------------------------------------

  /** What a node start and a provider switch both come to. */
  ghost predicate Starts(n: Node) {
    n.inst == FRESH.(gate := FRESH.gate.(readiness := Fail(NoCalendar)))
    && n.poll == Between && n.orders == map[] && n.log == []
  }

  predicate Legal(n: Node, steps: seq<Step>)
    decreases |steps|
  {
    steps == [] || (Enabled(n, steps[0]) && Legal(Apply(n, steps[0]), steps[1..]))
  }

  function States(n: Node, steps: seq<Step>): (states: seq<Node>)
    requires Legal(n, steps)
    ensures |states| == |steps| + 1
    decreases |steps|
  {
    if steps == [] then [n] else [n] + States(Apply(n, steps[0]), steps[1..])
  }

  /** Every clear of the run found the instrument free. */
  ghost predicate ClearsWhenFree(states: seq<Node>, steps: seq<Step>)
    requires |states| == |steps| + 1
  {
    forall i :: 0 <= i < |steps| && Clears(steps[i]) ==> !states[i].inst.busy
  }

  ghost predicate AlwaysExclusive(states: seq<Node>) {
    forall i :: 0 <= i < |states| ==> Exclusive(states[i])
  }

  /** In every interleaving, the section is exclusive at every moment exactly
      when each feed failure, provider switch and late failure mark found the
      instrument free. */
  lemma {:induction false} SectionIsExclusive(n: Node, steps: seq<Step>)
    requires Exclusive(n) && Legal(n, steps)
    ensures AlwaysExclusive(States(n, steps)) <==> ClearsWhenFree(States(n, steps), steps)
    decreases |steps|
  {
    if steps != [] {
      hide Apply, Enabled, Exclusive, Clears;
      var m, rest := Apply(n, steps[0]), steps[1..];
      var states, later := States(n, steps), States(m, rest);
      assert states == [n] + later && states[1] == m == later[0];
      assert forall i :: 0 <= i < |later| ==> states[i + 1] == later[i];
      assert forall i :: 0 <= i < |rest| ==> steps[i + 1] == rest[i];
      if Clears(steps[0]) && n.inst.busy {
        BlindClearBreaks(n, steps[0]);
      } else {
        StepExclusive(n, steps[0]);
        SectionIsExclusive(m, rest);
        assert forall i :: 1 <= i < |states| ==> states[i] == later[i - 1];
        assert forall i :: 1 <= i < |steps| ==> steps[i] == rest[i - 1];
      }
    }
  }

  lemma Then(n: Node, step: Step, rest: seq<Step>)
    requires Enabled(n, step) && Legal(Apply(n, step), rest)
    ensures Legal(n, [step] + rest) && States(n, [step] + rest) == [n] + States(Apply(n, step), rest)
  {
    hide Apply, Enabled;
    assert ([step] + rest)[1..] == rest;
  }

  /** An observation that can be trusted, of a day's first cycle or a recovery. */
  predicate Fresh(n: Node, o: Observed, now: nat) {
    && n.feed == Hithink && n.poll == Between && !n.inst.busy
    && n.inst.gate.ready.None? && n.inst.gate.blockedDate.None?
    && n.inst.samples.prevVolume.None?
    && o.ok.Pass? && o.prevClose > 0 && o.tick > 0 && InSession(now)
  }

  /** It opens the instrument and leaves it free, with nothing released. */
  lemma FirstObservation(n: Node, o: Observed, now: nat, resting: seq<Resting>)
    requires Fresh(n, o, now)
    ensures var m := Apply(n, Observation(o, Pass, now, resting));
            && m.feed == n.feed && m.poll == Between && !m.inst.busy && m.orders == n.orders
            && ReadyAt(m.inst.gate, now).Pass? && m.inst.gate.idleLast == Some(o.last)
            && m.inst.gate.ready == Some(ReadyOf(o, Day(now))) && m.inst.gate.blockedDate.None?
  {
    hide Stamp, InSession, Catalog.Band;
    assert SideSize([], Buy) == 0 && SideSize([], Sell) == 0;
    var (inst, plan) := Observe(n.inst, o, Pass, now, resting);
    assert plan.books == [Idle(o.last)];
    OneIdle(Log(n.(inst := inst), Advance(Poller)), plan.status, now, o.last);
  }

  lemma OneIdle(n: Node, status: Option<Action>, at: nat, price: int)
    requires n.poll == Between
    ensures var m := Execute(n, Plan(status, [Idle(price)]), at);
            m.feed == n.feed && m.poll == Between && m.orders == n.orders && m.inst == n.inst.(tsLast := m.inst.tsLast)
  {
    hide Stamp;
    assert [Idle(price)][1..] == [] && !Crosses([Idle(price)]);
    var quoted := PublishQuote(n, Poller, at, Idle(price));
    assert NextBook(n, at, [Idle(price)]) == NextBook(quoted, at, []);
  }

  lemma StartExclusive(n: Node)
    requires Starts(n)
    ensures Free(n)
  {
  }

  // ---------------------------------------------------------------------
  // What happens while the section is held
  // ---------------------------------------------------------------------

  /** A status may be anyone's; a book, a baseline or an order is its actor's. */
  predicate OnlyBy(e: Event, who: Actor) {
    match e
    case Quote(w, _, _) => w == who
    case Advance(w) => w == who
    case Handed(w) => w == who
    case Status(_, _) => true
  }

  ghost predicate Adds(n: Node, m: Node, who: Actor) {
    n.log <= m.log && forall k :: |n.log| <= k < |m.log| ==> OnlyBy(m.log[k], who)
  }

  lemma NextBookAdds(n: Node, at: nat, books: seq<Book>)
    ensures Adds(n, NextBook(n, at, books), Poller)
    decreases |books|
  {
    if books != [] && books[0].Idle? {
      NextBookAdds(PublishQuote(n, Poller, at, books[0]), at, books[1..]);
    }
  }

  /** While the section is held nobody but its holder publishes a book, advances
      a baseline or hands an order over. */
  lemma OnlyTheHolderActs(n: Node, holder: Actor, step: Step)
    requires Held(n, holder) && Enabled(n, step) && !Clears(step)
    ensures Adds(n, Apply(n, step), holder)
  {
    hide Observe, Gated, Stamp, Changed;
    match step
    case PollSees(seen) =>
      assert Holds(n, Poller);
      NextBookAdds(SetBusy(n, false), n.poll.at, n.poll.rest);
    case SizedSeen(order, _) => assert Holds(n, By(order));
    case Hand(order) => assert Holds(n, By(order));
    case Restore(order) => assert Holds(n, By(order));
    case RestoreSeen(order, _) => assert Holds(n, By(order));
    case _ =>
  }

  lemma {:induction false} EachIsEnabled(n: Node, steps: seq<Step>, k: nat)
    requires Legal(n, steps) && k < |steps|
    ensures Enabled(States(n, steps)[k], steps[k])
    decreases |steps|
  {
    hide Apply, Enabled;
    if k > 0 {
      EachIsEnabled(Apply(n, steps[0]), steps[1..], k - 1);
    }
  }

  /** So while each clear finds the instrument free, no order joins those the
      poller's books are for: from the first of its books to the idle book after
      the last, none is admitted and none is handed over. */
  lemma NoneJoins(n: Node, steps: seq<Step>, k: nat)
    requires Exclusive(n) && Legal(n, steps) && ClearsWhenFree(States(n, steps), steps)
    requires k < |steps| && States(n, steps)[k].poll != Between
    ensures !(steps[k].Attempt? && steps[k].admitted) && !steps[k].Hand?
    ensures Held(States(n, steps)[k], Poller)
  {
    hide Apply, ClearsWhenFree;
    var m := States(n, steps)[k];
    EachIsEnabled(n, steps, k);
    assert steps[k].Hand? ==> Holds(m, By(steps[k].order));
    SectionIsExclusive(n, steps);
    assert Exclusive(m) && Holds(m, Poller);
  }

  /** Non-executable and paused: nothing fills against whatever book stands. */
  predicate Paused(n: Node) {
    n.inst.gate.readiness.Fail? && n.inst.gate.status == Some(Pause)
  }

  /** The section ends with its idle book seen, or with the instrument unready
      and paused; only an unseen MARKET restore ends it first and marks the
      instrument failed in a later step. */
  lemma HowTheSectionEnds(n: Node, holder: Actor, step: Step)
    requires Held(n, holder) && Enabled(n, step) && !Clears(step)
    requires Free(Apply(n, step))
    ensures (step == PollSees(true) && n.poll.IdleUp?)
         || (step.RestoreSeen? && step.seen)
         || Paused(Apply(n, step))
         || (step.RestoreSeen? && !step.seen && At(Apply(n, step), step.order, Loose(n.orders[step.order].at)))
  {
    hide Observe, Gated, Stamp, Changed;
    assert !Apply(n, step).inst.busy;
  }

  // ---------------------------------------------------------------------
  // What stays shut
  // ---------------------------------------------------------------------

  /** A provider switch is a start with the other provider: nothing of the
      instrument is known, and no calendar. */
  lemma SwitchForgets(n: Node, at: nat)
    requires Enabled(n, Switch(at))
    ensures var m := Apply(n, Switch(at));
            && m.feed != n.feed && m.poll == Between && m.orders == n.orders && m.log == []
            && Starts(m.(orders := map[]))
            && m.inst.gate.readiness == Fail(NoCalendar) && m.inst.gate.ready.None? && m.inst.gate.idleLast.None?
            && m.inst.gate.blockedDate.None? && m.inst.samples == FORGOTTEN
  {
  }

  /** What makes an unready instrument ready again: a cycle, of either provider. */
  predicate Reopens(step: Step) {
    step.Observation? || (step.YahooCycle? && step.day.Pass?)
  }

  /** Once a feed failure, a switch or a failed publication has left an instrument
      unready, no order is admitted on it before another cycle, however the
      admissions, alerts and marks interleave. */
  lemma {:induction false} ShutUntilACycle(n: Node, steps: seq<Step>)
    requires n.inst.gate.readiness.Fail? && Legal(n, steps)
    requires forall k :: 0 <= k < |steps| ==> !Reopens(steps[k])
    ensures forall k :: 0 <= k < |steps| ==> !(steps[k].Attempt? && steps[k].admitted)
    decreases |steps|
  {
    if steps != [] {
      assert !Reopens(steps[0]);
      assert forall k :: 0 <= k < |steps[1..]| ==> steps[1..][k] == steps[k + 1];
      StaysShut(n, steps[0]);
      hide Apply, Enabled;
      ShutUntilACycle(Apply(n, steps[0]), steps[1..]);
      assert forall k :: 1 <= k < |steps| ==> steps[k] == steps[1..][k - 1];
    }
  }

  lemma StaysShut(n: Node, step: Step)
    requires n.inst.gate.readiness.Fail? && Enabled(n, step) && !Reopens(step)
    ensures Apply(n, step).inst.gate.readiness.Fail?
    ensures !(step.Attempt? && step.admitted)
  {
    hide Gated, Stamp, Changed, InSession, SizedBook;
    if step.PollSees? && step.seen && n.poll.IdleUp? {
      NextBookGate(SetBusy(n, false), n.poll.at, n.poll.rest);
    }
    hide NextBook;
  }

  lemma {:induction false} NextBookGate(n: Node, at: nat, books: seq<Book>)
    ensures NextBook(n, at, books).inst.gate == n.inst.gate
    decreases |books|
  {
    hide Stamp;
    if books != [] && books[0].Idle? {
      NextBookGate(PublishQuote(n, Poller, at, books[0]), at, books[1..]);
    }
  }

  // ---------------------------------------------------------------------
  // Stamps
  // ---------------------------------------------------------------------

  predicate HasStamp(e: Event) {
    e.Quote? || e.Status?
  }

  /** Stamps strictly increase along the log, and none is above the last. */
  ghost predicate StampsIncrease(n: Node) {
    && (forall i, j :: 0 <= i < j < |n.log| && HasStamp(n.log[i]) && HasStamp(n.log[j]) ==> n.log[i].ts < n.log[j].ts)
    && (forall i :: 0 <= i < |n.log| && HasStamp(n.log[i]) ==> n.log[i].ts <= n.inst.tsLast)
  }

  /** What keeps the stamps in order: nothing stamped, a stamp above the last,
      or an event without one. */
  lemma StampSteps(n: Node, m: Node)
    requires StampsIncrease(n) && m.inst.tsLast >= n.inst.tsLast
    requires m.log == n.log
          || (|m.log| == |n.log| + 1 && m.log[..|n.log|] == n.log
              && (HasStamp(m.log[|n.log|]) ==> n.inst.tsLast < m.log[|n.log|].ts <= m.inst.tsLast))
    ensures StampsIncrease(m)
  {
    assert forall i :: 0 <= i < |n.log| ==> m.log[i] == m.log[..|n.log|][i];
  }

  lemma PublishStamps(n: Node, status: Option<Action>, who: Actor, at: nat, book: Book)
    requires StampsIncrease(n)
    ensures StampsIncrease(PublishStatus(n, status, at))
    ensures StampsIncrease(PublishQuote(n, who, at, book))
  {
    hide StampsIncrease;
    StampSteps(n, PublishStatus(n, status, at));
    StampSteps(n, PublishQuote(n, who, at, book));
  }

  lemma NextBookStamps(n: Node, at: nat, books: seq<Book>)
    requires StampsIncrease(n)
    ensures StampsIncrease(NextBook(n, at, books))
    decreases |books|
  {
    hide StampsIncrease, PublishQuote;
    if books == [] {
      StampSteps(n, NextBook(n, at, books));
    } else if books[0].Idle? {
      PublishStamps(n, None, Poller, at, books[0]);
      NextBookStamps(PublishQuote(n, Poller, at, books[0]), at, books[1..]);
    } else {
      PublishStamps(n, None, Poller, at, books[0]);
      StampSteps(PublishQuote(n, Poller, at, books[0]), NextBook(n, at, books));
    }
  }

  lemma FailsStamps(n: Node, reason: Reason, at: nat)
    requires StampsIncrease(n)
    ensures StampsIncrease(Fails(n, reason, at))
  {
    hide StampsIncrease;
    StampSteps(n, Fails(n, reason, at));
  }

  lemma ObservationStamps(n: Node, o: Observed, evidence: Verdict, at: nat, resting: seq<Resting>)
    requires StampsIncrease(n) && Enabled(n, Observation(o, evidence, at, resting))
    ensures StampsIncrease(Apply(n, Observation(o, evidence, at, resting)))
  {
    hide Observe, Changed, Stamp, NextBook, StampsIncrease, PublishStatus;
    if !n.inst.busy {
      var (inst, plan) := Observe(n.inst, o, evidence, at, resting);
      ObserveKeepsBusy(n.inst, o, evidence, at, resting);
      var seen := Log(n.(inst := inst), Advance(Poller));
      StampSteps(n, seen);
      NextBookStamps(seen, at, plan.books);
      PublishStamps(NextBook(seen, at, plan.books), plan.status, Poller, at, Idle(0));
      PublishStamps(seen, plan.status, Poller, at, Idle(0));
      NextBookStamps(PublishStatus(seen, plan.status, at), at, plan.books);
    }
  }

  lemma PollerStamps(n: Node, seen: bool)
    requires StampsIncrease(n) && Enabled(n, PollSees(seen))
    ensures StampsIncrease(Apply(n, PollSees(seen)))
  {
    hide Fails, Stamp, NextBook, StampsIncrease, PublishQuote;
    var free, m := SetBusy(n, false), Apply(n, PollSees(seen));
    StampSteps(n, free);
    if !seen {
      FailsStamps(free, PublicationFailed, n.poll.at);
      StampSteps(Fails(free, PublicationFailed, n.poll.at), m);
    } else if n.poll.CrossingUp? {
      PublishStamps(n, None, Poller, n.poll.at, Idle(n.poll.price));
      StampSteps(PublishQuote(n, Poller, n.poll.at, Idle(n.poll.price)), m);
    } else {
      NextBookStamps(free, n.poll.at, n.poll.rest);
    }
  }

  lemma RegateStamps(n: Node, gate: Gate, now: nat)
    requires StampsIncrease(n)
    ensures StampsIncrease(Regate(n, gate, now))
  {
    hide Gated, Changed, Stamp, StampsIncrease;
    var gated := n.(inst := n.inst.(gate := gate.(status := Some(Gated(gate, now)))));
    StampSteps(n, gated);
    PublishStamps(gated, Changed(gate.status, Gated(gate, now)), Poller, now, Idle(0));
  }

  lemma AdmissionStamps(n: Node, step: Step)
    requires StampsIncrease(n) && Enabled(n, step)
    requires step.Attempt? || step.SizedSeen? || step.Restore? || step.MarkFailed?
    ensures StampsIncrease(Apply(n, step))
  {
    hide Fails, Stamp, StampsIncrease, InSession;
    var m := Apply(n, step);
    match step
    case SizedSeen(order, seen) =>
      StampSteps(n, Move(n, order, Done));
      FailsStamps(Move(n, order, Done), PublicationFailed, n.orders[order].at);
      if seen {
        StampSteps(n, m);
      }
    case MarkFailed(order) =>
      StampSteps(n, Move(n, order, Done));
      FailsStamps(Move(n, order, Done), PublicationFailed, n.orders[order].at);
    case Attempt(order, now, admitted, sized) =>
      if sized.Some? {
        var book := SizedBook(n.inst.gate, sized.value);
        PublishStamps(n, None, By(order), now, book);
        StampSteps(PublishQuote(n, By(order), now, book), m);
      } else if admitted && !n.orders[order].market {
        StampSteps(n, Log(n, Advance(By(order))));
        StampSteps(Log(n, Advance(By(order))), m);
      } else {
        StampSteps(n, m);
      }
    case Restore(order) =>
      var moved := Move(n, order, RestoredUp(n.orders[order].at + 1));
      StampSteps(n, moved);
      PublishStamps(moved, None, By(order), n.orders[order].at + 1, Idle(n.orders[order].book.price));
  }

  /** Every stamp published since the last reset is above all before it. */
  lemma StampsKeepIncreasing(n: Node, step: Step)
    requires StampsIncrease(n) && Enabled(n, step)
    ensures StampsIncrease(Apply(n, step))
  {
    assert step.Switch? ==> StampsIncrease(Apply(n, step));
    hide Observe, Regate, Changed, Fails, Stamp, NextBook, StampsIncrease, PublishQuote, PublishStatus, Execute;
    match step
    case Observation(o, evidence, at, resting) => ObservationStamps(n, o, evidence, at, resting);
    case PollSees(seen) => PollerStamps(n, seen);
    case FeedFails(reason, at) => FailsStamps(n, reason, at);
    case Switch(_) =>
    case Alert(now) => RegateStamps(n, n.inst.gate, now);
    case YahooCycle(day, at) => RegateStamps(n, Dated(n.inst.gate, day, at), at);
    case Ask(_, _) => StampSteps(n, Apply(n, step));
    case Hand(_) => StampSteps(n, Apply(n, step));
    case RestoreSeen(_, _) => StampSteps(n, Apply(n, step));
    case GiveUp(_) => StampSteps(n, Apply(n, step));
    case _ => AdmissionStamps(n, step);
  }

  lemma {:induction false} StampsIncreaseBetweenResets(n: Node, steps: seq<Step>)
    requires Starts(n) || StampsIncrease(n)
    requires Legal(n, steps)
    ensures forall i :: 0 <= i <= |steps| ==> StampsIncrease(States(n, steps)[i])
    decreases |steps|
  {
    if steps != [] {
      hide Apply, Enabled;
      StampsKeepIncreasing(n, steps[0]);
      StampsIncreaseBetweenResets(Apply(n, steps[0]), steps[1..]);
    }
  }

  // ---------------------------------------------------------------------
  // No executable book outside the section on an instrument that trades
  // ---------------------------------------------------------------------

  /** Is the last book published an executable one? */
  function Standing(log: seq<Event>): bool {
    if log == [] then false
    else
      match log[|log| - 1]
      case Quote(_, _, book) => book.Crossing?
      case _ => Standing(log[..|log| - 1])
  }

  ghost predicate Guarded(n: Node) {
    && (n.poll.IdleUp? ==> !Standing(n.log))
    && (forall order :: order in n.orders && n.orders[order].RestoredUp? ==> !Standing(n.log))
    && (!n.inst.busy && Standing(n.log) ==>
          n.inst.gate.readiness.Fail? && n.inst.gate.status != Some(Trading))
    // Under Yahoo the poller waits for nothing and no such book stands.
    && (n.feed == Yahoo ==> n.poll == Between && !Standing(n.log))
  }

  lemma StandingAppend(log: seq<Event>, e: Event)
    ensures Standing(log + [e]) == if e.Quote? then e.book.Crossing? else Standing(log)
  {
    assert (log + [e])[..|log|] == log;
  }

  /** Publishing plans: an idle plan leaves an idle book, an empty one leaves
      what stood. */
  lemma NextBookStanding(n: Node, at: nat, books: seq<Book>)
    ensures var m := NextBook(n, at, books);
            && m.inst.gate == n.inst.gate
            && (m.poll == Between && books != [] ==> !Standing(m.log))
            && (books == [] ==> m.log == n.log)
            && !m.poll.IdleUp?
    decreases |books|
  {
    hide Stamp;
    if books != [] {
      var q := PublishQuote(n, Poller, at, books[0]);
      StandingAppend(n.log, Quote(Poller, q.inst.tsLast, books[0]));
      if books[0].Idle? {
        NextBookStanding(q, at, books[1..]);
      }
    }
  }

  lemma StatusStanding(n: Node, status: Option<Action>, at: nat)
    ensures Standing(PublishStatus(n, status, at).log) == Standing(n.log)
  {
    if status.Some? {
      StandingAppend(n.log, Status(Stamp(n.inst, at), status.value));
    }
  }

  lemma RegateStanding(n: Node, gate: Gate, now: nat)
    ensures Standing(Regate(n, gate, now).log) == Standing(n.log)
  {
    hide Gated, Changed, Standing, Stamp;
    StatusStanding(n.(inst := n.inst.(gate := gate.(status := Some(Gated(gate, now))))),
                   Changed(gate.status, Gated(gate, now)), now);
  }

  /** An observation publishes a book unless it found the instrument unready,
      and then the instrument does not trade. */
  lemma ObserveGuards(s: State, o: Observed, evidence: Verdict, now: nat, resting: seq<Resting>)
    requires o.tick > 0
    ensures var (t, plan) := Observe(s, o, evidence, now, resting);
            plan.books == [] ==> t.gate.readiness.Fail? && t.gate.status != Some(Trading)
  {
    hide Released, Rebased, InSession, InLunch, SideSize;
  }

  lemma FailsGuarded(n: Node, reason: Reason, at: nat)
    requires (n.poll.IdleUp? ==> !Standing(n.log))
    requires (forall order :: order in n.orders && n.orders[order].RestoredUp? ==> !Standing(n.log))
    requires n.feed == Yahoo ==> n.poll == Between && !Standing(n.log)
    ensures Guarded(Fails(n, reason, at)) && Paused(Fails(n, reason, at))
  {
    hide Stamp, Standing;
    StandingAppend(n.log, Status(Failed(n.inst, reason, at).tsLast, Pause));
  }

  /** A step with the section free: nobody waits on an idle book. */
  lemma FreeStepGuarded(n: Node, step: Step)
    requires Free(n) && Guarded(n) && Enabled(n, step)
    ensures Guarded(Apply(n, step))
  {
    hide Observe, Stamp, Changed, Standing, InSession, InLunch;
    assert !Holds(n, Poller);
    forall order | order in n.orders
      ensures !n.orders[order].RestoredUp? && !n.orders[order].SizedUp?
              && !n.orders[order].Confirmed? && !n.orders[order].Settling?
    {
      NoOrderHolds(n, order);
    }
    match step
    case Observation(o, evidence, at, resting) =>
      var (inst, plan) := Observe(n.inst, o, evidence, at, resting);
      ObserveKeepsBusy(n.inst, o, evidence, at, resting);
      ObserveGuards(n.inst, o, evidence, at, resting);
      ExecuteGuarded(Log(n.(inst := inst), Advance(Poller)), plan, at);
    case FeedFails(reason, at) => FailsGuarded(n, reason, at);
    case Switch(_) => assert !Standing([]) by { StandingEmpty(); }
    case Alert(now) => RegateStanding(n, n.inst.gate, now);
    case YahooCycle(day, at) => RegateStanding(n, Dated(n.inst.gate, day, at), at);
    case Attempt(order, now, admitted, sized) =>
      if sized.Some? {
        var book := SizedBook(n.inst.gate, sized.value);
        StandingAppend(n.log, Quote(By(order), PublishQuote(n, By(order), now, book).inst.tsLast, book));
      }
      StandingAppend(n.log, Handed(By(order)));
      StandingAppend(n.log, Advance(By(order)));
      StandingAppend(n.log + [Advance(By(order))], Handed(By(order)));
    case MarkFailed(order) => FailsGuarded(Move(n, order, Done), PublicationFailed, n.orders[order].at);
    case _ =>
  }

  lemma StandingEmpty()
    ensures !Standing([])
  {
  }

  lemma ExecuteGuarded(n: Node, plan: Plan, at: nat)
    requires n.feed == Hithink && n.poll == Between && !n.inst.busy
    requires forall order :: order in n.orders ==> !n.orders[order].RestoredUp?
    requires plan.books == [] ==> n.inst.gate.readiness.Fail? && n.inst.gate.status != Some(Trading)
    ensures Guarded(Execute(n, plan, at))
  {
    hide Stamp, Standing;
    var status := PublishStatus(n, plan.status, at);
    NextBookStanding(status, at, plan.books);
    NextBookPolls(status, at, plan.books);
    NextBookStanding(n, at, plan.books);
    NextBookPolls(n, at, plan.books);
    StatusStanding(NextBook(n, at, plan.books), plan.status, at);
  }

  /** A step with the section held: the holder restores the idle book before it
      waits to leave. */
  lemma HeldStepGuarded(n: Node, holder: Actor, step: Step)
    requires Held(n, holder) && Guarded(n) && Enabled(n, step) && !Clears(step)
    ensures Guarded(Apply(n, step))
  {
    hide Observe, Stamp, Changed, Standing, InSession, InLunch;
    forall order | order in n.orders && n.orders[order].RestoredUp?
      ensures holder == By(order)
    {
      assert Holds(n, By(order));
    }
    assert Holds(n, Poller) <==> holder == Poller;
    match step
    case PollSees(seen) =>
      var free := SetBusy(n, false);
      if !seen {
        FailsGuarded(free.(poll := Between), PublicationFailed, n.poll.at);
        assert Fails(free, PublicationFailed, n.poll.at).(poll := Between)
            == Fails(free.(poll := Between), PublicationFailed, n.poll.at);
      } else if n.poll.CrossingUp? {
        StandingAppend(n.log, Quote(Poller, Stamp(n.inst, n.poll.at), Idle(n.poll.price)));
      } else {
        NextBookStanding(free, n.poll.at, n.poll.rest);
        NextBookPolls(free, n.poll.at, n.poll.rest);
      }
    case SizedSeen(order, seen) =>
      assert Holds(n, By(order));
      FailsGuarded(Move(n, order, Done), PublicationFailed, n.orders[order].at);
    case Hand(order) =>
      assert Holds(n, By(order));
      StandingAppend(n.log, Handed(By(order)));
    case Restore(order) =>
      assert Holds(n, By(order));
      StandingAppend(n.log, Quote(By(order), Stamp(n.inst, n.orders[order].at + 1), Idle(n.orders[order].book.price)));
    case RestoreSeen(order, _) => assert Holds(n, By(order));
    case Alert(now) => RegateStanding(n, n.inst.gate, now);
    case YahooCycle(day, at) => RegateStanding(n, Dated(n.inst.gate, day, at), at);
    case _ =>
  }

  /** While every clear finds the instrument free, an executable book never
      stands outside its section on an instrument that is trading. */
  lemma {:induction false} NoBookStandsUnguarded(n: Node, steps: seq<Step>)
    requires Starts(n) || (Exclusive(n) && Guarded(n))
    requires Legal(n, steps) && ClearsWhenFree(States(n, steps), steps)
    ensures forall i :: 0 <= i <= |steps| ==> Guarded(States(n, steps)[i])
    decreases |steps|
  {
    if Starts(n) {
      StartExclusive(n);
    }
    if steps != [] {
      hide Apply, Enabled, Clears;
      var m, rest := Apply(n, steps[0]), steps[1..];
      var states, later := States(n, steps), States(m, rest);
      assert states[0] == n && later[0] == m;
      assert forall i :: 0 <= i < |later| ==> later[i] == states[i + 1];
      assert forall i :: 0 <= i < |rest| ==> rest[i] == steps[i + 1];
      StepExclusive(n, steps[0]);
      if Free(n) {
        FreeStepGuarded(n, steps[0]);
      } else {
        var holder :| Held(n, holder);
        HeldStepGuarded(n, holder, steps[0]);
      }
      NoBookStandsUnguarded(m, rest);
      assert forall i :: 1 <= i < |states| ==> states[i] == later[i - 1];
    }
  }

  lemma ExecuteAdds(n: Node, plan: Plan, at: nat)
    ensures Adds(n, Execute(n, plan, at), Poller)
  {
    hide Stamp;
    NextBookAdds(n, at, plan.books);
    NextBookAdds(PublishStatus(n, plan.status, at), at, plan.books);
  }

  /** The window an unseen restore leaves: the instrument is released in one
      step and marked failed in a later one, so from any state with a MARKET
      waiting on its idle book and another asking, the other can take the
      section in between, lose the flag to the late mark, and have the poller
      observe over its sized book. */
  lemma UnseenRestoreLosesTheSection(n: Node, a: Order, b: Order, at: nat, now: nat, i: Intent,
                                     o: Observed, evidence: Verdict, resting: seq<Resting>)
    requires n.feed == Hithink && Exclusive(n) && At(n, a, RestoredUp(at)) && At(n, b, Asking(true)) && a != b
    requires Admissible(n.inst.gate, now) && n.inst.gate.idleLast.Some? && n.inst.gate.ready.Some?
    requires o.tick > 0
    ensures Enabled(n, RestoreSeen(a, false))
    ensures var n1 := Apply(n, RestoreSeen(a, false));
            Enabled(n1, Attempt(b, now, true, Some(i)))
            && var n2 := Apply(n1, Attempt(b, now, true, Some(i)));
               Enabled(n2, MarkFailed(a))
               && var m := Apply(n2, MarkFailed(a));
                  && !m.inst.busy && Holds(m, By(b)) && Standing(m.log)
                  && Enabled(m, Observation(o, evidence, now, resting))
                  && m.log + [Advance(Poller)] <= Apply(m, Observation(o, evidence, now, resting)).log
  {
    hide Observe, Stamp, InSession, Execute, Standing;
    assert Holds(n, By(a));
    var holder :| Held(n, holder);
    assert !Holds(n, Poller);
    var n1 := Apply(n, RestoreSeen(a, false));
    var n2 := Apply(n1, Attempt(b, now, true, Some(i)));
    var m := Apply(n2, MarkFailed(a));
    StandingAppend(n1.log, Quote(By(b), n2.inst.tsLast, SizedBook(n1.inst.gate, i)));
    StandingAppend(n2.log, Status(Failed(n2.inst, PublicationFailed, at).tsLast, Pause));
    var (inst, plan) := Observe(m.inst, o, evidence, now, resting);
    ExecuteAdds(Log(m.(inst := inst), Advance(Poller)), plan, now);
  }

  /** The sections of a MARKET up to the idle book it waits on, on an open, free
      instrument that another MARKET asks too. */
  lemma MarketSections(n: Node, a: Order, b: Order, t: nat, i: Intent) returns (after: seq<Node>)
    requires n.feed == Hithink && n.poll == Between && !n.inst.busy && a != b
    requires n.orders == map[a := Asking(true), b := Asking(true)]
    requires Admissible(n.inst.gate, t) && n.inst.gate.idleLast.Some? && n.inst.gate.ready.Some?
    ensures |after| == 4
    ensures Enabled(n, Attempt(a, t, true, Some(i))) && after[0] == Apply(n, Attempt(a, t, true, Some(i)))
    ensures Enabled(after[0], SizedSeen(a, true)) && after[1] == Apply(after[0], SizedSeen(a, true))
    ensures Enabled(after[1], Hand(a)) && after[2] == Apply(after[1], Hand(a))
    ensures Enabled(after[2], Restore(a)) && after[3] == Apply(after[2], Restore(a))
    ensures var m := after[3];
            && At(m, b, Asking(true)) && (exists at :: At(m, a, RestoredUp(at)))
            && m.feed == Hithink && m.inst.gate == n.inst.gate && Exclusive(m)
  {
    hide Stamp, InSession;
    var n1 := Apply(n, Attempt(a, t, true, Some(i)));
    var n2 := Apply(n1, SizedSeen(a, true));
    var n3 := Apply(n2, Hand(a));
    var n4 := Apply(n3, Restore(a));
    after := [n1, n2, n3, n4];
    assert At(n4, a, RestoredUp(n4.orders[a].at));
    forall who
      ensures Holds(n4, who) <==> who == By(a)
    {
    }
    assert Held(n4, By(a));
  }

  lemma OpensAndAsks(n: Node, o: Observed, a: Order, b: Order, t: nat) returns (after: seq<Node>)
    requires Starts(n) && n.feed == Hithink && a != b && o.ok.Pass? && o.prevClose > 0 && o.tick > 0 && InSession(t)
    ensures |after| == 3
    ensures Enabled(n, Observation(o, Pass, t, [])) && after[0] == Apply(n, Observation(o, Pass, t, []))
    ensures Enabled(after[0], Ask(a, true)) && after[1] == Apply(after[0], Ask(a, true))
    ensures Enabled(after[1], Ask(b, true)) && after[2] == Apply(after[1], Ask(b, true))
    ensures var m := after[2];
            && m.feed == Hithink && m.poll == Between && !m.inst.busy
            && m.orders == map[a := Asking(true), b := Asking(true)]
            && Admissible(m.inst.gate, t) && m.inst.gate.idleLast.Some? && m.inst.gate.ready.Some?
  {
    FirstObservation(n, o, t, []);
    var n1 := Apply(n, Observation(o, Pass, t, []));
    assert Admissible(n1.inst.gate, t);
    hide Observe, Admissible, InSession, Execute, Stamp, ReadyAt, ReadyOf;
    var n2 := Apply(n1, Ask(a, true));
    after := [n1, n2, Apply(n2, Ask(b, true))];
  }

  /** The state that window opens from is reached from a start: the instrument
      opens, two MARKETs ask, and the first goes as far as its idle book. */
  lemma RestoreIsReached(n: Node, o: Observed, a: Order, b: Order, t: nat, i: Intent) returns (steps: seq<Step>)
    requires Starts(n) && n.feed == Hithink && a != b && o.ok.Pass? && o.prevClose > 0 && o.tick > 0 && InSession(t)
    ensures Legal(n, steps)
    ensures var m := States(n, steps)[|steps|];
            && m.feed == Hithink && Exclusive(m) && At(m, b, Asking(true)) && (exists at :: At(m, a, RestoredUp(at)))
            && Admissible(m.inst.gate, t) && m.inst.gate.idleLast.Some? && m.inst.gate.ready.Some?
  {
    var opens := OpensAndAsks(n, o, a, b, t);
    var n1, n2, n3 := opens[0], opens[1], opens[2];
    hide Observe, Admissible, InSession, Execute, Stamp, Exclusive, ReadyAt, ReadyOf;
    var after := MarketSections(n3, a, b, t, i);
    hide Apply, Enabled, Starts, At;
    Then(after[2], Restore(a), []);
    steps := [Restore(a)] + [];
    Then(after[1], Hand(a), steps);
    steps := [Hand(a)] + steps;
    Then(after[0], SizedSeen(a, true), steps);
    steps := [SizedSeen(a, true)] + steps;
    Then(n3, Attempt(a, t, true, Some(i)), steps);
    steps := [Attempt(a, t, true, Some(i))] + steps;
    Then(n2, Ask(b, true), steps);
    steps := [Ask(b, true)] + steps;
    Then(n1, Ask(a, true), steps);
    steps := [Ask(a, true)] + steps;
    Then(n, Observation(o, Pass, t, []), steps);
    steps := [Observation(o, Pass, t, [])] + steps;
  }
}
