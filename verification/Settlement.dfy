/** T+1 over whole runs, with every order's check and hand-over in the section
    that makes it: an account, and the instrument whose critical section its
    orders go through. A LIMIT is checked and handed over in one section. A
    MARKET with a sized book is checked in one and handed over in a later one
    that does not check again; only the busy flag keeps another SELL out in
    between.
 */
module Settlement {
  import opened Options
  import opened Session
  import opened Instrument
  import Catalog
  import C = Critical
  import E = Eligibility
  import M = Matching

  type Order = C.Order

  datatype Terms = Terms(side: Side, quantity: nat, price: Option<int>)

  datatype Desk = Desk(node: C.Node, account: E.Account, terms: map<Order, Terms>)

  datatype Step =
    | Ask(order: Order, terms: Terms)
    | Section(step: C.Step)
    | Trade(trade: E.Step)      // the clock, a fill or a cancel

  /** Admission runs every check on the node's clock and its account. */
  predicate OnTerms(d: Desk, step: C.Step) {
    match step
    case Attempt(order, now, admitted, sized) =>
      && order in d.terms && now == d.account.now
      && var t := d.terms[order];
         && (admitted <==> !d.node.inst.busy && C.Admissible(d.node.inst.gate, now)
                           && E.Check(d.account, d.node.inst.gate, t.side, t.quantity, t.price) == E.Admitted)
         && (sized.Some? ==> sized.value.side == t.side && sized.value.quantity == t.quantity)
    case Hand(order) => order in d.terms
    case _ => true
  }

  predicate Enabled(d: Desk, step: Step) {
    match step
    case Ask(order, terms) => C.Enabled(d.node, C.Ask(order, terms.price.None?))
    case Section(s) => !s.Ask? && C.Enabled(d.node, s) && OnTerms(d, s)
    case Trade(s) => !s.Reserve? && E.Enabled(d.account, s)
  }

  /** The SELL quantity a step hands over. */
  function Reserved(d: Desk, step: Step): Option<nat>
    requires Enabled(d, step)
  {
    if !step.Section? then None
    else
      match step.step
      case Attempt(order, _, admitted, sized) =>
        if admitted && sized.None? && d.terms[order].side == Sell then Some(d.terms[order].quantity) else None
      case Hand(order) => if d.terms[order].side == Sell then Some(d.terms[order].quantity) else None
      case _ => None
  }

  function Account(d: Desk, step: Step): E.Account
    requires Enabled(d, step)
  {
    if step.Trade? then E.Apply(d.account, step.trade)
    else if Reserved(d, step).Some? then E.Apply(d.account, E.Reserve(Reserved(d, step).value))
    else d.account
  }

  function NodeStep(step: Step): Option<C.Step> {
    match step
    case Ask(order, terms) => Some(C.Ask(order, terms.price.None?))
    case Section(s) => Some(s)
    case Trade(_) => None
  }

  function Apply(d: Desk, step: Step): Desk
    requires Enabled(d, step)
  {
    Desk(if NodeStep(step).Some? then C.Apply(d.node, NodeStep(step).value) else d.node,
         Account(d, step),
         if step.Ask? then d.terms[step.order := step.terms] else d.terms)
  }

  predicate Legal(d: Desk, steps: seq<Step>)
    decreases |steps|
  {
    steps == [] || (Enabled(d, steps[0]) && Legal(Apply(d, steps[0]), steps[1..]))
  }

  /** The states a run passes through, its own first. */
  function States(d: Desk, steps: seq<Step>): (states: seq<Desk>)
    requires Legal(d, steps)
    ensures |states| == |steps| + 1 && states[0] == d
    decreases |steps|
  {
    if steps == [] then [d] else [d] + States(Apply(d, steps[0]), steps[1..])
  }

  /** The wait for an admission answers with the readiness `check` will: whatever
      it lets through is never refused as unavailable, in session what it keeps out
      would be, and outside one it keeps out only what was not ready at all. */
  lemma AdmissionAgreesWithCheck(a: E.Account, g: Gate, side: Side, quantity: nat, price: Option<int>)
    ensures var r := E.Check(a, g, side, quantity, price);
            && (C.Admissible(g, a.now) ==> !(r.Refused? && r.why.Unavailable?))
            && (InSession(a.now) && !C.Admissible(g, a.now) ==> r.Refused? && r.why.Unavailable?)
            && (!InSession(a.now) ==> (C.Admissible(g, a.now) <==> g.readiness.Pass?))
  {
    E.RefusedFor(a, g, side, quantity, price);
    hide InSession, E.Check;
  }

  /** The book a MARKET is admitted with meets the LIMITs resting then, in any
      priority order, and still displays just the MARKET's own quantity on the side
      it takes, or nothing where the price stands at that side's limit. */
  lemma MarketFindsItsQuantity(d: Desk, order: Order, now: nat, intent: C.Intent, q: seq<Resting>)
    requires Enabled(d, Section(C.Attempt(order, now, true, Some(intent)))) && multiset(q) == multiset(intent.resting)
    ensures var g, t := d.node.inst.gate, d.terms[order];
            var book, last, ready := C.SizedBook(g, intent), g.idleLast.value, g.ready.value;
            M.Left(q, last, book.bidSize, book.askSize)
               == (if t.side == Sell && last != ready.limitDown then t.quantity else 0,
                   if t.side == Buy && last != ready.limitUp then t.quantity else 0)
  {
    var g, t := d.node.inst.gate, d.terms[order];
    hide E.Check, C.Apply, InSession;
    M.MarketIsLeftItsQuantity(intent.resting, q, g.idleLast.value, g.ready.value, t.side, t.quantity);
  }

  // ---------------------------------------------------------------------
  // T+1 and its exact condition
  // ---------------------------------------------------------------------

  /** What a step hands over is still sellable when it does. */
  predicate Fits(d: Desk, step: Step) {
    Enabled(d, step) && Reserved(d, step).Some? ==> Reserved(d, step).value <= E.Sellable(d.account)
  }

  ghost predicate AlwaysSettled(states: seq<Desk>) {
    forall i :: 0 <= i < |states| ==> E.Settled(states[i].account)
  }

  ghost predicate AlwaysFits(states: seq<Desk>, steps: seq<Step>)
    requires |states| == |steps| + 1
  {
    forall k :: 0 <= k < |steps| ==> Fits(states[k], steps[k])
  }

  lemma StepInv(d: Desk, step: Step)
    requires E.Inv(d.account) && Enabled(d, step) && Fits(d, step)
    ensures E.Inv(Apply(d, step).account)
  {
    hide E.Inv, E.Sellable, E.Enabled, E.Apply, C.Apply, C.Enabled;
    if step.Trade? {
      TradeInv(d.account, step.trade);
    } else if Reserved(d, step).Some? {
      ReserveInv(d.account, Reserved(d, step).value);
    }
  }

  lemma TradeInv(a: E.Account, step: E.Step)
    requires E.Inv(a) && E.Enabled(a, step) && !step.Reserve?
    ensures E.Inv(E.Apply(a, step))
  {
    E.StepInv(a, step);
  }

  lemma ReserveInv(a: E.Account, quantity: nat)
    requires E.Inv(a) && quantity <= E.Sellable(a)
    ensures E.Inv(E.Apply(a, E.Reserve(quantity)))
  {
    E.StepInv(a, E.Reserve(quantity));
  }

  /** What holds of a whole run but its first state holds of its first step too
      or fails there. */
  lemma TailSettles(d: Desk, steps: seq<Step>)
    requires steps != [] && Legal(d, steps) && E.Settled(d.account)
    ensures var rest := States(Apply(d, steps[0]), steps[1..]);
            && (AlwaysSettled(States(d, steps)) <==> AlwaysSettled(rest))
            && (AlwaysFits(States(d, steps), steps) <==> Fits(d, steps[0]) && AlwaysFits(rest, steps[1..]))
  {
    hide E.Settled, Fits, Apply, Enabled;
    var states, rest := States(d, steps), States(Apply(d, steps[0]), steps[1..]);
    assert states == [d] + rest;
    assert forall i :: 0 <= i < |rest| ==> states[i + 1] == rest[i];
    assert forall i :: 1 <= i < |states| ==> states[i] == rest[i - 1];
    assert forall k :: 0 <= k < |steps[1..]| ==> steps[1..][k] == steps[k + 1];
    assert forall k :: 1 <= k < |steps| ==> steps[k] == steps[1..][k - 1];
    if AlwaysFits(states, steps) {
      forall k | 0 <= k < |steps[1..]|
        ensures Fits(rest[k], steps[1..][k])
      {
        assert Fits(states[k + 1], steps[k + 1]);
      }
      assert Fits(states[0], steps[0]);
    }
    if AlwaysSettled(states) {
      forall i | 0 <= i < |rest|
        ensures E.Settled(rest[i].account)
      {
        assert E.Settled(states[i + 1].account);
      }
    }
  }

  /** T+1, in every run: locked plus reserved never exceeds the position, and the
      shares sold on any Shanghai date never exceed the position held when it
      began, exactly when every SELL handed over is still within what is sellable
      at its hand-over. */
  lemma {:induction false} SettlementHolds(d: Desk, steps: seq<Step>)
    requires E.Inv(d.account) && Legal(d, steps)
    ensures AlwaysSettled(States(d, steps)) <==> AlwaysFits(States(d, steps), steps)
    decreases |steps|
  {
    E.InvSettles(d.account);
    if steps != [] {
      hide E.Inv, E.Settled, Apply, Enabled, Fits;
      TailSettles(d, steps);
      if Fits(d, steps[0]) {
        StepInv(d, steps[0]);
        SettlementHolds(Apply(d, steps[0]), steps[1..]);
      } else {
        MisfitBreaks(d, steps[0]);
        assert States(d, steps)[1] == Apply(d, steps[0]);
      }
    }
  }

  lemma MisfitBreaks(d: Desk, step: Step)
    requires E.Inv(d.account) && Enabled(d, step) && !Fits(d, step)
    ensures !E.Settled(Apply(d, step).account)
  {
    hide E.Inv, E.Settled, E.Sellable, E.Apply, C.Apply, C.Enabled;
    E.OverReserving(d.account, Reserved(d, step).value);
  }

  // ---------------------------------------------------------------------
  // When it holds: the flag stays up over every SELL still to be handed over
  // ---------------------------------------------------------------------

  /** Checked, and not handed over yet. */
  predicate Early(n: C.Node, order: Order) {
    order in n.orders && (n.orders[order].SizedUp? || n.orders[order].Confirmed?)
  }

  predicate Pending(d: Desk, order: Order) {
    Early(d.node, order) && order in d.terms && d.terms[order].side == Sell
  }

  ghost predicate FlagKept(d: Desk) {
    forall order :: Pending(d, order) ==> d.node.inst.busy
  }

  /** At most one SELL is pending, and it is within what is sellable. */
  ghost predicate PendingFits(d: Desk) {
    && (forall order :: order in d.node.orders ==> order in d.terms)
    && (forall a, b :: Pending(d, a) && Pending(d, b) ==> a == b)
    && (forall order :: Pending(d, order) ==> d.terms[order].quantity <= E.Sellable(d.account))
  }

  /** Still to be checked. */
  predicate Asks(n: C.Node, order: Order) {
    order in n.orders && n.orders[order].Asking?
  }

  /** Just an admission with a sized book leaves a checked order to be handed over
      later; it is, or its book is never seen; and an order asks until it is
      admitted or gives up. */
  lemma EarlyAfter(n: C.Node, step: C.Step, order: Order)
    requires C.Enabled(n, step)
    ensures var m := C.Apply(n, step);
            && m.orders.Keys == (if step.Ask? then n.orders.Keys + {step.order} else n.orders.Keys)
            && (Early(m, order) <==>
                  || (step.Attempt? && step.order == order && step.admitted && step.sized.Some?)
                  || (Early(n, order) && step != C.Hand(order) && step != C.SizedSeen(order, false)))
            && (step.Hand? ==> Early(n, step.order) && !Early(m, step.order))
            && (Asks(m, order) <==>
                  || (step.Ask? && step.order == order)
                  || (Asks(n, order) && step != C.GiveUp(order)
                      && !(step.Attempt? && step.order == order && step.admitted)))
  {
    hide Observe, Gated, Stamp, Changed, C.Execute, C.NextBook;
    if step.Observation? && !n.inst.busy {
      var (inst, plan) := Observe(n.inst, step.o, step.evidence, step.now, step.resting);
      ExecuteKeepsOrders(C.Log(n.(inst := inst), C.Advance(C.Poller)), plan, step.now);
    } else if step.PollSees? && step.seen && n.poll.IdleUp? {
      C.NextBookPolls(C.SetBusy(n, false), n.poll.at, n.poll.rest);
    }
  }

  lemma ExecuteKeepsOrders(n: C.Node, plan: Plan, at: nat)
    ensures C.Execute(n, plan, at).orders == n.orders
  {
    hide Stamp, C.NextBook;
    C.NextBookPolls(n, at, plan.books);
    C.NextBookPolls(C.PublishStatus(n, plan.status, at), at, plan.books);
  }

  /** While the flag is kept, whatever is handed over fits, and whatever becomes
      or stays pending still does. */
  lemma FlagStep(d: Desk, step: Step)
    requires E.Inv(d.account) && PendingFits(d) && FlagKept(d) && Enabled(d, step)
    ensures Fits(d, step)
    ensures PendingFits(Apply(d, step))
  {
    var e := Apply(d, step);
    assert Fits(d, step) by { FlagFits(d, step); }
    hide E.Inv, E.Apply, E.Enabled, E.Check, C.Apply, C.Enabled, Early;
    if step.Trade? {
      hide E.Sellable;
      E.SellableGrows(d.account, step.trade);
      assert forall order :: Pending(e, order) ==> Pending(d, order);
    } else {
      SectionPending(d, step);
    }
  }

  lemma FlagFits(d: Desk, step: Step)
    requires PendingFits(d) && Enabled(d, step)
    ensures Fits(d, step)
  {
    hide E.Sellable, C.Apply;
    if step.Section? && step.step.Attempt? && Reserved(d, step).Some? {
      var t := d.terms[step.step.order];
      E.AdmittedSell(d.account, d.node.inst.gate, t.quantity, t.price);
    } else if step.Section? && step.step.Hand? && Reserved(d, step).Some? {
      assert Pending(d, step.step.order);
    }
  }

  lemma SectionPending(d: Desk, step: Step)
    requires E.Inv(d.account) && PendingFits(d) && FlagKept(d) && Enabled(d, step) && !step.Trade?
    ensures PendingFits(Apply(d, step))
  {
    hide E.Inv, E.Apply, E.Sellable, C.Apply, Early;
    var e, s := Apply(d, step), NodeStep(step).value;
    assert e.node == C.Apply(d.node, s);
    forall order | Pending(e, order)
      ensures Pending(d, order) || (s.Attempt? && s.order == order && s.admitted && s.sized.Some?)
    {
      EarlyAfter(d.node, s, order);
      if step.Ask? {
        NotAsked(d.node, s);
      }
    }
    EarlyAfter(d.node, s, 0);
    if s.Attempt? && s.admitted && s.sized.Some? {
      var t := d.terms[s.order];
      assert !d.node.inst.busy && forall order :: !Pending(d, order);
      if t.side == Sell {
        E.AdmittedSell(d.account, d.node.inst.gate, t.quantity, t.price);
      }
    } else {
      HandedIsNotPending(d, step);
      if step.Ask? {
        NotAsked(d.node, s);
      }
      assert forall order :: Pending(e, order) ==> e.terms[order] == d.terms[order];
      assert Reserved(d, step).None? ==> e.account == d.account;
    }
  }

  lemma NotAsked(n: C.Node, step: C.Step)
    requires C.Enabled(n, step) && step.Ask?
    ensures !Early(n, step.order)
  {
  }

  /** A hand-over leaves nothing pending; any other section without one leaves
      the account alone. */
  lemma HandedIsNotPending(d: Desk, step: Step)
    requires PendingFits(d) && FlagKept(d) && Enabled(d, step) && !step.Trade?
    requires !(step.Section? && step.step.Attempt? && step.step.admitted && step.step.sized.Some?)
    requires forall order :: Pending(Apply(d, step), order) ==> Pending(d, order)
    ensures Reserved(d, step).Some? ==> forall order :: !Pending(Apply(d, step), order)
    ensures Reserved(d, step).None? ==> Apply(d, step).account == d.account
  {
    hide E.Apply, E.Sellable, E.Check, C.Apply;
    if Reserved(d, step).Some? && step.step.Hand? {
      EarlyAfter(d.node, step.step, step.step.order);
      assert Pending(d, step.step.order);
    }
  }

  /** No state of the run leaves a checked SELL without the flag. */
  ghost predicate Kept(states: seq<Desk>) {
    forall i :: 0 <= i < |states| ==> FlagKept(states[i])
  }

  lemma KeptTail(d: Desk, steps: seq<Step>)
    requires steps != [] && Legal(d, steps) && Kept(States(d, steps))
    ensures FlagKept(d) && Kept(States(Apply(d, steps[0]), steps[1..]))
  {
    hide Apply, Enabled, FlagKept;
    var states, rest := States(d, steps), States(Apply(d, steps[0]), steps[1..]);
    assert states == [d] + rest;
    assert FlagKept(states[0]);
    forall i | 0 <= i < |rest|
      ensures FlagKept(rest[i])
    {
      assert FlagKept(states[i + 1]);
    }
  }

  /** Under the flag what is handed over fits, and at the end of the run at most
      one SELL is pending, within what is sellable. */
  lemma {:induction false} FlagKeepsFits(d: Desk, steps: seq<Step>)
    requires E.Inv(d.account) && PendingFits(d) && Legal(d, steps) && Kept(States(d, steps))
    ensures AlwaysFits(States(d, steps), steps)
    ensures var e := States(d, steps)[|steps|]; E.Inv(e.account) && PendingFits(e)
    decreases |steps|
  {
    if steps != [] {
      hide E.Inv, Apply, Enabled, Fits, PendingFits, FlagKept, E.Settled, Kept, AlwaysFits;
      KeptTail(d, steps);
      FlagStep(d, steps[0]);
      StepInv(d, steps[0]);
      FlagKeepsFits(Apply(d, steps[0]), steps[1..]);
      E.InvSettles(d.account);
      TailSettles(d, steps);
    }
  }

  // ---------------------------------------------------------------------
  // The critical section keeps the flag
  // ---------------------------------------------------------------------

  /** The instrument's own steps of a run. */
  function Sections(steps: seq<Step>): seq<C.Step> {
    if steps == [] then []
    else (if NodeStep(steps[0]).Some? then [NodeStep(steps[0]).value] else []) + Sections(steps[1..])
  }

  lemma NodeEnabled(d: Desk, step: Step)
    requires Enabled(d, step)
    ensures NodeStep(step).Some? ==>
              C.Enabled(d.node, NodeStep(step).value) && Apply(d, step).node == C.Apply(d.node, NodeStep(step).value)
    ensures NodeStep(step).None? ==> Apply(d, step).node == d.node
  {
    hide C.Enabled, C.Apply, E.Apply, E.Check;
  }

  ghost predicate ExclusiveThroughout(states: seq<Desk>) {
    forall i :: 0 <= i < |states| ==> C.Exclusive(states[i].node)
  }

  /** They are a run of the section, and every state the desk passes through is
      one of its. */
  lemma {:induction false} SectionRun(d: Desk, steps: seq<Step>)
    requires Legal(d, steps)
    ensures C.Legal(d.node, Sections(steps))
    ensures C.AlwaysExclusive(C.States(d.node, Sections(steps))) ==> ExclusiveThroughout(States(d, steps))
    decreases |steps|
  {
    hide Apply, Enabled, C.Enabled, C.Apply, C.Exclusive, NodeStep, ExclusiveThroughout, C.AlwaysExclusive;
    if steps == [] {
      assert C.States(d.node, []) == [d.node] && States(d, []) == [d];
      OneExclusive(d);
    } else {
      NodeEnabled(d, steps[0]);
      var e, later := Apply(d, steps[0]), Sections(steps[1..]);
      SectionRun(e, steps[1..]);
      assert States(d, steps) == [d] + States(e, steps[1..]);
      if NodeStep(steps[0]).Some? {
        C.Then(d.node, NodeStep(steps[0]).value, later);
        assert Sections(steps) == [NodeStep(steps[0]).value] + later;
        MoreExclusive(d, C.States(e.node, later), States(e, steps[1..]));
      } else {
        assert Sections(steps) == [] + later == later;
        SameExclusive(d, C.States(e.node, later), States(e, steps[1..]));
      }
    }
  }

  lemma OneExclusive(d: Desk)
    ensures C.AlwaysExclusive([d.node]) ==> ExclusiveThroughout([d])
  {
    hide C.Exclusive;
    assert [d.node][0] == d.node;
  }

  lemma MoreExclusive(d: Desk, nodes: seq<C.Node>, states: seq<Desk>)
    requires C.AlwaysExclusive(nodes) ==> ExclusiveThroughout(states)
    ensures C.AlwaysExclusive([d.node] + nodes) ==> ExclusiveThroughout([d] + states)
  {
    hide C.Exclusive;
    if C.AlwaysExclusive([d.node] + nodes) {
      assert C.Exclusive(([d.node] + nodes)[0]);
      forall i | 0 <= i < |nodes|
        ensures C.Exclusive(nodes[i])
      {
        assert C.Exclusive(([d.node] + nodes)[i + 1]);
      }
    }
  }

  lemma SameExclusive(d: Desk, nodes: seq<C.Node>, states: seq<Desk>)
    requires nodes != [] && nodes[0] == d.node
    requires C.AlwaysExclusive(nodes) ==> ExclusiveThroughout(states)
    ensures C.AlwaysExclusive(nodes) ==> ExclusiveThroughout([d] + states)
  {
    hide C.Exclusive;
    if C.AlwaysExclusive(nodes) {
      assert C.Exclusive(nodes[0]);
    }
  }

  lemma ExclusiveKeepsFlag(d: Desk)
    requires C.Exclusive(d.node)
    ensures FlagKept(d)
  {
    forall order | Pending(d, order)
      ensures d.node.inst.busy
    {
      assert C.Holds(d.node, C.By(order));
    }
  }

  /** So T+1 holds in every interleaving whose feed failures, provider switches
      and late failure marks each find the instrument free. */
  lemma ClearsWhenFreeSettles(d: Desk, steps: seq<Step>)
    requires E.Inv(d.account) && PendingFits(d) && C.Exclusive(d.node) && Legal(d, steps)
    requires C.Legal(d.node, Sections(steps))
             && C.ClearsWhenFree(C.States(d.node, Sections(steps)), Sections(steps))
    ensures AlwaysFits(States(d, steps), steps) && AlwaysSettled(States(d, steps))
  {
    hide E.Inv, PendingFits, C.Exclusive, Apply, Enabled, FlagKept, AlwaysFits, AlwaysSettled, C.Apply, C.Enabled;
    C.SectionIsExclusive(d.node, Sections(steps));
    SectionRun(d, steps);
    assert Kept(States(d, steps)) by {
      forall i | 0 <= i <= |steps|
        ensures FlagKept(States(d, steps)[i])
      {
        assert C.Exclusive(States(d, steps)[i].node);
        ExclusiveKeepsFlag(States(d, steps)[i]);
      }
    }
    FlagKeepsFits(d, steps);
    SettlementHolds(d, steps);
  }

  // ---------------------------------------------------------------------
  // The odd remainder
  // ---------------------------------------------------------------------

  /** Steps of one Shanghai date without a cancel. */
  predicate SameDay(steps: seq<Step>, day: int) {
    forall k :: 0 <= k < |steps| && steps[k].Trade? ==>
      !steps[k].trade.Cancel? && (steps[k].trade.Tick? ==> Day(steps[k].trade.to) == day)
  }

  /** A SELL handed over that is not a whole number of lots. */
  function Odd(d: Desk, step: Step): nat
    requires Enabled(d, step)
  {
    if Reserved(d, step).Some? && !Lots(Reserved(d, step).value) then 1 else 0
  }

  /** A SELL of whole lots; or of just the odd remainder; or, if no odd one came
      before it, of more than there is. */
  predicate Whole(sellable: nat, quantity: nat, odd: nat) {
    || Lots(quantity)
    || (quantity <= sellable && quantity % E.LOT == sellable % E.LOT)
    || (quantity > sellable && odd == 0)
  }

  predicate WholeNow(d: Desk, step: Step, odd: nat)
    requires Enabled(d, step)
  {
    Reserved(d, step).Some? ==> Whole(E.Sellable(d.account), Reserved(d, step).value, odd)
  }

  /** Every SELL handed over is one of those at its own hand-over. */
  predicate WholeRun(d: Desk, steps: seq<Step>, odd: nat)
    requires Legal(d, steps)
    decreases |steps|
  {
    steps == [] ||
    (WholeNow(d, steps[0], odd) && WholeRun(Apply(d, steps[0]), steps[1..], odd + Odd(d, steps[0])))
  }

  predicate Lots(quantity: nat) {
    quantity % E.LOT == 0
  }

  /** At every state of the run, after `odd` earlier ones, at most one SELL that
      is not whole lots was handed over, and after it what is sellable is. */
  predicate Unsplit(d: Desk, steps: seq<Step>, odd: nat)
    requires Legal(d, steps)
    decreases |steps|
  {
    && Apart(E.Sellable(d.account), odd)
    && (steps == [] || Unsplit(Apply(d, steps[0]), steps[1..], odd + Odd(d, steps[0])))
  }

  /** Within a date and without a cancel a step changes what is sellable by what
      it hands over. */
  lemma SellableStep(d: Desk, step: Step)
    requires Enabled(d, step) && SameDay([step], Day(d.account.now))
    ensures var e := Apply(d, step);
            && Day(e.account.now) == Day(d.account.now)
            && E.Sellable(e.account)
               == if Reserved(d, step).Some? then E.Rest(E.Sellable(d.account), Reserved(d, step).value)
                  else E.Sellable(d.account)
  {
    assert [step][0] == step;
    hide E.Sellable, E.Check, C.Apply, C.Enabled, Day;
    if step.Trade? {
      E.SellableChanges(d.account, step.trade);
    } else if Reserved(d, step).Some? {
      E.SellableChanges(d.account, E.Reserve(Reserved(d, step).value));
    }
  }

  lemma SameDayTail(steps: seq<Step>, day: int)
    requires SameDay(steps, day) && steps != []
    ensures SameDay([steps[0]], day) && SameDay(steps[1..], day)
  {
    assert forall k :: 0 <= k < |steps[1..]| ==> steps[1..][k] == steps[k + 1];
  }

  /** The odd count and the remainder after a hand-over. */
  predicate Apart(sellable: nat, odd: nat) {
    odd <= 1 && (odd == 1 ==> Lots(sellable))
  }

  lemma OddArithmetic(sellable: nat, quantity: nat, odd: nat)
    requires Apart(sellable, odd)
    ensures Apart(E.Rest(sellable, quantity), odd + if Lots(quantity) then 0 else 1) <==> Whole(sellable, quantity, odd)
  {
    if quantity <= sellable {
      E.LeftAfter(sellable, quantity);
    }
  }

  /** The odd remainder cannot be split: within a date and without a cancel, at
      every state of a run at most one SELL handed over is not a whole number of
      lots, and after it what is sellable is, exactly when each SELL handed over
      is whole lots, or fits and is the odd remainder at its own hand-over, or
      exceeds what is sellable with no odd one before it. */
  lemma {:induction false} OddRemainderGoesOnce(d: Desk, steps: seq<Step>, odd: nat)
    requires Legal(d, steps) && SameDay(steps, Day(d.account.now)) && Apart(E.Sellable(d.account), odd)
    ensures Unsplit(d, steps, odd) <==> WholeRun(d, steps, odd)
    decreases |steps|
  {
    OddFront(d, steps, odd);
    hide Day, E.Sellable, Apart, Enabled, Apply, SameDay, Odd, Reserved, Unsplit, WholeRun, WholeNow;
    if steps != [] {
      SameDayTail(steps, Day(d.account.now));
      OddStep(d, steps[0], odd);
      var e, more := Apply(d, steps[0]), odd + Odd(d, steps[0]);
      OddFront(e, steps[1..], more);
      if Apart(E.Sellable(e.account), more) {
        OddRemainderGoesOnce(e, steps[1..], more);
      }
    }
  }

  lemma OddFront(d: Desk, steps: seq<Step>, odd: nat)
    requires Legal(d, steps)
    ensures Unsplit(d, steps, odd) ==> Apart(E.Sellable(d.account), odd)
    ensures steps == [] ==>
              WholeRun(d, steps, odd) && (Unsplit(d, steps, odd) <==> Apart(E.Sellable(d.account), odd))
    ensures steps != [] ==>
              (Unsplit(d, steps, odd) <==>
                 Apart(E.Sellable(d.account), odd) && Unsplit(Apply(d, steps[0]), steps[1..], odd + Odd(d, steps[0])))
    ensures steps != [] ==>
              (WholeRun(d, steps, odd) <==>
                 WholeNow(d, steps[0], odd) && WholeRun(Apply(d, steps[0]), steps[1..], odd + Odd(d, steps[0])))
  {
    hide Day, E.Sellable, Apart, Enabled, Apply, Odd, Reserved, WholeNow;
  }

  lemma OddStep(d: Desk, step: Step, odd: nat)
    requires Enabled(d, step) && SameDay([step], Day(d.account.now)) && Apart(E.Sellable(d.account), odd)
    ensures var e := Apply(d, step);
            && Day(e.account.now) == Day(d.account.now)
            && (Apart(E.Sellable(e.account), odd + Odd(d, step)) <==> WholeNow(d, step, odd))
  {
    SellableStep(d, step);
    hide Day, E.Sellable, E.Rest, Apply, SameDay, Apart, Whole, Lots;
    if Reserved(d, step).Some? {
      OddArithmetic(E.Sellable(d.account), Reserved(d, step).value, odd);
    }
  }

  /** A pending SELL is whole lots or the odd remainder. */
  ghost predicate PendingWhole(d: Desk) {
    forall order :: Pending(d, order) ==> E.WholeOrRest(d.account, d.terms[order].quantity)
  }

  lemma WholeStep(d: Desk, step: Step)
    requires E.Inv(d.account) && PendingFits(d) && PendingWhole(d) && FlagKept(d) && Enabled(d, step)
    requires SameDay([step], Day(d.account.now))
    ensures Reserved(d, step).Some? ==> E.WholeOrRest(d.account, Reserved(d, step).value)
    ensures PendingWhole(Apply(d, step))
  {
    FlagFits(d, step);
    SellableStep(d, step);
    hide E.Inv, E.Sellable, E.Apply, C.Apply, C.Enabled, Day;
    var e := Apply(d, step);
    if step.Section? && step.step.Attempt? && step.step.admitted {
      var t := d.terms[step.step.order];
      if t.side == Sell {
        E.AdmittedSell(d.account, d.node.inst.gate, t.quantity, t.price);
      }
    }
    if step.Section? && step.step.Hand? && Reserved(d, step).Some? {
      EarlyAfter(d.node, step.step, step.step.order);
      assert Pending(d, step.step.order);
    }
    forall order | Pending(e, order)
      ensures E.WholeOrRest(e.account, e.terms[order].quantity)
    {
      PendingBefore(d, step, order);
    }
  }

  /** What is pending was, with the account as it is, or has just been checked. */
  lemma PendingBefore(d: Desk, step: Step, order: Order)
    requires PendingFits(d) && FlagKept(d) && Enabled(d, step) && Pending(Apply(d, step), order)
    ensures Apply(d, step).terms[order] == d.terms[order]
    ensures Reserved(d, step).None?
    ensures Pending(d, order) || (step.Section? && step.step.Attempt? && step.step.order == order
                                  && step.step.admitted && d.terms[order].side == Sell)
  {
    hide E.Sellable, E.Apply, E.Check, C.Apply;
    assert step.Section? && step.step.Hand? && d.terms[step.step.order].side == Sell ==>
        Pending(d, step.step.order);
    NodeEnabled(d, step);
    if NodeStep(step).Some? {
      EarlyAfter(d.node, NodeStep(step).value, order);
      if step.Ask? {
        NotAsked(d.node, NodeStep(step).value);
      }
      assert Apply(d, step).terms[order] == d.terms[order];
      assert !(step.Section? && step.step.Attempt? && step.step.sized.Some?) ==> Pending(d, order);
    }
  }

  lemma WholeNowFrom(d: Desk, step: Step, odd: nat)
    requires Enabled(d, step) && Fits(d, step)
    requires Reserved(d, step).Some? ==> E.WholeOrRest(d.account, Reserved(d, step).value)
    ensures WholeNow(d, step, odd)
  {
    hide E.Sellable, Enabled, Reserved;
  }

  /** A step of such a run. */
  lemma FlagWholeStep(d: Desk, step: Step, odd: nat)
    requires E.Inv(d.account) && PendingFits(d) && PendingWhole(d) && FlagKept(d) && Enabled(d, step)
    requires SameDay([step], Day(d.account.now))
    ensures var e := Apply(d, step);
            && E.Inv(e.account) && PendingFits(e) && PendingWhole(e) && Day(e.account.now) == Day(d.account.now)
    ensures WholeNow(d, step, odd)
  {
    hide E.Inv, Apply, Enabled, PendingFits, PendingWhole, FlagKept, SameDay, Day, WholeNow, E.Sellable, Reserved, Fits;
    FlagStep(d, step);
    WholeStep(d, step);
    StepInv(d, step);
    SellableStep(d, step);
    WholeNowFrom(d, step, odd);
  }

  /** So while the flag is kept the remainder goes once. */
  lemma {:induction false} FlagKeepsWhole(d: Desk, steps: seq<Step>, odd: nat)
    requires E.Inv(d.account) && PendingFits(d) && PendingWhole(d) && Legal(d, steps)
    requires SameDay(steps, Day(d.account.now)) && Kept(States(d, steps))
    ensures WholeRun(d, steps, odd)
    decreases |steps|
  {
    hide E.Inv, Apply, Enabled, PendingFits, PendingWhole, FlagKept, SameDay, Day, WholeRun, Unsplit, Apart, Odd,
      E.Sellable, Reserved, WholeNow, Kept, States;
    OddFront(d, steps, odd);
    if steps != [] {
      SameDayTail(steps, Day(d.account.now));
      KeptTail(d, steps);
      FlagWholeStep(d, steps[0], odd);
      FlagKeepsWhole(Apply(d, steps[0]), steps[1..], odd + Odd(d, steps[0]));
    }
  }

  // ---------------------------------------------------------------------
  // When it does not
  // ---------------------------------------------------------------------

  /** Everything a run hands over. */
  function TotalReserved(d: Desk, steps: seq<Step>): nat
    requires Legal(d, steps)
    decreases |steps|
  {
    if steps == [] then 0
    else
      (if Reserved(d, steps[0]).Some? then Reserved(d, steps[0]).value else 0)
      + TotalReserved(Apply(d, steps[0]), steps[1..])
  }

  /** From its check to its hand-over, within the date and without a cancel, a
      SELL still fits exactly when it and all that was handed over in between,
      fitting or not, are within what was sellable at the check. */
  lemma {:induction false} OthersTakeTheRoom(d: Desk, steps: seq<Step>, quantity: nat)
    requires Legal(d, steps) && SameDay(steps, Day(d.account.now)) && quantity > 0
    ensures quantity <= E.Sellable(States(d, steps)[|steps|].account)
       <==> quantity + TotalReserved(d, steps) <= E.Sellable(d.account)
    decreases |steps|
  {
    if steps != [] {
      hide Day, E.Sellable, Enabled, Apply, SameDay, Reserved;
      SameDayTail(steps, Day(d.account.now));
      SellableStep(d, steps[0]);
      var e := Apply(d, steps[0]);
      assert States(d, steps)[|steps|] == States(e, steps[1..])[|steps| - 1];
      OthersTakeTheRoom(e, steps[1..], quantity);
    }
  }

  ghost predicate Starts(d: Desk) {
    C.Starts(d.node) && E.Starts(d.account) && d.terms == map[]
  }

  lemma StartHolds(d: Desk)
    requires Starts(d)
    ensures E.Inv(d.account) && PendingFits(d) && C.Exclusive(d.node)
  {
    E.StartInv(d.account);
    C.StartExclusive(d.node);
  }

  /** Of every run of a desk that never traded: T+1 holds exactly when every
      hand-over still fits, which it does when no state leaves a checked SELL
      without the flag, and so when every blind clear finds the instrument free. */
  lemma FromAStart(d: Desk, steps: seq<Step>)
    requires Starts(d) && Legal(d, steps)
    ensures AlwaysSettled(States(d, steps)) <==> AlwaysFits(States(d, steps), steps)
    ensures Kept(States(d, steps)) ==> AlwaysSettled(States(d, steps))
    ensures C.Legal(d.node, Sections(steps))
            && (C.ClearsWhenFree(C.States(d.node, Sections(steps)), Sections(steps)) ==>
                  AlwaysSettled(States(d, steps)))
  {
    hide Starts, E.Inv, PendingFits, C.Exclusive, Apply, Enabled, Kept, AlwaysFits, AlwaysSettled, C.ClearsWhenFree,
      C.Legal, Legal, States, Sections;
    StartHolds(d);
    SettlementHolds(d, steps);
    SectionRun(d, steps);
    if Kept(States(d, steps)) {
      FlagKeepsFits(d, steps);
    }
    if C.ClearsWhenFree(C.States(d.node, Sections(steps)), Sections(steps)) {
      ClearsWhenFreeSettles(d, steps);
    }
  }

  /** And from any later moment of it, to the end of that date, if what is then
      pending is still whole lots or the remainder: while the flag is kept and
      nothing is cancelled, at most one SELL handed over is odd, and it takes the
      whole remainder. */
  lemma RemainderFromAStart(d: Desk, before: seq<Step>, today: seq<Step>)
    requires Starts(d) && Legal(d, before) && Kept(States(d, before))
    requires var e := States(d, before)[|before|];
             && PendingWhole(e) && Legal(e, today) && SameDay(today, Day(e.account.now)) && Kept(States(e, today))
    ensures var e := States(d, before)[|before|];
            WholeRun(e, today, 0) && Unsplit(e, today, 0)
  {
    hide Starts, E.Inv, PendingFits, PendingWhole, C.Exclusive, Apply, Enabled, Kept, AlwaysFits, Legal, SameDay, Day,
      WholeRun, Unsplit, E.Sellable;
    StartHolds(d);
    FlagKeepsFits(d, before);
    var e := States(d, before)[|before|];
    FlagKeepsWhole(e, today, 0);
    OddRemainderGoesOnce(e, today, 0);
  }

  lemma Then(d: Desk, step: Step, rest: seq<Step>)
    requires Enabled(d, step) && Legal(Apply(d, step), rest)
    ensures Legal(d, [step] + rest) && States(d, [step] + rest) == [d] + States(Apply(d, step), rest)
  {
    hide Apply, Enabled;
    assert ([step] + rest)[1..] == rest;
  }

  /** A desk whose free instrument is open, with nothing blocked. */
  predicate Open(d: Desk, o: Observed, t: nat) {
    && d.node.feed == C.Hithink && d.node.poll == C.Between && !d.node.inst.busy && o.tick > 0 && o.prevClose > 0
    && ReadyAt(d.node.inst.gate, t).Pass? && d.node.inst.gate.blockedDate.None?
    && d.node.inst.gate.idleLast.Some? && d.node.inst.gate.ready == Some(ReadyOf(o, Day(t)))
    && d.account.now == t && InSession(t)
  }

  predicate Trusted(o: Observed) {
    o.ok.Pass? && o.prevClose > 0 && o.tick > 0
  }

  /** A run, state by state. */
  ghost predicate Linked(states: seq<Desk>, steps: seq<Step>) {
    && |states| == |steps| + 1
    && forall k :: 0 <= k < |steps| ==> Enabled(states[k], steps[k]) && states[k + 1] == Apply(states[k], steps[k])
  }

  lemma Link(d: Desk, step: Step, states: seq<Desk>, steps: seq<Step>)
    requires Linked(states, steps) && Enabled(d, step) && states[0] == Apply(d, step)
    ensures Linked([d] + states, [step] + steps)
  {
    hide Enabled, Apply;
    var all, more := [d] + states, [step] + steps;
    forall k | 0 <= k < |more|
      ensures Enabled(all[k], more[k]) && all[k + 1] == Apply(all[k], more[k])
    {
      if k > 0 {
        assert all[k] == states[k - 1] && all[k + 1] == states[k] && more[k] == steps[k - 1];
      }
    }
  }

  lemma NoLink(d: Desk)
    ensures Linked([d], [])
  {
  }

  /** A fresh desk buys on one date, and on a later one its instrument opens and
      two SELLs ask: a MARKET, and a LIMIT at the upper limit. */
  lemma Opening(d: Desk, bought: nat, t: nat, o: Observed, first: Terms, second: Terms)
    returns (steps: seq<Step>, states: seq<Desk>)
    requires Starts(d) && d.node.feed == C.Hithink && bought > 0
    requires d.account.now <= t && Day(d.account.now) < Day(t) && InSession(t) && Trusted(o)
    requires first.price.None? && second.price.Some?
    ensures |steps| == 5 && Linked(states, steps) && states[0] == d
    ensures var e := states[5];
            && Open(e, o, t) && E.Inv(e.account) && E.Sellable(e.account) == bought
            && e.node.orders == map[1 := C.Asking(true), 2 := C.Asking(false)]
            && e.terms == map[1 := first, 2 := second]
  {
    var d1, d2 := Buys(d, bought, t, o);
    var d3 := Reopen(d2, t, o);
    var d4, d5 := BothAsk(d3, first, second);
    assert Open(d5, o, t) by {
      hide Day, InSession, ReadyOf;
    }
    hide *;
    NoLink(d5);
    Link(d4, Ask(2, second), [d5], []);
    Link(d3, Ask(1, first), [d4] + [d5], [Ask(2, second)] + []);
    steps, states := [Ask(1, first)] + ([Ask(2, second)] + []), [d3] + ([d4] + [d5]);
    Link(d2, Section(C.Observation(o, Pass, t, [])), states, steps);
    steps, states := [Section(C.Observation(o, Pass, t, []))] + steps, [d2] + states;
    Link(d1, Trade(E.Tick(t)), states, steps);
    steps, states := [Trade(E.Tick(t))] + steps, [d1] + states;
    Link(d, Trade(E.BuyFills(bought)), states, steps);
    steps, states := [Trade(E.BuyFills(bought))] + steps, [d] + states;
  }

  lemma FreshAtStart(n: C.Node, o: Observed, t: nat)
    requires C.Starts(n) && n.feed == C.Hithink && InSession(t) && Trusted(o)
    ensures C.Fresh(n, o, t) && n.orders == map[]
  {
    hide InSession;
  }

  lemma Buys(d: Desk, bought: nat, t: nat, o: Observed) returns (e: Desk, f: Desk)
    requires Starts(d) && d.node.feed == C.Hithink && bought > 0
    requires d.account.now <= t && Day(d.account.now) < Day(t) && InSession(t) && Trusted(o)
    ensures Enabled(d, Trade(E.BuyFills(bought))) && e == Apply(d, Trade(E.BuyFills(bought)))
    ensures Enabled(e, Trade(E.Tick(t))) && f == Apply(e, Trade(E.Tick(t)))
    ensures f.account.now == t && E.Inv(f.account) && E.Sellable(f.account) == bought
    ensures C.Fresh(f.node, o, t) && f.node.orders == map[] && f.terms == map[]
  {
    hide E.Inv, E.Sellable, E.Starts, E.Check, C.Starts, C.Fresh, C.Apply, C.Enabled, InSession, Day, Trusted, OnTerms,
      E.Net, E.BoughtSince, E.Total;
    E.BoughtEarlier(d.account, bought, t);
    FreshAtStart(d.node, o, t);
    e := Apply(d, Trade(E.BuyFills(bought)));
    f := Apply(e, Trade(E.Tick(t)));
  }

  lemma BothAsk(d: Desk, first: Terms, second: Terms) returns (e: Desk, f: Desk)
    requires d.node.orders == map[] && d.terms == map[] && first.price.None? && second.price.Some?
    ensures Enabled(d, Ask(1, first)) && e == Apply(d, Ask(1, first))
    ensures Enabled(e, Ask(2, second)) && f == Apply(e, Ask(2, second))
    ensures f.account == d.account && f.node.poll == d.node.poll && f.node.inst == d.node.inst
    ensures f.node.feed == d.node.feed
    ensures f.node.orders == map[1 := C.Asking(true), 2 := C.Asking(false)] && f.terms == map[1 := first, 2 := second]
  {
    e := Apply(d, Ask(1, first));
    f := Apply(e, Ask(2, second));
  }

  /** The MARKET is checked; a feed failure takes its flag and the next
      observation opens the instrument again; the LIMIT is checked and handed
      over; and the MARKET is handed over after it. */
  lemma Slipping(d: Desk, t: nat, o: Observed, first: Terms, second: Terms)
    returns (steps: seq<Step>, states: seq<Desk>)
    requires Open(d, o, t) && Trusted(o) && E.Inv(d.account)
    requires d.node.orders == map[1 := C.Asking(true), 2 := C.Asking(false)]
    requires d.terms == map[1 := first, 2 := second]
    requires first.side == Sell && first.price.None? && first.quantity <= E.Sellable(d.account)
    requires second.side == Sell && second.quantity <= E.Sellable(d.account)
    requires second.price == Some(ReadyOf(o, Day(t)).limitUp)
    requires E.WholeOrRest(d.account, first.quantity) && E.WholeOrRest(d.account, second.quantity)
    ensures |steps| == 6 && Linked(states, steps) && states[0] == d
    ensures Enabled(states[3], steps[3]) && Enabled(states[5], steps[5])
    ensures Pending(states[2], 1) && !states[2].node.inst.busy && !FlagKept(states[2])
    ensures Reserved(states[3], steps[3]) == Some(second.quantity)
    ensures Reserved(states[5], steps[5]) == Some(first.quantity)
    ensures E.Settled(states[6].account) <==> first.quantity + second.quantity <= E.Sellable(d.account)
  {
    Passes(d.account, d.node.inst.gate, o, first.quantity, None);
    hide E.Check, E.Sellable, E.Inv, E.Settled, E.WholeOrRest, InSession, Day, ReadyOf, Apply, Enabled, Reserved,
      FlagKept, ReadyAt, Catalog.Band;
    var d1 := Slip(d, t, first);
    var d2 := Fall(d1, t, o);
    Exposed(d2, 1);
    var d3 := Reopen(d2, t, o);
    Passes(d.account, d3.node.inst.gate, o, second.quantity, second.price);
    var d4, d5, d6 := HandBoth(d3, t, first, second);
    hide *;
    NoLink(d6);
    steps, states := [], [d6];
    Link(d5, Section(C.Hand(1)), states, steps);
    steps, states := [Section(C.Hand(1))] + steps, [d5] + states;
    Link(d4, Section(C.SizedSeen(1, true)), states, steps);
    steps, states := [Section(C.SizedSeen(1, true))] + steps, [d4] + states;
    Link(d3, Section(C.Attempt(2, t, true, None)), states, steps);
    steps, states := [Section(C.Attempt(2, t, true, None))] + steps, [d3] + states;
    Link(d2, Section(C.Observation(o, Pass, t, [])), states, steps);
    steps, states := [Section(C.Observation(o, Pass, t, []))] + steps, [d2] + states;
    Link(d1, Section(C.FeedFails(FeedLost, t)), states, steps);
    steps, states := [Section(C.FeedFails(FeedLost, t))] + steps, [d1] + states;
    Link(d, Section(C.Attempt(1, t, true, Some(IntentOf(first)))), states, steps);
    steps, states := [Section(C.Attempt(1, t, true, Some(IntentOf(first))))] + steps, [d] + states;
    assert states[2] == d2 && states[3] == d3 && states[5] == d5 && states[6] == d6;
    assert steps[3] == Section(C.Attempt(2, t, true, None)) && steps[5] == Section(C.Hand(1));
  }

  lemma Passes(a: E.Account, g: Gate, o: Observed, quantity: nat, price: Option<int>)
    requires InSession(a.now) && ReadyAt(g, a.now).Pass? && o.prevClose > 0 && o.tick > 0
    requires g.ready == Some(ReadyOf(o, Day(a.now)))
    requires price.None? || price == Some(ReadyOf(o, Day(a.now)).limitUp)
    requires quantity <= E.Sellable(a) && E.WholeOrRest(a, quantity)
    ensures E.Check(a, g, Sell, quantity, price) == E.Admitted
  {
    hide E.Sellable, InSession, Day, Catalog.Band;
    Catalog.BandHasRoom(o.prevClose, o.tick, o.board);
  }

  lemma Exposed(d: Desk, order: Order)
    requires order in d.node.orders && d.node.orders[order].SizedUp? && order in d.terms && d.terms[order].side == Sell
    requires !d.node.inst.busy
    ensures Pending(d, order) && !FlagKept(d)
  {
    assert Pending(d, order);
  }

  /** A MARKET's intent with no LIMIT resting. */
  function IntentOf(t: Terms): C.Intent {
    C.Intent(t.side, t.quantity, [])
  }

  lemma Slip(d: Desk, t: nat, first: Terms) returns (e: Desk)
    requires d.account.now == t && d.node.feed == C.Hithink && !d.node.inst.busy && d.node.poll == C.Between
    requires ReadyAt(d.node.inst.gate, t).Pass? && InSession(t)
    requires d.node.inst.gate.idleLast.Some? && d.node.inst.gate.ready.Some?
    requires 1 in d.node.orders && d.node.orders[1] == C.Asking(true) && 1 in d.terms && d.terms[1] == first
    requires E.Check(d.account, d.node.inst.gate, first.side, first.quantity, first.price) == E.Admitted
    ensures var step := Section(C.Attempt(1, t, true, Some(IntentOf(first))));
            Enabled(d, step) && e == Apply(d, step)
    ensures e.account == d.account && e.terms == d.terms
    ensures e.node.feed == C.Hithink && e.node.poll == C.Between && e.node.inst.gate == d.node.inst.gate
    ensures e.node.inst.busy && exists at, book :: e.node.orders == d.node.orders[1 := C.SizedUp(at, book)]
  {
    hide E.Check, InSession, Stamp;
    e := Apply(d, Section(C.Attempt(1, t, true, Some(IntentOf(first)))));
    assert e.node.orders == d.node.orders[1 := C.SizedUp(e.node.inst.tsLast, e.node.orders[1].book)];
  }

  lemma Fall(d: Desk, t: nat, o: Observed) returns (e: Desk)
    requires d.node.feed == C.Hithink && d.node.poll == C.Between && d.node.inst.gate.blockedDate.None?
    requires InSession(t) && Trusted(o)
    ensures var step := Section(C.FeedFails(FeedLost, t));
            Enabled(d, step) && e == Apply(d, step)
    ensures e.account == d.account && e.terms == d.terms && e.node.orders == d.node.orders
    ensures C.Fresh(e.node, o, t)
  {
    hide Stamp, InSession;
    e := Apply(d, Section(C.FeedFails(FeedLost, t)));
  }

  lemma Reopen(d: Desk, t: nat, o: Observed) returns (e: Desk)
    requires C.Fresh(d.node, o, t)
    ensures var step := Section(C.Observation(o, Pass, t, []));
            Enabled(d, step) && e == Apply(d, step)
    ensures e.account == d.account && e.terms == d.terms && e.node.orders == d.node.orders
    ensures e.node.feed == C.Hithink && e.node.poll == C.Between && !e.node.inst.busy
    ensures ReadyAt(e.node.inst.gate, t).Pass?
    ensures e.node.inst.gate.ready == Some(ReadyOf(o, Day(t)))
    ensures e.node.inst.gate.idleLast.Some? && e.node.inst.gate.blockedDate.None?
  {
    C.FirstObservation(d.node, o, t, []);
    hide Observe, Stamp, C.Execute;
    e := Apply(d, Section(C.Observation(o, Pass, t, [])));
  }

  lemma HandBoth(d: Desk, t: nat, first: Terms, second: Terms) returns (e: Desk, f: Desk, g: Desk)
    requires d.account.now == t && !d.node.inst.busy && E.Inv(d.account)
    requires ReadyAt(d.node.inst.gate, t).Pass? && InSession(t)
    requires 1 in d.node.orders && d.node.orders[1].SizedUp?
    requires 2 in d.node.orders && d.node.orders[2] == C.Asking(false)
    requires d.terms == map[1 := first, 2 := second] && first.side == second.side == Sell
    requires E.Check(d.account, d.node.inst.gate, Sell, second.quantity, second.price) == E.Admitted
    requires second.quantity <= E.Sellable(d.account)
    ensures var a, b, c := Section(C.Attempt(2, t, true, None)), Section(C.SizedSeen(1, true)), Section(C.Hand(1));
            && Enabled(d, a) && e == Apply(d, a)
            && Enabled(e, b) && f == Apply(e, b)
            && Enabled(f, c) && g == Apply(f, c)
            && Reserved(d, a) == Some(second.quantity) && Reserved(f, c) == Some(first.quantity)
    ensures E.Settled(g.account) <==> first.quantity + second.quantity <= E.Sellable(d.account)
  {
    ReserveBoth(d.account, second.quantity, first.quantity);
    hide E.Inv, E.Sellable, E.Check, E.Settled, InSession, Stamp;
    e := Apply(d, Section(C.Attempt(2, t, true, None)));
    f := Apply(e, Section(C.SizedSeen(1, true)));
    g := Apply(f, Section(C.Hand(1)));
  }

  lemma ReserveBoth(a: E.Account, one: nat, other: nat)
    requires E.Inv(a) && one <= E.Sellable(a)
    ensures E.Settled(E.Apply(E.Apply(a, E.Reserve(one)), E.Reserve(other))) <==> one + other <= E.Sellable(a)
  {
    var b := E.Apply(a, E.Reserve(one));
    E.StepInv(a, E.Reserve(one));
    E.SellableChanges(a, E.Reserve(one));
    hide E.Sellable, E.Settled, E.Inv;
    if other <= E.Sellable(b) {
      E.StepInv(b, E.Reserve(other));
      E.InvSettles(E.Apply(b, E.Reserve(other)));
    } else {
      E.OverReserving(b, other);
    }
  }

  lemma {:induction false} Chain(states: seq<Desk>, steps: seq<Step>)
    requires Linked(states, steps)
    ensures Legal(states[0], steps) && States(states[0], steps) == states
    decreases |steps|
  {
    hide Apply, Enabled;
    if steps != [] {
      Chain(states[1..], steps[1..]);
      Then(states[0], steps[0], steps[1..]);
      assert steps == [steps[0]] + steps[1..] && states == [states[0]] + states[1..];
    }
  }

  lemma Joined(before: seq<Desk>, steps: seq<Step>, after: seq<Desk>, more: seq<Step>)
    requires Linked(before, steps) && Linked(after, more) && before[|steps|] == after[0]
    ensures Linked(before + after[1..], steps + more)
  {
    hide Enabled, Apply;
    var all, whole := before + after[1..], steps + more;
    forall k | 0 <= k < |whole|
      ensures Enabled(all[k], whole[k]) && all[k + 1] == Apply(all[k], whole[k])
    {
      var j := k - |steps|;
      if j >= 0 {
        assert all[k] == after[j] && all[k + 1] == after[j + 1] && whole[k] == more[j];
      } else {
        assert all[k] == before[k] && all[k + 1] == before[k + 1] && whole[k] == steps[k];
      }
    }
  }

  /** A run from a desk that never traded. Two SELLs are each checked against the
      whole position, a feed failure taking the flag from under the first: both
      are handed over, whatever remainder each takes, and T+1 breaks exactly when
      they are together more than the position. */
  lemma TwoSellsPassOneCheck(d: Desk, bought: nat, t: nat, o: Observed, first: Terms, second: Terms)
    returns (steps: seq<Step>)
    requires Starts(d) && d.node.feed == C.Hithink && bought > 0
    requires d.account.now <= t && Day(d.account.now) < Day(t) && InSession(t) && Trusted(o)
    requires first.side == second.side == Sell && first.price.None?
    requires second.price == Some(ReadyOf(o, Day(t)).limitUp)
    requires first.quantity <= bought && (first.quantity % E.LOT == 0 || first.quantity % E.LOT == bought % E.LOT)
    requires second.quantity <= bought && (second.quantity % E.LOT == 0 || second.quantity % E.LOT == bought % E.LOT)
    ensures Legal(d, steps) && |steps| == 11
    ensures var states := States(d, steps);
            && Pending(states[7], 1) && !FlagKept(states[7])
            && Enabled(states[8], steps[8]) && Reserved(states[8], steps[8]) == Some(second.quantity)
            && Enabled(states[10], steps[10]) && Reserved(states[10], steps[10]) == Some(first.quantity)
            && (E.Settled(states[11].account) <==> first.quantity + second.quantity <= bought)
  {
    var opens, before := Opening(d, bought, t, o, first, second);
    var slips, after := Slipping(before[5], t, o, first, second);
    hide *;
    steps := opens + slips;
    var all := before + after[1..];
    Joined(before, opens, after, slips);
    Chain(all, steps);
    assert all[7] == after[2] && all[8] == after[3] && all[10] == after[5] && all[11] == after[6];
    assert steps[8] == slips[3] && steps[10] == slips[5];
  }
}
