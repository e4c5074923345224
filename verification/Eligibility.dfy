/** T+1 sellability and the checks of a CN order, on one desk's account: its
    fills, its open position and its SELL orders in one instrument. A SELL counts
    as reserved once it is handed over; `Settlement` puts the checks in the
    sections that make them.
 */
module Eligibility {
  import opened Options
  import opened Session
  import opened Instrument

  const LOT := 100

  datatype Fill = Fill(side: Side, quantity: nat, at: nat)

  /** `log` is every fill there ever was; `events` are those the open position
      carries, which may start afresh when a closed position reopens; `sells`
      holds what each SELL order still has to fill, nothing once closed. */
  datatype Account = Account(now: nat, log: seq<Fill>, events: seq<Fill>, sells: seq<nat>)

  function Signed(f: Fill): int {
    var quantity: int := f.quantity;
    if f.side == Buy then quantity else -quantity
  }

  function Net(fills: seq<Fill>): int {
    if fills == [] then 0 else Net(fills[..|fills| - 1]) + Signed(fills[|fills| - 1])
  }

  /** The shares bought at or after an instant. */
  function BoughtSince(fills: seq<Fill>, from: nat): nat {
    if fills == [] then 0
    else
      var f := fills[|fills| - 1];
      BoughtSince(fills[..|fills| - 1], from) + if f.side == Buy && f.at >= from then f.quantity else 0
  }

  function Total(quantities: seq<nat>): nat {
    if quantities == [] then 0 else quantities[0] + Total(quantities[1..])
  }

  /** `sellable`. */
  function Sellable(a: Account): nat {
    var free := Net(a.events) - BoughtSince(a.events, DayStart(a.now)) - Total(a.sells);
    if free < 0 then 0 else free
  }

  // ---------------------------------------------------------------------
  // Admission
  // ---------------------------------------------------------------------

  /** Why an order is refused: for good, or for now. */
  datatype Refusal = OutsideSession | OutsideBand | ExceedsSellable | NotALot | Unavailable(reason: Reason)
  datatype Admission = Admitted | Refused(why: Refusal)

  /** `check`: session, readiness, band, then the SELL quantity rules. */
  function Check(a: Account, g: Gate, side: Side, quantity: nat, price: Option<int>): Admission {
    if !InSession(a.now) then Refused(OutsideSession)
    else if ReadyAt(g, a.now).Fail? then Refused(Unavailable(ReadyAt(g, a.now).reason))
    else if price.Some? && g.ready.Some?
            && (price.value > g.ready.value.limitUp || price.value < g.ready.value.limitDown) then
      Refused(OutsideBand)
    else if side == Sell && quantity > Sellable(a) then Refused(ExceedsSellable)
    else if side == Sell && quantity % LOT != 0 && quantity % LOT != Sellable(a) % LOT then Refused(NotALot)
    else Admitted
  }

  /** A SELL is whole lots, or exactly the odd remainder. */
  predicate WholeOrRest(a: Account, quantity: nat) {
    quantity % LOT == 0 || quantity % LOT == Sellable(a) % LOT
  }

  /** An order is admitted exactly on a weekday from 09:30 to 11:30 or from 13:00
      to 14:57, ends excluded, on readiness that holds for that date, inside the
      band where there is one, and, of a SELL, within what is sellable and of whole
      lots or exactly the odd remainder. */
  lemma AdmittedExactly(a: Account, g: Gate, side: Side, quantity: nat, price: Option<int>)
    ensures Check(a, g, side, quantity, price) == Admitted <==>
              && !Weekend(Day(a.now))
              && (570 * MINUTE_NS <= TimeOfDay(a.now) < 690 * MINUTE_NS
                  || 780 * MINUTE_NS <= TimeOfDay(a.now) < 897 * MINUTE_NS)
              && g.readiness.Pass? && (g.readyDate.Some? ==> g.readyDate.value == Day(a.now))
              && (price.Some? && g.ready.Some? ==> g.ready.value.limitDown <= price.value <= g.ready.value.limitUp)
              && (side == Sell ==>
                    && quantity <= Sellable(a)
                    && (quantity % 100 == 0 || quantity % 100 == Sellable(a) % 100))
  {
    InSessionIs(a.now);
    hide InSession, Day, TimeOfDay, Weekend, Sellable;
  }

  /** Why not: the session before readiness, readiness before the band, and those
      before what a SELL needs. */
  lemma RefusedFor(a: Account, g: Gate, side: Side, quantity: nat, price: Option<int>)
    ensures var r := Check(a, g, side, quantity, price);
            && (r == Refused(OutsideSession) <==> !InSession(a.now))
            && (r.Refused? && r.why.Unavailable? <==> InSession(a.now) && ReadyAt(g, a.now).Fail?)
            && (r.Refused? && r.why.Unavailable? ==> Fail(r.why.reason) == ReadyAt(g, a.now))
            && (r == Refused(OutsideBand) ==>
                  price.Some? && g.ready.Some?
                  && !(g.ready.value.limitDown <= price.value <= g.ready.value.limitUp))
            && (r == Refused(ExceedsSellable) ==> side == Sell && quantity > Sellable(a))
            && (r == Refused(NotALot) ==> side == Sell && quantity <= Sellable(a) && !WholeOrRest(a, quantity))
  {
    hide InSession, Day, Sellable;
  }

  // ---------------------------------------------------------------------
  // Steps
  // ---------------------------------------------------------------------

  datatype Step =
    | Tick(to: nat)
    | BuyFills(quantity: nat)
    | Reserve(quantity: nat)                          // a SELL is handed over
    | SellFills(k: nat, quantity: nat, drops: bool)   // whether a position this closes drops its events
    | Cancel(k: nat)

  predicate Enabled(a: Account, step: Step) {
    match step
    case Tick(to) => a.now <= to
    case BuyFills(quantity) => quantity > 0
    case Reserve(_) => true
    case SellFills(k, quantity, _) => k < |a.sells| && 0 < quantity <= a.sells[k]
    case Cancel(k) => k < |a.sells|
  }

  function Apply(a: Account, step: Step): Account
    requires Enabled(a, step)
  {
    match step
    case Tick(to) => a.(now := to)
    case BuyFills(quantity) =>
      var f := Fill(Buy, quantity, a.now);
      a.(log := a.log + [f], events := a.events + [f])
    case Reserve(quantity) => a.(sells := a.sells + [quantity])
    case SellFills(k, quantity, drops) =>
      var f := Fill(Sell, quantity, a.now);
      var events := a.events + [f];
      Account(a.now, a.log + [f], if drops && Net(events) == 0 then [] else events,
              a.sells[k := a.sells[k] - quantity])
    case Cancel(k) => a.(sells := a.sells[k := 0])
  }

  // ---------------------------------------------------------------------
  // By Shanghai date
  // ---------------------------------------------------------------------

  function BoughtOn(log: seq<Fill>, day: int): nat {
    if log == [] then 0
    else
      var f := log[|log| - 1];
      BoughtOn(log[..|log| - 1], day) + if f.side == Buy && Day(f.at) == day then f.quantity else 0
  }

  function SoldOn(log: seq<Fill>, day: int): nat {
    if log == [] then 0
    else
      var f := log[|log| - 1];
      SoldOn(log[..|log| - 1], day) + if f.side == Sell && Day(f.at) == day then f.quantity else 0
  }

  /** The position held when a Shanghai date began. */
  function HeldBefore(log: seq<Fill>, day: int): int {
    if log == [] then 0
    else
      var f := log[|log| - 1];
      HeldBefore(log[..|log| - 1], day) + if Day(f.at) < day then Signed(f) else 0
  }

  ghost predicate Past(log: seq<Fill>, now: nat) {
    forall k :: 0 <= k < |log| ==> log[k].at <= now
  }

  /** A fill in the past is today's exactly when it is since today's midnight. */
  lemma SinceMidnight(at: nat, now: nat)
    requires at <= now
    ensures at >= DayStart(now) <==> Day(at) == Day(now)
    ensures Day(at) <= Day(now)
  {
    MidnightOf(now);
    hide DayStart;
    DayBounds(Clamped(at));
    DayBounds(Clamped(now));
  }

  lemma MidnightOf(now: nat)
    ensures DayStart(now) == if Instant(Day(now), 0) < 0 then 0 else Instant(Day(now), 0)
  {
    assert Day(now) <= 106752 && Instant(106752, 0) <= I64_MAX;
  }

  lemma {:induction false} ByDate(log: seq<Fill>, now: nat)
    requires Past(log, now)
    ensures BoughtSince(log, DayStart(now)) == BoughtOn(log, Day(now))
    ensures Net(log) == HeldBefore(log, Day(now)) + BoughtOn(log, Day(now)) - SoldOn(log, Day(now))
    ensures forall d :: d > Day(now) ==> SoldOn(log, d) == 0 && BoughtOn(log, d) == 0 && HeldBefore(log, d) == Net(log)
  {
    hide Day, DayStart;
    if log != [] {
      var before := log[..|log| - 1];
      ByDate(before, now);
      SinceMidnight(log[|log| - 1].at, now);
      forall d | d > Day(now)
        ensures SoldOn(log, d) == 0 && BoughtOn(log, d) == 0 && HeldBefore(log, d) == Net(log)
      {
        assert SoldOn(before, d) == 0;
      }
    }
  }

  lemma {:induction false} TotalUpdate(s: seq<nat>, k: nat, v: nat)
    requires k < |s|
    ensures Total(s[k := v]) == Total(s) - s[k] + v
    ensures s[k] <= Total(s)
  {
    if k > 0 {
      TotalUpdate(s[1..], k - 1, v);
      assert s[k := v][1..] == s[1..][k - 1 := v];
    }
  }

  lemma {:induction false} TotalAppend(s: seq<nat>, v: nat)
    ensures Total(s + [v]) == Total(s) + v
  {
    if s != [] {
      TotalAppend(s[1..], v);
      assert (s + [v])[1..] == s[1..] + [v];
    }
  }

  lemma Appended(log: seq<Fill>, f: Fill, day: int, from: nat)
    ensures Net(log + [f]) == Net(log) + Signed(f)
    ensures BoughtSince(log + [f], from)
         == BoughtSince(log, from) + if f.side == Buy && f.at >= from then f.quantity else 0
    ensures BoughtOn(log + [f], day) == BoughtOn(log, day) + if f.side == Buy && Day(f.at) == day then f.quantity else 0
    ensures SoldOn(log + [f], day) == SoldOn(log, day) + if f.side == Sell && Day(f.at) == day then f.quantity else 0
    ensures HeldBefore(log + [f], day) == HeldBefore(log, day) + if Day(f.at) < day then Signed(f) else 0
  {
    assert (log + [f])[..|log|] == log;
  }

  // ---------------------------------------------------------------------
  // The invariant
  // ---------------------------------------------------------------------

  ghost predicate Inv(a: Account) {
    var today := Day(a.now);
    && Past(a.log, a.now) && Past(a.events, a.now)
    && Net(a.events) == Net(a.log)
    && BoughtOn(a.events, today) == BoughtOn(a.log, today)
    && BoughtOn(a.log, today) + Total(a.sells) <= Net(a.log)
    && forall day :: SoldOn(a.log, day) <= HeldBefore(a.log, day)
  }

  /** T+1: what is locked and reserved is within the position, so the sellable
      quantity is never a clamp; and on every Shanghai date the shares sold are
      within the position held when it began. */
  ghost predicate Settled(a: Account) {
    && BoughtSince(a.events, DayStart(a.now)) + Total(a.sells) <= Net(a.events)
    && forall day :: SoldOn(a.log, day) <= HeldBefore(a.log, day)
  }

  lemma InvSettles(a: Account)
    requires Inv(a)
    ensures Settled(a)
    ensures Sellable(a) == Net(a.log) - BoughtOn(a.log, Day(a.now)) - Total(a.sells)
  {
    hide Day, DayStart;
    ByDate(a.events, a.now);
  }

  /** What a fill does to every date's sums: a SELL within what is reserved
      keeps every date within its opening position. */
  lemma FillKeeps(a: Account, f: Fill)
    requires Inv(a) && f.at == a.now
    requires f.side == Sell ==> f.quantity <= Total(a.sells)
    ensures var log, events := a.log + [f], a.events + [f];
            && Past(log, a.now) && Past(events, a.now)
            && Net(log) == Net(events) == Net(a.log) + Signed(f)
            && BoughtOn(log, Day(a.now)) == BoughtOn(events, Day(a.now))
               == BoughtOn(a.log, Day(a.now)) + (if f.side == Buy then f.quantity else 0)
            && forall day :: SoldOn(log, day) <= HeldBefore(log, day)
  {
    hide Day;
    var log, events := a.log + [f], a.events + [f];
    Appended(a.log, f, Day(a.now), 0);
    Appended(a.events, f, Day(a.now), 0);
    ByDate(a.log, a.now);
    forall day
      ensures SoldOn(log, day) <= HeldBefore(log, day)
    {
      Appended(a.log, f, day, 0);
      assert SoldOn(a.log, day) <= HeldBefore(a.log, day);
    }
  }

  lemma AdmittedSell(a: Account, g: Gate, quantity: nat, price: Option<int>)
    requires Check(a, g, Sell, quantity, price) == Admitted
    ensures quantity <= Sellable(a)
    ensures WholeOrRest(a, quantity)
  {
  }

  lemma TickInv(a: Account, to: nat)
    requires Inv(a) && a.now <= to
    ensures Inv(a.(now := to))
  {
    hide Day, DayStart, Net, BoughtOn, SoldOn, HeldBefore, BoughtSince, Total;
    SinceMidnight(a.now, to);
    ByDate(a.log, a.now);
    ByDate(a.events, a.now);
  }

  lemma SellFillInv(a: Account, k: nat, quantity: nat, drops: bool)
    requires Inv(a) && Enabled(a, SellFills(k, quantity, drops))
    ensures Inv(Apply(a, SellFills(k, quantity, drops)))
  {
    assert Net([]) == 0 && BoughtOn([], Day(a.now)) == 0;
    hide Day, DayStart, Net, BoughtOn, SoldOn, HeldBefore, BoughtSince, Total, Check;
    TotalUpdate(a.sells, k, a.sells[k] - quantity);
    FillKeeps(a, Fill(Sell, quantity, a.now));
  }

  lemma StepInv(a: Account, step: Step)
    requires Inv(a) && Enabled(a, step) && (step.Reserve? ==> step.quantity <= Sellable(a))
    ensures Inv(Apply(a, step))
  {
    hide Day, DayStart, Check, Net, BoughtOn, SoldOn, HeldBefore, BoughtSince, Total;
    match step
    case Tick(to) =>
      TickInv(a, to);
    case BuyFills(quantity) =>
      FillKeeps(a, Fill(Buy, quantity, a.now));
    case Reserve(quantity) =>
      ByDate(a.events, a.now);
      TotalAppend(a.sells, quantity);
    case SellFills(k, quantity, drops) =>
      SellFillInv(a, k, quantity, drops);
    case Cancel(k) =>
      TotalUpdate(a.sells, k, 0);
  }

  /** Handing over more than is sellable breaks it at once. */
  lemma OverReserving(a: Account, quantity: nat)
    requires Inv(a) && quantity > Sellable(a)
    ensures !Settled(Apply(a, Reserve(quantity)))
  {
    InvSettles(a);
    hide Day, DayStart, Net, BoughtOn, SoldOn, HeldBefore, BoughtSince, Total, Inv;
    TotalAppend(a.sells, quantity);
  }

  /** What is sellable once `quantity` of it is handed over. */
  function Rest(sellable: nat, quantity: nat): nat {
    if quantity <= sellable then sellable - quantity else 0
  }

  /** Of any account: within a date and without a cancel only a hand-over changes
      what is sellable, and by its own quantity, down to nothing: a fill moves
      shares between the terms. */
  lemma SellableChanges(a: Account, step: Step)
    requires Enabled(a, step) && !step.Cancel? && (step.Tick? ==> Day(step.to) == Day(a.now))
    ensures Sellable(Apply(a, step)) == if step.Reserve? then Rest(Sellable(a), step.quantity) else Sellable(a)
    ensures Day(Apply(a, step).now) == Day(a.now)
  {
    hide Day, DayStart, Net, BoughtOn, SoldOn, HeldBefore, BoughtSince, Total;
    match step
    case Tick(to) =>
      MidnightOf(a.now);
      MidnightOf(to);
    case BuyFills(quantity) =>
      SinceMidnight(a.now, a.now);
      Appended(a.events, Fill(Buy, quantity, a.now), 0, DayStart(a.now));
    case Reserve(quantity) =>
      TotalAppend(a.sells, quantity);
    case SellFills(k, quantity, drops) =>
      SellFillMoves(a, k, quantity, drops);
  }

  /** A closed position that drops its events leaves nothing sellable either way. */
  lemma SellFillMoves(a: Account, k: nat, quantity: nat, drops: bool)
    requires Enabled(a, SellFills(k, quantity, drops))
    ensures Sellable(Apply(a, SellFills(k, quantity, drops))) == Sellable(a)
  {
    assert Net([]) == 0 && BoughtSince([], DayStart(a.now)) == 0;
    hide Day, DayStart, Net, BoughtSince, Total;
    TotalUpdate(a.sells, k, a.sells[k] - quantity);
    Appended(a.events, Fill(Sell, quantity, a.now), 0, DayStart(a.now));
  }

  /** A cancel and a new date only give shares back. */
  lemma SellableGrows(a: Account, step: Step)
    requires Inv(a) && Enabled(a, step) && !step.Reserve?
    ensures Sellable(Apply(a, step)) >= Sellable(a)
  {
    if !step.Cancel? && (step.Tick? ==> Day(step.to) == Day(a.now)) {
      SellableChanges(a, step);
    } else {
      StepInv(a, step);
      InvSettles(a);
      InvSettles(Apply(a, step));
      hide Day, DayStart, Net, BoughtOn, SoldOn, HeldBefore, BoughtSince, Total, Inv, Sellable;
      if step.Cancel? {
        TotalUpdate(a.sells, step.k, 0);
      } else {
        NothingBoughtYet(a, step.to);
      }
    }
  }

  /** A cancel gives back just what its order still had reserved, and a new date just
      what was bought on the old one. */
  lemma WhatIsGivenBack(a: Account, step: Step)
    requires Inv(a) && Enabled(a, step)
    requires step.Cancel? || (step.Tick? && Day(step.to) != Day(a.now))
    ensures Sellable(Apply(a, step))
         == Sellable(a) + if step.Cancel? then a.sells[step.k] else BoughtOn(a.log, Day(a.now))
  {
    StepInv(a, step);
    InvSettles(a);
    InvSettles(Apply(a, step));
    hide Day, DayStart, Net, BoughtOn, SoldOn, HeldBefore, BoughtSince, Total, Inv, Sellable;
    if step.Cancel? {
      TotalUpdate(a.sells, step.k, 0);
    } else {
      NothingBoughtYet(a, step.to);
    }
  }

  lemma NothingBoughtYet(a: Account, to: nat)
    requires Inv(a) && a.now <= to && Day(to) != Day(a.now)
    ensures BoughtOn(a.log, Day(to)) == 0
  {
    hide Day, DayStart, Net, BoughtOn, SoldOn, HeldBefore, BoughtSince, Total;
    SinceMidnight(a.now, to);
    ByDate(a.log, a.now);
  }

  lemma LeftAfter(sellable: nat, quantity: nat)
    requires quantity <= sellable
    ensures quantity % LOT == sellable % LOT <==> (sellable - quantity) % LOT == 0
    ensures quantity % LOT == 0 ==> (sellable - quantity) % LOT == sellable % LOT
  {
  }

  /** An account that has never traded. */
  ghost predicate Starts(a: Account) {
    a.log == [] && a.events == [] && a.sells == []
  }

  lemma StartInv(a: Account)
    requires Starts(a)
    ensures Inv(a)
  {
  }

  /** A position bought on an earlier date is sellable whole. */
  lemma BoughtEarlier(a: Account, quantity: nat, t: nat)
    requires Starts(a) && quantity > 0 && a.now <= t && Day(a.now) < Day(t)
    ensures var b := Apply(Apply(a, BuyFills(quantity)), Tick(t));
            Inv(b) && b.now == t && Sellable(b) == quantity && b.sells == []
  {
    StartInv(a);
    var bought := Apply(a, BuyFills(quantity));
    StepInv(a, BuyFills(quantity));
    StepInv(bought, Tick(t));
    InvSettles(Apply(bought, Tick(t)));
    NothingBoughtYet(bought, t);
    assert bought.log == [Fill(Buy, quantity, a.now)];
    assert Net([Fill(Buy, quantity, a.now)]) == quantity by {
      assert [Fill(Buy, quantity, a.now)][..0] == [];
    }
  }
}
