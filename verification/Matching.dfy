/** What the published books fill. The matching engine is any matcher: it takes
    the resting orders in whatever priority order it likes, and each compatible
    one takes what it still needs from the opposite side of the book until that
    side is empty. Sizes are exact when no choice of order matters. A cancel is
    never gated, so orders may leave before any book is met.
 */
module Matching {
  import opened Options
  import opened Session
  import opened Instrument
  import opened Sampling

  function Min(a: nat, b: nat): nat {
    if a < b then a else b
  }

  /** What the first order of a queue takes from a book. */
  function Take(order: Resting, price: int, bid: nat, ask: nat): nat {
    if !Compatible(order, price) then 0
    else if order.side == Buy then Min(order.remaining, ask)
    else Min(order.remaining, bid)
  }

  /** The queue after the book met it, in that priority order. */
  function After(queue: seq<Resting>, price: int, bid: nat, ask: nat): seq<Resting> {
    if queue == [] then []
    else
      var take := Take(queue[0], price, bid, ask);
      [queue[0].(remaining := queue[0].remaining - take)]
      + if queue[0].side == Buy then After(queue[1..], price, bid, ask - take)
        else After(queue[1..], price, bid - take, ask)
  }

  /** The displayed (bid, ask) sizes the queue leaves. */
  function Left(queue: seq<Resting>, price: int, bid: nat, ask: nat): (nat, nat) {
    if queue == [] then (bid, ask)
    else
      var take := Take(queue[0], price, bid, ask);
      if queue[0].side == Buy then Left(queue[1..], price, bid, ask - take)
      else Left(queue[1..], price, bid - take, ask)
  }

  // ---------------------------------------------------------------------
  // What an exact book should do
  // ---------------------------------------------------------------------

  /** An order after every compatible order of the chosen sides filled. */
  function SettledOrder(order: Resting, price: int, buys: bool, sells: bool): Resting {
    if Compatible(order, price) && (if order.side == Buy then buys else sells)
    then order.(remaining := 0) else order
  }

  function Settled(orders: seq<Resting>, price: int, buys: bool, sells: bool): seq<Resting> {
    if orders == [] then []
    else [SettledOrder(orders[0], price, buys, sells)] + Settled(orders[1..], price, buys, sells)
  }

  /** What one side's compatible orders still need. */
  function Need(orders: seq<Resting>, price: int, side: Side): nat {
    if orders == [] then 0
    else
      (if orders[0].side == side && Compatible(orders[0], price) then orders[0].remaining else 0)
      + Need(orders[1..], price, side)
  }

  lemma NeedIsReleasedSize(orders: seq<Resting>, price: int, side: Side)
    ensures SideSize(AllCompatible(orders, price), side) == Need(orders, price, side)
  {
  }

  /** A book's side is exact enough: it holds all its compatible orders need,
      or it is empty and meant to be. */
  predicate Enough(q: seq<Resting>, price: int, size: nat, side: Side, fills: bool) {
    if fills then size >= Need(q, price, side) else size == 0
  }

  /** The front order takes just what settling it says, and leaves enough. */
  lemma FrontSettles(q: seq<Resting>, price: int, bid: nat, ask: nat, buys: bool, sells: bool)
    requires q != []
    requires Enough(q, price, ask, Buy, buys) && Enough(q, price, bid, Sell, sells)
    ensures var take := Take(q[0], price, bid, ask);
            && q[0].(remaining := q[0].remaining - take) == SettledOrder(q[0], price, buys, sells)
            && take == (if q[0].side == Buy
                        then (if buys then Need(q, price, Buy) - Need(q[1..], price, Buy) else 0)
                        else (if sells then Need(q, price, Sell) - Need(q[1..], price, Sell) else 0))
            && Enough(q[1..], price, if q[0].side == Buy then ask - take else ask, Buy, buys)
            && Enough(q[1..], price, if q[0].side == Buy then bid else bid - take, Sell, sells)
  {
  }

  /** A side with enough for all its compatible orders fills them all in full
      and keeps the rest; an empty side fills none. */
  lemma {:induction false} EnoughFillsAll(q: seq<Resting>, price: int, bid: nat, ask: nat, buys: bool, sells: bool)
    requires Enough(q, price, ask, Buy, buys) && Enough(q, price, bid, Sell, sells)
    ensures After(q, price, bid, ask) == Settled(q, price, buys, sells)
    ensures Left(q, price, bid, ask)
         == (if sells then bid - Need(q, price, Sell) else 0, if buys then ask - Need(q, price, Buy) else 0)
  {
    if q != [] {
      FrontSettles(q, price, bid, ask, buys, sells);
      hide SettledOrder, Take;
      var take := Take(q[0], price, bid, ask);
      if q[0].side == Buy {
        EnoughFillsAll(q[1..], price, bid, ask - take, buys, sells);
      } else {
        EnoughFillsAll(q[1..], price, bid - take, ask, buys, sells);
      }
    }
  }

  // ---------------------------------------------------------------------
  // Any priority order
  // ---------------------------------------------------------------------

  lemma Without(q: seq<Resting>, k: nat)
    requires k < |q|
    ensures multiset(q) == multiset{q[k]} + multiset(q[..k] + q[k + 1..])
  {
    assert q == q[..k] + [q[k]] + q[k + 1..];
  }

  lemma NeedAt(q: seq<Resting>, k: nat, price: int, side: Side)
    requires k < |q|
    ensures Need(q, price, side) == Need([q[k]], price, side) + Need(q[..k] + q[k + 1..], price, side)
  {
    if k == 0 {
      assert q[..0] + q[1..] == q[1..];
      assert Need([q[0]], price, side) == Need([q[0]], price, side) + Need([q[0]][1..], price, side);
    } else {
      NeedAt(q[1..], k - 1, price, side);
      var rest := q[..k] + q[k + 1..];
      assert rest[1..] == q[1..][..k - 1] + q[1..][k..];
    }
  }

  lemma {:induction false} SettledAt(q: seq<Resting>, k: nat, price: int, buys: bool, sells: bool)
    requires k < |q|
    ensures multiset(Settled(q, price, buys, sells))
         == multiset{SettledOrder(q[k], price, buys, sells)}
            + multiset(Settled(q[..k] + q[k + 1..], price, buys, sells))
  {
    hide SettledOrder, Settled;
    if k == 0 {
      assert q[..0] + q[1..] == q[1..];
      SettledFront(q, price, buys, sells);
    } else {
      SettledAt(q[1..], k - 1, price, buys, sells);
      var rest := q[..k] + q[k + 1..];
      assert rest[1..] == q[1..][..k - 1] + q[1..][k..] && rest[0] == q[0];
      SettledFront(q, price, buys, sells);
      SettledFront(rest, price, buys, sells);
    }
  }

  lemma SettledFront(q: seq<Resting>, price: int, buys: bool, sells: bool)
    requires q != []
    ensures multiset(Settled(q, price, buys, sells))
         == multiset{SettledOrder(q[0], price, buys, sells)} + multiset(Settled(q[1..], price, buys, sells))
  {
    hide SettledOrder;
    assert Settled(q, price, buys, sells)
        == [SettledOrder(q[0], price, buys, sells)] + Settled(q[1..], price, buys, sells);
  }

  lemma RemoveSame(p: seq<Resting>, q: seq<Resting>, k: nat)
    requires p != [] && k < |q| && p[0] == q[k] && multiset(p) == multiset(q)
    ensures multiset(p[1..]) == multiset(q[..k] + q[k + 1..])
  {
    Without(p, 0);
    Without(q, k);
    assert p[..0] + p[1..] == p[1..];
    assert multiset(p[1..]) == multiset(p) - multiset{p[0]};
    assert multiset(q[..k] + q[k + 1..]) == multiset(q) - multiset{q[k]};
  }

  lemma EmptyToo(q: seq<Resting>)
    requires multiset(q) == multiset{}
    ensures q == []
  {
    assert |multiset(q)| == |q|;
  }

  /** What a side needs does not depend on the queue's order. */
  lemma {:induction false} NeedPermutes(p: seq<Resting>, q: seq<Resting>, price: int, side: Side)
    requires multiset(p) == multiset(q)
    ensures Need(p, price, side) == Need(q, price, side)
  {
    if p == [] {
      EmptyToo(q);
    } else {
      assert p[0] in multiset(q);
      var k :| 0 <= k < |q| && q[k] == p[0];
      RemoveSame(p, q, k);
      NeedPermutes(p[1..], q[..k] + q[k + 1..], price, side);
      NeedAt(q, k, price, side);
      NeedAt(p, 0, price, side);
      assert p[..0] + p[1..] == p[1..];
    }
  }

  /** Nor do the orders it settles to. */
  lemma {:induction false} SettledPermutes(p: seq<Resting>, q: seq<Resting>, price: int, buys: bool, sells: bool)
    requires multiset(p) == multiset(q)
    ensures multiset(Settled(p, price, buys, sells)) == multiset(Settled(q, price, buys, sells))
  {
    if p == [] {
      EmptyToo(q);
    } else {
      assert p[0] in multiset(q);
      var k :| 0 <= k < |q| && q[k] == p[0];
      RemoveSame(p, q, k);
      SettledPermutes(p[1..], q[..k] + q[k + 1..], price, buys, sells);
      hide Settled;
      SettledAt(q, k, price, buys, sells);
      SettledAt(p, 0, price, buys, sells);
      assert p[..0] + p[1..] == p[1..];
    }
  }

  /** A book with just what the chosen sides need settles exactly those sides'
      compatible orders, in every priority order, with nothing left displayed;
      whatever more a side has is what is left. */
  lemma SizedBookSettles(resting: seq<Resting>, q: seq<Resting>, price: int,
                         bid: nat, ask: nat, buys: bool, sells: bool)
    requires multiset(q) == multiset(resting)
    requires Enough(resting, price, ask, Buy, buys) && Enough(resting, price, bid, Sell, sells)
    ensures multiset(After(q, price, bid, ask)) == multiset(Settled(resting, price, buys, sells))
    ensures Left(q, price, bid, ask)
         == (if sells then bid - Need(resting, price, Sell) else 0,
             if buys then ask - Need(resting, price, Buy) else 0)
  {
    hide Need, Settled, After, Left;
    NeedPermutes(q, resting, price, Buy);
    NeedPermutes(q, resting, price, Sell);
    SettledPermutes(q, resting, price, buys, sells);
    EnoughFillsAll(q, price, bid, ask, buys, sells);
  }

  lemma {:induction false} SettledTwice(q: seq<Resting>, price: int)
    ensures Settled(Settled(q, price, true, false), price, false, true) == Settled(q, price, true, true)
    ensures Need(Settled(q, price, true, false), price, Sell) == Need(q, price, Sell)
  {
    if q != [] {
      SettledTwice(q[1..], price);
    }
  }

  lemma {:induction false} NothingNeeded(q: seq<Resting>, price: int, sells: bool)
    ensures Need(q, price, Buy) == 0 ==> Settled(q, price, true, sells) == Settled(q, price, false, sells)
    ensures Need(q, price, Sell) == 0 ==> Settled(q, price, sells, true) == Settled(q, price, sells, false)
    ensures Settled(q, price, false, false) == q
  {
    if q != [] {
      NothingNeeded(q[1..], price, sells);
    }
  }

  // ---------------------------------------------------------------------
  // Orders as a multiset
  // ---------------------------------------------------------------------

  lemma {:induction false} SomeList(orders: multiset<Resting>) returns (q: seq<Resting>)
    ensures multiset(q) == orders
    decreases |orders|
  {
    if orders == multiset{} {
      q := [];
    } else {
      var order :| order in orders;
      var rest := SomeList(orders - multiset{order});
      q := [order] + rest;
    }
  }

  predicate Queues(q: seq<Resting>, orders: multiset<Resting>) {
    multiset(q) == orders
  }

  /** Some queue of the orders. */
  ghost function Listed(orders: multiset<Resting>): (q: seq<Resting>)
    ensures multiset(q) == orders
  {
    assert exists q :: Queues(q, orders) by {
      var some := SomeList(orders);
      assert Queues(some, orders);
    }
    var q :| Queues(q, orders);
    q
  }

  /** What one side's compatible orders need, in whatever queue. */
  ghost function Needed(orders: multiset<Resting>, price: int, side: Side): nat {
    Need(Listed(orders), price, side)
  }

  /** The orders once every compatible one of the chosen sides filled. */
  ghost function Filled(orders: multiset<Resting>, price: int, buys: bool, sells: bool): multiset<Resting> {
    multiset(Settled(Listed(orders), price, buys, sells))
  }

  lemma OfQueue(q: seq<Resting>, price: int, buys: bool, sells: bool)
    ensures Needed(multiset(q), price, Buy) == Need(q, price, Buy)
    ensures Needed(multiset(q), price, Sell) == Need(q, price, Sell)
    ensures Filled(multiset(q), price, buys, sells) == multiset(Settled(q, price, buys, sells))
  {
    hide Need, Settled;
    NeedPermutes(Listed(multiset(q)), q, price, Buy);
    NeedPermutes(Listed(multiset(q)), q, price, Sell);
    SettledPermutes(Listed(multiset(q)), q, price, buys, sells);
  }

  lemma {:induction false} NeedsConcatenate(p: seq<Resting>, q: seq<Resting>, price: int, side: Side)
    ensures Need(p + q, price, side) == Need(p, price, side) + Need(q, price, side)
  {
    if p == [] {
      assert p + q == q;
    } else {
      NeedsConcatenate(p[1..], q, price, side);
      assert (p + q)[1..] == p[1..] + q;
    }
  }

  lemma {:induction false} SettledConcatenates(p: seq<Resting>, q: seq<Resting>, price: int, buys: bool, sells: bool)
    ensures Settled(p + q, price, buys, sells) == Settled(p, price, buys, sells) + Settled(q, price, buys, sells)
  {
    hide SettledOrder;
    if p == [] {
      assert p + q == q;
    } else {
      SettledConcatenates(p[1..], q, price, buys, sells);
      assert (p + q)[1..] == p[1..] + q;
    }
  }

  /** Both are sums over the orders. */
  lemma Adds(a: multiset<Resting>, b: multiset<Resting>, price: int, buys: bool, sells: bool)
    ensures Needed(a + b, price, Buy) == Needed(a, price, Buy) + Needed(b, price, Buy)
    ensures Needed(a + b, price, Sell) == Needed(a, price, Sell) + Needed(b, price, Sell)
    ensures Filled(a + b, price, buys, sells) == Filled(a, price, buys, sells) + Filled(b, price, buys, sells)
  {
    hide Need, Settled;
    NeedsConcatenate(Listed(a), Listed(b), price, Buy);
    NeedsConcatenate(Listed(a), Listed(b), price, Sell);
    SettledConcatenates(Listed(a), Listed(b), price, buys, sells);
    OfQueue(Listed(a) + Listed(b), price, buys, sells);
  }

  /** Nothing is needed exactly when every compatible order of the side is done. */
  lemma {:induction false} NeedNone(q: seq<Resting>, price: int, side: Side)
    ensures Need(q, price, side) == 0 <==>
              forall k :: 0 <= k < |q| && q[k].side == side && Compatible(q[k], price) ==> q[k].remaining == 0
  {
    if q != [] {
      NeedNone(q[1..], price, side);
      assert forall k :: 1 <= k < |q| ==> q[k] == q[1..][k - 1];
    }
  }

  lemma NeededNone(orders: multiset<Resting>, price: int, side: Side)
    ensures Needed(orders, price, side) == 0 <==>
              forall o :: o in orders && o.side == side && Compatible(o, price) ==> o.remaining == 0
  {
    hide Need;
    var q := Listed(orders);
    NeedNone(q, price, side);
    assert forall o :: o in orders <==> o in q;
  }

  // ---------------------------------------------------------------------
  // What leaves between the books
  // ---------------------------------------------------------------------

  /** An order that can be cancelled is open. */
  predicate AllOpen(orders: multiset<Resting>) {
    forall o :: o in orders ==> o.remaining > 0
  }

  /** Is the order one a book with the chosen sides fills at the price? */
  predicate Crosses(o: Resting, price: int, buys: bool, sells: bool) {
    if o.side == Buy then buys && price <= o.limit else sells && o.limit <= price
  }

  /** Filling leaves just the open orders it does not fill, each as it is: a BUY
      fills exactly when its limit is at least the price, a SELL when it is at
      most that. */
  lemma {:induction false} OpenOnes(q: seq<Resting>, price: int, buys: bool, sells: bool, o: Resting)
    requires o.remaining > 0
    ensures multiset(Settled(q, price, buys, sells))[o] == if Crosses(o, price, buys, sells) then 0 else multiset(q)[o]
  {
    if q != [] {
      OpenOnes(q[1..], price, buys, sells, o);
      SettledFront(q, price, buys, sells);
      assert q == [q[0]] + q[1..];
      assert multiset(q) == multiset{q[0]} + multiset(q[1..]);
    }
  }

  lemma FilledExactly(orders: multiset<Resting>, price: int, buys: bool, sells: bool, o: Resting)
    requires o.remaining > 0
    ensures Filled(orders, price, buys, sells)[o] == if Crosses(o, price, buys, sells) then 0 else orders[o]
  {
    hide Settled;
    OpenOnes(Listed(orders), price, buys, sells, o);
  }

  lemma {:induction false} Unfilled(q: seq<Resting>, price: int, buys: bool, sells: bool)
    requires forall k :: 0 <= k < |q| ==> !Crosses(q[k], price, buys, sells)
    ensures Settled(q, price, buys, sells) == q
  {
    if q != [] {
      assert !Crosses(q[0], price, buys, sells);
      assert forall k :: 0 <= k < |q[1..]| ==> q[1..][k] == q[k + 1];
      Unfilled(q[1..], price, buys, sells);
    }
  }

  /** Open orders that leave after the chosen sides filled might as well have left
      before that. */
  lemma LeavingCommutes(orders: multiset<Resting>, gone: multiset<Resting>, price: int, buys: bool, sells: bool)
    requires AllOpen(gone) && gone <= Filled(orders, price, buys, sells)
    ensures gone <= orders
    ensures Filled(orders, price, buys, sells) - gone == Filled(orders - gone, price, buys, sells)
    ensures buys ==> Needed(gone, price, Buy) == 0
    ensures sells ==> Needed(gone, price, Sell) == 0
  {
    hide Settled, Need, Needed, Filled;
    WereThere(orders, gone, price, buys, sells);
    StayAsTheyAre(gone, price, buys, sells);
    Adds(orders - gone, gone, price, buys, sells);
    assert orders - gone + gone == orders;
  }

  /** Open orders left after the chosen sides filled were there, and do not cross. */
  lemma WereThere(orders: multiset<Resting>, gone: multiset<Resting>, price: int, buys: bool, sells: bool)
    requires AllOpen(gone) && gone <= Filled(orders, price, buys, sells)
    ensures gone <= orders && forall o :: o in gone ==> !Crosses(o, price, buys, sells)
  {
    hide Filled, Crosses;
    forall o | o in gone
      ensures gone[o] <= orders[o] && !Crosses(o, price, buys, sells)
    {
      FilledExactly(orders, price, buys, sells, o);
    }
  }

  lemma StayAsTheyAre(gone: multiset<Resting>, price: int, buys: bool, sells: bool)
    requires forall o :: o in gone ==> !Crosses(o, price, buys, sells)
    ensures Filled(gone, price, buys, sells) == gone
    ensures buys ==> Needed(gone, price, Buy) == 0
    ensures sells ==> Needed(gone, price, Sell) == 0
  {
    hide Settled, Need;
    var q := Listed(gone);
    assert forall k :: 0 <= k < |q| ==> q[k] in gone by {
      assert forall k :: 0 <= k < |q| ==> q[k] in multiset(q);
    }
    Unfilled(q, price, buys, sells);
    NeededNone(gone, price, Buy);
    NeededNone(gone, price, Sell);
  }

  lemma FilledTwice(orders: multiset<Resting>, price: int)
    ensures Filled(Filled(orders, price, true, false), price, false, true) == Filled(orders, price, true, true)
    ensures Needed(Filled(orders, price, true, false), price, Sell) == Needed(orders, price, Sell)
  {
    hide Settled, Need;
    SettledTwice(Listed(orders), price);
    OfQueue(Settled(Listed(orders), price, true, false), price, false, true);
  }

  lemma FilledNone(orders: multiset<Resting>, price: int, both: bool)
    ensures Needed(orders, price, Buy) == 0 ==>
              Filled(orders, price, true, both) == Filled(orders, price, false, both)
    ensures Needed(orders, price, Sell) == 0 ==>
              Filled(orders, price, both, true) == Filled(orders, price, both, false)
    ensures Filled(orders, price, false, false) == orders
  {
    hide Settled, Need;
    NothingNeeded(Listed(orders), price, both);
  }

  // ---------------------------------------------------------------------
  // Main results
  // ---------------------------------------------------------------------

  /** Everything that left. */
  function Gone(leaves: seq<multiset<Resting>>): multiset<Resting> {
    if leaves == [] then multiset{} else leaves[0] + Gone(leaves[1..])
  }

  /** The orders can end as `final`, with `left` of each book's (bid, ask) still
      displayed, when `leaves` are cancelled before each book and the book then
      meets the others in any priority order. */
  ghost predicate CanEnd(orders: multiset<Resting>, books: seq<Book>, leaves: seq<multiset<Resting>>,
                         left: seq<(nat, nat)>, final: multiset<Resting>)
    decreases |books|
  {
    && |leaves| == |books| == |left|
    && if books == [] then final == orders
       else
         && leaves[0] <= orders && AllOpen(leaves[0])
         && match books[0]
            case Idle(_) =>
              left[0] == (0, 0) && CanEnd(orders - leaves[0], books[1..], leaves[1..], left[1..], final)
            case Crossing(bid, ask, price) =>
              exists q: seq<Resting> ::
                && multiset(q) == orders - leaves[0] && left[0] == Left(q, price, bid, ask)
                && CanEnd(multiset(After(q, price, bid, ask)), books[1..], leaves[1..], left[1..], final)
  }

  /** What is left displayed of a book when `gone` are the orders that left. */
  ghost function Excess(book: Book, gone: multiset<Resting>): (nat, nat) {
    match book
    case Idle(_) => (0, 0)
    case Crossing(bid, ask, price) =>
      (if bid > 0 then Needed(gone, price, Sell) else 0, if ask > 0 then Needed(gone, price, Buy) else 0)
  }

  /** One book with at least the need of a side, and none of the other, fills just
      that side and leaves the rest displayed. */
  lemma OneSide(orders: multiset<Resting>, q: seq<Resting>, price: int, size: nat, side: Side)
    requires multiset(q) == orders && size >= Needed(orders, price, side)
    ensures var bid, ask := if side == Sell then size else 0, if side == Buy then size else 0;
            && multiset(After(q, price, bid, ask)) == Filled(orders, price, side == Buy, side == Sell)
            && Left(q, price, bid, ask)
               == (if side == Sell then size - Needed(orders, price, Sell) else 0,
                   if side == Buy then size - Needed(orders, price, Buy) else 0)
  {
    hide Need, Settled, After, Left;
    OfQueue(q, price, side == Buy, side == Sell);
    var bid, ask := if side == Sell then size else 0, if side == Buy then size else 0;
    EnoughFillsAll(q, price, bid, ask, side == Buy, side == Sell);
  }

  /** The first book of a side sized for `sized`, of which `gone` have left. */
  lemma FirstBook(orders: multiset<Resting>, gone: multiset<Resting>, price: int, side: Side, rest: seq<Book>,
                  leaves: seq<multiset<Resting>>, left: seq<(nat, nat)>, final: multiset<Resting>)
    requires var size := Needed(orders + gone, price, side);
             var book := Crossing(if side == Sell then size else 0, if side == Buy then size else 0, price);
             CanEnd(orders, [book] + rest, leaves, left, final)
    ensures leaves != [] && left != [] && leaves[0] <= orders && AllOpen(leaves[0])
    ensures left[0] == (if side == Sell then Needed(gone + leaves[0], price, Sell) else 0,
                        if side == Buy then Needed(gone + leaves[0], price, Buy) else 0)
    ensures CanEnd(Filled(orders - leaves[0], price, side == Buy, side == Sell), rest, leaves[1..], left[1..], final)
  {
    hide Needed, Filled, After, Left;
    var size := Needed(orders + gone, price, side);
    var bid, ask := if side == Sell then size else 0, if side == Buy then size else 0;
    var books := [Crossing(bid, ask, price)] + rest;
    assert books[0] == Crossing(bid, ask, price) && books[1..] == rest;
    var kept := orders - leaves[0];
    Adds(kept, gone + leaves[0], price, true, true);
    assert kept + (gone + leaves[0]) == orders + gone;
    var q: seq<Resting> :|
      && multiset(q) == kept && left[0] == Left(q, price, bid, ask)
      && CanEnd(multiset(After(q, price, bid, ask)), rest, leaves[1..], left[1..], final);
    OneSide(kept, q, price, size, side);
  }

  lemma NoBookLeft(orders: multiset<Resting>, leaves: seq<multiset<Resting>>, left: seq<(nat, nat)>,
                   final: multiset<Resting>)
    ensures CanEnd(orders, [], leaves, left, final) ==> leaves == [] && left == [] && final == orders
  {
  }

  lemma IdleBook(orders: multiset<Resting>, price: int, leaves: seq<multiset<Resting>>, left: seq<(nat, nat)>,
                 final: multiset<Resting>)
    requires CanEnd(orders, [Idle(price)], leaves, left, final)
    ensures |leaves| == 1 && left == [(0, 0)] && leaves[0] <= orders && final == orders - leaves[0]
  {
    assert [Idle(price)][1..] == [];
    NoBookLeft(orders - leaves[0], leaves[1..], left[1..], final);
  }

  /** Both sides cross: the BUY book, then the SELL book. */
  lemma TwoBooks(orders: multiset<Resting>, price: int, leaves: seq<multiset<Resting>>, left: seq<(nat, nat)>,
                 final: multiset<Resting>)
    requires CanEnd(orders, [Crossing(0, Needed(orders, price, Buy), price)]
                            + [Crossing(Needed(orders, price, Sell), 0, price)], leaves, left, final)
    ensures |leaves| == 2 && leaves[0] + leaves[1] <= orders
    ensures final == Filled(orders - (leaves[0] + leaves[1]), price, true, true)
    ensures left == [(0, Needed(leaves[0], price, Buy)), (Needed(leaves[0] + leaves[1], price, Sell), 0)]
  {
    hide Needed, Filled, CanEnd;
    var sells := [Crossing(Needed(orders, price, Sell), 0, price)];
    assert orders + multiset{} == orders;
    FirstBook(orders, multiset{}, price, Buy, sells, leaves, left, final);
    assert multiset{} + leaves[0] == leaves[0];
    var kept := orders - leaves[0];
    var mid := Filled(kept, price, true, false);
    FilledTwice(kept, price);
    Adds(kept, leaves[0], price, true, true);
    Adds(mid, leaves[0], price, true, true);
    assert kept + leaves[0] == orders;
    assert Needed(mid + leaves[0], price, Sell) == Needed(orders, price, Sell);
    assert sells == sells + [];
    FirstBook(mid, leaves[0], price, Sell, [], leaves[1..], left[1..], final);
    var gone := leaves[1..][0];
    NoBookLeft(Filled(mid - gone, price, false, true), leaves[1..][1..], left[1..][1..], final);
    LeavingCommutes(kept, gone, price, true, false);
    FilledTwice(kept - gone, price);
    assert leaves == [leaves[0]] + [gone] && leaves[1] == gone;
    assert left == [left[0]] + [left[1..][0]];
    assert kept - gone == orders - (leaves[0] + gone);
  }

  /** One side crosses. */
  lemma OneBook(orders: multiset<Resting>, price: int, side: Side, leaves: seq<multiset<Resting>>,
                left: seq<(nat, nat)>, final: multiset<Resting>)
    requires var size := Needed(orders, price, side);
             CanEnd(orders, [Crossing(if side == Sell then size else 0, if side == Buy then size else 0, price)],
                    leaves, left, final)
    ensures |leaves| == 1 && leaves[0] <= orders
    ensures final == Filled(orders - leaves[0], price, side == Buy, side == Sell)
    ensures left == [(if side == Sell then Needed(leaves[0], price, Sell) else 0,
                      if side == Buy then Needed(leaves[0], price, Buy) else 0)]
  {
    hide Needed, Filled, CanEnd;
    var size := Needed(orders, price, side);
    var book := Crossing(if side == Sell then size else 0, if side == Buy then size else 0, price);
    assert orders + multiset{} == orders && [book] + [] == [book];
    FirstBook(orders, multiset{}, price, side, [], leaves, left, final);
    assert multiset{} + leaves[0] == leaves[0];
    NoBookLeft(Filled(orders - leaves[0], price, side == Buy, side == Sell), leaves[1..], left[1..], final);
  }

  /** The books of the orders released at a price: whatever leaves before each,
      and in any priority order, every compatible order of an unsuppressed side
      that stays fills in full, no other order is touched, and what each book
      still displays is exactly what the orders gone by then needed of it. */
  ghost predicate Exact(orders: multiset<Resting>, books: seq<Book>, price: int, buys: bool, sells: bool,
                        leaves: seq<multiset<Resting>>, left: seq<(nat, nat)>, final: multiset<Resting>)
  {
    && |leaves| == |books| == |left| && Gone(leaves) <= orders
    && final == Filled(orders - Gone(leaves), price, buys, sells)
    && forall k :: 0 <= k < |books| ==> left[k] == Excess(books[k], Gone(leaves[..k + 1]))
  }

  lemma GoneOf(leaves: seq<multiset<Resting>>)
    ensures |leaves| == 1 ==> Gone(leaves) == leaves[0] && Gone(leaves[..1]) == leaves[0]
    ensures |leaves| == 2 ==>
              Gone(leaves) == leaves[0] + leaves[1] && Gone(leaves[..1]) == leaves[0]
              && Gone(leaves[..2]) == leaves[0] + leaves[1]
  {
    if |leaves| == 2 {
      assert leaves[1..] == [leaves[1]] && leaves[1..][1..] == [] && leaves[..2] == leaves;
      assert leaves[..1] == [leaves[0]] && [leaves[0]][1..] == [];
    } else if |leaves| == 1 {
      assert leaves[1..] == [] && leaves[..1] == leaves;
    }
  }

  lemma BooksSettle(resting: seq<Resting>, last: int, ready: Ready, leaves: seq<multiset<Resting>>,
                    left: seq<(nat, nat)>, final: multiset<Resting>)
    requires CanEnd(multiset(resting), BooksFor(AllCompatible(resting, last), last, ready), leaves, left, final)
    ensures Exact(multiset(resting), BooksFor(AllCompatible(resting, last), last, ready), last,
                  last != ready.limitUp, last != ready.limitDown, leaves, left, final)
  {
    hide Need, Settled, SideSize, CanEnd, Needed, Filled, Gone, Exact;
    NeedIsReleasedSize(resting, last, Buy);
    NeedIsReleasedSize(resting, last, Sell);
    OfQueue(resting, last, true, true);
    var orders := multiset(resting);
    var up, down := last != ready.limitUp, last != ready.limitDown;
    var b, s := Needed(orders, last, Buy), Needed(orders, last, Sell);
    var books := BooksFor(AllCompatible(resting, last), last, ready);
    if up && b > 0 && down && s > 0 {
      assert books == [Crossing(0, b, last)] + [Crossing(s, 0, last)];
      TwoExact(orders, last, leaves, left, final);
    } else if up && b > 0 {
      assert books == [Crossing(0, b, last)];
      OneExact(orders, last, Buy, down, leaves, left, final);
    } else if down && s > 0 {
      assert books == [Crossing(s, 0, last)];
      OneExact(orders, last, Sell, up, leaves, left, final);
    } else {
      assert books == [Idle(last)];
      IdleExact(orders, last, up, down, leaves, left, final);
    }
  }

  lemma TwoExact(orders: multiset<Resting>, price: int, leaves: seq<multiset<Resting>>, left: seq<(nat, nat)>,
                 final: multiset<Resting>)
    requires Needed(orders, price, Buy) > 0 && Needed(orders, price, Sell) > 0
    requires CanEnd(orders, [Crossing(0, Needed(orders, price, Buy), price)]
                            + [Crossing(Needed(orders, price, Sell), 0, price)], leaves, left, final)
    ensures Exact(orders, [Crossing(0, Needed(orders, price, Buy), price)]
                          + [Crossing(Needed(orders, price, Sell), 0, price)], price, true, true, leaves, left, final)
  {
    hide Needed, Filled, CanEnd, Gone;
    TwoBooks(orders, price, leaves, left, final);
    GoneOf(leaves);
  }

  lemma OneExact(orders: multiset<Resting>, price: int, side: Side, other: bool, leaves: seq<multiset<Resting>>,
                 left: seq<(nat, nat)>, final: multiset<Resting>)
    requires Needed(orders, price, side) > 0
    requires other ==> Needed(orders, price, if side == Buy then Sell else Buy) == 0
    requires var size := Needed(orders, price, side);
             CanEnd(orders, [Crossing(if side == Sell then size else 0, if side == Buy then size else 0, price)],
                    leaves, left, final)
    ensures var size := Needed(orders, price, side);
            Exact(orders, [Crossing(if side == Sell then size else 0, if side == Buy then size else 0, price)],
                  price, side == Buy || other, side == Sell || other, leaves, left, final)
  {
    hide Needed, Filled, CanEnd, Gone;
    OneBook(orders, price, side, leaves, left, final);
    GoneOf(leaves);
    NeedlessSide(orders, leaves[0], price, true);
  }

  lemma IdleExact(orders: multiset<Resting>, price: int, buys: bool, sells: bool, leaves: seq<multiset<Resting>>,
                  left: seq<(nat, nat)>, final: multiset<Resting>)
    requires buys ==> Needed(orders, price, Buy) == 0
    requires sells ==> Needed(orders, price, Sell) == 0
    requires CanEnd(orders, [Idle(price)], leaves, left, final)
    ensures Exact(orders, [Idle(price)], price, buys, sells, leaves, left, final)
  {
    hide Needed, Filled, CanEnd, Gone;
    IdleBook(orders, price, leaves, left, final);
    GoneOf(leaves);
    NeedlessSide(orders, leaves[0], price, false);
    NeedlessSide(orders, leaves[0], price, true);
  }

  /** A side nobody needs settles to itself, whoever left. */
  lemma NeedlessSide(orders: multiset<Resting>, gone: multiset<Resting>, price: int, other: bool)
    requires gone <= orders
    ensures Needed(orders, price, Buy) == 0 ==>
              Filled(orders - gone, price, true, other) == Filled(orders - gone, price, false, other)
    ensures Needed(orders, price, Sell) == 0 ==>
              Filled(orders - gone, price, other, true) == Filled(orders - gone, price, other, false)
    ensures Filled(orders - gone, price, false, false) == orders - gone
  {
    hide Needed, Filled;
    Adds(orders - gone, gone, price, true, true);
    assert orders - gone + gone == orders;
    FilledNone(orders - gone, price, other);
  }

  // ---------------------------------------------------------------------
  // What is published: every crossing book, then its idle book
  // ---------------------------------------------------------------------

  /** The books a plan is shown as. */
  function Shown(books: seq<Book>): seq<Book> {
    if books == [] then []
    else (if books[0].Idle? then [books[0]] else [books[0], Idle(books[0].price)]) + Shown(books[1..])
  }

  lemma ShownOne(book: Book, rest: seq<Book>)
    ensures Shown([book] + rest)
         == if book.Idle? then [book] + Shown(rest) else [book] + ([Idle(book.price)] + Shown(rest))
  {
    assert ([book] + rest)[1..] == rest;
  }

  /** What meets an idle book is what met nothing: its leaves might leave before
      the next one. */
  lemma SkipIdle(orders: multiset<Resting>, price: int, next: Book, rest: seq<Book>, leaves: seq<multiset<Resting>>,
                 left: seq<(nat, nat)>, final: multiset<Resting>)
    requires next.Crossing? && CanEnd(orders, [Idle(price)] + ([next] + rest), leaves, left, final)
    ensures |leaves| == |left| == |rest| + 2 && left[0] == (0, 0)
    ensures CanEnd(orders, [next] + rest, [leaves[0] + leaves[1]] + leaves[2..], left[1..], final)
  {
    hide After, Left;
    var books := [next] + rest;
    var whole := [Idle(price)] + books;
    assert whole[1..] == books && books[1..] == rest && books[0] == next;
    var kept := orders - leaves[0];
    assert CanEnd(kept, books, leaves[1..], left[1..], final);
    var merged := [leaves[0] + leaves[1]] + leaves[2..];
    assert leaves[1..][0] == leaves[1] && leaves[1..][1..] == leaves[2..] == merged[1..];
    assert left[1..][0] == left[1] && left[1..][1..] == left[2..];
    assert kept - leaves[1] == orders - merged[0];
    var Crossing(bid, ask, p) := next;
    var q: seq<Resting> :|
      && multiset(q) == kept - leaves[1] && left[1] == Left(q, p, bid, ask)
      && CanEnd(multiset(After(q, p, bid, ask)), rest, leaves[2..], left[2..], final);
    assert AllOpen(merged[0]) && merged[0] <= orders;
  }

  /** A crossing book and what follows it. */
  lemma CrossingFront(orders: multiset<Resting>, book: Book, rest: seq<Book>, leaves: seq<multiset<Resting>>,
                      left: seq<(nat, nat)>, final: multiset<Resting>) returns (q: seq<Resting>)
    requires book.Crossing? && CanEnd(orders, [book] + rest, leaves, left, final)
    ensures |leaves| == |left| == |rest| + 1 && leaves[0] <= orders && AllOpen(leaves[0])
    ensures multiset(q) == orders - leaves[0] && left[0] == Left(q, book.price, book.bidSize, book.askSize)
    ensures CanEnd(multiset(After(q, book.price, book.bidSize, book.askSize)), rest, leaves[1..], left[1..], final)
  {
    hide After, Left;
    assert ([book] + rest)[1..] == rest && ([book] + rest)[0] == book;
    var Crossing(bid, ask, p) := book;
    q :| && multiset(q) == orders - leaves[0] && left[0] == Left(q, p, bid, ask)
         && CanEnd(multiset(After(q, p, bid, ask)), rest, leaves[1..], left[1..], final);
  }

  lemma CrossingThen(orders: multiset<Resting>, book: Book, rest: seq<Book>, q: seq<Resting>, leave: multiset<Resting>,
                     leaves: seq<multiset<Resting>>, left: seq<(nat, nat)>, final: multiset<Resting>)
    requires book.Crossing? && leave <= orders && AllOpen(leave) && multiset(q) == orders - leave
    requires CanEnd(multiset(After(q, book.price, book.bidSize, book.askSize)), rest, leaves, left, final)
    ensures CanEnd(orders, [book] + rest, [leave] + leaves,
                   [Left(q, book.price, book.bidSize, book.askSize)] + left, final)
  {
    hide After, Left;
    var books := [book] + rest;
    var lefts := [Left(q, book.price, book.bidSize, book.askSize)] + left;
    assert books[1..] == rest && ([leave] + leaves)[1..] == leaves && lefts[1..] == left;
    assert books[0] == book && ([leave] + leaves)[0] == leave;
  }

  /** The last crossing book and its idle book. */
  lemma LastShown(orders: multiset<Resting>, book: Book, price: int, leaves: seq<multiset<Resting>>,
                  left: seq<(nat, nat)>, final: multiset<Resting>) returns (mid: multiset<Resting>)
    requires book.Crossing? && CanEnd(orders, [book] + [Idle(price)], leaves, left, final)
    ensures |leaves| == |left| == 2 && left[1] == (0, 0) && AllOpen(leaves[1])
    ensures CanEnd(orders, [book], [leaves[0]], [left[0]], mid)
    ensures leaves[1] <= mid && final == mid - leaves[1]
  {
    hide After, Left;
    var q := CrossingFront(orders, book, [Idle(price)], leaves, left, final);
    mid := multiset(After(q, book.price, book.bidSize, book.askSize));
    IdleBook(mid, price, leaves[1..], left[1..], final);
    assert leaves[1..][0] == leaves[1] && left[1..][0] == left[1];
    assert CanEnd(mid, [], [], [], mid);
    CrossingThen(orders, book, [], q, leaves[0], [], [], mid);
    assert [book] + [] == [book] && [leaves[0]] + [] == [leaves[0]] && [left[0]] + [] == [left[0]];
  }

  /** What leaves after the last crossing book. */
  lemma LastLeaves(orders: multiset<Resting>, gone: multiset<Resting>, last: multiset<Resting>, price: int,
                   buys: bool, sells: bool, mid: multiset<Resting>)
    requires gone <= orders && mid == Filled(orders - gone, price, buys, sells) && last <= mid && AllOpen(last)
    ensures gone + last <= orders && mid - last == Filled(orders - (gone + last), price, buys, sells)
  {
    hide Filled, Needed;
    LeavingCommutes(orders - gone, last, price, buys, sells);
    assert orders - gone - last == orders - (gone + last);
  }

  lemma OneShownExact(orders: multiset<Resting>, book: Book, price: int, buys: bool, sells: bool,
                      leaves: seq<multiset<Resting>>, left: seq<(nat, nat)>, final: multiset<Resting>)
    requires book.Crossing? && book.price == price && CanEnd(orders, Shown([book]), leaves, left, final)
    requires forall ls, lf, f :: CanEnd(orders, [book], ls, lf, f) ==>
               Exact(orders, [book], price, buys, sells, ls, lf, f)
    ensures Exact(orders, Shown([book]), price, buys, sells, leaves, left, final)
  {
    hide Filled, CanEnd, Gone, Excess;
    assert Shown([book]) == [book] + [Idle(price)] by { ShownOne(book, []); assert [book] + [] == [book]; }
    var mid := LastShown(orders, book, price, leaves, left, final);
    assert Exact(orders, [book], price, buys, sells, [leaves[0]], [left[0]], mid);
    GoneOf([leaves[0]]);
    GoneOf(leaves);
    LastLeaves(orders, leaves[0], leaves[1], price, buys, sells, mid);
    assert [leaves[0]][..1] == [leaves[0]];
    assert left[0] == Excess(book, leaves[0]);
    NoExcess(price, leaves[0] + leaves[1]);
  }

  lemma NoExcess(price: int, gone: multiset<Resting>)
    ensures Excess(Idle(price), gone) == (0, 0)
  {
  }

  lemma TwoShownExact(orders: multiset<Resting>, one: Book, two: Book, price: int, buys: bool, sells: bool,
                      leaves: seq<multiset<Resting>>, left: seq<(nat, nat)>, final: multiset<Resting>)
    requires one.Crossing? && two.Crossing? && one.price == two.price == price
    requires CanEnd(orders, Shown([one] + [two]), leaves, left, final)
    requires forall ls, lf, f :: CanEnd(orders, [one] + [two], ls, lf, f) ==>
               Exact(orders, [one] + [two], price, buys, sells, ls, lf, f)
    ensures Exact(orders, Shown([one] + [two]), price, buys, sells, leaves, left, final)
  {
    hide Filled, CanEnd, Gone, Excess, Exact;
    var idle := [Idle(price)];
    assert Shown([one] + [two]) == [one] + (idle + ([two] + idle)) by {
      ShownOne(one, [two]);
      ShownOne(two, []);
      assert [two] + [] == [two];
    }
    var q := CrossingFront(orders, one, idle + ([two] + idle), leaves, left, final);
    hide After, Left;
    var met := multiset(After(q, price, one.bidSize, one.askSize));
    SkipIdle(met, price, two, idle, leaves[1..], left[1..], final);
    var later := [leaves[1] + leaves[2]] + [leaves[3]];
    assert [leaves[1..][0] + leaves[1..][1]] + leaves[1..][2..] == later;
    assert left[1..][1..] == left[2..];
    var mid := LastShown(met, two, price, later, left[2..], final);
    CrossingThen(orders, one, [two], q, leaves[0], [later[0]], [left[2]], mid);
    var ls, lf := [leaves[0]] + [leaves[1] + leaves[2]], [left[0]] + [left[2]];
    assert Exact(orders, [one] + [two], price, buys, sells, ls, lf, mid);
    TwoShownJoins(orders, one, two, price, buys, sells, leaves, left, mid, final);
  }

  lemma TwoShownJoins(orders: multiset<Resting>, one: Book, two: Book, price: int, buys: bool, sells: bool,
                      leaves: seq<multiset<Resting>>, left: seq<(nat, nat)>, mid: multiset<Resting>,
                      final: multiset<Resting>)
    requires one.Crossing? && two.Crossing? && one.price == two.price == price && |leaves| == |left| == 4
    requires Exact(orders, [one] + [two], price, buys, sells, [leaves[0]] + [leaves[1] + leaves[2]],
                   [left[0]] + [left[2]], mid)
    requires left[1] == left[3] == (0, 0) && leaves[3] <= mid && AllOpen(leaves[3]) && final == mid - leaves[3]
    ensures Exact(orders, Shown([one] + [two]), price, buys, sells, leaves, left, final)
  {
    hide Filled, Excess, Gone;
    ShownOne(one, [two]);
    ShownOne(two, []);
    assert [two] + [] == [two] && Shown([]) == [];
    var shown := Shown([one] + [two]);
    assert shown == [one, Idle(price), two, Idle(price)];
    var ls := [leaves[0]] + [leaves[1] + leaves[2]];
    GoneOf(ls);
    var a, b := leaves[0], leaves[0] + (leaves[1] + leaves[2]);
    LastLeaves(orders, b, leaves[3], price, buys, sells, mid);
    GoneFour(leaves);
    assert ls[..1] == [a] && ls[..2] == ls;
    assert ([left[0]] + [left[2]])[0] == left[0] == Excess(one, a);
    assert ([left[0]] + [left[2]])[1] == left[2] == Excess(two, b);
    NoExcess(price, Gone(leaves[..2]));
    NoExcess(price, Gone(leaves));
    assert leaves[..4] == leaves;
  }

  lemma GoneFour(leaves: seq<multiset<Resting>>)
    requires |leaves| == 4
    ensures Gone(leaves) == leaves[0] + (leaves[1] + leaves[2]) + leaves[3]
    ensures Gone(leaves[..1]) == leaves[0]
    ensures Gone(leaves[..3]) == leaves[0] + (leaves[1] + leaves[2])
  {
    var a, b, c, d := leaves[0], leaves[1], leaves[2], leaves[3];
    GoneThen(a, [b, c, d]);
    GoneThen(b, [c, d]);
    GoneThen(c, [d]);
    GoneThen(d, []);
    GoneThen(a, [b, c]);
    GoneThen(b, [c]);
    GoneThen(c, []);
    GoneThen(a, []);
    assert leaves == [a] + [b, c, d] && [b, c, d] == [b] + [c, d] && [c, d] == [c] + [d] && [d] == [d] + [];
    assert leaves[..3] == [a] + [b, c] && [b, c] == [b] + [c] && [c] == [c] + [] && leaves[..1] == [a] + [];
  }

  lemma GoneThen(first: multiset<Resting>, rest: seq<multiset<Resting>>)
    ensures Gone([first] + rest) == first + Gone(rest)
  {
    assert ([first] + rest)[1..] == rest;
  }

  /** What is published of the books settles just what they settle, whatever
      leaves before any of it. */
  lemma ShownSettles(resting: seq<Resting>, last: int, ready: Ready, leaves: seq<multiset<Resting>>,
                     left: seq<(nat, nat)>, final: multiset<Resting>)
    requires CanEnd(multiset(resting), Shown(BooksFor(AllCompatible(resting, last), last, ready)), leaves, left, final)
    ensures Exact(multiset(resting), Shown(BooksFor(AllCompatible(resting, last), last, ready)), last,
                  last != ready.limitUp, last != ready.limitDown, leaves, left, final)
  {
    var books := BooksFor(AllCompatible(resting, last), last, ready);
    var up, down := last != ready.limitUp, last != ready.limitDown;
    BooksForms(AllCompatible(resting, last), last, ready);
    hide Exact, CanEnd, BooksFor, Shown;
    forall ls, lf, f | CanEnd(multiset(resting), books, ls, lf, f)
      ensures Exact(multiset(resting), books, last, up, down, ls, lf, f)
    {
      BooksSettle(resting, last, ready, ls, lf, f);
    }
    if |books| == 2 {
      assert books == [books[0]] + [books[1]];
      TwoShownExact(multiset(resting), books[0], books[1], last, up, down, leaves, left, final);
    } else if books[0].Crossing? {
      OneShownExact(multiset(resting), books[0], last, up, down, leaves, left, final);
    } else {
      assert Shown(books) == books by {
        ShownOne(books[0], []);
        ShownNothing();
        assert [books[0]] + [] == books;
      }
      BooksSettle(resting, last, ready, leaves, left, final);
    }
  }

  lemma BooksForms(released: seq<Resting>, last: int, ready: Ready)
    ensures var books := BooksFor(released, last, ready);
            && 1 <= |books| <= 2 && (|books| == 2 ==> books[0].Crossing? && books[1].Crossing?)
            && books == (if |books| == 1 then [books[0]] else [books[0]] + [books[1]])
            && forall k :: 0 <= k < |books| ==> books[k].price == last
  {
    hide SideSize;
  }

  /** What one observation of a run fills, for every matcher outcome and whatever
      is cancelled before each of the books published for it: when it counts, in
      session, with more volume than the mark, every compatible resting order that
      stays, in full, except on a side standing at its limit, and no other;
      otherwise nothing at all. What stays displayed is exactly what the cancelled
      orders needed. */
  lemma CrossingBooksAreExact(n: Node, steps: seq<Step>, step: Step, leaves: seq<multiset<Resting>>,
                              left: seq<(nat, nat)>, final: multiset<Resting>)
    requires Inv(n) && Legal(n, steps)
    requires var m := States(n, steps)[|steps|];
             step.Poll? && Enabled(m, step)
             && CanEnd(multiset(step.resting),
                       Shown(Observe(m.inst, step.o, step.evidence, step.now, step.resting).1.books),
                       leaves, left, final)
    ensures var m, o := States(n, steps)[|steps|], step.o;
            var (s, plan) := Observe(m.inst, o, step.evidence, step.now, step.resting);
            var mark := m.inst.samples.prevVolume;
            if Counts(m.inst, o, step.evidence, step.now) && mark.Some? && o.volume > mark.value then
              && InSession(step.now) && s.gate.ready.Some?
              && Exact(multiset(step.resting), Shown(plan.books), o.last, o.last != s.gate.ready.value.limitUp,
                       o.last != s.gate.ready.value.limitDown, leaves, left, final)
            else
              && Gone(leaves) <= multiset(step.resting) && final == multiset(step.resting) - Gone(leaves)
              && forall k :: 0 <= k < |left| ==> left[k] == (0, 0)
  {
    hide Inv, Settled, States, BooksFor, AllCompatible, CanEnd, Exact, Gone, Observe, Counts, Shown;
    var m := States(n, steps)[|steps|];
    var (s, plan) := Observe(m.inst, step.o, step.evidence, step.now, step.resting);
    StatesInv(n, steps);
    PlanOf(m, step);
    ObservationCounts(m.inst, step.o, step.evidence, step.now, step.resting);
    if plan.books == [] {
      assert Shown([]) == [] by { ShownNothing(); }
      NoBookLeft(multiset(step.resting), leaves, left, final);
      GoneNothing();
    } else if Released(m, step) {
      ShownSettles(step.resting, step.o.last, s.gate.ready.value, leaves, left, final);
    } else {
      assert Shown([Idle(step.o.last)]) == [Idle(step.o.last)] by {
        ShownOne(Idle(step.o.last), []);
        ShownNothing();
        assert [Idle(step.o.last)] + [] == [Idle(step.o.last)];
      }
      IdleBook(multiset(step.resting), step.o.last, leaves, left, final);
      GoneOf(leaves);
    }
  }

  /** The observation releases whatever is compatible. */
  predicate Released(m: Node, step: Step)
    requires step.Poll? && step.o.tick > 0
  {
    var mark := m.inst.samples.prevVolume;
    Counts(m.inst, step.o, step.evidence, step.now) && mark.Some? && step.o.volume > mark.value
  }

  lemma PlanOf(m: Node, step: Step)
    requires Inv(m) && step.Poll? && Enabled(m, step)
    ensures var (s, plan) := Observe(m.inst, step.o, step.evidence, step.now, step.resting);
            if Released(m, step) then
              s.gate.ready.Some?
              && plan.books == BooksFor(AllCompatible(step.resting, step.o.last), step.o.last, s.gate.ready.value)
            else plan.books == [] || plan.books == [Idle(step.o.last)]
  {
    hide Inv, BooksFor, AllCompatible, Settle;
    ObservationCounts(m.inst, step.o, step.evidence, step.now, step.resting);
    ObservationGates(m.inst, step.o, step.evidence, step.now, step.resting);
    ObservationAgrees(m, step.o, step.evidence, step.now, step.resting);
    hide Observe;
    var ready := Observe(m.inst, step.o, step.evidence, step.now, step.resting).0.gate.ready;
    if ready.Some? {
      NothingReleased(step.o.last, ready.value);
    }
  }

  lemma ShownNothing()
    ensures Shown([]) == []
  {
  }

  lemma GoneNothing()
    ensures Gone([]) == multiset{}
  {
  }

  /** So nothing stays displayed of a book exactly when no order it was sized for
      had left. */
  lemma ExcessIsTheCancelled(book: Book, gone: multiset<Resting>)
    requires book.Crossing? && AllOpen(gone)
    ensures Excess(book, gone) == (0, 0) <==>
              forall o :: o in gone && Compatible(o, book.price) ==>
                !(if o.side == Buy then book.askSize > 0 else book.bidSize > 0)
  {
    hide Needed;
    NeededNone(gone, book.price, Buy);
    NeededNone(gone, book.price, Sell);
  }

  lemma NothingReleased(last: int, ready: Ready)
    ensures BooksFor([], last, ready) == [Idle(last)]
  {
  }

  /** `size_for_market`: the (bid, ask) a MARKET of one side is published with. */
  function MarketSizes(resting: seq<Resting>, last: int, ready: Ready, side: Side, quantity: nat): (nat, nat) {
    var ask := if last == ready.limitUp then 0
               else (if side == Buy then quantity else 0) + Need(resting, last, Buy);
    var bid := if last == ready.limitDown then 0
               else (if side == Sell then quantity else 0) + Need(resting, last, Sell);
    (bid, ask)
  }

  /** The sized book fills every compatible LIMIT of an unsuppressed side first,
      in any priority order, and leaves exactly the MARKET's own quantity where
      it takes: nothing on the other side, nothing on a side at its limit. */
  lemma MarketIsLeftItsQuantity(resting: seq<Resting>, q: seq<Resting>, last: int, ready: Ready,
                                side: Side, quantity: nat)
    requires multiset(q) == multiset(resting)
    ensures var (bid, ask) := MarketSizes(resting, last, ready, side, quantity);
            var buys, sells := last != ready.limitUp, last != ready.limitDown;
            && multiset(After(q, last, bid, ask)) == multiset(Settled(resting, last, buys, sells))
            && Left(q, last, bid, ask)
               == (if side == Sell && sells then quantity else 0, if side == Buy && buys then quantity else 0)
  {
    hide Need, Settled, After, Left;
    var (bid, ask) := MarketSizes(resting, last, ready, side, quantity);
    SizedBookSettles(resting, q, last, bid, ask, last != ready.limitUp, last != ready.limitDown);
  }

  /** With LIMITs cancelled before the book meets the others, exactly what those
      needed is displayed besides. */
  lemma MarketAfterCancels(resting: seq<Resting>, gone: multiset<Resting>, q: seq<Resting>, last: int, ready: Ready,
                           side: Side, quantity: nat)
    requires gone <= multiset(resting) && multiset(q) == multiset(resting) - gone
    ensures var (bid, ask) := MarketSizes(resting, last, ready, side, quantity);
            var buys, sells := last != ready.limitUp, last != ready.limitDown;
            && multiset(After(q, last, bid, ask)) == Filled(multiset(resting) - gone, last, buys, sells)
            && Left(q, last, bid, ask)
               == (if sells then (if side == Sell then quantity else 0) + Needed(gone, last, Sell) else 0,
                   if buys then (if side == Buy then quantity else 0) + Needed(gone, last, Buy) else 0)
  {
    hide Need, Settled, After, Left, Needed, Filled;
    var (bid, ask) := MarketSizes(resting, last, ready, side, quantity);
    var buys, sells := last != ready.limitUp, last != ready.limitDown;
    OfQueue(resting, last, buys, sells);
    OfQueue(q, last, buys, sells);
    Adds(multiset(resting) - gone, gone, last, buys, sells);
    assert multiset(resting) - gone + gone == multiset(resting);
    SizedBookSettles(q, q, last, bid, ask, buys, sells);
  }
}
