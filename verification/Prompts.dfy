/** The durable prompt queue: one table of rows, read as a FIFO per desk in
    (creation instant, id) order, and the units that change it. The functions
    are the units' effect; `Activation.Dispatcher` holds the table they are run on.
 */
module Prompts {
  import opened Options

  type Id = nat
  type Desk = nat

  datatype Kind = Disclosure | Orientation | Other

  datatype Code = DeliveryRefused | HandoffUnknown | ChannelUnavailable | RuntimeUnavailable | ActivationFailed

  datatype Status = Queued | Delivered | Failed(code: Code)

  datatype Row = Row(desk: Desk, kind: Kind, status: Status, createdAt: int, attempted: bool, disclosed: bool)

  type Table = map<Id, Row>

  // ---------------------------------------------------------------------
  // Reading the queue
  // ---------------------------------------------------------------------

  predicate Waits(t: Table, desk: Desk, id: Id) {
    id in t && t[id].desk == desk && t[id].status == Queued
  }

  /** `ORDER BY created_at_ns, id`. */
  predicate Earlier(t: Table, a: Id, b: Id) {
    && a in t && b in t
    && (t[a].createdAt < t[b].createdAt || (t[a].createdAt == t[b].createdAt && a < b))
  }

  /** The first of a desk's queue. */
  predicate IsHead(t: Table, desk: Desk, id: Id) {
    Waits(t, desk, id) && forall b | b in t :: Waits(t, desk, b) && b != id ==> Earlier(t, id, b)
  }

  /** A desk's whole queue, in the order its rows come to head it. */
  ghost predicate IsQueue(t: Table, desk: Desk, queue: seq<Id>) {
    && (forall id :: Waits(t, desk, id) <==> id in queue)
    && (forall i, j :: 0 <= i < j < |queue| ==> Earlier(t, queue[i], queue[j]))
  }

  /** `undisclosed`. */
  function Undisclosed(t: Table, desk: Desk): set<Id> {
    set id | id in t && t[id].desk == desk && t[id].status.Failed? && !t[id].disclosed
  }

  lemma {:induction false} EarliestOf(t: Table, ids: set<Id>) returns (least: Id)
    requires ids != {} && ids <= t.Keys
    ensures least in ids && forall b :: b in ids && b != least ==> Earlier(t, least, b)
    decreases ids
  {
    least :| least in ids;
    var rest := ids - {least};
    if rest == {} {
      assert ids == {least};
    } else {
      var other := EarliestOf(t, rest);
      var first := if Earlier(t, other, least) then other else least;
      forall b | b in ids && b != first
        ensures Earlier(t, first, b)
      {
        assert b == least || b in rest;
        assert b in rest && b != other ==> Earlier(t, other, b);
      }
      least := first;
    }
  }

  /** A desk with anything waiting has a head. */
  lemma HeadExists(t: Table, desk: Desk, id: Id)
    requires Waits(t, desk, id)
    ensures exists head :: IsHead(t, desk, head)
  {
    var waiting := set k | k in t && Waits(t, desk, k);
    assert id in waiting;
    var least := EarliestOf(t, waiting);
    assert IsHead(t, desk, least);
  }

  /** `head_prompt`. */
  function HeadPrompt(t: Table, desk: Desk): (head: Option<Id>)
    ensures head.None? <==> forall id :: !Waits(t, desk, id)
    ensures head.Some? ==> IsHead(t, desk, head.value)
  {
    if exists id | id in t :: Waits(t, desk, id) then
      assert exists head :: IsHead(t, desk, head) by {
        var id :| id in t && Waits(t, desk, id);
        HeadExists(t, desk, id);
      }
      var head :| head in t && IsHead(t, desk, head);
      Some(head)
    else None
  }

  /** The instants a desk's waiting rows were created. */
  function Instants(t: Table, desk: Desk): set<int> {
    set id | id in t && Waits(t, desk, id) :: t[id].createdAt
  }

  lemma {:induction false} LeastExists(s: set<int>, some: int) returns (least: int)
    requires some in s
    ensures least in s && forall x :: x in s ==> least <= x
    decreases s
  {
    if below :| below in s && below < some {
      least := LeastExists(s - {some}, below);
      assert forall x :: x in s ==> x == some || x in s - {some};
    } else {
      least := some;
    }
  }

  /** The instant a new session's rows go before: the earliest waiting row's,
      or now when nothing that old waits. */
  function HeadInstant(t: Table, desk: Desk, now: int): (at: int)
    ensures at <= now && forall id :: Waits(t, desk, id) ==> at <= t[id].createdAt
    ensures at == now || exists id :: Waits(t, desk, id) && t[id].createdAt == at
  {
    var instants := Instants(t, desk);
    if instants == {} then
      assert forall id :: Waits(t, desk, id) ==> t[id].createdAt in instants;
      now
    else
      assert exists least :: least in instants && forall x :: x in instants ==> least <= x by {
        var some :| some in instants;
        var least := LeastExists(instants, some);
      }
      var least :| least in instants && forall x :: x in instants ==> least <= x;
      assert forall id :: Waits(t, desk, id) ==> t[id].createdAt in instants;
      if least < now then least else now
  }

  // ---------------------------------------------------------------------
  // The units
  // ---------------------------------------------------------------------

  /** A new row, as every producer of prompts inserts one. */
  function NewRow(desk: Desk, kind: Kind, createdAt: int): Row {
    Row(desk, kind, Queued, createdAt, false, false)
  }

  function MarkAttempted(t: Table, id: Id): Table {
    if id in t then t[id := t[id].(attempted := true)] else t
  }

  function ClearAttempt(t: Table, id: Id): Table {
    if id in t then t[id := t[id].(attempted := false)] else t
  }

  /** `resolve`: the outcome, and for a delivered disclosure the rows it named. */
  function Resolve(t: Table, id: Id, status: Status, named: set<Id>): Table {
    map k | k in t ::
      var row := if k == id then t[k].(status := status) else t[k];
      if status == Delivered && k in named then row.(disclosed := true) else row
  }

  /** `fail_queued`. */
  function FailQueued(t: Table, desk: Desk, code: Code): Table {
    map k | k in t ::
      if t[k].desk == desk && t[k].status == Queued then t[k].(status := Failed(code), attempted := false) else t[k]
  }

  /** Recovery: what had begun being handed off has an unknown outcome. */
  function Recover(t: Table): Table {
    map k | k in t ::
      if t[k].status == Queued && t[k].attempted then t[k].(status := Failed(HandoffUnknown)) else t[k]
  }

  /** `activation_prompts`: a disclosure when one is owed, then the orientation,
      both before everything waiting. */
  function ActivationRows(t: Table, desk: Desk, now: int, disclosure: Id, orientation: Id): Table {
    var at := HeadInstant(t, desk, now);
    var owed := if Undisclosed(t, desk) != {} then t[disclosure := NewRow(desk, Disclosure, at - 2)] else t;
    owed[orientation := NewRow(desk, Orientation, at - 1)]
  }

  // ---------------------------------------------------------------------
  // The queue is one sequence, and its head is its first
  // ---------------------------------------------------------------------

  lemma HeadIsFirst(t: Table, desk: Desk, queue: seq<Id>)
    requires IsQueue(t, desk, queue) && queue != []
    ensures forall id :: IsHead(t, desk, id) <==> id == queue[0]
  {
    assert queue[0] in queue;
    assert IsHead(t, desk, queue[0]) by {
      forall b | Waits(t, desk, b) && b != queue[0]
        ensures Earlier(t, queue[0], b)
      {
        assert b in queue;
      }
    }
    forall id | IsHead(t, desk, id)
      ensures id == queue[0]
    {
      assert Waits(t, desk, queue[0]);
    }
  }

  /** A new session's rows come before the whole old queue, which keeps its
      order: the latest disclosure, present exactly when one was owed, then the
      latest orientation, then everything as it was. */
  lemma NewSessionHeadsTheQueue(t: Table, desk: Desk, now: int, disclosure: Id, orientation: Id, queue: seq<Id>)
    requires IsQueue(t, desk, queue)
    requires disclosure !in t && orientation !in t && disclosure != orientation
    ensures IsQueue(ActivationRows(t, desk, now, disclosure, orientation), desk,
                    (if Undisclosed(t, desk) != {} then [disclosure] else []) + [orientation] + queue)
  {
    var m := ActivationRows(t, desk, now, disclosure, orientation);
    var at := HeadInstant(t, desk, now);
    var owed := Undisclosed(t, desk) != {};
    var front := (if owed then [disclosure] else []) + [orientation];
    var whole := front + queue;
    forall id
      ensures Waits(m, desk, id) <==> id in whole
    {
      assert id in whole <==> id in front || id in queue;
      assert id in front <==> id == orientation || (owed && id == disclosure);
      assert Waits(t, desk, id) <==> id in queue;
    }
    forall i, j | 0 <= i < j < |whole|
      ensures Earlier(m, whole[i], whole[j])
    {
      OldRow(t, m, desk, at, front, queue, i);
      OldRow(t, m, desk, at, front, queue, j);
      assert whole[i] in m && whole[j] in m;
      if i >= |front| {
        assert Earlier(t, queue[i - |front|], queue[j - |front|]);
      }
    }
  }

  lemma OldRow(t: Table, m: Table, desk: Desk, at: int, front: seq<Id>, queue: seq<Id>, i: nat)
    requires (forall id :: Waits(t, desk, id) <==> id in queue)
    requires (forall id :: Waits(t, desk, id) ==> at <= t[id].createdAt)
    requires i < |front + queue|
    requires forall id :: id in t && id !in front ==> id in m && m[id] == t[id]
    requires forall id :: id in front ==> id !in t
    ensures i >= |front| ==>
      (front + queue)[i] == queue[i - |front|] && queue[i - |front|] in t
      && queue[i - |front|] in m && m[queue[i - |front|]] == t[queue[i - |front|]]
      && m[queue[i - |front|]].createdAt >= at
  {
    if i >= |front| {
      var id := queue[i - |front|];
      assert id in queue && Waits(t, desk, id);
      assert id !in front;
    }
  }

  /** One new-session activation: its instant and the rows it may add. */
  datatype Opening = Opening(now: int, disclosure: Id, orientation: Id)

  function AfterOpenings(t: Table, desk: Desk, openings: seq<Opening>): Table {
    if openings == [] then t
    else
      var last := openings[|openings| - 1];
      var before := AfterOpenings(t, desk, openings[..|openings| - 1]);
      ActivationRows(before, desk, last.now, last.disclosure, last.orientation)
  }

  /** Every activation's identifiers are new when it runs. */
  predicate NewIds(t: Table, desk: Desk, openings: seq<Opening>) {
    openings == [] ||
    (var last, before := openings[|openings| - 1], AfterOpenings(t, desk, openings[..|openings| - 1]);
     && NewIds(t, desk, openings[..|openings| - 1])
     && last.disclosure !in before && last.orientation !in before && last.disclosure != last.orientation)
  }

  /** What the activations head the queue with, the latest first. */
  function Fronts(openings: seq<Opening>, owed: bool): seq<Id> {
    if openings == [] then []
    else
      var last := openings[|openings| - 1];
      (if owed then [last.disclosure] else []) + [last.orientation] + Fronts(openings[..|openings| - 1], owed)
  }

  /** After any number of activations the latest disclosure and orientation head
      the queue, then the earlier ones, then the old queue in its own order; what
      is owed a disclosure stays owed. */
  lemma {:induction false} LatestSessionHeadsTheQueue(t: Table, desk: Desk, openings: seq<Opening>, queue: seq<Id>)
    requires IsQueue(t, desk, queue) && NewIds(t, desk, openings)
    ensures IsQueue(AfterOpenings(t, desk, openings), desk, Fronts(openings, Undisclosed(t, desk) != {}) + queue)
    ensures Undisclosed(AfterOpenings(t, desk, openings), desk) == Undisclosed(t, desk)
    decreases |openings|
  {
    var owed := Undisclosed(t, desk) != {};
    if openings == [] {
      assert Fronts(openings, owed) + queue == queue;
    } else {
      var last := openings[|openings| - 1];
      var earlier := openings[..|openings| - 1];
      var before := AfterOpenings(t, desk, earlier);
      LatestSessionHeadsTheQueue(t, desk, earlier, queue);
      NewSessionHeadsTheQueue(before, desk, last.now, last.disclosure, last.orientation, Fronts(earlier, owed) + queue);
      OpeningDisclosesNothing(before, desk, last.now, last.disclosure, last.orientation);
      hide IsQueue, ActivationRows, Undisclosed;
      var front := (if owed then [last.disclosure] else []) + [last.orientation];
      assert front + (Fronts(earlier, owed) + queue) == Fronts(openings, owed) + queue;
    }
  }

  lemma OpeningDisclosesNothing(t: Table, desk: Desk, now: int, disclosure: Id, orientation: Id)
    requires disclosure !in t && orientation !in t
    ensures Undisclosed(ActivationRows(t, desk, now, disclosure, orientation), desk) == Undisclosed(t, desk)
  {
    hide HeadInstant;
  }

  /** The queue is FIFO: settling its head leaves the rest in order, and a wait
      leaves it untouched. */
  lemma SettlingTheHead(t: Table, desk: Desk, queue: seq<Id>, status: Status, named: set<Id>)
    requires IsQueue(t, desk, queue) && queue != [] && status != Queued
    requires named !! (set id | id in queue)
    ensures IsQueue(Resolve(MarkAttempted(t, queue[0]), queue[0], status, named), desk, queue[1..])
    ensures IsQueue(ClearAttempt(MarkAttempted(t, queue[0]), queue[0]), desk, queue)
  {
    var u := Resolve(MarkAttempted(t, queue[0]), queue[0], status, named);
    var w := ClearAttempt(MarkAttempted(t, queue[0]), queue[0]);
    assert queue[0] in queue;
    assert forall i, j :: 0 <= i < j < |queue| ==> Earlier(t, queue[i], queue[j]);
    forall id
      ensures Waits(u, desk, id) <==> id in queue[1..]
      ensures Waits(w, desk, id) <==> id in queue
    {
      assert id in queue <==> id == queue[0] || id in queue[1..];
      assert Waits(t, desk, id) <==> id in queue;
      assert forall j :: 0 <= j < |queue[1..]| ==> queue[1..][j] == queue[j + 1] != queue[0];
    }
  }
}
