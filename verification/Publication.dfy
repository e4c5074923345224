/** What the poller and the MARKETs publish, over runs of the critical section:
    every book of a plan, each crossing one followed by its idle book, and the
    one a MARKET is sized with, still the last when the MARKET is handed over.
 */
module Publication {
  import opened Options
  import opened Session
  import opened Instrument
  import opened Critical
  import M = Matching
  import S = Sampling

  /** The books an actor has published since the last reset, in order. */
  function QuotesOf(log: seq<Event>, who: Actor): seq<Book> {
    if log == [] then []
    else
      var e := log[|log| - 1];
      QuotesOf(log[..|log| - 1], who) + if e.Quote? && e.who == who then [e.book] else []
  }

  /** What the poller has still to publish of its plan. */
  function Due(p: PollAt): seq<Book> {
    match p
    case Between => []
    case CrossingUp(_, price, rest) => [Idle(price)] + M.Shown(rest)
    case IdleUp(_, rest) => M.Shown(rest)
  }

  /** What it has published, and is still to publish. */
  function Published(n: Node): seq<Book> {
    QuotesOf(n.log, Poller) + Due(n.poll)
  }

  lemma QuotesAppend(log: seq<Event>, e: Event, who: Actor)
    ensures QuotesOf(log + [e], who) == QuotesOf(log, who) + if e.Quote? && e.who == who then [e.book] else []
  {
    assert (log + [e])[..|log|] == log;
  }

  lemma NotAQuote(log: seq<Event>, e: Event, who: Actor)
    requires !(e.Quote? && e.who == who)
    ensures QuotesOf(log + [e], who) == QuotesOf(log, who)
  {
    QuotesAppend(log, e, who);
  }

  lemma {:induction false} NextBookPublishes(n: Node, at: nat, books: seq<Book>)
    ensures Published(NextBook(n, at, books)) == QuotesOf(n.log, Poller) + M.Shown(books)
    decreases |books|
  {
    hide Stamp, QuotesOf, M.Shown;
    var said := QuotesOf(n.log, Poller);
    if books == [] {
      M.ShownNothing();
      assert said + [] == said;
    } else {
      var book, rest := books[0], books[1..];
      var m := PublishQuote(n, Poller, at, book);
      assert m.log == n.log + [m.log[|n.log|]];
      QuotesAppend(n.log, m.log[|n.log|], Poller);
      M.ShownOne(book, rest);
      assert [book] + rest == books;
      if book.Idle? {
        NextBookPublishes(m, at, rest);
        assert (said + [book]) + M.Shown(rest) == said + ([book] + M.Shown(rest));
      } else {
        var due := [Idle(book.price)] + M.Shown(rest);
        assert (said + [book]) + due == said + ([book] + due);
      }
    }
  }

  lemma StatusPublishes(n: Node, status: Option<Action>, at: nat)
    ensures QuotesOf(PublishStatus(n, status, at).log, Poller) == QuotesOf(n.log, Poller)
  {
    if status.Some? {
      NotAQuote(n.log, PublishStatus(n, status, at).log[|n.log|], Poller);
    }
  }

  lemma ExecutePublishes(n: Node, plan: Plan, at: nat)
    requires n.poll == Between
    ensures Published(Execute(n, plan, at)) == QuotesOf(n.log, Poller) + M.Shown(plan.books)
  {
    hide Stamp, QuotesOf;
    StatusPublishes(n, plan.status, at);
    NextBookPublishes(n, at, plan.books);
    NextBookPublishes(PublishStatus(n, plan.status, at), at, plan.books);
    StatusPublishes(NextBook(n, at, plan.books), plan.status, at);
  }

  /** An observation adds its plan to what is published or due; nothing but the
      poller's own unseen publication and a reset takes anything away, and nobody
      else adds. */
  lemma StepPublishes(n: Node, step: Step)
    requires Enabled(n, step) && !step.Switch? && step != PollSees(false)
    ensures Published(Apply(n, step)) == Published(n) +
            if step.Observation? && !n.inst.busy then
              M.Shown(Observe(n.inst, step.o, step.evidence, step.now, step.resting).1.books)
            else []
  {
    hide Observe, Stamp, QuotesOf, NextBook, Changed, Gated, Failed, SizedBook, InSession;
    match step
    case Observation(o, evidence, now, resting) =>
      if !n.inst.busy {
        var (inst, plan) := Observe(n.inst, o, evidence, now, resting);
        NotAQuote(n.log, Advance(Poller), Poller);
        ExecutePublishes(Log(n.(inst := inst), Advance(Poller)), plan, now);
      }
    case PollSees(_) =>
      if n.poll.CrossingUp? {
        QuotesAppend(n.log, Apply(n, step).log[|n.log|], Poller);
      } else {
        NextBookPublishes(SetBusy(n, false), n.poll.at, n.poll.rest);
      }
    case _ => OthersPublish(n, step);
  }

  lemma OthersPublish(n: Node, step: Step)
    requires Enabled(n, step) && !step.Switch? && !step.PollSees? && !step.Observation?
    ensures Apply(n, step).poll == n.poll
    ensures QuotesOf(Apply(n, step).log, Poller) == QuotesOf(n.log, Poller)
  {
    hide Observe, Stamp, QuotesOf, Changed, Gated, Failed, SizedBook, InSession;
    var m := Apply(n, step);
    if |m.log| == |n.log| + 1 {
      assert m.log == n.log + [m.log[|n.log|]];
      NotAQuote(n.log, m.log[|n.log|], Poller);
    } else if |m.log| == |n.log| + 2 {
      var first, second := m.log[|n.log|], m.log[|n.log| + 1];
      assert m.log == (n.log + [first]) + [second];
      NotAQuote(n.log, first, Poller);
      NotAQuote(n.log + [first], second, Poller);
    }
  }

  // ---------------------------------------------------------------------
  // Main results
  // ---------------------------------------------------------------------

  /** Each publication of the run was seen, and the poller's next cycle has not
      come. */
  ghost predicate OneCycle(states: seq<Node>, steps: seq<Step>)
    requires |states| == |steps| + 1
  {
    && (forall k :: 0 <= k < |steps| ==> steps[k] != PollSees(false))
    && (forall k :: 0 <= k < |steps| ==> states[k].poll != Between)
  }

  lemma {:induction false} CyclePublishes(n: Node, steps: seq<Step>)
    requires Legal(n, steps) && OneCycle(States(n, steps), steps)
    ensures Published(States(n, steps)[|steps|]) == Published(n)
    decreases |steps|
  {
    if steps != [] {
      var m, rest := Apply(n, steps[0]), steps[1..];
      var states, later := States(n, steps), States(m, rest);
      assert states == [n] + later;
      assert forall k :: 0 <= k < |rest| ==> rest[k] == steps[k + 1] && later[k] == states[k + 1];
      assert states[0].poll != Between && steps[0] != PollSees(false);
      StepPublishes(n, steps[0]);
      hide Apply, Enabled, Published;
      CyclePublishes(m, rest);
    }
  }

  /** From an observation to the end of its cycle, with every publication seen and
      whatever the admissions, alerts and failure marks do in between, the poller
      publishes exactly the plan's books, in order, each crossing one followed by
      the idle book at its price. */
  lemma PlanIsPublished(n: Node, o: Observed, evidence: Verdict, now: nat, resting: seq<Resting>, steps: seq<Step>)
    requires var step := Observation(o, evidence, now, resting);
             && !n.inst.busy && Enabled(n, step) && Legal(Apply(n, step), steps)
             && OneCycle(States(Apply(n, step), steps), steps)
             && States(Apply(n, step), steps)[|steps|].poll == Between
    ensures var end := States(Apply(n, Observation(o, evidence, now, resting)), steps)[|steps|];
            QuotesOf(end.log, Poller)
              == QuotesOf(n.log, Poller) + M.Shown(Observe(n.inst, o, evidence, now, resting).1.books)
  {
    hide Apply, QuotesOf, Observe, M.Shown, Legal, States, OneCycle, Published;
    var step := Observation(o, evidence, now, resting);
    StepPublishes(n, step);
    CyclePublishes(Apply(n, step), steps);
    AllPublished(n);
    AllPublished(States(Apply(n, step), steps)[|steps|]);
  }

  lemma AllPublished(n: Node)
    requires n.poll == Between
    ensures Published(n) == QuotesOf(n.log, Poller)
  {
    hide QuotesOf;
  }

  /** So what that cycle's books fill is exact: the orders resting at the
      observation, cancels before any of the published books, met by them in any
      priority order. */
  lemma CycleFillsExactly(n: Node, o: Observed, evidence: Verdict, now: nat, resting: seq<Resting>, steps: seq<Step>,
                          leaves: seq<multiset<Resting>>, left: seq<(nat, nat)>, final: multiset<Resting>)
    requires S.Inv(S.Node(n.inst, Ids(resting)))
    requires var step := Observation(o, evidence, now, resting);
             && !n.inst.busy && Enabled(n, step) && Legal(Apply(n, step), steps)
             && OneCycle(States(Apply(n, step), steps), steps)
             && States(Apply(n, step), steps)[|steps|].poll == Between
    requires var end := States(Apply(n, Observation(o, evidence, now, resting)), steps)[|steps|];
             var before := |QuotesOf(n.log, Poller)|;
             before <= |QuotesOf(end.log, Poller)|
             && M.CanEnd(multiset(resting), QuotesOf(end.log, Poller)[before..], leaves, left, final)
    ensures var end := States(Apply(n, Observation(o, evidence, now, resting)), steps)[|steps|];
            var books := QuotesOf(end.log, Poller)[|QuotesOf(n.log, Poller)|..];
            var mark := n.inst.samples.prevVolume;
            var ready := Observe(n.inst, o, evidence, now, resting).0.gate.ready;
            if Counts(n.inst, o, evidence, now) && mark.Some? && o.volume > mark.value then
              && InSession(now) && ready.Some?
              && M.Exact(multiset(resting), books, o.last, o.last != ready.value.limitUp,
                         o.last != ready.value.limitDown, leaves, left, final)
            else
              M.Gone(leaves) <= multiset(resting) && final == multiset(resting) - M.Gone(leaves)
  {
    PlanIsPublished(n, o, evidence, now, resting, steps);
    hide Apply, Legal, States, OneCycle, QuotesOf, Observe, M.Shown, M.CanEnd, M.Exact, Counts, S.Inv, Ids, M.Gone;
    var s, poll := S.Node(n.inst, Ids(resting)), S.Poll(o, evidence, now, resting);
    assert S.Legal(s, []) && S.States(s, []) == [s];
    assert o.tick > 0;
    M.CrossingBooksAreExact(s, [], poll, leaves, left, final);
  }

  // ---------------------------------------------------------------------
  // The status of a plan
  // ---------------------------------------------------------------------

  lemma {:induction false} NextBookLogs(n: Node, at: nat, books: seq<Book>)
    ensures var m := NextBook(n, at, books);
            && n.log <= m.log && (books != [] ==> |m.log| > |n.log|)
            && forall k :: |n.log| <= k < |m.log| ==> m.log[k].Quote?
    decreases |books|
  {
    hide Stamp;
    if books != [] && books[0].Idle? {
      NextBookLogs(PublishQuote(n, Poller, at, books[0]), at, books[1..]);
    }
  }

  /** The status a plan asks for goes out before its first crossing book, so the
      cross meets an instrument that trades; after an idle one, so what it clears
      is gone before the status is trusted. A plan without one publishes none. */
  lemma StatusFirstOrLast(n: Node, o: Observed, evidence: Verdict, now: nat, resting: seq<Resting>)
    requires !n.inst.busy && Enabled(n, Observation(o, evidence, now, resting))
    ensures var plan := Observe(n.inst, o, evidence, now, resting).1;
            var m := Apply(n, Observation(o, evidence, now, resting));
            var from := |n.log| + 1;
            && n.log + [Advance(Poller)] <= m.log
            && (plan.status.Some? ==>
                  var crosses := exists k :: 0 <= k < |plan.books| && plan.books[k].Crossing?;
                  var at := if crosses then from else |m.log| - 1;
                  && from <= at < |m.log| && m.log[at].Status? && m.log[at].action == plan.status.value
                  && forall k :: from <= k < |m.log| && k != at ==> m.log[k].Quote?)
            && (plan.status.None? ==> forall k :: from <= k < |m.log| ==> m.log[k].Quote?)
  {
    hide Observe, Stamp;
    var (inst, plan) := Observe(n.inst, o, evidence, now, resting);
    var seen := Log(n.(inst := inst), Advance(Poller));
    NextBookLogs(seen, now, plan.books);
    NextBookLogs(PublishStatus(seen, plan.status, now), now, plan.books);
    hide NextBook;
  }

  /** The statuses published since the last reset, in order. */
  function StatusesOf(log: seq<Event>): seq<Action> {
    if log == [] then []
    else
      var e := log[|log| - 1];
      StatusesOf(log[..|log| - 1]) + if e.Status? then [e.action] else []
  }

  lemma StatusesAppend(log: seq<Event>, e: Event)
    ensures StatusesOf(log + [e]) == StatusesOf(log) + if e.Status? then [e.action] else []
  {
    assert (log + [e])[..|log|] == log;
  }

  /** What a status that becomes another tells. */
  function News(was: Option<Action>, now: Option<Action>): seq<Action> {
    if was == now || now.None? then [] else [now.value]
  }

  /** The step publishes its instrument's status exactly when that changes. */
  ghost predicate Tells(n: Node, m: Node) {
    && (n.inst.gate.status.Some? ==> m.inst.gate.status.Some?)
    && StatusesOf(m.log) == StatusesOf(n.log) + News(n.inst.gate.status, m.inst.gate.status)
  }

  lemma {:induction false} NextBookStatus(n: Node, at: nat, books: seq<Book>)
    ensures var m := NextBook(n, at, books);
            StatusesOf(m.log) == StatusesOf(n.log) && m.inst.gate == n.inst.gate
    decreases |books|
  {
    hide Stamp;
    if books != [] {
      var m := PublishQuote(n, Poller, at, books[0]);
      StatusesAppend(n.log, m.log[|n.log|]);
      if books[0].Idle? {
        NextBookStatus(m, at, books[1..]);
      }
    }
  }

  lemma PublishTells(n: Node, status: Option<Action>, at: nat)
    ensures var m := PublishStatus(n, status, at);
            && m.inst.gate == n.inst.gate
            && StatusesOf(m.log) == StatusesOf(n.log) + if status.Some? then [status.value] else []
  {
    hide Stamp, StatusesOf;
    if status.Some? {
      StatusesAppend(n.log, PublishStatus(n, status, at).log[|n.log|]);
    }
  }

  lemma FailsTell(n: Node, reason: Reason, at: nat)
    ensures Tells(n, Fails(n, reason, at))
  {
    hide Stamp, StatusesOf;
    var m := Fails(n, reason, at);
    if |m.log| > |n.log| {
      assert m.log == n.log + [m.log[|n.log|]];
      StatusesAppend(n.log, m.log[|n.log|]);
    }
  }

  lemma ExecuteTells(n: Node, plan: Plan, at: nat)
    ensures var m := Execute(n, plan, at);
            && m.inst.gate == n.inst.gate
            && StatusesOf(m.log) == StatusesOf(n.log) + if plan.status.Some? then [plan.status.value] else []
  {
    hide Stamp, StatusesOf, NextBook, Critical.Crosses;
    PublishTells(n, plan.status, at);
    NextBookStatus(PublishStatus(n, plan.status, at), at, plan.books);
    NextBookStatus(n, at, plan.books);
    PublishTells(NextBook(n, at, plan.books), plan.status, at);
  }

  lemma ObservationTells(n: Node, o: Observed, evidence: Verdict, now: nat, resting: seq<Resting>)
    requires !n.inst.busy && Enabled(n, Observation(o, evidence, now, resting))
    ensures Tells(n, Apply(n, Observation(o, evidence, now, resting)))
  {
    var (inst, plan) := Observe(n.inst, o, evidence, now, resting);
    ObservationCounts(n.inst, o, evidence, now, resting);
    ObservationGates(n.inst, o, evidence, now, resting);
    hide Observe, Stamp, StatusesOf, Execute, Counts, Trustworthy, Decreases, InSession, Evidenced;
    var seen := Log(n.(inst := inst), Advance(Poller));
    StatusesAppend(n.log, Advance(Poller));
    ExecuteTells(seen, plan, now);
  }

  lemma RegateTells(n: Node, gate: Gate, now: nat)
    requires gate.status == n.inst.gate.status
    ensures Tells(n, Regate(n, gate, now))
  {
    hide Stamp, StatusesOf, Gated;
    var action := Gated(gate, now);
    PublishTells(n.(inst := n.inst.(gate := gate.(status := Some(action)))), Changed(gate.status, action), now);
  }

  lemma OthersTell(n: Node, step: Step)
    requires Enabled(n, step)
    requires step.Ask? || step.Attempt? || step.Hand? || step.Restore? || step.RestoreSeen? || step.GiveUp?
    ensures Tells(n, Apply(n, step))
  {
    hide Stamp, StatusesOf, SizedBook, InSession;
    var m := Apply(n, step);
    if |m.log| == |n.log| + 1 {
      assert m.log == n.log + [m.log[|n.log|]];
      StatusesAppend(n.log, m.log[|n.log|]);
    } else if |m.log| == |n.log| + 2 {
      var first, second := m.log[|n.log|], m.log[|n.log| + 1];
      assert m.log == (n.log + [first]) + [second];
      StatusesAppend(n.log, first);
      StatusesAppend(n.log + [first], second);
    }
  }

  /** Every step publishes the status exactly when it changes it, once. */
  lemma StatusOnChangeOnly(n: Node, step: Step)
    requires Enabled(n, step) && !step.Switch?
    ensures Tells(n, Apply(n, step))
  {
    hide Observe, Stamp, StatusesOf, NextBook, Gated, SizedBook, InSession;
    match step
    case Observation(o, evidence, now, resting) =>
      if !n.inst.busy {
        ObservationTells(n, o, evidence, now, resting);
      }
    case PollSees(seen) =>
      if !seen {
        FailsTell(SetBusy(n, false), PublicationFailed, n.poll.at);
      } else if n.poll.CrossingUp? {
        StatusesAppend(n.log, Apply(n, step).log[|n.log|]);
      } else {
        NextBookStatus(SetBusy(n, false), n.poll.at, n.poll.rest);
      }
    case FeedFails(reason, at) => FailsTell(n, reason, at);
    case Alert(now) => RegateTells(n, n.inst.gate, now);
    case YahooCycle(day, at) => RegateTells(n, Dated(n.inst.gate, day, at), at);
    case SizedSeen(order, seen) => FailsTell(Move(n, order, Done), PublicationFailed, n.orders[order].at);
    case MarkFailed(order) => FailsTell(Move(n, order, Done), PublicationFailed, n.orders[order].at);
    case _ => OthersTell(n, step);
  }

  /** The instrument carries the status published last. */
  predicate StatusShown(n: Node) {
    var told := StatusesOf(n.log);
    n.inst.gate.status == if told == [] then None else Some(told[|told| - 1])
  }

  lemma ShownStays(n: Node, step: Step)
    requires StatusShown(n) && Enabled(n, step)
    ensures StatusShown(Apply(n, step))
  {
    if step.Switch? {
      assert StatusesOf([]) == [];
    } else {
      StatusOnChangeOnly(n, step);
      hide Apply, StatusesOf;
    }
  }

  /** So in every run the venue's status is the instrument's: what was published
      last since the last reset is what the instrument carries. */
  lemma {:induction false} StatusIsPublished(n: Node, steps: seq<Step>)
    requires (Starts(n) || StatusShown(n)) && Legal(n, steps)
    ensures forall i :: 0 <= i <= |steps| ==> StatusShown(States(n, steps)[i])
    decreases |steps|
  {
    assert Starts(n) ==> StatusShown(n);
    if steps != [] {
      ShownStays(n, steps[0]);
      hide Apply, Enabled, StatusShown, Starts;
      var m := Apply(n, steps[0]);
      StatusIsPublished(m, steps[1..]);
      assert States(n, steps) == [n] + States(m, steps[1..]);
      assert forall i :: 1 <= i <= |steps| ==> States(n, steps)[i] == States(m, steps[1..])[i - 1];
    }
  }

  // ---------------------------------------------------------------------
  // Every stamp taken is published
  // ---------------------------------------------------------------------

  /** The stamp published last, none being zero. */
  function LastStamp(log: seq<Event>): nat {
    if log == [] then 0
    else
      var e := log[|log| - 1];
      if HasStamp(e) then e.ts else LastStamp(log[..|log| - 1])
  }

  lemma StampAppend(log: seq<Event>, e: Event)
    ensures LastStamp(log + [e]) == if HasStamp(e) then e.ts else LastStamp(log)
  {
    assert (log + [e])[..|log|] == log;
  }

  /** The instrument's last stamp is the one published last. */
  predicate StampShown(n: Node) {
    n.inst.tsLast == LastStamp(n.log)
  }

  lemma {:induction false} NextBookStamp(n: Node, at: nat, books: seq<Book>)
    requires StampShown(n)
    ensures StampShown(NextBook(n, at, books))
    decreases |books|
  {
    hide Stamp;
    if books != [] {
      var m := PublishQuote(n, Poller, at, books[0]);
      StampAppend(n.log, m.log[|n.log|]);
      if books[0].Idle? {
        NextBookStamp(m, at, books[1..]);
      }
    }
  }

  lemma OneMore(n: Node, m: Node)
    requires StampShown(n)
    requires (m.log == n.log && m.inst.tsLast == n.inst.tsLast)
          || (|m.log| == |n.log| + 1 && m.log[..|n.log|] == n.log
              && m.inst.tsLast == if HasStamp(m.log[|n.log|]) then m.log[|n.log|].ts else n.inst.tsLast)
    ensures StampShown(m)
  {
    hide LastStamp;
    if |m.log| > |n.log| {
      assert m.log == n.log + [m.log[|n.log|]];
      StampAppend(n.log, m.log[|n.log|]);
    }
  }

  lemma ExecuteStamp(n: Node, plan: Plan, at: nat)
    requires StampShown(n)
    ensures StampShown(Execute(n, plan, at))
  {
    hide Stamp, StampShown, NextBook, Critical.Crosses;
    OneMore(n, PublishStatus(n, plan.status, at));
    NextBookStamp(PublishStatus(n, plan.status, at), at, plan.books);
    NextBookStamp(n, at, plan.books);
    OneMore(NextBook(n, at, plan.books), PublishStatus(NextBook(n, at, plan.books), plan.status, at));
  }

  lemma StampStep(n: Node, step: Step)
    requires StampShown(n) && Enabled(n, step)
    ensures StampShown(Apply(n, step))
  {
    assert LastStamp([]) == 0;
    hide Observe, Stamp, LastStamp, NextBook, Gated, SizedBook, InSession, Execute;
    match step
    case Observation(o, evidence, now, resting) =>
      if !n.inst.busy {
        var (inst, plan) := Observe(n.inst, o, evidence, now, resting);
        ObservationCounts(n.inst, o, evidence, now, resting);
        hide Counts, Trustworthy, Decreases;
        var seen := Log(n.(inst := inst), Advance(Poller));
        OneMore(n, seen);
        ExecuteStamp(seen, plan, now);
      }
    case PollSees(seen) =>
      if seen && n.poll.IdleUp? {
        NextBookStamp(SetBusy(n, false), n.poll.at, n.poll.rest);
      } else {
        OneMore(n, Apply(n, step));
      }
    case Attempt(order, now, admitted, sized) =>
      if admitted && sized.None? && !n.orders[order].market {
        var first := Log(n, Advance(By(order)));
        OneMore(n, first);
        OneMore(first, Apply(n, step));
      } else {
        OneMore(n, Apply(n, step));
      }
    case Switch(_) =>
    case _ => OneMore(n, Apply(n, step));
  }

  /** In every run no stamp is taken but for what is published: the instrument's
      last stamp is that of the last book or status since the last reset. */
  lemma {:induction false} StampsArePublished(n: Node, steps: seq<Step>)
    requires (Starts(n) || StampShown(n)) && Legal(n, steps)
    ensures forall i :: 0 <= i <= |steps| ==> StampShown(States(n, steps)[i])
    decreases |steps|
  {
    assert Starts(n) ==> StampShown(n);
    if steps != [] {
      StampStep(n, steps[0]);
      hide Apply, Enabled, StampShown, Starts;
      var m := Apply(n, steps[0]);
      StampsArePublished(m, steps[1..]);
      assert States(n, steps) == [n] + States(m, steps[1..]);
      assert forall i :: 1 <= i <= |steps| ==> States(n, steps)[i] == States(m, steps[1..])[i - 1];
    }
  }

  // ---------------------------------------------------------------------
  // The section runs the sampled-fill rule
  // ---------------------------------------------------------------------

  /** What a step of the section is to the samples. */
  function Sample(n: Node, step: Step): Option<S.Step> {
    match step
    case Observation(o, evidence, now, resting) => if n.inst.busy then None else Some(S.Poll(o, evidence, now, resting))
    case FeedFails(reason, at) => Some(S.FeedFails(reason, at))
    case Switch(_) => Some(S.Switch)
    case Alert(now) => Some(S.Alert(now))
    case YahooCycle(day, at) => Some(S.YahooCycle(day, at))
    case Attempt(order, _, admitted, sized) =>
      if admitted && order in n.orders && n.orders[order] == Asking(false) then Some(S.Limit(order)) else None
    case _ => None
  }

  /** Every section's step does to the gate and the samples what its sample does,
      or, of a failed publication, what a failed feed does, or nothing: so what is
      proved of the sampled-fill rule's runs holds of the section's. */
  lemma SectionSamples(n: Node, step: Step, live: set<Order>)
    requires Enabled(n, step)
    requires Sample(n, step).Some? ==> S.Enabled(S.Node(n.inst, live), Sample(n, step).value)
    ensures var m := Apply(n, step).inst;
            if Sample(n, step).Some? then
              var t := S.Apply(S.Node(n.inst, live), Sample(n, step).value).inst;
              m.gate == t.gate && m.samples == t.samples
            else if (step.PollSees? && !step.seen) || (step.SizedSeen? && !step.seen) || step.MarkFailed? then
              var t := Failed(n.inst, PublicationFailed, 0);
              m.gate == t.gate && m.samples == t.samples
            else m.gate == n.inst.gate && m.samples == n.inst.samples
  {
    hide Observe, Stamp, Gated, SizedBook, InSession, Dated;
    if step.Observation? && !n.inst.busy {
      var (inst, plan) := Observe(n.inst, step.o, step.evidence, step.now, step.resting);
      ExecuteSamples(Log(n.(inst := inst), Advance(Poller)), plan, step.now);
    } else if step.PollSees? && step.seen && n.poll.IdleUp? {
      NextBookSamples(SetBusy(n, false), n.poll.at, n.poll.rest);
    }
    hide NextBook, Execute;
  }

  /** In particular the bound on every order's baseline, by which a cycle's books
      are exact, is kept by every step; orders may end at any time. */
  lemma SectionKeepsBaselines(n: Node, step: Step, live: set<Order>)
    requires Enabled(n, step) && S.Inv(S.Node(n.inst, live))
    requires Sample(n, step).Some? ==> S.Enabled(S.Node(n.inst, live), Sample(n, step).value)
    ensures var s := Sample(n, step);
            S.Inv(S.Node(Apply(n, step).inst, if s.Some? && s.value.Limit? then live + {s.value.id} else live))
    ensures forall fewer :: fewer <= live ==> S.Inv(S.Node(n.inst, fewer))
  {
    SectionSamples(n, step, live);
    if Sample(n, step).Some? {
      S.StepInv(S.Node(n.inst, live), Sample(n, step).value);
    } else {
      S.StepInv(S.Node(n.inst, live), S.FeedFails(PublicationFailed, 0));
    }
    hide Observe, Gated, Stamp, Apply, Enabled;
  }

  lemma {:induction false} NextBookSamples(n: Node, at: nat, books: seq<Book>)
    ensures NextBook(n, at, books).inst.gate == n.inst.gate && NextBook(n, at, books).inst.samples == n.inst.samples
    decreases |books|
  {
    hide Stamp;
    if books != [] && books[0].Idle? {
      NextBookSamples(PublishQuote(n, Poller, at, books[0]), at, books[1..]);
    }
  }

  lemma ExecuteSamples(n: Node, plan: Plan, at: nat)
    ensures var m := Execute(n, plan, at); m.inst.gate == n.inst.gate && m.inst.samples == n.inst.samples
  {
    hide Stamp, NextBook, Critical.Crosses;
    NextBookSamples(n, at, plan.books);
    NextBookSamples(PublishStatus(n, plan.status, at), at, plan.books);
  }

  // ---------------------------------------------------------------------
  // A MARKET's book
  // ---------------------------------------------------------------------

  /** Its book is published, and the idle book after it is not. */
  predicate HasBookUp(n: Node, order: Order) {
    order in n.orders && (n.orders[order].SizedUp? || n.orders[order].Confirmed? || n.orders[order].Settling?)
  }

  /** The book published last, and whose it is. */
  function LastQuote(log: seq<Event>): Option<(Actor, Book)> {
    if log == [] then None
    else
      var e := log[|log| - 1];
      if e.Quote? then Some((e.who, e.book)) else LastQuote(log[..|log| - 1])
  }

  lemma LastAppend(log: seq<Event>, e: Event)
    ensures LastQuote(log + [e]) == if e.Quote? then Some((e.who, e.book)) else LastQuote(log)
  {
    assert (log + [e])[..|log|] == log;
  }

  /** Whoever has a sized book up published the last book. */
  ghost predicate BooksStand(n: Node) {
    forall order :: HasBookUp(n, order) ==> LastQuote(n.log) == Some((By(order), n.orders[order].book))
  }

  lemma {:induction false} NobodyElsesQuotes(log: seq<Event>, more: seq<Event>)
    requires forall k :: 0 <= k < |more| ==> !more[k].Quote?
    ensures LastQuote(log + more) == LastQuote(log)
    decreases |more|
  {
    if more == [] {
      assert log + more == log;
    } else {
      var last := |more| - 1;
      NobodyElsesQuotes(log, more[..last]);
      assert log + more == (log + more[..last]) + [more[last]];
      LastAppend(log + more[..last], more[last]);
    }
  }

  /** Under its own section's hand, a book stays up until its idle book. */
  lemma BookStep(n: Node, step: Step, order: Order)
    requires Exclusive(n) && BooksStand(n) && Enabled(n, step) && (Clears(step) ==> !n.inst.busy)
    requires HasBookUp(Apply(n, step), order)
    ensures LastQuote(Apply(n, step).log) == Some((By(order), Apply(n, step).orders[order].book))
  {
    hide Observe, Stamp, LastQuote, Changed, Gated, Failed, SizedBook, InSession, NextBook;
    var m := Apply(n, step);
    BookBefore(n, step, order);
    if HasBookUp(n, order) {
      assert Holds(n, By(order));
      var holder :| Held(n, holder);
      assert holder == By(order) && !Holds(n, Poller);
      assert m.orders[order].book == n.orders[order].book;
      NoQuoteAdded(n, step, order);
      NobodyElsesQuotes(n.log, m.log[|n.log|..]);
      assert m.log == n.log + m.log[|n.log|..];
    } else {
      LastAppend(n.log, m.log[|n.log|]);
      assert m.log == n.log + [m.log[|n.log|]];
    }
  }

  lemma BookBefore(n: Node, step: Step, order: Order)
    requires Enabled(n, step) && HasBookUp(Apply(n, step), order)
    ensures HasBookUp(n, order) || (step.Attempt? && step.order == order && step.sized.Some?)
    ensures HasBookUp(n, order) ==> Apply(n, step).orders[order].book == n.orders[order].book
  {
    hide Observe, Stamp, Changed, Gated, Failed, SizedBook, InSession;
    if step.Observation? && !n.inst.busy {
      var (inst, plan) := Observe(n.inst, step.o, step.evidence, step.now, step.resting);
      var seen := Log(n.(inst := inst), Advance(Poller));
      NextBookPolls(seen, step.now, plan.books);
      NextBookPolls(PublishStatus(seen, plan.status, step.now), step.now, plan.books);
    } else if step.PollSees? && step.seen && n.poll.IdleUp? {
      NextBookPolls(SetBusy(n, false), n.poll.at, n.poll.rest);
    }
    hide NextBook;
  }

  /** While an order has its book up nobody publishes one but it, and it none. */
  lemma NoQuoteAdded(n: Node, step: Step, order: Order)
    requires Enabled(n, step) && HasBookUp(n, order) && HasBookUp(Apply(n, step), order)
    requires Held(n, By(order)) && !Clears(step)
    ensures n.log <= Apply(n, step).log
    ensures forall k :: |n.log| <= k < |Apply(n, step).log| ==> !Apply(n, step).log[k].Quote?
  {
    hide Observe, Stamp, Changed, Gated, Failed, SizedBook, InSession, NextBook;
    assert !Holds(n, Poller);
    assert step.Restore? ==> Holds(n, By(step.order));
    OnlyTheHolderActs(n, By(order), step);
  }

  lemma {:induction false} BooksStandThroughout(n: Node, steps: seq<Step>, k: nat)
    requires Exclusive(n) && BooksStand(n) && Legal(n, steps) && ClearsWhenFree(States(n, steps), steps) && k <= |steps|
    ensures BooksStand(States(n, steps)[k])
    decreases k
  {
    if k > 0 {
      var m, rest := Apply(n, steps[0]), steps[1..];
      var states, later := States(n, steps), States(m, rest);
      assert states == [n] + later;
      assert forall i :: 0 <= i < |rest| ==> rest[i] == steps[i + 1] && later[i] == states[i + 1];
      forall order | HasBookUp(m, order)
        ensures LastQuote(m.log) == Some((By(order), m.orders[order].book))
      {
        BookStep(n, steps[0], order);
      }
      StepExclusive(n, steps[0]);
      hide Apply, Enabled, Exclusive, BooksStand, Clears;
      BooksStandThroughout(m, rest, k - 1);
    }
  }

  /** So in every run from a start whose clears find the instrument free, a MARKET
      is handed over while the last book published is the one sized for it, idle
      price and all. */
  lemma HandedToItsOwnBook(n: Node, steps: seq<Step>, k: nat)
    requires Starts(n) && Legal(n, steps) && ClearsWhenFree(States(n, steps), steps)
    requires k < |steps| && steps[k].Hand?
    ensures var m := States(n, steps)[k];
            && HasBookUp(m, steps[k].order)
            && LastQuote(m.log) == Some((By(steps[k].order), m.orders[steps[k].order].book))
  {
    StartExclusive(n);
    EachIsEnabled(n, steps, k);
    hide Apply, LastQuote, ClearsWhenFree;
    assert BooksStand(n);
    BooksStandThroughout(n, steps, k);
  }

  /** An order asks once, so a book is up once. */
  lemma {:induction false} BookKept(n: Node, steps: seq<Step>, order: Order)
    requires Legal(n, steps) && order in n.orders && !n.orders[order].Asking?
    requires HasBookUp(States(n, steps)[|steps|], order)
    ensures HasBookUp(n, order) && States(n, steps)[|steps|].orders[order].book == n.orders[order].book
    decreases |steps|
  {
    if steps != [] {
      var m := Apply(n, steps[0]);
      AskedOnce(n, steps[0], order);
      assert States(n, steps)[|steps|] == States(m, steps[1..])[|steps| - 1];
      hide Apply, Enabled, HasBookUp;
      BookKept(m, steps[1..], order);
      BookBefore(n, steps[0], order);
    }
  }

  lemma AskedOnce(n: Node, step: Step, order: Order)
    requires Enabled(n, step) && order in n.orders && !n.orders[order].Asking?
    ensures order in Apply(n, step).orders && !Apply(n, step).orders[order].Asking?
    ensures !(step.Attempt? && step.order == order)
  {
    hide Observe, Stamp, Changed, Gated, Failed, SizedBook, InSession;
    if step.Observation? && !n.inst.busy {
      var (inst, plan) := Observe(n.inst, step.o, step.evidence, step.now, step.resting);
      var seen := Log(n.(inst := inst), Advance(Poller));
      NextBookPolls(seen, step.now, plan.books);
      NextBookPolls(PublishStatus(seen, plan.status, step.now), step.now, plan.books);
    } else if step.PollSees? && step.seen && n.poll.IdleUp? {
      NextBookPolls(SetBusy(n, false), n.poll.at, n.poll.rest);
    }
    hide NextBook;
  }

  /** And that book is what `size_for_market` answered in the order's own
      admission: the last observation's price, and each unsuppressed side sized
      for the LIMITs resting then and the MARKET's own quantity. */
  lemma {:induction false} WhereTheBookComesFrom(n: Node, steps: seq<Step>, order: Order) returns (j: nat)
    requires Legal(n, steps) && !HasBookUp(n, order) && HasBookUp(States(n, steps)[|steps|], order)
    ensures j < |steps| && steps[j].Attempt? && steps[j].order == order && steps[j].sized.Some?
    ensures var states := States(n, steps);
            && Enabled(states[j], steps[j]) && steps[j].admitted
            && states[|steps|].orders[order].book == SizedBook(states[j].inst.gate, steps[j].sized.value)
    decreases |steps|
  {
    assert steps != [];
    var m, rest := Apply(n, steps[0]), steps[1..];
    var states, later := States(n, steps), States(m, rest);
    assert states == [n] + later;
    if HasBookUp(m, order) {
      BookBefore(n, steps[0], order);
      assert m.orders[order].book == SizedBook(n.inst.gate, steps[0].sized.value) by {
        hide Stamp, InSession;
      }
      hide Apply, SizedBook, HasBookUp;
      BookKept(m, rest, order);
      j := 0;
    } else {
      hide Apply, SizedBook, HasBookUp;
      j := WhereTheBookComesFrom(m, rest, order);
      j := j + 1;
    }
  }
}
