/** The terminal end to end: a child's output goes through the daemon's
    reconnect ring and one attachment at a time to the page's pane, over sockets
    that may close at any frame boundary. Whatever is produced, split, replayed,
    superseded or dropped, the pane has written one contiguous piece of one
    stream, each byte once.
 */
module TerminalStream {
  import opened Options
  import opened Terminal

  /** The daemon keeps the newest 256 KiB of a child's output. */
  const RING := 256 * 1024

  datatype Frame = Meta(info: Attached) | Data(bytes: seq<Byte>)

  /** One accepted attachment: its terminal, how much that had produced when it
      was accepted, the frames on their way, whether the metadata has arrived,
      and the page's closure state. */
  datatype Link = Link(terminal: TerminalId, accepted: nat, frames: seq<Frame>, attached: bool, conn: Connection)

  /** `streams` is everything each child ever produced; `live` is the current
      child, with its ring and the socket its output is sent to. Sockets are
      numbered in the order the page opens them. */
  datatype World = World(
    streams: map<TerminalId, seq<Byte>>, live: TerminalId, ring: seq<Byte>, current: Option<SocketId>,
    links: map<SocketId, Link>, opens: nat, first: nat, pane: Pane)

  datatype Step =
    | Produce(bytes: seq<Byte>, drops: bool)   // `drops`: the slow consumer is dropped
    | Replace(terminal: TerminalId)            // the child is replaced by another
    | Accept(socket: SocketId)                 // the daemon accepts an attachment
    | TakeOver                                 // another viewer takes the attachment
    | Deliver(socket: SocketId)
    | Close(socket: SocketId, code: nat)
    | Parse
    | Timer
    | Dispose

  /** The newest `n` bytes of a stream. */
  function Tail(s: seq<Byte>, n: nat): seq<Byte> {
    if |s| <= n then s else s[|s| - n..]
  }

  function Greeting(terminal: TerminalId, produced: nat, ring: seq<Byte>): seq<Frame>
    requires |ring| <= produced
  {
    [Meta(Attached(terminal, produced - |ring|, |ring|))] + if ring == [] then [] else [Data(ring)]
  }

  predicate Enabled(w: World, step: Step) {
    && w.live in w.streams && |w.ring| <= |w.streams[w.live]|
    && match step
       case Produce(_, _) => true
       case Replace(terminal) => terminal !in w.streams
       case Accept(k) => k < w.opens && k !in w.links
       case TakeOver => true
       case Deliver(k) => k in w.links && w.links[k].frames != []
       case Close(k, _) => k < w.opens
       case Parse => w.pane.queue != [] && w.pane.pending >= w.pane.queue[0].length
       case Timer => w.pane.timer
       case Dispose => true
  }

  /** The page hears a message only on its own socket while it lives. */
  predicate Listens(p: Pane, k: SocketId) {
    !p.disposed && p.socket == Some(k)
  }

  function Apply(w: World, step: Step): World
    requires Enabled(w, step)
  {
    match step
    case Produce(bytes, drops) =>
      var links :=
        if w.current.Some? && w.current.value in w.links then
          var k := w.current.value;
          w.links[k := w.links[k].(frames := w.links[k].frames + [Data(bytes)])]
        else w.links;
      w.(streams := w.streams[w.live := w.streams[w.live] + bytes],
         ring := Tail(w.ring + bytes, RING), links := links,
         current := if drops then None else w.current)
    case Replace(terminal) =>
      w.(streams := w.streams[terminal := []], live := terminal, ring := [], current := None)
    case Accept(k) =>
      var greeting := Greeting(w.live, |w.streams[w.live]|, w.ring);
      var link := Link(w.live, |w.streams[w.live]|, greeting, false, Connection(0, false));
      w.(links := w.links[k := link], current := Some(k))
    case TakeOver => w.(current := None)
    case Deliver(k) =>
      var l := w.links[k];
      var rest := l.(frames := l.frames[1..]);
      if !Listens(w.pane, k) then w.(links := w.links[k := rest])
      else
        (match l.frames[0]
         case Meta(info) =>
           var (pane, conn) := OnAttached(w.pane, l.conn, info);
           w.(links := w.links[k := rest.(attached := true, conn := conn)], pane := pane,
              first := if w.pane.terminal.None? then info.offset else w.first)
         case Data(bytes) =>
           var (pane, conn) := OnBytes(w.pane, l.conn, k, bytes);
           w.(links := w.links[k := rest.(conn := conn)], pane := pane))
    case Close(k, code) => w.(pane := OnClose(w.pane, k, code))
    case Parse => w.(pane := OnParsed(w.pane))
    case Timer =>
      w.(pane := OnTimer(w.pane, w.opens), opens := if w.pane.disposed then w.opens else w.opens + 1)
    case Dispose => w.(pane := Disposed(w.pane))
  }

  // ---------------------------------------------------------------------
  // The invariant
  // ---------------------------------------------------------------------

  function Payload(frames: seq<Frame>): seq<Byte> {
    if frames == [] then []
    else (if frames[0].Data? then frames[0].bytes else []) + Payload(frames[1..])
  }

  ghost predicate AllData(frames: seq<Frame>) {
    forall i :: 0 <= i < |frames| ==> frames[i].Data?
  }

  /** Bytes on their way continue the stream from `from`. */
  ghost predicate Carries(s: seq<Byte>, from: nat, frames: seq<Frame>) {
    && AllData(frames)
    && from + |Payload(frames)| <= |s|
    && Payload(frames) == s[from..from + |Payload(frames)|]
  }

  /** Where the page stands on a link: at its metadata, or past it. */
  ghost predicate LinkOk(l: Link, s: seq<Byte>) {
    if l.attached then Carries(s, l.conn.streamOffset, l.frames)
    else
      && l.frames != [] && l.frames[0].Meta?
      && l.frames[0].info.terminal == l.terminal
      && l.frames[0].info.offset + l.frames[0].info.replayBytes == l.accepted <= |s|
      && l.frames[0].info.replayBytes == (if l.accepted > RING then RING else l.accepted)
      && Carries(s, l.frames[0].info.offset, l.frames[1..])
  }

  /** The stream position after everything on its way. */
  function Reach(l: Link): nat {
    if l.attached then l.conn.streamOffset + |Payload(l.frames)|
    else if l.frames != [] && l.frames[0].Meta? then l.frames[0].info.offset + |Payload(l.frames[1..])|
    else 0
  }

  function Outstanding(queue: seq<Write>): nat {
    if queue == [] then 0 else queue[0].length + Outstanding(queue[1..])
  }

  ghost predicate DaemonOk(w: World) {
    && w.live in w.streams
    && w.ring == Tail(w.streams[w.live], RING)
    && (forall k :: k in w.links ==> k < w.opens && w.links[k].terminal in w.streams)
    && (w.current.Some? ==> w.current.value in w.links && w.links[w.current.value].terminal == w.live)
  }

  /** The socket the page listens to, once accepted. */
  ghost predicate ActiveOk(w: World, k: SocketId)
    requires k in w.links && w.links[k].terminal in w.streams
  {
    var l := w.links[k];
    && LinkOk(l, w.streams[l.terminal])
    && (w.current == Some(k) ==> Reach(l) == |w.streams[l.terminal]|)
    && (l.attached ==> w.pane.terminal == Some(l.terminal) && l.conn.streamOffset <= w.pane.offset)
    && (!l.attached && w.pane.terminal == Some(l.terminal) ==>
          w.pane.offset <= l.accepted)
  }

  ghost predicate Written(w: World) {
    match w.pane.terminal
    case None => w.pane.written == [] && w.pane.offset == 0
    case Some(t) =>
      && t in w.streams
      && w.first <= w.pane.offset <= |w.streams[t]|
      && w.pane.written == w.streams[t][w.first..w.pane.offset]
  }

  ghost predicate Counted(p: Pane) {
    p.bytes == |p.written| && p.pending == Outstanding(p.queue) <= PARSER_LIMIT
  }

  ghost predicate Inv(w: World) {
    && DaemonOk(w)
    && Written(w)
    && Counted(w.pane)
    && (w.pane.socket.Some? ==> w.pane.socket.value < w.opens)
    && (forall k :: k in w.links && Listens(w.pane, k) ==> ActiveOk(w, k))
  }

  /** A page that has just opened its first socket to a running child. */
  ghost predicate Starts(w: World) {
    && w.live in w.streams && w.ring == Tail(w.streams[w.live], RING)
    && w.links == map[] && w.current == None && w.opens == 1
    && w.pane == Opened(FRESH, 0)
  }

  lemma {:induction false} PayloadAppend(frames: seq<Frame>, bytes: seq<Byte>)
    ensures Payload(frames + [Data(bytes)]) == Payload(frames) + bytes
  {
    if frames == [] {
      assert Payload([Data(bytes)]) == bytes + Payload([Data(bytes)][1..]);
    } else {
      PayloadAppend(frames[1..], bytes);
      var all := frames + [Data(bytes)];
      assert all[0] == frames[0] && all[1..] == frames[1..] + [Data(bytes)];
      var head := if frames[0].Data? then frames[0].bytes else [];
      assert head + (Payload(frames[1..]) + bytes) == (head + Payload(frames[1..])) + bytes;
    }
  }

  lemma {:induction false} OutstandingAppend(queue: seq<Write>, w: Write)
    ensures Outstanding(queue + [w]) == Outstanding(queue) + w.length
  {
    if queue != [] {
      OutstandingAppend(queue[1..], w);
      assert (queue + [w])[1..] == queue[1..] + [w];
    }
  }

  lemma TailPush(s: seq<Byte>, bytes: seq<Byte>)
    ensures Tail(Tail(s, RING) + bytes, RING) == Tail(s + bytes, RING)
  {
  }

  /** More output leaves what is on its way a piece of the stream. */
  lemma CarriesMore(s: seq<Byte>, more: seq<Byte>, from: nat, frames: seq<Frame>)
    requires Carries(s, from, frames)
    ensures Carries(s + more, from, frames)
    ensures from + |Payload(frames)| == |s| ==> Carries(s + more, from, frames + [Data(more)])
  {
    PayloadAppend(frames, more);
  }

  /** A link whose socket is current takes the new output in its place. */
  lemma LinkProduces(l: Link, s: seq<Byte>, more: seq<Byte>)
    requires LinkOk(l, s)
    ensures LinkOk(l, s + more)
    ensures var m := l.(frames := l.frames + [Data(more)]);
            Reach(l) == |s| ==> LinkOk(m, s + more) && Reach(m) == |s + more|
  {
    hide Carries, Payload;
    if l.attached {
      CarriesMore(s, more, l.conn.streamOffset, l.frames);
      PayloadAppend(l.frames, more);
    } else {
      CarriesMore(s, more, l.frames[0].info.offset, l.frames[1..]);
      PayloadAppend(l.frames[1..], more);
      assert (l.frames + [Data(more)])[1..] == l.frames[1..] + [Data(more)];
    }
  }

  lemma ProduceInv(w: World, bytes: seq<Byte>, drops: bool)
    requires Inv(w) && Enabled(w, Produce(bytes, drops))
    ensures Inv(Apply(w, Produce(bytes, drops)))
  {
    TailPush(w.streams[w.live], bytes);
    hide Tail, Carries, Payload, LinkOk, Reach;
    var m := Apply(w, Produce(bytes, drops));
    forall k | k in m.links && Listens(m.pane, k)
      ensures ActiveOk(m, k)
    {
      assert ActiveOk(w, k);
      var l := w.links[k];
      LinkProduces(l, w.streams[l.terminal], bytes);
      assert m.links[k].attached == l.attached && m.links[k].conn == l.conn;
      assert !l.attached ==> m.links[k].frames[0] == l.frames[0] by {
        LinkStarts(l, w.streams[l.terminal]);
      }
    }
  }

  lemma LinkStarts(l: Link, s: seq<Byte>)
    requires LinkOk(l, s)
    ensures !l.attached ==> l.frames != [] && l.frames[0].Meta?
  {
  }

  /** What an attachment is greeted with: the ring, where the stream has it. */
  lemma GreetingOk(terminal: TerminalId, s: seq<Byte>, ring: seq<Byte>)
    requires ring == Tail(s, RING)
    ensures var l := Link(terminal, |s|, Greeting(terminal, |s|, ring), false, Connection(0, false));
            LinkOk(l, s) && Reach(l) == |s|
  {
    var l := Link(terminal, |s|, Greeting(terminal, |s|, ring), false, Connection(0, false));
    var rest := l.frames[1..];
    assert rest == if ring == [] then [] else [Data(ring)];
    RingPayload(ring, rest);
    hide Payload;
    assert ring == s[|s| - |ring|..|s|];
  }

  lemma RingPayload(ring: seq<Byte>, rest: seq<Frame>)
    requires rest == if ring == [] then [] else [Data(ring)]
    ensures Payload(rest) == ring
  {
    if ring != [] {
      assert Payload(rest) == ring + Payload(rest[1..]);
    }
  }

  lemma AcceptInv(w: World, k: SocketId)
    requires Inv(w) && Enabled(w, Accept(k))
    ensures Inv(Apply(w, Accept(k)))
  {
    GreetingOk(w.live, w.streams[w.live], w.ring);
    hide Tail, LinkOk, Reach, Carries, Payload, Greeting, Outstanding;
    var m := Apply(w, Accept(k));
    forall j | j in m.links && Listens(m.pane, j)
      ensures ActiveOk(m, j)
    {
      if j != k {
        assert ActiveOk(w, j);
      }
    }
  }

  /** Once its metadata is heard, a link stands where that says. */
  lemma LinkGreets(l: Link, s: seq<Byte>, replay: bool)
    requires LinkOk(l, s) && !l.attached
    ensures l.frames != [] && l.frames[0].Meta? && l.frames[0].info.terminal == l.terminal
    ensures l.frames[0].info.offset + l.frames[0].info.replayBytes == l.accepted <= |s|
    ensures var m := l.(frames := l.frames[1..], attached := true, conn := Connection(l.frames[0].info.offset, replay));
            LinkOk(m, s) && Reach(m) == Reach(l)
  {
    hide Carries, Payload;
  }

  /** The metadata adds nothing to what is written: it fixes at most where that
      starts. */
  lemma AttachedWrites(w: World, c: Connection, info: Attached)
    requires Written(w)
    requires info.terminal in w.streams && info.offset <= |w.streams[info.terminal]|
    ensures var first := if w.pane.terminal.None? then info.offset else w.first;
            Written(w.(pane := OnAttached(w.pane, c, info).0, first := first))
  {
  }

  /** The metadata arrives: the first fixes where the pane's stream begins, a
      later one is taken only where it overlaps what the pane has. */
  lemma MetaInv(w: World, k: SocketId)
    requires Inv(w) && Enabled(w, Deliver(k)) && Listens(w.pane, k) && w.links[k].frames[0].Meta?
    ensures Inv(Apply(w, Deliver(k)))
  {
    assert w.links[k].terminal in w.streams;
    hide Tail, LinkOk, Reach, Outstanding, DaemonOk, Written;
    assert ActiveOk(w, k);
    var l := w.links[k];
    var s := w.streams[l.terminal];
    AttachedHasNoMeta(l, s);
    LinkGreets(l, s, l.frames[0].info.replayBytes > 0);
    LinkGreets(l, s, l.conn.replay);
    var info := l.frames[0].info;
    AttachedWrites(w, l.conn, info);
    var m := Apply(w, Deliver(k));
    DaemonFrame(w, m, k);
    WrittenFrame(w.(pane := m.pane, first := m.first), m);
    assert Counted(m.pane);
    forall j | j in m.links && Listens(m.pane, j)
      ensures ActiveOk(m, j)
    {
      assert j == k;
    }
  }

  lemma AttachedHasNoMeta(l: Link, s: seq<Byte>)
    requires LinkOk(l, s) && l.frames != [] && l.frames[0].Meta?
    ensures !l.attached
  {
  }

  lemma DaemonFrame(w: World, m: World, k: SocketId)
    requires DaemonOk(w) && k in w.links
    requires m.streams == w.streams && m.live == w.live && m.ring == w.ring && m.current == w.current
    requires m.opens == w.opens && m.links.Keys == w.links.Keys
    requires forall j :: j in w.links ==> m.links[j].terminal == w.links[j].terminal
    ensures DaemonOk(m)
  {
  }

  /** The front frame is the stream's next bytes, the rest follow it. */
  lemma FrontFrame(s: seq<Byte>, from: nat, frames: seq<Frame>)
    requires Carries(s, from, frames) && frames != []
    ensures frames[0].Data? && AllData(frames[1..]) && from + |frames[0].bytes| <= |s|
    ensures frames[0].bytes == s[from..from + |frames[0].bytes|]
    ensures Carries(s, from + |frames[0].bytes|, frames[1..])
    ensures |Payload(frames)| == |frames[0].bytes| + |Payload(frames[1..])|
  {
    hide Payload, AllData, Carries;
    CarriesMeans(s, from, frames);
    AllDataTail(frames);
    PayloadFront(frames);
    Slices(s, from, Payload(frames), frames[0].bytes, Payload(frames[1..]));
    CarriesMeans(s, from + |frames[0].bytes|, frames[1..]);
  }

  lemma CarriesMeans(s: seq<Byte>, from: nat, frames: seq<Frame>)
    ensures Carries(s, from, frames) <==>
            AllData(frames) && from + |Payload(frames)| <= |s|
            && Payload(frames) == s[from..from + |Payload(frames)|]
  {
  }

  lemma PayloadFront(frames: seq<Frame>)
    requires frames != [] && frames[0].Data?
    ensures Payload(frames) == frames[0].bytes + Payload(frames[1..])
  {
  }

  lemma AllDataTail(frames: seq<Frame>)
    requires AllData(frames) && frames != []
    ensures frames[0].Data? && AllData(frames[1..])
  {
  }

  lemma Slices(s: seq<Byte>, from: nat, whole: seq<Byte>, a: seq<Byte>, b: seq<Byte>)
    requires whole == a + b && from + |whole| <= |s| && whole == s[from..from + |whole|]
    ensures a == s[from..from + |a|]
    ensures b == s[from + |a|..from + |a| + |b|]
  {
    assert a == whole[..|a|];
    assert b == whole[|a|..];
  }

  /** What is unseen of it starts where the pane stands. */
  lemma UnseenContinues(s: seq<Byte>, p: Pane, c: Connection, incoming: seq<Byte>)
    requires c.streamOffset <= p.offset <= |s| && c.streamOffset + |incoming| <= |s|
    requires incoming == s[c.streamOffset..c.streamOffset + |incoming|]
    ensures var bytes := Unseen(p, c, incoming);
            && p.offset + |bytes| == (if p.offset > c.streamOffset + |incoming| then p.offset
                                      else c.streamOffset + |incoming|)
            && bytes == s[p.offset..p.offset + |bytes|]
  {
  }

  /** Hearing a link's next frame moves its offset past it. */
  lemma LinkDelivers(l: Link, s: seq<Byte>, replay: bool)
    requires LinkOk(l, s) && l.attached && l.frames != []
    ensures l.frames[0].Data?
    ensures var bytes := l.frames[0].bytes;
            var m := l.(frames := l.frames[1..], conn := Connection(l.conn.streamOffset + |bytes|, replay));
            && l.conn.streamOffset + |bytes| <= |s|
            && bytes == s[l.conn.streamOffset..l.conn.streamOffset + |bytes|]
            && LinkOk(m, s) && Reach(m) == Reach(l)
  {
    hide Carries, Payload;
    FrontFrame(s, l.conn.streamOffset, l.frames);
  }

  /** Writing what is unseen extends the piece written, and is accounted for. */
  lemma WrittenGrows(w: World, c: Connection, k: SocketId, bytes: seq<Byte>, s: seq<Byte>)
    requires Written(w) && w.pane.terminal.Some? && s == w.streams[w.pane.terminal.value]
    requires c.streamOffset <= w.pane.offset && c.streamOffset + |bytes| <= |s|
    requires bytes == s[c.streamOffset..c.streamOffset + |bytes|]
    ensures var (pane, conn) := OnBytes(w.pane, c, k, bytes);
            && Written(w.(pane := pane))
            && (pane.socket.Some? && w.pane.socket.Some? ==> conn.streamOffset <= pane.offset)
  {
    assert w.pane.offset <= |s|;
    hide Unseen, Written;
    UnseenContinues(s, w.pane, c, bytes);
    var unseen := Unseen(w.pane, c, bytes);
    var more := if w.pane.pending + |unseen| > PARSER_LIMIT then [] else unseen;
    WrittenExtends(w, OnBytes(w.pane, c, k, bytes).0, more, s);
  }

  lemma WrittenExtends(w: World, pane: Pane, more: seq<Byte>, s: seq<Byte>)
    requires Written(w) && w.pane.terminal.Some? && s == w.streams[w.pane.terminal.value]
    requires w.pane.offset + |more| <= |s| && more == s[w.pane.offset..w.pane.offset + |more|]
    requires pane.terminal == w.pane.terminal && pane.offset == w.pane.offset + |more|
    requires pane.written == w.pane.written + more
    ensures Written(w.(pane := pane))
  {
    SlicesJoin(s, w.first, w.pane.offset, w.pane.offset + |more|);
  }

  lemma SlicesJoin(s: seq<Byte>, a: nat, b: nat, c: nat)
    requires a <= b <= c <= |s|
    ensures s[a..b] + s[b..c] == s[a..c]
  {
  }

  lemma CountsGrow(p: Pane, c: Connection, k: SocketId, bytes: seq<Byte>)
    requires Counted(p)
    ensures var (pane, conn) := OnBytes(p, c, k, bytes);
            && Counted(pane) && pane.terminal == p.terminal && pane.socket in {p.socket, None}
            && conn.streamOffset == c.streamOffset + |bytes|
  {
    hide Unseen, Outstanding;
    OutstandingAppend(p.queue, Write(|Unseen(p, c, bytes)|, k, c.replay));
  }

  lemma DataInv(w: World, k: SocketId)
    requires Inv(w) && Enabled(w, Deliver(k)) && Listens(w.pane, k) && w.links[k].frames[0].Data?
    ensures Inv(Apply(w, Deliver(k)))
  {
    var l := w.links[k];
    assert ActiveOk(w, k);
    var s := w.streams[l.terminal];
    LinkStarts(l, s);
    assert l.attached;
    var bytes := l.frames[0].bytes;
    var conn := OnBytes(w.pane, l.conn, k, bytes).1;
    LinkDelivers(l, s, conn.replay);
    WrittenGrows(w, l.conn, k, bytes, s);
    CountsGrow(w.pane, l.conn, k, bytes);
    hide Tail, OnBytes, LinkOk, Reach, Counted, Written;
    var m := Apply(w, Deliver(k));
    DaemonFrame(w, m, k);
    assert Written(m) by { WrittenFrame(w.(pane := m.pane), m); }
    forall j | j in m.links && Listens(m.pane, j)
      ensures ActiveOk(m, j)
    {
      assert j == k;
    }
  }

  lemma WrittenFrame(w: World, m: World)
    requires Written(w) && m.pane == w.pane && m.first == w.first
    requires forall t :: t in w.streams ==> t in m.streams && m.streams[t] == w.streams[t]
    ensures Written(m)
  {
  }

  lemma StepInv(w: World, step: Step)
    requires Inv(w) && Enabled(w, step)
    ensures Inv(Apply(w, step))
  {
    match step
    case Produce(bytes, drops) => ProduceInv(w, bytes, drops);
    case Accept(k) => AcceptInv(w, k);
    case Deliver(k) =>
      if Listens(w.pane, k) {
        if w.links[k].frames[0].Meta? {
          MetaInv(w, k);
        } else {
          DataInv(w, k);
        }
      } else {
        DaemonInv(w, step);
      }
    case Replace(_) => DaemonInv(w, step);
    case TakeOver => DaemonInv(w, step);
    case _ => PaneInv(w, step);
  }

  /** The steps that neither produce nor hear a byte: the daemon's own. */
  lemma DaemonInv(w: World, step: Step)
    requires Inv(w) && Enabled(w, step)
    requires step.Replace? || step.TakeOver? || (step.Deliver? && !Listens(w.pane, step.socket))
    ensures Inv(Apply(w, step))
  {
    EmptyTail();
    hide LinkOk, Reach, Counted, Tail, Written;
    var m := Apply(w, step);
    WrittenFrame(w, m);
    forall k | k in m.links && Listens(m.pane, k)
      ensures ActiveOk(m, k)
    {
      assert ActiveOk(w, k);
      assert m.links[k] == w.links[k];
    }
  }

  /** And the page's own: a socket is never listened to again once let go. */
  lemma PaneInv(w: World, step: Step)
    requires Inv(w) && Enabled(w, step)
    requires step.Close? || step.Parse? || step.Timer? || step.Dispose?
    ensures Inv(Apply(w, step))
  {
    PaneCounts(w.pane, if step.Close? then step.socket else w.opens, if step.Close? then step.code else 0);
    hide LinkOk, Reach, Counted, Tail;
    var m := Apply(w, step);
    assert m.pane.written == w.pane.written && m.pane.offset == w.pane.offset && m.pane.terminal == w.pane.terminal;
    assert Counted(m.pane) && Written(m) && DaemonOk(m);
    hide Written, DaemonOk;
    forall k | k in m.links && Listens(m.pane, k)
      ensures ActiveOk(m, k)
    {
      assert k in w.links && Listens(w.pane, k);
      assert ActiveOk(w, k);
    }
  }

  lemma PaneCounts(p: Pane, k: SocketId, code: nat)
    requires Counted(p)
    ensures Counted(OnClose(p, k, code)) && Counted(OnTimer(p, k)) && Counted(Disposed(p))
    ensures p.queue != [] ==> p.pending >= p.queue[0].length && Counted(OnParsed(p))
  {
    if p.queue != [] {
      OutstandingFront(p.queue);
    }
    hide Outstanding;
  }

  lemma OutstandingFront(queue: seq<Write>)
    requires queue != []
    ensures Outstanding(queue) == queue[0].length + Outstanding(queue[1..])
  {
  }

  lemma EmptyTail()
    ensures Tail([], RING) == []
  {
  }

  // ---------------------------------------------------------------------
  // Runs
  // ---------------------------------------------------------------------

  predicate Legal(w: World, steps: seq<Step>)
    decreases |steps|
  {
    steps == [] || (Enabled(w, steps[0]) && Legal(Apply(w, steps[0]), steps[1..]))
  }

  function Exec(w: World, steps: seq<Step>): World
    requires Legal(w, steps)
    decreases |steps|
  {
    if steps == [] then w else Exec(Apply(w, steps[0]), steps[1..])
  }

  lemma {:induction false} RunInv(w: World, steps: seq<Step>)
    requires Inv(w) && Legal(w, steps)
    ensures Inv(Exec(w, steps))
    decreases |steps|
  {
    if steps != [] {
      hide Apply, Enabled, Inv;
      StepInv(w, steps[0]);
      RunInv(Apply(w, steps[0]), steps[1..]);
    }
  }

  lemma StartInv(w: World)
    requires Starts(w)
    ensures Inv(w)
  {
  }

  // ---------------------------------------------------------------------
  // Main results
  // ---------------------------------------------------------------------

  /** In every run: the pane has written exactly the contiguous piece of one
      stream from where it first attached to `offset`, nothing lost and nothing
      twice; it is never behind what its socket delivered; and the parser's
      queue is accounted to the byte and bounded. */
  lemma ExactlyOnce(start: World, steps: seq<Step>)
    requires Starts(start) && Legal(start, steps)
    ensures var w := Exec(start, steps);
            && Written(w) && Counted(w.pane)
            && forall k :: k in w.links && Listens(w.pane, k) && w.links[k].attached ==>
                 w.pane.terminal == Some(w.links[k].terminal)
                 && w.links[k].conn.streamOffset <= w.pane.offset
  {
    StartInv(start);
    RunInv(start, steps);
    var w := Exec(start, steps);
    forall k | k in w.links && Listens(w.pane, k)
      ensures ActiveOk(w, k)
    {
    }
  }

  /** A reattachment is refused exactly when its terminal is another one or its
      child had produced more than the 256 KiB ring since the pane's last byte:
      whatever the ring still covers is always taken up. */
  lemma ContinuityIsLostExactly(start: World, steps: seq<Step>, k: SocketId)
    requires Starts(start) && Legal(start, steps)
    requires var w := Exec(start, steps);
             Enabled(w, Deliver(k)) && Listens(w.pane, k) && w.links[k].frames[0].Meta?
    ensures var w := Exec(start, steps);
            var l, p, v := w.links[k], w.pane, Apply(w, Deliver(k)).pane;
            && (v.socket.None? <==>
                  p.terminal.Some? && (p.terminal.value != l.terminal || l.accepted - p.offset > RING))
            && (if v.socket.None? then
                  v == p.(socket := None, ready := false, reconnected := true)
                else
                  var replays := l.accepted > 0;
                  && Apply(w, Deliver(k)).links[k].conn.replay == replays
                  && v == p.(terminal := Some(l.terminal), ready := p.ready || !replays,
                             offset := if p.terminal.Some? then p.offset
                                       else if l.accepted > RING then l.accepted - RING else 0))
  {
    StartInv(start);
    RunInv(start, steps);
    var w := Exec(start, steps);
    assert ActiveOk(w, k);
    AttachedHasNoMeta(w.links[k], w.streams[w.links[k].terminal]);
    hide Written, Counted, DaemonOk, Carries, Reach;
  }

  /** Where a frame that arrives ends in the stream, and how much of it is past
      what the pane has. */
  function FrameEnd(w: World, k: SocketId): nat
    requires k in w.links && w.links[k].frames != [] && w.links[k].frames[0].Data?
  {
    w.links[k].conn.streamOffset + |w.links[k].frames[0].bytes|
  }

  function Further(w: World, k: SocketId): nat
    requires k in w.links && w.links[k].frames != [] && w.links[k].frames[0].Data?
  {
    if FrameEnd(w, k) > w.pane.offset then FrameEnd(w, k) - w.pane.offset else 0
  }

  /** A frame the pane hears ends its socket exactly when what the parser still
      has, with what of the frame is past the pane's end, is over one mebibyte;
      the pane then keeps what it has and never reconnects. Any other is heard: the
      pane then stands at the further of the two ends, has written the stream up
      to there, and owes the parser just what it added. */
  lemma FrameIsHeardExactly(start: World, steps: seq<Step>, k: SocketId)
    requires Starts(start) && Legal(start, steps)
    requires var w := Exec(start, steps);
             Enabled(w, Deliver(k)) && Listens(w.pane, k) && w.links[k].frames[0].Data?
    ensures FrameIsHeard(Exec(start, steps), k)
  {
    StartInv(start);
    RunInv(start, steps);
    hide Inv, Legal, Exec;
    FrameHeard(Exec(start, steps), k);
  }

  ghost predicate FrameIsHeard(w: World, k: SocketId)
    requires Enabled(w, Deliver(k)) && w.links[k].frames[0].Data?
  {
    var v, p := Apply(w, Deliver(k)), w.pane;
    && (v.pane.socket.None? <==> p.pending + Further(w, k) > 1_048_576)
    && v.links[k].conn.streamOffset == FrameEnd(w, k) && v.links[k].frames == w.links[k].frames[1..]
    && (if v.pane.socket.None? then
          v.pane == p.(socket := None, ready := false, reconnected := true)
        else
          && p.terminal.Some? && p.terminal.value in w.streams
          && p.offset + Further(w, k) <= |w.streams[p.terminal.value]|
          && !v.links[k].conn.replay
          && v.pane == p.(offset := p.offset + Further(w, k), pending := p.pending + Further(w, k),
                          bytes := p.bytes + Further(w, k),
                          written := p.written + w.streams[p.terminal.value][p.offset..p.offset + Further(w, k)],
                          queue := p.queue + [Write(Further(w, k), k, w.links[k].conn.replay)]))
  }

  lemma FrameHeard(w: World, k: SocketId)
    requires Inv(w) && Enabled(w, Deliver(k)) && Listens(w.pane, k) && w.links[k].frames[0].Data?
    ensures FrameIsHeard(w, k)
  {
    FrameStands(w, k);
    DeliverData(w, k);
    hide Inv, Apply, OnBytes;
    var l := w.links[k];
    FrameOnPane(w.pane, l.conn, k, l.frames[0].bytes, w.streams[l.terminal]);
  }

  /** A frame the pane hears is the next of its own stream. */
  lemma FrameStands(w: World, k: SocketId)
    requires Inv(w) && Enabled(w, Deliver(k)) && Listens(w.pane, k) && w.links[k].frames[0].Data?
    ensures var l, c := w.links[k], w.links[k].conn;
            && l.attached && w.pane.terminal == Some(l.terminal) && l.terminal in w.streams
            && var s, bytes := w.streams[l.terminal], l.frames[0].bytes;
               && c.streamOffset <= w.pane.offset <= |s| && c.streamOffset + |bytes| <= |s|
               && bytes == s[c.streamOffset..c.streamOffset + |bytes|]
  {
    assert ActiveOk(w, k);
    var l := w.links[k];
    var s := w.streams[l.terminal];
    LinkStarts(l, s);
    LinkDelivers(l, s, false);
    hide LinkOk, Reach, Counted, DaemonOk, Carries;
  }

  lemma DeliverData(w: World, k: SocketId)
    requires Enabled(w, Deliver(k)) && Listens(w.pane, k) && w.links[k].frames[0].Data?
    ensures var m, l := Apply(w, Deliver(k)), w.links[k];
            var (pane, conn) := OnBytes(w.pane, l.conn, k, l.frames[0].bytes);
            && m == w.(pane := pane, links := w.links[k := l.(frames := l.frames[1..], conn := conn)])
  {
    hide OnBytes;
  }

  lemma DeliverMeta(w: World, k: SocketId)
    requires Enabled(w, Deliver(k)) && Listens(w.pane, k) && w.links[k].frames[0].Meta?
    ensures var m, l := Apply(w, Deliver(k)), w.links[k];
            var (pane, conn) := OnAttached(w.pane, l.conn, l.frames[0].info);
            && m.pane == pane && m.opens == w.opens
            && m.links == w.links[k := l.(frames := l.frames[1..], attached := true, conn := conn)]
  {
    hide OnAttached;
  }

  /** The metadata a pane hears is of its link, and fits what the pane has. */
  lemma MetaStands(w: World, k: SocketId)
    requires Inv(w) && Enabled(w, Deliver(k)) && Listens(w.pane, k) && w.links[k].frames[0].Meta?
    ensures var l, info := w.links[k], w.links[k].frames[0].info;
            && !l.attached && info.terminal == l.terminal && info.offset + info.replayBytes == l.accepted
            && (info.replayBytes == 0 ==> l.accepted == 0)
            && (w.pane.terminal.None? ==> w.pane.offset == 0)
  {
    assert ActiveOk(w, k);
    AttachedHasNoMeta(w.links[k], w.streams[w.links[k].terminal]);
    hide Carries, Reach, Counted, DaemonOk;
  }

  /** The same of the pane and its socket alone. */
  lemma FrameOnPane(p: Pane, c: Connection, k: SocketId, bytes: seq<Byte>, s: seq<Byte>)
    requires c.streamOffset <= p.offset <= |s| && c.streamOffset + |bytes| <= |s|
    requires bytes == s[c.streamOffset..c.streamOffset + |bytes|]
    ensures var (v, d) := OnBytes(p, c, k, bytes);
            var end := c.streamOffset + |bytes|;
            var more := if end > p.offset then end - p.offset else 0;
            && d.streamOffset == end
            && (if p.pending + more > 1_048_576 then
                  v == p.(socket := None, ready := false, reconnected := true)
                else
                  && !d.replay && p.offset + more <= |s|
                  && v == p.(offset := p.offset + more, bytes := p.bytes + more, pending := p.pending + more,
                             written := p.written + s[p.offset..p.offset + more],
                             queue := p.queue + [Write(more, k, c.replay)]))
  {
    hide Unseen;
    UnseenContinues(s, p, c, bytes);
  }

  // ---------------------------------------------------------------------
  // When the terminal is ready
  // ---------------------------------------------------------------------

  /** What the parser owes after a write. */
  function Beyond(queue: seq<Write>, i: nat): nat
    requires i < |queue|
  {
    Outstanding(queue[i + 1..])
  }

  predicate Completing(p: Pane, i: int, k: SocketId) {
    0 <= i < |p.queue| && p.queue[i].socket == k && p.queue[i].completing
  }

  ghost predicate Replaying(p: Pane, k: SocketId) {
    exists i :: Completing(p, i, k)
  }

  /** The replay is the frame after the metadata, whole. */
  ghost predicate ReplayNext(l: Link) {
    if !l.attached then
      l.frames != [] && l.frames[0].Meta?
      && (l.frames[0].info.replayBytes > 0 ==>
            |l.frames| >= 2 && l.frames[1].Data? && |l.frames[1].bytes| == l.frames[0].info.replayBytes)
    else
      l.conn.replay ==>
        l.frames != [] && l.frames[0].Data? && l.conn.streamOffset + |l.frames[0].bytes| == l.accepted
  }

  /** The socket has heard its metadata and, if there was one, its replay. */
  predicate Heard(w: World, k: SocketId) {
    k in w.links && w.links[k].attached && !w.links[k].conn.replay
  }

  ghost predicate ReadyOk(w: World, k: SocketId) {
    && (w.pane.ready <==> Heard(w, k) && !Replaying(w.pane, k))
    && (!Heard(w, k) ==> !Replaying(w.pane, k))
    && (k in w.links ==> ReplayNext(w.links[k]))
    && (Heard(w, k) ==> w.links[k].accepted <= w.pane.offset)
    && (forall i, j :: Completing(w.pane, i, k) && Completing(w.pane, j, k) ==> i == j)
    && (forall i :: Completing(w.pane, i, k) ==>
          w.links[k].accepted + Beyond(w.pane.queue, i) <= w.pane.offset)
    && (w.pane.ready ==> w.links[k].accepted + w.pane.pending <= w.pane.offset)
  }

  ghost predicate ReadyInv(w: World) {
    && (forall i :: 0 <= i < |w.pane.queue| ==> w.pane.queue[i].socket < w.opens)
    && w.pane.pending <= w.pane.offset
    && forall k :: Listens(w.pane, k) ==> ReadyOk(w, k)
  }

  /** A step that leaves the pane and what its socket hears next alone. */
  lemma ReadyFrame(w: World, m: World, k: SocketId)
    requires ReadyOk(w, k) && m.pane == w.pane
    requires k in w.links <==> k in m.links
    requires k in w.links ==>
               && m.links[k].attached == w.links[k].attached && m.links[k].conn == w.links[k].conn
               && m.links[k].accepted == w.links[k].accepted && w.links[k].frames <= m.links[k].frames
    ensures ReadyOk(m, k)
  {
    hide Outstanding;
  }

  lemma ReadyDaemon(w: World, step: Step)
    requires Inv(w) && ReadyInv(w) && Enabled(w, step)
    requires step.Produce? || step.Replace? || step.TakeOver? || (step.Deliver? && !Listens(w.pane, step.socket))
    ensures ReadyInv(Apply(w, step))
  {
    hide Inv, ReadyOk, Tail;
    var m := Apply(w, step);
    forall k | Listens(m.pane, k)
      ensures ReadyOk(m, k)
    {
      assert ReadyOk(w, k);
      ReadyFrame(w, m, k);
    }
  }

  lemma ReadyAccept(w: World, a: SocketId)
    requires Inv(w) && ReadyInv(w) && Enabled(w, Accept(a))
    ensures ReadyInv(Apply(w, Accept(a)))
  {
    hide Inv, Tail, Outstanding;
    var m := Apply(w, Accept(a));
    forall k | Listens(m.pane, k)
      ensures ReadyOk(m, k)
    {
      assert ReadyOk(w, k);
      if k == a {
        assert !Heard(m, k) && !Heard(w, k);
        assert ReplayNext(m.links[k]);
      } else {
        hide ReadyOk;
        ReadyFrame(w, m, k);
      }
    }
  }

  lemma ReadyMeta(w: World, k: SocketId)
    requires Inv(w) && ReadyInv(w) && Enabled(w, Deliver(k)) && Listens(w.pane, k) && w.links[k].frames[0].Meta?
    ensures ReadyInv(Apply(w, Deliver(k)))
  {
    assert ReadyOk(w, k);
    MetaStands(w, k);
    DeliverMeta(w, k);
    assert !Heard(w, k) && !Replaying(w.pane, k);
    hide Inv, Apply, Outstanding;
    var m := Apply(w, Deliver(k));
    assert m.pane.queue == w.pane.queue && m.pane.pending == w.pane.pending && m.pane.offset >= w.pane.offset;
    forall j | Listens(m.pane, j)
      ensures ReadyOk(m, j)
    {
      assert j == k;
      assert !Replaying(m.pane, k) by {
        assert forall i :: Completing(m.pane, i, k) ==> Completing(w.pane, i, k);
      }
    }
  }

  /** The writes after a frame is written: the old ones, and the new one last. */
  lemma QueueAfter(p: Pane, v: Pane, write: Write, k: SocketId)
    requires v.queue == p.queue + [write] && write.socket == k
    ensures forall i :: Completing(v, i, k) <==> Completing(p, i, k) || (i == |p.queue| && write.completing)
    ensures forall i :: 0 <= i < |p.queue| ==> Beyond(v.queue, i) == Beyond(p.queue, i) + write.length
    ensures Beyond(v.queue, |p.queue|) == 0
  {
    forall i | 0 <= i < |p.queue|
      ensures Beyond(v.queue, i) == Beyond(p.queue, i) + write.length
    {
      assert v.queue[i + 1..] == p.queue[i + 1..] + [write];
      OutstandingAppend(p.queue[i + 1..], write);
    }
    assert v.queue[|p.queue| + 1..] == [];
    hide Outstanding;
  }

  lemma ReadyData(w: World, k: SocketId)
    requires Inv(w) && ReadyInv(w) && Enabled(w, Deliver(k)) && Listens(w.pane, k) && w.links[k].frames[0].Data?
    ensures ReadyInv(Apply(w, Deliver(k)))
  {
    assert ReadyOk(w, k);
    FrameStands(w, k);
    DeliverData(w, k);
    var l := w.links[k];
    FrameOnPane(w.pane, l.conn, k, l.frames[0].bytes, w.streams[l.terminal]);
    var m := Apply(w, Deliver(k));
    hide Inv, Apply, OnBytes, Outstanding;
    forall j | Listens(m.pane, j)
      ensures ReadyOk(m, j)
    {
      assert j == k;
      var write := m.pane.queue[|w.pane.queue|];
      QueueAfter(w.pane, m.pane, write, k);
      DataReady(w, m, k, write);
    }
  }

  lemma DataReady(w: World, m: World, k: SocketId, write: Write)
    requires ReadyOk(w, k) && k in w.links && k in m.links
    requires w.links[k].attached && m.links[k].attached && !m.links[k].conn.replay
    requires m.links[k].accepted == w.links[k].accepted && w.links[k].frames != [] && w.links[k].frames[0].Data?
    requires m.links[k].conn.streamOffset == w.links[k].conn.streamOffset + |w.links[k].frames[0].bytes|
    requires m.links[k].conn.streamOffset <= m.pane.offset
    requires m.pane.queue == w.pane.queue + [write] && write == Write(write.length, k, w.links[k].conn.replay)
    requires m.pane.offset == w.pane.offset + write.length && m.pane.pending == w.pane.pending + write.length
    requires m.pane.ready == w.pane.ready
    requires forall i :: Completing(m.pane, i, k) <==>
               Completing(w.pane, i, k) || (i == |w.pane.queue| && write.completing)
    requires forall i :: 0 <= i < |w.pane.queue| ==>
               Beyond(m.pane.queue, i) == Beyond(w.pane.queue, i) + write.length
    requires Beyond(m.pane.queue, |w.pane.queue|) == 0
    ensures ReadyOk(m, k)
  {
    hide Outstanding;
    if w.links[k].conn.replay {
      assert !Heard(w, k);
      assert Completing(m.pane, |w.pane.queue|, k);
    } else {
      assert Replaying(m.pane, k) <==> Replaying(w.pane, k) by {
        assert forall i :: Completing(m.pane, i, k) <==> Completing(w.pane, i, k);
      }
    }
  }

  lemma ReadyParse(w: World)
    requires Inv(w) && ReadyInv(w) && Enabled(w, Parse)
    ensures ReadyInv(Apply(w, Parse))
  {
    var p, m := w.pane, Apply(w, Parse);
    assert p.pending == Outstanding(p.queue);
    OutstandingFront(p.queue);
    forall k | Listens(m.pane, k)
      ensures ReadyOk(m, k)
    {
      assert ReadyOk(w, k);
      hide Inv, Outstanding;
      forall i: nat | i < |m.pane.queue|
        ensures m.pane.queue[i] == p.queue[i + 1] && Beyond(m.pane.queue, i) == Beyond(p.queue, i + 1)
      {
        assert m.pane.queue[i + 1..] == p.queue[i + 2..];
      }
      assert forall i :: Completing(m.pane, i, k) ==> Completing(p, i + 1, k);
      assert forall i :: Completing(p, i, k) && i > 0 ==> Completing(m.pane, i - 1, k);
      assert p.queue[1..] == m.pane.queue;
      if Completing(p, 0, k) {
        assert !Replaying(m.pane, k);
      }
    }
    hide Inv, Outstanding;
  }

  lemma ReadyPage(w: World, step: Step)
    requires Inv(w) && ReadyInv(w) && Enabled(w, step) && (step.Close? || step.Timer? || step.Dispose?)
    ensures ReadyInv(Apply(w, step))
  {
    hide Outstanding, ReadyOk;
    var m := Apply(w, step);
    forall k | Listens(m.pane, k)
      ensures ReadyOk(m, k)
    {
      if step.Timer? {
        assert k == w.opens && k !in w.links;
        NotReady(m, k);
      } else {
        assert Listens(w.pane, k);
        SameReady(w, m, k);
      }
    }
  }

  /** A socket just opened has heard nothing. */
  lemma NotReady(m: World, k: SocketId)
    requires k !in m.links && !m.pane.ready
    requires forall i :: 0 <= i < |m.pane.queue| ==> m.pane.queue[i].socket != k
    ensures ReadyOk(m, k)
  {
    hide Outstanding;
  }

  lemma SameReady(w: World, m: World, k: SocketId)
    requires ReadyOk(w, k) && m.links == w.links && m.pane.queue == w.pane.queue && m.pane.ready == w.pane.ready
    requires m.pane.offset == w.pane.offset && m.pane.pending == w.pane.pending
    ensures ReadyOk(m, k)
  {
    hide Outstanding;
    assert forall i :: Completing(m.pane, i, k) <==> Completing(w.pane, i, k);
  }

  lemma {:induction false} ReadyRun(w: World, steps: seq<Step>)
    requires Inv(w) && ReadyInv(w) && Legal(w, steps)
    ensures ReadyInv(Exec(w, steps))
    decreases |steps|
  {
    if steps != [] {
      hide Apply, Enabled, Inv, ReadyInv;
      StepInv(w, steps[0]);
      ReadyStep(w, steps[0]);
      ReadyRun(Apply(w, steps[0]), steps[1..]);
    }
  }

  lemma ReadyStep(w: World, step: Step)
    requires Inv(w) && ReadyInv(w) && Enabled(w, step)
    ensures ReadyInv(Apply(w, step))
  {
    match step
    case Accept(k) => ReadyAccept(w, k);
    case Deliver(k) =>
      if !Listens(w.pane, k) {
        ReadyDaemon(w, step);
      } else if w.links[k].frames[0].Meta? {
        ReadyMeta(w, k);
      } else {
        ReadyData(w, k);
      }
    case Parse => ReadyParse(w);
    case Produce(_, _) => ReadyDaemon(w, step);
    case Replace(_) => ReadyDaemon(w, step);
    case TakeOver => ReadyDaemon(w, step);
    case _ => ReadyPage(w, step);
  }

  /** In every run, a pane on its socket is ready exactly when that has heard its
      metadata and its replay, and the replay, if there was one, is parsed; all
      its child had produced when the attachment was accepted is then parsed. */
  lemma ReadyWhenCaughtUp(start: World, steps: seq<Step>, k: SocketId)
    requires Starts(start) && Legal(start, steps) && Listens(Exec(start, steps).pane, k)
    ensures var w := Exec(start, steps);
            && (w.pane.ready <==> Heard(w, k) && !Replaying(w.pane, k))
            && (w.pane.ready ==> w.links[k].accepted + w.pane.pending <= w.pane.offset)
            && (k in w.links && w.links[k].attached && w.links[k].conn.replay ==>
                  w.links[k].frames != [] && w.links[k].frames[0].Data?
                  && w.links[k].conn.streamOffset + |w.links[k].frames[0].bytes| == w.links[k].accepted)
  {
    StartInv(start);
    assert ReadyInv(start);
    ReadyRun(start, steps);
    assert ReadyOk(Exec(start, steps), k);
  }

  // ---------------------------------------------------------------------
  // Sockets
  // ---------------------------------------------------------------------

  /** A close of the pane's own socket lets it go, and ends the pane, opens another
      socket a moment later, or does neither: the daemon's refusals end it; the
      first close otherwise, of a pane still on its stream, reopens, unless the page
      closed or another viewer took over. Any other socket's close is nothing. */
  lemma CloseDecides(w: World, k: SocketId, code: nat)
    requires Enabled(w, Close(k, code))
    ensures var p, v := w.pane, Apply(w, Close(k, code)).pane;
            if p.socket != Some(k) then v == p
            else
              var ends := !p.disposed && (code == 4404 || code == 4409);
              var reopens := !p.disposed && !ends && !p.reconnected && code != 1000 && code != 4001;
              v == p.(socket := None, ready := false, disposed := p.disposed || ends,
                      reconnected := p.reconnected || reopens, timer := p.timer || reopens)
  {
  }

  /** And the moment later it is the pane's own, unless the pane ended meanwhile. */
  lemma TimerOpens(w: World)
    requires Enabled(w, Timer)
    ensures var m := Apply(w, Timer);
            && !m.pane.timer && m.opens == w.opens + (if w.pane.disposed then 0 else 1)
            && (!w.pane.disposed ==> Listens(m.pane, w.opens) && !m.pane.ready)
            && (w.pane.disposed ==> m.pane.socket == w.pane.socket)
            && m.pane.offset == w.pane.offset && m.pane.terminal == w.pane.terminal
  {
  }

  /** Once disposed a pane hears nothing and opens nothing, for good. */
  lemma DisposedForGood(w: World, steps: seq<Step>)
    requires Enabled(w, Dispose) && Legal(Apply(w, Dispose), steps)
    ensures var e := Exec(Apply(w, Dispose), steps);
            && e.pane.disposed && e.opens == w.opens
            && e.pane.written == w.pane.written && e.pane.offset == w.pane.offset
  {
    DisposedHearsNothing(Apply(w, Dispose), steps);
  }

  lemma {:induction false} DisposedHearsNothing(w: World, steps: seq<Step>)
    requires w.pane.disposed && Legal(w, steps)
    ensures var e := Exec(w, steps);
            && e.pane.disposed && e.opens == w.opens
            && e.pane.written == w.pane.written && e.pane.offset == w.pane.offset
    decreases |steps|
  {
    if steps != [] {
      hide Unseen, Tail;
      DisposedHearsNothing(Apply(w, steps[0]), steps[1..]);
    }
  }

  // ---------------------------------------------------------------------
  // Whom the daemon sends to
  // ---------------------------------------------------------------------

  /** New output is sent to the current attachment and no other, in its place; a
      greeting tells where the ring is and carries it; a frame delivered is gone,
      whether the page listens or not. */
  lemma WhatIsOnTheWay(w: World, step: Step, k: SocketId)
    requires Enabled(w, step) && DaemonOk(w)
    ensures var m := Apply(w, step);
            && (k in w.links ==>
                  && k in m.links
                  && m.links[k].frames == (if step.Produce? && w.current == Some(k) then
                                             w.links[k].frames + [Data(step.bytes)]
                                           else if step == Deliver(k) then w.links[k].frames[1..]
                                           else w.links[k].frames))
            && (k !in w.links ==>
                  && (k in m.links <==> step == Accept(k))
                  && (step == Accept(k) ==>
                        var s := w.streams[w.live];
                        var from := if |s| > RING then |s| - RING else 0;
                        m.links[k] == Link(w.live, |s|,
                                           [Meta(Attached(w.live, from, |s| - from))]
                                           + (if |s| == 0 then [] else [Data(s[from..])]),
                                           false, Connection(0, false))))
  {
    hide OnAttached, OnBytes;
  }

  /** An attachment is the current one from its acceptance until another viewer's,
      another of its own, the child's end, or its being dropped as a slow one. */
  lemma CurrentUntil(w: World, k: SocketId, steps: seq<Step>)
    requires Enabled(w, Accept(k)) && Legal(Apply(w, Accept(k)), steps)
    requires forall s :: s in steps ==> !s.Accept? && !s.TakeOver? && !s.Replace? && !(s.Produce? && s.drops)
    ensures Exec(Apply(w, Accept(k)), steps).current == Some(k)
  {
    hide Tail, Greeting;
    StaysCurrent(Apply(w, Accept(k)), k, steps);
  }

  lemma {:induction false} StaysCurrent(w: World, k: SocketId, steps: seq<Step>)
    requires w.current == Some(k) && Legal(w, steps)
    requires forall s :: s in steps ==> !s.Accept? && !s.TakeOver? && !s.Replace? && !(s.Produce? && s.drops)
    ensures Exec(w, steps).current == Some(k)
    decreases |steps|
  {
    if steps != [] {
      assert steps[0] in steps && forall s :: s in steps[1..] ==> s in steps;
      hide Tail, OnAttached, OnBytes;
      StaysCurrent(Apply(w, steps[0]), k, steps[1..]);
    }
  }

  /** And no other is: one superseded, dropped or replaced is sent nothing more,
      ever; only what was on its way still comes. */
  lemma {:induction false} NeverAgainCurrent(w: World, k: SocketId, steps: seq<Step>) returns (n: nat)
    requires k in w.links && w.current != Some(k) && Legal(w, steps)
    ensures k in Exec(w, steps).links && n <= |w.links[k].frames|
    ensures Exec(w, steps).links[k].frames == w.links[k].frames[n..]
    decreases |steps|
  {
    n := 0;
    if steps != [] {
      hide Tail, OnAttached, OnBytes, Greeting;
      var m := Apply(w, steps[0]);
      var d := if steps[0] == Deliver(k) then 1 else 0;
      assert k in m.links && m.current != Some(k) && m.links[k].frames == w.links[k].frames[d..];
      hide Apply, Enabled;
      var rest := NeverAgainCurrent(m, k, steps[1..]);
      n := d + rest;
    }
  }

  /** A drop, another viewer and the child's end all let the attachment go. */
  lemma LetsGo(w: World, step: Step)
    requires Enabled(w, step) && (step.TakeOver? || step.Replace? || (step.Produce? && step.drops))
    ensures Apply(w, step).current.None?
  {
    hide Tail;
  }

  /** A pane that has let its stream go, with no reopening under way, never has a
      socket again. */
  lemma {:induction false} StoppedForGood(w: World, steps: seq<Step>)
    requires w.pane.socket.None? && !w.pane.timer && (w.pane.reconnected || w.pane.disposed) && Legal(w, steps)
    ensures var e := Exec(w, steps);
            && e.pane.socket.None? && e.opens == w.opens && e.pane.written == w.pane.written
    decreases |steps|
  {
    if steps != [] {
      hide Unseen, Tail;
      StoppedForGood(Apply(w, steps[0]), steps[1..]);
    }
  }

  /** However its sockets close, a pane opens at most two: one reconnection. */
  lemma {:induction false} ReconnectsOnce(w: World, steps: seq<Step>)
    requires w.opens + (if w.pane.timer then 1 else 0) <= (if w.pane.reconnected then 2 else 1)
    requires Legal(w, steps)
    ensures Exec(w, steps).opens <= 2
    decreases |steps|
  {
    if steps != [] {
      hide Unseen, Tail;
      ReconnectsOnce(Apply(w, steps[0]), steps[1..]);
    }
  }
}
