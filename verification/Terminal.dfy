/** The terminal viewer of one desk: the handlers that keep a pane on one
    underlying byte stream. `Pane` and `Connection` and the functions on them
    are the specification; classes `Viewer` and `Socket` are the objects the
    page mutates. Only the stream's own bytes count as written: the lines a
    handler adds about itself are not part of the stream.
 */
module Terminal {
  import opened Options

  type Byte = b: int | 0 <= b < 256
  type SocketId = nat
  type TerminalId = nat

  /** The parser queue's bound, in bytes. */
  const PARSER_LIMIT := 1024 * 1024

  /** One write the parser has not finished: its length, the socket it came
      from, and whether finishing it completes a replay. */
  datatype Write = Write(length: nat, socket: SocketId, completing: bool)

  datatype Pane = Pane(
    socket: Option<SocketId>, reconnected: bool, disposed: bool, ready: bool,
    terminal: Option<TerminalId>, offset: nat, bytes: nat, pending: nat, timer: bool,
    written: seq<Byte>, queue: seq<Write>)

  /** What a socket's handlers close over. */
  datatype Connection = Connection(streamOffset: nat, replay: bool)

  datatype Attached = Attached(terminal: TerminalId, offset: nat, replayBytes: nat)

  // ---------------------------------------------------------------------
  // The handlers, as functions
  // ---------------------------------------------------------------------

  /** `stop`: no more of this stream, and no reconnection either. */
  function Stopped(p: Pane): Pane {
    p.(reconnected := true, ready := false, socket := None)
  }

  /** Does a reattachment continue the pane's own stream? */
  predicate Continues(p: Pane, a: Attached) {
    p.terminal.Some? ==>
      p.terminal == Some(a.terminal) && a.offset <= p.offset <= a.offset + a.replayBytes
  }

  function OnAttached(p: Pane, c: Connection, a: Attached): (Pane, Connection) {
    var at := c.(streamOffset := a.offset);
    if !Continues(p, a) then (Stopped(p), at)
    else
      var q := if p.terminal.None? then p.(terminal := Some(a.terminal), offset := a.offset) else p;
      (if a.replayBytes > 0 then q else q.(ready := true), at.(replay := a.replayBytes > 0))
  }

  /** What of an incoming frame the pane has not written yet. */
  function Unseen(p: Pane, c: Connection, incoming: seq<Byte>): seq<Byte> {
    var skip := if p.offset > c.streamOffset then p.offset - c.streamOffset else 0;
    if skip >= |incoming| then [] else incoming[skip..]
  }

  function OnBytes(p: Pane, c: Connection, socket: SocketId, incoming: seq<Byte>): (Pane, Connection) {
    var bytes := Unseen(p, c, incoming);
    var past := c.(streamOffset := c.streamOffset + |incoming|);
    if p.pending + |bytes| > PARSER_LIMIT then (Stopped(p), past)
    else
      (p.(offset := p.offset + |bytes|, bytes := p.bytes + |bytes|, pending := p.pending + |bytes|,
          written := p.written + bytes, queue := p.queue + [Write(|bytes|, socket, c.replay)]),
       past.(replay := false))
  }

  /** The parser finishes the oldest write. */
  function OnParsed(p: Pane): Pane
    requires p.queue != [] && p.pending >= p.queue[0].length
  {
    var w := p.queue[0];
    var q := p.(pending := p.pending - w.length, queue := p.queue[1..]);
    if !p.disposed && p.socket == Some(w.socket) && w.completing then q.(ready := true) else q
  }

  /** Codes a close is final on: the daemon refused the attachment, the child
      exited, or a newer attachment took over. */
  function OnClose(p: Pane, socket: SocketId, code: nat): Pane {
    if p.socket != Some(socket) then p
    else
      var q := p.(socket := None, ready := false);
      if q.disposed then q
      else if code == 4404 || code == 4409 then q.(disposed := true)
      else if q.reconnected || code == 1000 || code == 4001 then q
      else q.(reconnected := true, timer := true)
  }

  /** `openSocket`. */
  function Opened(p: Pane, socket: SocketId): Pane {
    p.(socket := Some(socket), ready := false)
  }

  /** The reconnection timer fires. */
  function OnTimer(p: Pane, socket: SocketId): Pane {
    var q := p.(timer := false);
    if q.disposed then q else Opened(q, socket)
  }

  function Disposed(p: Pane): Pane {
    p.(disposed := true)
  }

  // ---------------------------------------------------------------------
  // The objects
  // ---------------------------------------------------------------------

  class Socket {
    const id: SocketId
    var streamOffset: nat
    var replay: bool

    ghost function View(): Connection
      reads this
    {
      Connection(streamOffset, replay)
    }

    constructor (id: SocketId)
      ensures this.id == id && View() == Connection(0, false)
    {
      this.id, streamOffset, replay := id, 0, false;
    }
  }

  class Viewer {
    var socket: Socket?
    var reconnected: bool
    var disposed: bool
    var ready: bool
    var terminal: Option<TerminalId>
    var offset: nat
    var bytes: nat
    var pending: nat
    var timer: bool
    var written: seq<Byte>
    var queue: seq<Write>

    ghost function View(): Pane
      reads this
    {
      Pane(if socket == null then None else Some(socket.id), reconnected, disposed, ready,
           terminal, offset, bytes, pending, timer, written, queue)
    }

    /** `ensure`: a new pane opens its first socket. */
    constructor (first: Socket)
      ensures View() == Opened(FRESH, first.id)
    {
      socket, reconnected, disposed, ready := first, false, false, false;
      terminal, offset, bytes, pending, timer := None, 0, 0, 0, false;
      written, queue := [], [];
    }

    method Stop()
      modifies this
      ensures View() == Stopped(old(View()))
    {
      reconnected := true;
      ready := false;
      socket := null;
    }

    /** A message is ignored unless its socket is the pane's own. */
    method Attach(from: Socket, a: Attached)
      modifies this, from
      ensures if old(disposed) || old(socket) != from then
                View() == old(View()) && from.View() == old(from.View())
              else
                (View(), from.View()) == OnAttached(old(View()), old(from.View()), a)
    {
      if disposed || socket != from {
        return;
      }
      from.streamOffset := a.offset;
      if terminal.Some?
         && (terminal != Some(a.terminal) || a.offset > offset || a.offset + a.replayBytes < offset)
      {
        Stop();
        return;
      }
      if terminal.None? {
        terminal := Some(a.terminal);
        offset := a.offset;
      }
      from.replay := a.replayBytes > 0;
      if !from.replay {
        ready := true;
      }
    }

    method Receive(from: Socket, incoming: seq<Byte>)
      modifies this, from
      ensures if old(disposed) || old(socket) != from then
                View() == old(View()) && from.View() == old(from.View())
              else
                (View(), from.View()) == OnBytes(old(View()), old(from.View()), from.id, incoming)
    {
      if disposed || socket != from {
        return;
      }
      var skip := if offset > from.streamOffset then offset - from.streamOffset else 0;
      from.streamOffset := from.streamOffset + |incoming|;
      var unseen := if skip >= |incoming| then [] else incoming[skip..];
      if pending + |unseen| > PARSER_LIMIT {
        Stop();
        return;
      }
      offset := offset + |unseen|;
      bytes := bytes + |unseen|;
      pending := pending + |unseen|;
      var completing := from.replay;
      from.replay := false;
      written := written + unseen;
      queue := queue + [Write(|unseen|, from.id, completing)];
    }

    method Parsed()
      requires queue != [] && pending >= queue[0].length
      modifies this
      ensures View() == OnParsed(old(View()))
    {
      var w := queue[0];
      pending := pending - w.length;
      queue := queue[1..];
      if disposed || socket == null || socket.id != w.socket {
        return;
      }
      if w.completing {
        ready := true;
      }
    }

    method Closed(from: Socket, code: nat)
      requires socket != null && socket.id == from.id ==> socket == from
      modifies this
      ensures View() == OnClose(old(View()), from.id, code)
    {
      if socket != from {
        return;
      }
      socket := null;
      ready := false;
      if disposed {
        return;
      }
      if code == 4404 || code == 4409 {
        disposed := true;
        return;
      }
      if reconnected || code == 1000 || code == 4001 {
        return;
      }
      reconnected := true;
      timer := true;
    }

    method Timer(next: Socket)
      modifies this
      ensures View() == OnTimer(old(View()), next.id)
    {
      timer := false;
      if !disposed {
        socket := next;
        ready := false;
      }
    }
  }

  const FRESH := Pane(None, false, false, false, None, 0, 0, 0, false, [], [])
}
