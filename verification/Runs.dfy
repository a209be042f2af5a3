/**
 * Runs of one client under libevent: every sequence of environment events, each followed by the
 * callback that libevent invokes for it. The wires record what crossed the two sockets.
 */
module Runs {
  import opened Bytes
  import opened Socks5
  import opened Connection

  /** All bytes ever read from, and ever written to, one socket. */
  datatype Wire = Wire(read: seq<byte>, written: seq<byte>)

  /** replyBuffered is the number of reply bytes that were buffered when the pump was started. */
  datatype World = World(conn: Conn, client: Wire, relay: Wire, replyBuffered: nat) {
    function At(side: Side): Wire {
      if side.ClientSide? then client else relay
    }

    function WithWire(side: Side, wire: Wire): World {
      if side.ClientSide? then this.(client := wire) else this.(relay := wire)
    }
  }

  datatype Event =
    | Readable(side: Side, data: seq<byte>)
    | Writable(side: Side, n: nat)
    | WriteCallback(side: Side)
    | BevEvent(side: Side, flags: Flags)
    | TimerFires

  /**
   * The libevent contract. Reads happen only on an enabled side, writes take a prefix of the output,
   * write callbacks exist only while pumping (and may run spuriously), the client side has no event
   * callback before the pump, and the timer fires only when pending.
   */
  predicate Enabled(w: World, e: Event) {
    && w.conn.Alive()
    && match e
       case Readable(side, data) => data != [] && w.conn.From(side).readOn
       case Writable(side, n) => 0 < n <= |w.conn.To(side).output| && w.conn.To(side).writeOn
       case WriteCallback(_) => w.conn.hook == OnPump
       case BevEvent(side, _) => side == RelaySide || w.conn.hook == OnPump
       case TimerFires => w.conn.timer
  }

  function ReadCallback(c: Conn, side: Side): Conn {
    match c.hook
    case OnConnect => c
    case OnMethodReply => if side.RelaySide? then MethodReply(c) else c
    case OnConnectReply => if side.RelaySide? then ConnectReply(c) else c
    case OnPump => PumpRead(c, side)
  }

  function EventCallback(c: Conn, side: Side, ev: Flags): Conn {
    match c.hook
    case OnConnect => RelayConnectEvent(c, ev)
    case OnMethodReply => HandshakeEvent(c, ev)
    case OnConnectReply => HandshakeEvent(c, ev)
    case OnPump => PumpEvent(c, side, ev)
  }

  /** Bytes arrive in the input; the read callback runs once the low watermark is reached. */
  function ReadStep(w: World, side: Side, data: seq<byte>): World {
    var f := w.conn.From(side);
    var c := w.conn.WithFrom(side, f.(input := f.input + data));
    var w := w.WithWire(side, w.At(side).(read := w.At(side).read + data));
    if |c.From(side).input| < f.low then w.(conn := c)
    else if c.hook == OnConnectReply && side.RelaySide? then
      w.(conn := ConnectReply(c), replyBuffered := |c.inbound.input|)
    else w.(conn := ReadCallback(c, side))
  }

  /** A prefix of the output reaches the socket; an emptied output runs the write callback. */
  function WriteStep(w: World, side: Side, n: nat): World
    requires n <= |w.conn.To(side).output|
  {
    var f := w.conn.To(side);
    var c := w.conn.WithTo(side, f.(output := f.output[n..]));
    var w := w.WithWire(side, w.At(side).(written := w.At(side).written + f.output[..n]));
    w.(conn := if c.To(side).output == [] && c.hook == OnPump then PumpWritten(c, side) else c)
  }

  function Step(w: World, e: Event): World {
    if !Enabled(w, e) then w
    else
      match e
      case Readable(side, data) => ReadStep(w, side, data)
      case Writable(side, n) => WriteStep(w, side, n)
      case WriteCallback(side) => w.(conn := PumpWritten(w.conn, side))
      case BevEvent(side, ev) => w.(conn := EventCallback(w.conn, side, ev))
      case TimerFires => w.(conn := TimedOut(w.conn))
  }

  function Run(w: World, es: seq<Event>): World
    decreases |es|
  {
    if es == [] then w else Step(Run(w, es[..|es| - 1]), es[|es| - 1])
  }

  lemma RunSnoc(w: World, es: seq<Event>, e: Event)
    ensures Run(w, es + [e]) == Step(Run(w, es), e)
  {
    assert (es + [e])[..|es|] == es;
  }

  lemma {:induction false} RunConcat(w: World, es: seq<Event>, fs: seq<Event>)
    ensures Run(w, es + fs) == Run(Run(w, es), fs)
    decreases |fs|
  {
    if fs == [] {
      assert es + fs == es;
    } else {
      RunConcat(w, es, fs[..|fs| - 1]);
      assert (es + fs)[..|es + fs| - 1] == es + fs[..|fs| - 1];
    }
  }

  /** Destroying is left again before the callback returns. */
  lemma StepNeverStaysDestroying(w: World, e: Event)
    requires w.conn.state != Destroying
    ensures Step(w, e).conn.state != Destroying
  {
  }

  /** No timer is pending, and neither side is read or written. */
  predicate SwitchedOff(c: Conn) {
    && !c.timer
    && !c.outbound.readOn && !c.outbound.writeOn
    && !c.inbound.readOn && !c.inbound.writeOn
  }

  lemma ReadSwitchesOff(w: World, side: Side, data: seq<byte>)
    requires w.conn.Alive() && !ReadStep(w, side, data).conn.Alive()
    ensures SwitchedOff(ReadStep(w, side, data).conn)
  {
  }

  lemma EventSwitchesOff(c: Conn, side: Side, ev: Flags)
    requires c.Alive() && !EventCallback(c, side, ev).Alive()
    ensures SwitchedOff(EventCallback(c, side, ev))
  {
  }

  lemma StepSwitchesOff(w: World, e: Event)
    requires w.conn.Alive() && !Step(w, e).conn.Alive()
    ensures SwitchedOff(Step(w, e).conn)
  {
    match e {
      case Readable(side, data) => ReadSwitchesOff(w, side, data);
      case BevEvent(side, ev) => EventSwitchesOff(w.conn, side, ev);
      case _ =>
    }
  }

  function Start(dest: Destination): World {
    World(Started(dest), Wire([], []), Wire([], []), 0)
  }

  // ---------------------------------------------------------------------------
  // The invariant

  /** The client's own words to the relay so far. */
  function Spoken(c: Conn): seq<byte> {
    match c.hook
    case OnConnect => []
    case OnMethodReply => METHOD_REQUEST
    case _ => if c.dest.OtherFamily? then METHOD_REQUEST else Preamble(c.dest)
  }

  /** Relay bytes that reached the client or still travel towards it. */
  function Forwarded(w: World): seq<byte> {
    w.client.written + w.conn.inbound.output + w.conn.inbound.input
  }

  /** The number of relay bytes that the handshake removed, while the pump runs. */
  function Removed(w: World): nat
    requires |w.relay.read| >= 6
  {
    2 + Min(ReplyLength(w.relay.read[2..]), w.replyBuffered)
  }

  predicate OutboundConserved(w: World) {
    w.relay.written + w.conn.outbound.output + w.conn.outbound.input == Spoken(w.conn) + w.client.read
  }

  predicate InboundConserved(w: World) {
    if w.conn.hook == OnPump then PumpStreams(w)
    else w.client.read == [] && w.client.written == [] && w.conn.inbound.output == []
  }

  predicate Conserved(w: World) {
    OutboundConserved(w) && InboundConserved(w)
  }

  /** A complete acceptance was read, and all after the removed bytes is forwarded. */
  predicate Stripped(read: seq<byte>, buffered: nat, forwarded: seq<byte>) {
    && |read| >= 2 + buffered >= 12
    && read[..2] == METHOD_ACCEPTED
    && SuccessReply(read[2..])
    && read[2 + Min(ReplyLength(read[2..]), buffered)..] == forwarded
  }

  predicate PumpStreams(w: World) {
    Stripped(w.relay.read, w.replyBuffered, Forwarded(w))
  }

  /** Live handshake stages: what has been read is still buffered, below the watermark. */
  predicate Waiting(w: World) {
    var c := w.conn;
    && !c.outbound.readOn && c.outbound.writeOn && c.inbound.writeOn
    && !c.outbound.sourceEof && !c.outbound.targetShut && !c.inbound.sourceEof && !c.inbound.targetShut
    && match c.hook
       case OnConnect => c.state == New && w.relay.read == c.inbound.input == [] && !c.inbound.readOn
       case OnMethodReply =>
         && c.state == RelayConnected && c.inbound.readOn
         && w.relay.read == c.inbound.input && |c.inbound.input| < 2 == c.inbound.low
       case _ =>
         && c.state == RelayConnected && c.inbound.readOn
         && w.relay.read == METHOD_ACCEPTED + c.inbound.input && |c.inbound.input| < 10 == c.inbound.low
  }

  /** One direction of a live pump, between callbacks. */
  predicate FlowInv(f: Flow) {
    && f.low == 0
    && (f.sourceEof <==> !f.readOn)
    && (f.Drained() ==> f.targetShut)
    && (f.targetShut || f.writeOn)
    && (f.targetShut && f.writeOn ==> f.Drained())
  }

  /** No relay byte has been read since the pump took over. */
  predicate RelayQuiet(w: World) {
    |w.relay.read| == 2 + w.replyBuffered
  }

  predicate Pumping(w: World) {
    var c := w.conn;
    && c.state == PumpingData
    && FlowInv(c.outbound) && FlowInv(c.inbound)
    && !(c.outbound.Closed() && c.inbound.Closed())
  }

  /** Only relay bytes that came with the connect reply can sit in an input buffer between steps. */
  predicate Settled(w: World) {
    && w.conn.outbound.input == []
    && (w.conn.hook == OnPump ==>
          && !w.conn.timer
          && if RelayQuiet(w) then w.client.written == w.conn.inbound.output == [] else w.conn.inbound.input == [])
    && (w.conn.hook == OnPump || w.conn.hook == OnConnectReply ==> !w.conn.dest.OtherFamily?)
  }

  predicate Inv(w: World) {
    && Conserved(w)
    && Settled(w)
    && (w.conn.Alive() ==> if w.conn.hook == OnPump then Pumping(w) else Waiting(w))
  }

  // ---------------------------------------------------------------------------
  // Handshake steps

  lemma MethodReadKeepsInv(w: World, data: seq<byte>)
    requires Inv(w) && Enabled(w, Readable(RelaySide, data)) && w.conn.hook == OnMethodReply
    ensures Inv(ReadStep(w, RelaySide, data))
  {
    var w' := ReadStep(w, RelaySide, data);
    var input := w.conn.inbound.input + data;
    assert w'.relay.read == input;
    if w'.conn.hook == OnConnectReply {
      assert input == METHOD_ACCEPTED;
      assert METHOD_REQUEST == w.relay.written + w.conn.outbound.output + w.conn.outbound.input
                            == w.relay.written + w.conn.outbound.output;
      assert w'.relay.written + w'.conn.outbound.output == Preamble(w.conn.dest);
    }
  }

  lemma OutboundFrame(w: World, w': World)
    requires OutboundConserved(w) && Spoken(w'.conn) == Spoken(w.conn)
    requires w'.relay.written == w.relay.written && w'.client.read == w.client.read
    requires w'.conn.outbound.output == w.conn.outbound.output && w'.conn.outbound.input == w.conn.outbound.input
    ensures OutboundConserved(w')
  {
  }

  /** What a success reply makes of a waiting client. */
  lemma ConnectReplyStarts(c: Conn)
    requires SuccessReply(c.inbound.input) && c.hook == OnConnectReply
    requires !c.outbound.sourceEof && !c.outbound.targetShut && !c.inbound.sourceEof && !c.inbound.targetShut
    ensures var d := ConnectReply(c);
            && d.state == PumpingData && d.hook == OnPump && !d.timer && d.dest == c.dest
            && FlowInv(d.outbound) && FlowInv(d.inbound) && !d.outbound.sourceEof
            && d.outbound.input == c.outbound.input && d.outbound.output == c.outbound.output
            && d.inbound.input == Drain(c.inbound.input, ReplyLength(c.inbound.input))
            && d.inbound.output == c.inbound.output
  {
  }

  lemma Associate(a: seq<byte>, b: seq<byte>, c: seq<byte>)
    ensures a + b + c == a + (b + c)
  {
  }

  lemma ReplyAccepted(w: World, data: seq<byte>)
    requires Inv(w) && Enabled(w, Readable(RelaySide, data)) && w.conn.hook == OnConnectReply
    requires SuccessReply(w.conn.inbound.input + data)
    ensures Inv(ReadStep(w, RelaySide, data))
  {
    var input := w.conn.inbound.input + data;
    var c := w.conn.(inbound := w.conn.inbound.(input := input));
    Associate(METHOD_ACCEPTED, w.conn.inbound.input, data);
    var w' := World(ConnectReply(c), w.client, w.relay.(read := METHOD_ACCEPTED + input), |input|);
    assert ReadStep(w, RelaySide, data) == w';
    StartsPumping(w, w', c);
  }

  lemma StartsPumping(w: World, w': World, c: Conn)
    requires Inv(w) && w.conn.Alive() && w.conn.hook == OnConnectReply
    requires c == w.conn.(inbound := w.conn.inbound.(input := c.inbound.input)) && SuccessReply(c.inbound.input)
    requires w'.conn == ConnectReply(c) && w'.client == w.client && w'.replyBuffered == |c.inbound.input|
    requires w'.relay == w.relay.(read := METHOD_ACCEPTED + c.inbound.input)
    ensures Inv(w')
  {
    ConnectReplyStarts(c);
    OutboundFrame(w, w');
    assert Forwarded(w') == w'.conn.inbound.input;
    TakeOver(c.inbound.input);
  }

  lemma ReplyReadKeepsInv(w: World, data: seq<byte>)
    requires Inv(w) && Enabled(w, Readable(RelaySide, data)) && w.conn.hook == OnConnectReply
    ensures Inv(ReadStep(w, RelaySide, data))
  {
    var w' := ReadStep(w, RelaySide, data);
    var input := w.conn.inbound.input + data;
    if SuccessReply(input) {
      ReplyAccepted(w, data);
    } else {
      assert w'.relay.read == METHOD_ACCEPTED + input;
      OutboundFrame(w, w');
    }
  }

  /** The pump starts with exactly the bytes behind the drained reply. */
  lemma TakeOver(input: seq<byte>)
    requires SuccessReply(input)
    ensures Stripped(METHOD_ACCEPTED + input, |input|, Drain(input, ReplyLength(input)))
  {
    var read := METHOD_ACCEPTED + input;
    assert read[2..] == input && read[..2] == METHOD_ACCEPTED;
    var k := Min(ReplyLength(input), |input|);
    assert read[2 + k..] == input[k..];
  }

  // ---------------------------------------------------------------------------
  // Pump steps: byte conservation and the flow invariant are kept separately

  /** Callbacks other than the read callbacks leave the four buffers alone. */
  predicate SameBytes(c: Conn, d: Conn) {
    && c.hook == d.hook && c.dest == d.dest
    && c.outbound.input == d.outbound.input && c.outbound.output == d.outbound.output
    && c.inbound.input == d.inbound.input && c.inbound.output == d.inbound.output
  }

  lemma ConservedFrame(w: World, c: Conn)
    requires Conserved(w) && SameBytes(w.conn, c)
    ensures Conserved(w.(conn := c))
  {
  }

  /** Bytes read join the end of the stream and are moved to the output. */
  lemma AppendMoved(a: seq<byte>, out: seq<byte>, input: seq<byte>, said: seq<byte>, read: seq<byte>, data: seq<byte>)
    requires a + out + input == said + read
    ensures a + (out + (input + data)) + [] == said + (read + data)
  {
    assert a + (out + (input + data)) + [] == (a + out + input) + data;
  }

  lemma ClientReadConserves(w: World, data: seq<byte>)
    requires Conserved(w) && w.conn.hook == OnPump && w.conn.outbound.low == 0
    ensures Conserved(ReadStep(w, ClientSide, data))
  {
    var w' := ReadStep(w, ClientSide, data);
    AppendMoved(w.relay.written, w.conn.outbound.output, w.conn.outbound.input, Spoken(w.conn), w.client.read, data);
    assert OutboundConserved(w');
    assert InboundConserved(w');
  }

  /** More relay bytes are more forwarded bytes. */
  lemma StrippedGrows(read: seq<byte>, buffered: nat, forwarded: seq<byte>, data: seq<byte>)
    requires Stripped(read, buffered, forwarded)
    ensures Stripped(read + data, buffered, forwarded + data)
  {
    assert (read + data)[2..] == read[2..] + data;
    assert (read + data)[..2] == read[..2];
    var k := 2 + Min(ReplyLength(read[2..]), buffered);
    assert (read + data)[k..] == read[k..] + data;
  }

  lemma Grow(sent: seq<byte>, out: seq<byte>, input: seq<byte>, data: seq<byte>)
    ensures sent + (out + (input + data)) + [] == (sent + out + input) + data
  {
  }

  lemma RelayReadConserves(w: World, data: seq<byte>)
    requires Conserved(w) && w.conn.hook == OnPump && w.conn.inbound.low == 0
    ensures Conserved(ReadStep(w, RelaySide, data))
  {
    OutboundFrame(w, ReadStep(w, RelaySide, data));
    StrippedGrows(w.relay.read, w.replyBuffered, Forwarded(w), data);
    Grow(w.client.written, w.conn.inbound.output, w.conn.inbound.input, data);
  }

  /** Bytes written move from the output to the wire. */
  lemma Regroup(a: seq<byte>, out: seq<byte>, b: seq<byte>, n: nat)
    requires n <= |out|
    ensures (a + out[..n]) + out[n..] + b == a + out + b
  {
    assert out == out[..n] + out[n..];
  }

  /** The write itself, before any callback. */
  function Written(w: World, side: Side, n: nat): World
    requires n <= |w.conn.To(side).output|
  {
    var f := w.conn.To(side);
    w.WithWire(side, w.At(side).(written := w.At(side).written + f.output[..n]))
     .(conn := w.conn.WithTo(side, f.(output := f.output[n..])))
  }

  lemma WrittenConserves(w: World, side: Side, n: nat)
    requires Conserved(w) && n <= |w.conn.To(side).output|
    requires side.ClientSide? ==> w.conn.hook == OnPump
    ensures Conserved(Written(w, side, n))
  {
    var f, w' := w.conn.To(side), Written(w, side, n);
    Regroup(w.At(side).written, f.output, f.input, n);
    if side.ClientSide? {
      OutboundFrame(w, w');
      assert Forwarded(w') == Forwarded(w);
    } else {
      assert InboundConserved(w');
    }
  }

  lemma PumpReadKeepsInv(w: World, side: Side, data: seq<byte>)
    requires Inv(w) && Enabled(w, Readable(side, data)) && w.conn.hook == OnPump
    ensures Inv(ReadStep(w, side, data))
  {
    if side.ClientSide? {
      ClientReadConserves(w, data);
    } else {
      RelayReadConserves(w, data);
    }
    var w' := ReadStep(w, side, data);
    assert FlowInv(w'.conn.outbound) && FlowInv(w'.conn.inbound);
    assert side.RelaySide? ==> !RelayQuiet(w');
  }

  lemma PumpCallbackKeepsInv(w: World, c: Conn)
    requires Conserved(w) && SameBytes(w.conn, c) && Settled(w)
    requires w.conn.hook == OnPump && c.timer == w.conn.timer
    requires c.state == PumpingData && FlowInv(c.outbound) && FlowInv(c.inbound)
    ensures Inv(w.(conn := CheckClose(c)))
  {
    ConservedFrame(w, CheckClose(c));
  }

  lemma WriteKeepsInv(w: World, side: Side, n: nat)
    requires Inv(w) && Enabled(w, Writable(side, n))
    ensures Inv(WriteStep(w, side, n))
  {
    WrittenConserves(w, side, n);
    if w.conn.hook == OnPump {
      PumpWriteKeepsInv(w, side, n);
    }
  }

  lemma PumpWriteKeepsInv(w: World, side: Side, n: nat)
    requires Inv(w) && Enabled(w, Writable(side, n)) && w.conn.hook == OnPump && Conserved(Written(w, side, n))
    ensures Inv(WriteStep(w, side, n))
  {
    var mid := Written(w, side, n);
    assert Settled(mid);
    if mid.conn.To(side).output == [] {
      PumpCallbackKeepsInv(mid, mid.conn.WithTo(side, mid.conn.To(side).HalfCloseIfDrained()));
    }
  }

  lemma PumpEventKeepsInv(w: World, side: Side, ev: Flags)
    requires Inv(w) && w.conn.Alive() && w.conn.hook == OnPump
    ensures Inv(w.(conn := PumpEvent(w.conn, side, ev)))
  {
    var c := w.conn;
    if ev.ReadEof() {
      PumpCallbackKeepsInv(w, c.WithFrom(side, c.From(side).EndSource()));
    } else if ev.WriteEof() {
      PumpCallbackKeepsInv(w, c.WithTo(side, c.To(side).EndTarget()));
    } else if ev.error {
      ConservedFrame(w, c.Freed());
    }
  }

  lemma StepKeepsInv(w: World, e: Event)
    requires Inv(w)
    ensures Inv(Step(w, e))
  {
    if Enabled(w, e) {
      match e {
        case Readable(side, data) =>
          match w.conn.hook {
            case OnConnect =>
            case OnMethodReply => MethodReadKeepsInv(w, data);
            case OnConnectReply => ReplyReadKeepsInv(w, data);
            case OnPump => PumpReadKeepsInv(w, side, data);
          }
        case Writable(side, n) => WriteKeepsInv(w, side, n);
        case WriteCallback(side) => PumpCallbackKeepsInv(w, w.conn.WithTo(side, w.conn.To(side).HalfCloseIfDrained()));
        case BevEvent(side, ev) => EventKeepsInv(w, side, ev);
        case TimerFires => ConservedFrame(w, w.conn.Freed());
      }
    }
  }

  lemma EventKeepsInv(w: World, side: Side, ev: Flags)
    requires Inv(w) && Enabled(w, BevEvent(side, ev))
    ensures Inv(w.(conn := EventCallback(w.conn, side, ev)))
  {
    match w.conn.hook {
      case OnConnect =>
      case OnMethodReply => ConservedFrame(w, HandshakeEvent(w.conn, ev));
      case OnConnectReply => ConservedFrame(w, HandshakeEvent(w.conn, ev));
      case OnPump => PumpEventKeepsInv(w, side, ev);
    }
  }

  /** Every reachable state satisfies the invariant. */
  lemma {:induction false} Reachable(dest: Destination, es: seq<Event>)
    ensures Inv(Run(Start(dest), es))
  {
    if es == [] {
    } else {
      Reachable(dest, es[..|es| - 1]);
      StepKeepsInv(Run(Start(dest), es[..|es| - 1]), es[|es| - 1]);
    }
  }
}
