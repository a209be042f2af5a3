/** What every run of one client keeps, for the handshake followed by the bufferpump. */
module BufferpumpTheorems {
  import opened Bytes
  import opened Socks5
  import opened Connection
  import opened Runs
  import Fifo

  lemma ReadKeepsDestination(w: World, side: Side, data: seq<byte>)
    ensures ReadStep(w, side, data).conn.dest == w.conn.dest
  {
  }

  lemma EventKeepsDestination(c: Conn, side: Side, ev: Flags)
    ensures EventCallback(c, side, ev).dest == c.dest
  {
  }

  lemma StepKeepsDestination(w: World, e: Event)
    ensures Step(w, e).conn.dest == w.conn.dest
  {
    if Enabled(w, e) {
      match e {
        case Readable(side, data) => ReadKeepsDestination(w, side, data);
        case BevEvent(side, ev) => EventKeepsDestination(w.conn, side, ev);
        case _ =>
      }
    }
  }

  lemma {:induction false} DestinationFixed(w: World, es: seq<Event>)
    ensures Run(w, es).conn.dest == w.conn.dest
  {
    if es == [] {
    } else {
      DestinationFixed(w, es[..|es| - 1]);
      StepKeepsDestination(Run(w, es[..|es| - 1]), es[|es| - 1]);
    }
  }

  // ---------------------------------------------------------------------------
  // Whole-connection fidelity

  /**
   * From the connect request on, a server reading the bytes that were sent, are queued or wait in
   * the client input recovers the destination and exactly the bytes read from the client, in order.
   */
  lemma RelayStreamFidelity(dest: Destination, es: seq<Event>)
    ensures var w := Run(Start(dest), es);
            var s := w.relay.written + w.conn.outbound.output + w.conn.outbound.input;
            && s == Spoken(w.conn) + w.client.read
            && (w.conn.hook == OnConnectReply || w.conn.hook == OnPump ==>
                  && !dest.OtherFamily?
                  && ServerView(s) == Parsed(Session([0], Meaning(dest)), w.client.read))
  {
    var w := Run(Start(dest), es);
    Reachable(dest, es);
    DestinationFixed(Start(dest), es);
    if w.conn.hook == OnConnectReply || w.conn.hook == OnPump {
      ServerRecoversPreamble(dest, w.client.read);
    }
  }

  /** The relay's stream without the method reply and the connect reply. */
  function RelayPayload(w: World): seq<byte>
    requires |w.relay.read| >= 6
  {
    Drain(w.relay.read, 2 + ReplyLength(w.relay.read[2..]))
  }

  /** Did the connect-reply callback see the reply in full? */
  predicate ReplyWasComplete(w: World)
    requires |w.relay.read| >= 6
  {
    w.replyBuffered >= ReplyLength(w.relay.read[2..])
  }

  /**
   * While pumping, sent and queued client bytes are the relay's payload if and only if the reply was
   * complete when its callback ran, or nothing has been read since. An IPv4 reply is always complete.
   */
  lemma ClientStreamFidelity(dest: Destination, es: seq<Event>)
    requires Run(Start(dest), es).conn.hook == OnPump
    ensures var w := Run(Start(dest), es);
            && PumpStreams(w)
            && (Forwarded(w) == RelayPayload(w) <==> ReplyWasComplete(w) || RelayQuiet(w))
            && (w.relay.read[5] == ATYP_IPV4 ==> ReplyWasComplete(w))
  {
    Reachable(dest, es);
    var w := Run(Start(dest), es);
    var header := 2 + ReplyLength(w.relay.read[2..]);
    assert w.relay.read[2..][3] == w.relay.read[5];
    if ReplyWasComplete(w) {
      assert Removed(w) == header;
    } else if RelayQuiet(w) {
      assert Forwarded(w) == [] == RelayPayload(w);
    } else {
      assert |Forwarded(w)| == |w.relay.read| - 2 - w.replyBuffered;
      assert |RelayPayload(w)| < |Forwarded(w)|;
    }
  }

  // ---------------------------------------------------------------------------
  // Half-close soundness

  /** Whenever the relay is half-closed because the flow drained, it got every client byte. */
  lemma RelayHalfCloseSound(dest: Destination, es: seq<Event>)
    ensures var w := Run(Start(dest), es);
            w.conn.hook == OnPump && w.conn.outbound.Drained() ==>
              !dest.OtherFamily? && w.relay.written == Preamble(dest) + w.client.read
  {
    Reachable(dest, es);
    DestinationFixed(Start(dest), es);
    var w := Run(Start(dest), es);
    if w.conn.hook == OnPump && w.conn.outbound.Drained() {
      assert w.relay.written == w.relay.written + w.conn.outbound.output + w.conn.outbound.input;
    }
  }

  /** Payload bytes that arrived together with the connect reply and were never moved. */
  predicate ResidueStranded(w: World)
    requires |w.relay.read| >= 6
  {
    RelayQuiet(w) && w.replyBuffered > ReplyLength(w.relay.read[2..])
  }

  /**
   * Whenever the client is half-closed because the flow drained, it got every relay byte behind the
   * handshake if and only if no residue of the handshake is stranded in the relay input.
   */
  lemma ClientHalfCloseExact(dest: Destination, es: seq<Event>)
    ensures var w := Run(Start(dest), es);
            w.conn.hook == OnPump && w.conn.inbound.Drained() ==>
              && PumpStreams(w)
              && (w.client.written == w.relay.read[Removed(w)..] <==> !ResidueStranded(w))
  {
    Reachable(dest, es);
    var w := Run(Start(dest), es);
    if w.conn.hook == OnPump && w.conn.inbound.Drained() {
      assert Forwarded(w) == w.client.written + w.conn.inbound.input;
    }
  }

  /** While pumping, the relay input is empty if and only if no residue of the handshake is stranded in it. */
  lemma InputIsResidue(dest: Destination, es: seq<Event>)
    requires Run(Start(dest), es).conn.hook == OnPump
    ensures var w := Run(Start(dest), es); PumpStreams(w) && (w.conn.inbound.input == [] <==> !ResidueStranded(w))
  {
    Reachable(dest, es);
    var w := Run(Start(dest), es);
    if RelayQuiet(w) {
      assert Forwarded(w) == w.conn.inbound.input;
    }
  }

  predicate NoRelayRead(es: seq<Event>) {
    forall i | 0 <= i < |es| :: !(es[i].Readable? && es[i].side == RelaySide)
  }

  lemma {:induction false} StaysQuiet(w: World, fs: seq<Event>)
    requires w.conn.hook == OnPump && RelayQuiet(w) && NoRelayRead(fs)
    ensures var w' := Run(w, fs);
            w'.conn.hook == OnPump && w'.relay.read == w.relay.read && w'.replyBuffered == w.replyBuffered
    decreases |fs|
  {
    if fs == [] {
    } else {
      StaysQuiet(w, fs[..|fs| - 1]);
      PumpKeepsRunning(Run(w, fs[..|fs| - 1]), fs[|fs| - 1]);
    }
  }

  /**
   * A stranded residue stays, and the client gets nothing, in every continuation without a relay read: a
   * server that speaks first and then waits is never heard if its words came with the connect reply.
   */
  lemma ResidueStalls(dest: Destination, es: seq<Event>, fs: seq<Event>)
    requires var w := Run(Start(dest), es); w.conn.hook == OnPump && RelayQuiet(w)
    requires NoRelayRead(fs)
    ensures var (w, w') := (Run(Start(dest), es), Run(Start(dest), es + fs));
            w'.conn.hook == OnPump && w'.client.written == [] && w'.conn.inbound.input == w.conn.inbound.input
  {
    var (w, w') := (Run(Start(dest), es), Run(Start(dest), es + fs));
    RunConcat(Start(dest), es, fs);
    StaysQuiet(w, fs);
    Reachable(dest, es);
    Reachable(dest, es + fs);
    assert Forwarded(w') == w'.conn.inbound.input && Forwarded(w) == w.conn.inbound.input;
  }

  /** A half-close that no write error caused always comes from the drained branch. */
  lemma ShutOnlyWhenDrained(dest: Destination, es: seq<Event>, side: Side)
    ensures var c := Run(Start(dest), es).conn;
            c.Alive() && c.From(side).targetShut && c.From(side).writeOn ==> c.From(side).Drained()
  {
    Reachable(dest, es);
  }

  // ---------------------------------------------------------------------------
  // No connection gets stuck

  predicate BothEof(c: Conn) {
    c.outbound.sourceEof && c.inbound.sourceEof
  }

  /** A live pump with both sources at end of file can still write somewhere. */
  lemma NeverStuck(dest: Destination, es: seq<Event>)
    ensures var w := Run(Start(dest), es);
            w.conn.Alive() && w.conn.hook == OnPump && BothEof(w.conn) ==>
              exists side :: !w.conn.To(side).targetShut && Enabled(w, Writable(side, |w.conn.To(side).output|))
  {
    Reachable(dest, es);
    var w := Run(Start(dest), es);
    if w.conn.Alive() && w.conn.hook == OnPump && BothEof(w.conn) {
      var side := if w.conn.To(ClientSide).targetShut then RelaySide else ClientSide;
      assert !w.conn.To(side).targetShut && Enabled(w, Writable(side, |w.conn.To(side).output|));
    }
  }

  /** Steps that write, or that learn that a still open target cannot be written any more. */
  predicate Productive(w: World, e: Event) {
    && Enabled(w, e)
    && match e
       case Writable(_, _) => true
       case BevEvent(side, ev) => !ev.ReadEof() && ev.WriteEof() && !w.conn.To(side).targetShut
       case _ => false
  }

  function Pending(f: Flow): nat {
    if f.targetShut then 0 else |f.output| + 1
  }

  function Work(w: World): nat {
    if w.conn.Alive() then Pending(w.conn.outbound) + Pending(w.conn.inbound) else 0
  }

  predicate Draining(w: World) {
    Inv(w) && w.conn.hook == OnPump && BothEof(w.conn)
  }

  /** CheckClose can only remove work. */
  lemma CheckCloseDrains(w: World, c: Conn)
    requires c.state == PumpingData
    ensures var w' := w.(conn := CheckClose(c));
            && Work(w') <= Pending(c.outbound) + Pending(c.inbound)
            && w'.conn.hook == c.hook && BothEof(w'.conn) == BothEof(c)
  {
  }

  lemma WriteDrains(w: World, side: Side, n: nat)
    requires Draining(w) && Enabled(w, Writable(side, n))
    ensures var w' := WriteStep(w, side, n);
            w'.conn.hook == OnPump && BothEof(w'.conn) && Work(w') < Work(w)
  {
    var f := w.conn.To(side);
    var c := w.conn.WithTo(side, f.(output := f.output[n..]));
    assert !f.targetShut;
    if c.To(side).output == [] {
      CheckCloseDrains(w, c.WithTo(side, c.To(side).HalfCloseIfDrained()));
    }
  }

  lemma EventDrains(w: World, side: Side, ev: Flags)
    requires Draining(w) && w.conn.Alive()
    ensures var w' := w.(conn := PumpEvent(w.conn, side, ev));
            && w'.conn.hook == OnPump && BothEof(w'.conn)
            && Work(w') + (if Productive(w, BevEvent(side, ev)) then 1 else 0) <= Work(w)
  {
    var c := w.conn;
    if ev.ReadEof() {
      CheckCloseDrains(w, c.WithFrom(side, c.From(side).EndSource()));
    } else if ev.WriteEof() {
      CheckCloseDrains(w, c.WithTo(side, c.To(side).EndTarget()));
    }
  }

  lemma StepDrains(w: World, e: Event)
    requires Draining(w)
    ensures Draining(Step(w, e))
    ensures Work(Step(w, e)) + (if Productive(w, e) then 1 else 0) <= Work(w)
  {
    StepKeepsInv(w, e);
    if Enabled(w, e) {
      match e {
        case Readable(side, data) => assert false;
        case Writable(side, n) => WriteDrains(w, side, n);
        case WriteCallback(side) => CheckCloseDrains(w, w.conn.WithTo(side, w.conn.To(side).HalfCloseIfDrained()));
        case BevEvent(side, ev) => EventDrains(w, side, ev);
        case TimerFires =>
      }
    }
  }

  function Productives(w: World, es: seq<Event>): nat
    decreases |es|
  {
    if es == [] then 0
    else
      var before := Run(w, es[..|es| - 1]);
      Productives(w, es[..|es| - 1]) + if Productive(before, es[|es| - 1]) then 1 else 0
  }

  /**
   * Once both sources ended, every run spends at most Work productive steps, in any order and mixed
   * with anything else, and the client is freed exactly when they are spent.
   */
  lemma {:induction false} DrainTerminates(w: World, es: seq<Event>)
    requires Draining(w)
    ensures Draining(Run(w, es))
    ensures Productives(w, es) + Work(Run(w, es)) <= Work(w)
    ensures Work(Run(w, es)) == 0 <==> !Run(w, es).conn.Alive()
    decreases |es|
  {
    if es == [] {
    } else {
      DrainTerminates(w, es[..|es| - 1]);
      StepDrains(Run(w, es[..|es| - 1]), es[|es| - 1]);
    }
  }

  // ---------------------------------------------------------------------------
  // How a connection ends

  /** An event that is neither an end of file nor a reset while writing, but an error. */
  predicate HardError(e: Event) {
    e.BevEvent? && !e.flags.ReadEof() && !e.flags.WriteEof() && e.flags.error
  }

  /** How a step that is not a hard error may end the client. */
  predicate EndsOnlyClosed(c: Conn, d: Conn, source: Side, writeError: bool) {
    && (!d.Alive() <==> d.outbound.Closed() && d.inbound.Closed())
    && (!d.Alive() && c.From(source).writeOn && !writeError ==> d.From(source).Drained())
  }

  lemma CheckCloseEnds(c: Conn, source: Side)
    requires c.state == PumpingData && FlowInv(c.outbound) && FlowInv(c.inbound)
    ensures EndsOnlyClosed(c, CheckClose(c), source, false)
  {
  }

  lemma WriteEnds(w: World, side: Side, n: nat, source: Side)
    requires Inv(w) && w.conn.hook == OnPump && Enabled(w, Writable(side, n))
    ensures EndsOnlyClosed(w.conn, WriteStep(w, side, n).conn, source, false)
  {
    var f := w.conn.To(side);
    var c := w.conn.WithTo(side, f.(output := f.output[n..]));
    if c.To(side).output == [] {
      CheckCloseEnds(c.WithTo(side, c.To(side).HalfCloseIfDrained()), source);
    }
  }

  lemma EventEnds(w: World, side: Side, ev: Flags, source: Side)
    requires Inv(w) && w.conn.hook == OnPump && w.conn.Alive() && !HardError(BevEvent(side, ev))
    ensures EndsOnlyClosed(w.conn, PumpEvent(w.conn, side, ev), source, WriteErrorTo(BevEvent(side, ev), Other(source)))
  {
    var c := w.conn;
    if ev.ReadEof() {
      CheckCloseEnds(c.WithFrom(side, c.From(side).EndSource()), source);
    } else if ev.WriteEof() {
      CheckCloseEnds(c.WithTo(side, c.To(side).EndTarget()), source);
    }
  }

  /**
   * A pumping client is freed by a hard error, or because both directions are closed; then each
   * direction that was never hit by a write error has drained.
   */
  lemma EndsWhenBothClosed(dest: Destination, es: seq<Event>, e: Event, source: Side)
    requires Run(Start(dest), es).conn.Alive() && Run(Start(dest), es).conn.hook == OnPump
    ensures var (w, w') := (Run(Start(dest), es), Step(Run(Start(dest), es), e));
            if HardError(e) then !w'.conn.Alive()
            else EndsOnlyClosed(w.conn, w'.conn, source, WriteErrorTo(e, Other(source)))
  {
    Reachable(dest, es);
    var w := Run(Start(dest), es);
    if Enabled(w, e) && !HardError(e) {
      match e {
        case Readable(side, data) => PumpReadKeepsInv(w, side, data);
        case Writable(side, n) => WriteEnds(w, side, n, source);
        case WriteCallback(side) => CheckCloseEnds(w.conn.WithTo(side, w.conn.To(side).HalfCloseIfDrained()), source);
        case BevEvent(side, ev) => EventEnds(w, side, ev, source);
        case TimerFires =>
      }
    }
  }

  /**
   * A pumping client that no write error hit, and that a step other than a hard error frees, has sent the
   * relay the requests and every byte it read, and got every relay byte behind the handshake if and only if
   * no residue of the handshake is stranded.
   */
  lemma NormalEndDelivers(dest: Destination, es: seq<Event>, e: Event)
    requires var c := Run(Start(dest), es).conn;
             c.Alive() && c.hook == OnPump && c.outbound.writeOn && c.inbound.writeOn
    requires !HardError(e) && !WriteErrorTo(e, ClientSide) && !WriteErrorTo(e, RelaySide)
    requires !Step(Run(Start(dest), es), e).conn.Alive()
    ensures var w := Step(Run(Start(dest), es), e);
            && !dest.OtherFamily? && w.relay.written == Preamble(dest) + w.client.read
            && PumpStreams(w) && (w.client.written == w.relay.read[Removed(w)..] <==> !ResidueStranded(w))
  {
    EndsWhenBothClosed(dest, es, e, ClientSide);
    EndsWhenBothClosed(dest, es, e, RelaySide);
    PumpKeepsRunning(Run(Start(dest), es), e);
    RunSnoc(Start(dest), es, e);
    RelayHalfCloseSound(dest, es + [e]);
    ClientHalfCloseExact(dest, es + [e]);
  }

  // ---------------------------------------------------------------------------
  // Refinement of the abstract channel

  /** The bytes the direction out of the given side has to deliver, the preamble included. */
  function Stream(w: World, source: Side): seq<byte>
    requires PumpStreams(w)
  {
    if source.ClientSide? then Spoken(w.conn) + w.client.read else w.relay.read[Removed(w)..]
  }

  function View(w: World, source: Side): Fifo.Channel
    requires PumpStreams(w)
  {
    Fifo.Channel(Stream(w, source), w.At(Other(source)).written,
                 w.conn.From(source).sourceEof, w.conn.From(source).targetShut)
  }

  /** A write error towards the target of the direction. */
  predicate WriteErrorTo(e: Event, target: Side) {
    e.BevEvent? && e.side == target && !e.flags.ReadEof() && e.flags.WriteEof()
  }

  /** Sent, queued and buffered bytes make up the stream. */
  lemma StreamSplit(w: World, source: Side)
    requires Conserved(w) && w.conn.hook == OnPump
    ensures Stream(w, source) == w.At(Other(source)).written + w.conn.From(source).output + w.conn.From(source).input
  {
  }

  /** Reading data extends the stream of its direction by exactly data. */
  lemma StreamGrows(w: World, source: Side, data: seq<byte>)
    requires Inv(w) && w.conn.hook == OnPump && Enabled(w, Readable(source, data))
    ensures PumpStreams(ReadStep(w, source, data))
    ensures Stream(ReadStep(w, source, data), source) == Stream(w, source) + data
  {
    PumpReadKeepsInv(w, source, data);
    var f := w.conn.From(source);
    StreamSplit(w, source);
    StreamSplit(ReadStep(w, source, data), source);
    Grow(w.At(Other(source)).written, f.output, f.input, data);
  }

  lemma ReadSimulates(w: World, source: Side, data: seq<byte>)
    requires Inv(w) && w.conn.hook == OnPump && Enabled(w, Readable(source, data))
    ensures PumpStreams(ReadStep(w, source, data))
    ensures Fifo.Receives(View(w, source), View(ReadStep(w, source, data), source))
  {
    StreamGrows(w, source, data);
    assert Stream(w, source) <= Stream(w, source) + data;
  }

  /** Writing delivers a prefix of what is pending and leaves the stream as it is. */
  lemma WriteDelivers(w: World, source: Side, n: nat)
    requires Inv(w) && w.conn.hook == OnPump && Enabled(w, Writable(Other(source), n))
    ensures var w' := WriteStep(w, Other(source), n);
            && PumpStreams(w') && Stream(w', source) == Stream(w, source)
            && w'.At(Other(source)).written == w.At(Other(source)).written + w.conn.From(source).output[..n]
            && w'.conn.From(source).output == w.conn.From(source).output[n..]
            && w'.conn.From(source).input == w.conn.From(source).input
  {
    WriteKeepsInv(w, Other(source), n);
    var f := w.conn.From(source);
    Regroup(w.At(Other(source)).written, f.output, f.input, n);
    StreamSplit(w, source);
    StreamSplit(WriteStep(w, Other(source), n), source);
  }

  /** A half-close in the write callback finds everything delivered. */
  lemma WriteCloses(w: World, source: Side, n: nat)
    requires Inv(w) && w.conn.hook == OnPump && Enabled(w, Writable(Other(source), n))
    ensures var (f, f') := (w.conn.From(source), WriteStep(w, Other(source), n).conn.From(source));
            f'.sourceEof == f.sourceEof && !f.targetShut && (f'.targetShut ==> f'.Drained())
  {
  }

  lemma WriteSimulates(w: World, source: Side, n: nat)
    requires Inv(w) && w.conn.hook == OnPump && Enabled(w, Writable(Other(source), n))
    requires w.conn.From(source).input == []
    ensures PumpStreams(WriteStep(w, Other(source), n))
    ensures Fifo.Simulates(View(w, source), View(WriteStep(w, Other(source), n), source))
  {
    WriteDelivers(w, source, n);
    WriteCloses(w, source, n);
    var w' := WriteStep(w, Other(source), n);
    var a, b := View(w, source), View(w', source);
    WriteKeepsInv(w, Other(source), n);
    StreamSplit(w', source);
    DeliverThenClose(a, b, w'.conn.From(source).output);
  }

  /** Delivering a part of what is pending, and closing only if nothing is left, are channel actions. */
  lemma DeliverThenClose(a: Fifo.Channel, b: Fifo.Channel, pending: seq<byte>)
    requires !a.closed && b.received == a.received && a.delivered <= b.delivered && b.sourceEof == a.sourceEof
    requires b.received == b.delivered + pending + []
    requires b.closed ==> a.sourceEof && pending == []
    ensures Fifo.Simulates(a, b)
  {
    var m := a.(delivered := b.delivered);
    assert b.delivered <= b.delivered + pending == a.received;
    assert Fifo.Next(a, m) && Fifo.Next(m, b);
  }

  lemma EofSimulates(w: World, source: Side, ev: Flags)
    requires Inv(w) && w.conn.Alive() && w.conn.hook == OnPump && ev.ReadEof()
    requires w.conn.From(source).input == []
    ensures PumpStreams(w.(conn := PumpEvent(w.conn, source, ev)))
    ensures Fifo.Simulates(View(w, source), View(w.(conn := PumpEvent(w.conn, source, ev)), source))
  {
    PumpEventKeepsInv(w, source, ev);
    var a, b := View(w, source), View(w.(conn := PumpEvent(w.conn, source, ev)), source);
    StreamSplit(w, source);
    var m := a.(sourceEof := true);
    assert Fifo.Ends(a, m);
    assert Fifo.Next(a, m) && Fifo.Next(m, b);
  }

  /** A direction's channel is made of its source's reads, its target's writes and its two flags. */
  lemma SameView(w: World, w': World, source: Side)
    requires PumpStreams(w) && PumpStreams(w') && w.conn.hook == w'.conn.hook == OnPump
    requires w'.conn.dest == w.conn.dest && w'.replyBuffered == w.replyBuffered
    requires w'.At(source).read == w.At(source).read && w'.At(Other(source)).written == w.At(Other(source)).written
    requires w'.conn.From(source).sourceEof == w.conn.From(source).sourceEof
    requires w'.conn.From(source).targetShut == w.conn.From(source).targetShut
    ensures View(w', source) == View(w, source)
  {
  }

  lemma OtherReadStutters(w: World, source: Side, data: seq<byte>)
    requires Inv(w) && w.conn.hook == OnPump && Enabled(w, Readable(Other(source), data))
    ensures var w' := ReadStep(w, Other(source), data); PumpStreams(w') && View(w', source) == View(w, source)
  {
    PumpReadKeepsInv(w, Other(source), data);
    SameView(w, ReadStep(w, Other(source), data), source);
  }

  lemma OtherWriteStutters(w: World, source: Side, n: nat)
    requires Inv(w) && w.conn.hook == OnPump && Enabled(w, Writable(source, n))
    ensures var w' := WriteStep(w, source, n); PumpStreams(w') && View(w', source) == View(w, source)
  {
    WriteKeepsInv(w, source, n);
    SameView(w, WriteStep(w, source, n), source);
  }

  /** An event that neither ends the source nor fails the target of a direction leaves its channel alone. */
  lemma OtherEventStutters(w: World, side: Side, ev: Flags, source: Side)
    requires Inv(w) && w.conn.hook == OnPump && w.conn.Alive()
    requires !WriteErrorTo(BevEvent(side, ev), Other(source)) && !(side == source && ev.ReadEof())
    ensures var w' := w.(conn := PumpEvent(w.conn, side, ev)); PumpStreams(w') && View(w', source) == View(w, source)
  {
    PumpEventKeepsInv(w, side, ev);
    SameView(w, w.(conn := PumpEvent(w.conn, side, ev)), source);
  }

  /** A spurious write callback finds nothing new: a drained flow has been half-closed before. */
  lemma WriteCallbackStutters(w: World, side: Side, source: Side)
    requires Inv(w) && w.conn.hook == OnPump && w.conn.Alive()
    ensures var w' := w.(conn := PumpWritten(w.conn, side)); PumpStreams(w') && View(w', source) == View(w, source)
  {
    ConservedFrame(w, PumpWritten(w.conn, side));
    SameView(w, w.(conn := PumpWritten(w.conn, side)), source);
  }

  /**
   * Without write errors towards its target, and with no residue of the handshake in its input, a
   * pumping direction simulates the abstract channel and keeps its input empty.
   */
  lemma BufferpumpRefinesChannel(w: World, e: Event, source: Side)
    requires Inv(w) && w.conn.hook == OnPump && w.conn.From(source).input == []
    requires !WriteErrorTo(e, Other(source))
    ensures PumpStreams(Step(w, e)) && Step(w, e).conn.From(source).input == []
    ensures Fifo.Simulates(View(w, source), View(Step(w, e), source))
  {
    if Enabled(w, e) {
      InputStaysEmpty(w, e, source);
      StepSimulates(w, e, source);
    } else {
      assert Fifo.Next(View(w, source), View(w, source));
    }
  }

  /** Without residue, a relay stream that has not grown leaves nothing to buffer. */
  lemma InputStaysEmpty(w: World, e: Event, source: Side)
    requires Inv(w) && w.conn.hook == OnPump && w.conn.From(source).input == []
    ensures Step(w, e).conn.From(source).input == []
  {
    StepKeepsInv(w, e);
    PumpKeepsRunning(w, e);
    var w' := Step(w, e);
    if source.RelaySide? && RelayQuiet(w') {
      assert w'.relay.read == w.relay.read;
      assert Forwarded(w') == Forwarded(w) == [];
    }
  }

  lemma StepSimulates(w: World, e: Event, source: Side)
    requires Inv(w) && w.conn.hook == OnPump && w.conn.From(source).input == [] && Enabled(w, e)
    requires !WriteErrorTo(e, Other(source))
    ensures PumpStreams(Step(w, e)) && Fifo.Simulates(View(w, source), View(Step(w, e), source))
  {
    if e.Readable? && e.side == source {
      ReadSimulates(w, source, e.data);
      assert Fifo.Next(View(w, source), View(Step(w, e), source));
    } else if e.Writable? && e.side == Other(source) {
      WriteSimulates(w, source, e.n);
      return;
    } else if e.BevEvent? && e.side == source && e.flags.ReadEof() {
      EofSimulates(w, source, e.flags);
      return;
    } else {
      match e {
        case Readable(_, data) => OtherReadStutters(w, source, data);
        case Writable(_, n) => OtherWriteStutters(w, source, n);
        case WriteCallback(side) => WriteCallbackStutters(w, side, source);
        case BevEvent(side, ev) => OtherEventStutters(w, side, ev, source);
        case TimerFires =>
      }
    }
    assert Fifo.Next(View(Step(w, e), source), View(Step(w, e), source));
  }

  predicate NoWriteError(es: seq<Event>, target: Side) {
    forall i | 0 <= i < |es| :: !WriteErrorTo(es[i], target)
  }

  lemma {:induction false} SafeAlongRun(w: World, es: seq<Event>, source: Side)
    requires Inv(w) && w.conn.hook == OnPump && w.conn.From(source).input == [] && Fifo.Safe(View(w, source))
    requires NoWriteError(es, Other(source))
    ensures var w' := Run(w, es);
            && Inv(w') && w'.conn.hook == OnPump && w'.conn.From(source).input == []
            && Fifo.Safe(View(w', source)) && View(w, source).delivered <= View(w', source).delivered
    decreases |es|
  {
    if es == [] {
    } else {
      var init := es[..|es| - 1];
      var mid := Run(w, init);
      SafeAlongRun(w, init, source);
      StepKeepsInv(mid, es[|es| - 1]);
      BufferpumpRefinesChannel(mid, es[|es| - 1], source);
      PumpKeepsRunning(mid, es[|es| - 1]);
      Fifo.SimulationIsSafe(View(mid, source), View(Run(w, es), source));
    }
  }

  /** A live pumping direction without residue that saw no write error is a safe channel. */
  lemma ReachableChannelSafe(dest: Destination, es: seq<Event>, source: Side)
    requires var c := Run(Start(dest), es).conn;
             c.Alive() && c.hook == OnPump && c.From(source).input == [] && c.From(source).writeOn
    ensures var w := Run(Start(dest), es); Inv(w) && Fifo.Safe(View(w, source))
  {
    Reachable(dest, es);
    var w := Run(Start(dest), es);
    StreamSplit(w, source);
    var sent, out := w.At(Other(source)).written, w.conn.From(source).output;
    assert sent + out + [] == sent + out && sent <= sent + out;
    assert out == [] ==> sent + out == sent;
  }

  /**
   * In every run whose beginning es leads to a live pumping direction without residue and write error, and
   * whose rest fs has no write error towards its target either: what was delivered is a prefix of the
   * direction's stream, and the target is closed only once all of it was.
   */
  lemma PumpingStaysSafe(dest: Destination, es: seq<Event>, fs: seq<Event>, source: Side)
    requires var c := Run(Start(dest), es).conn;
             c.Alive() && c.hook == OnPump && c.From(source).input == [] && c.From(source).writeOn
    requires NoWriteError(fs, Other(source))
    ensures var w := Run(Start(dest), es + fs); Inv(w) && w.conn.hook == OnPump && Fifo.Safe(View(w, source))
  {
    ReachableChannelSafe(dest, es, source);
    RunConcat(Start(dest), es, fs);
    SafeAlongRun(Run(Start(dest), es), fs, source);
  }

  lemma PumpKeepsRunning(w: World, e: Event)
    requires w.conn.hook == OnPump
    ensures Step(w, e).conn.hook == OnPump
    ensures w.relay.read <= Step(w, e).relay.read && Step(w, e).replyBuffered == w.replyBuffered
  {
  }
}
