/**
 * What each event does to a client, in every run and field by field. The statements name none of the functions
 * that model the callbacks, and message bytes are the numbers of RFC 1928.
 */
module CallbackTheorems {
  import opened Bytes
  import opened Socks5
  import opened Connection
  import opened Runs
  import opened BufferpumpTheorems

  // ---------------------------------------------------------------------------
  // The free

  /** A freed client has no timer, reads and writes on neither side, and no event reaches it any more. */
  lemma {:induction false} FreedForGood(dest: Destination, es: seq<Event>)
    ensures var w := Run(Start(dest), es);
            !w.conn.Alive() ==> SwitchedOff(w.conn) && forall e :: Step(w, e) == w
  {
    if es == [] {
    } else {
      FreedForGood(dest, es[..|es| - 1]);
      var w := Run(Start(dest), es[..|es| - 1]);
      if w.conn.Alive() && !Step(w, es[|es| - 1]).conn.Alive() {
        StepSwitchesOff(w, es[|es| - 1]);
      }
    }
  }

  // ---------------------------------------------------------------------------
  // The handshake

  /** A live handshake can always send what is queued and hear the relay's replies, and never reads the client. */
  lemma HandshakeListens(dest: Destination, es: seq<Event>)
    ensures var w := Run(Start(dest), es);
            w.conn.Alive() && w.conn.hook != OnPump ==>
              && (w.conn.outbound.output != [] ==> Enabled(w, Writable(RelaySide, |w.conn.outbound.output|)))
              && (forall data :: data != [] ==> (Enabled(w, Readable(RelaySide, data)) <==> w.conn.hook != OnConnect))
              && (forall data :: !Enabled(w, Readable(ClientSide, data)))
  {
    Reachable(dest, es);
  }

  /** A pending timer that fires ends the client. */
  lemma TimeoutFrees(dest: Destination, es: seq<Event>)
    ensures var w := Run(Start(dest), es);
            w.conn.timer ==> w.conn.Alive() && w.conn.hook != OnPump && !Step(w, TimerFires).conn.Alive()
  {
    Reachable(dest, es);
    FreedForGood(dest, es);
  }

  /**
   * While connecting: a connection sends the method request and waits for the reply, else an error ends the
   * client, and any other event only stops the timer.
   */
  lemma ConnectEventEffect(dest: Destination, es: seq<Event>, ev: Flags)
    requires Run(Start(dest), es).conn.Alive() && Run(Start(dest), es).conn.hook == OnConnect
    ensures var (w, w') := (Run(Start(dest), es), Step(Run(Start(dest), es), BevEvent(RelaySide, ev)));
            && (!w'.conn.Alive() <==> ev.error && !ev.connected)
            && (ev.connected ==>
                  && w'.conn.hook == OnMethodReply && w'.conn.timer && w'.conn.inbound.readOn
                  && w'.conn.inbound.low == 2 && w'.conn.outbound.output == [5, 1, 0])
            && (!ev.connected && !ev.error ==> w' == w.(conn := w.conn.(timer := false)))
  {
    Reachable(dest, es);
  }

  /** While waiting for a reply: an end of file or an error ends the client, any other event only stops the timer. */
  lemma ReplyStageEventEffect(dest: Destination, es: seq<Event>, ev: Flags)
    requires Run(Start(dest), es).conn.Alive()
    requires Run(Start(dest), es).conn.hook == OnMethodReply || Run(Start(dest), es).conn.hook == OnConnectReply
    ensures var (w, w') := (Run(Start(dest), es), Step(Run(Start(dest), es), BevEvent(RelaySide, ev)));
            && (!w'.conn.Alive() <==> ev.eof || ev.error)
            && (w'.conn.Alive() ==> w' == w.(conn := w.conn.(timer := false)))
  {
    Reachable(dest, es);
  }

  /**
   * The method reply: below two bytes the client waits; exactly 05 00 sends the connect request, which a server
   * reads as the destination; everything else, and a destination of another family, ends the client.
   */
  lemma MethodReplyEffect(dest: Destination, es: seq<Event>, data: seq<byte>)
    requires Run(Start(dest), es).conn.Alive() && Run(Start(dest), es).conn.hook == OnMethodReply && data != []
    ensures var (w, w') := (Run(Start(dest), es), Step(Run(Start(dest), es), Readable(RelaySide, data)));
            var s := w.conn.inbound.input + data;
            if |s| < 2 then w'.conn == w.conn.(inbound := w.conn.inbound.(input := s))
            else if s == [5, 0] && !dest.OtherFamily? then
              && w'.conn.Alive() && w'.conn.hook == OnConnectReply && w'.conn.timer
              && w'.conn.inbound.readOn && w'.conn.inbound.low == 10 && w'.conn.inbound.input == []
              && exists request :: w'.conn.outbound.output == w.conn.outbound.output + request
                                   && ParseRequest(request) == Parsed(Meaning(dest), [])
            else !w'.conn.Alive()
  {
    Reachable(dest, es);
    DestinationFixed(Start(dest), es);
    if !dest.OtherFamily? {
      RequestRoundTrip(dest, []);
      assert ConnectRequest(dest) + [] == ConnectRequest(dest);
    }
  }

  /** What a pump looks like that has just taken over with the given bytes waiting in the relay input. */
  predicate TakenOver(w: World, w': World, waiting: seq<byte>) {
    && w'.conn.Alive() && w'.conn.hook == OnPump && w'.conn.state == PumpingData && !w'.conn.timer
    && w'.conn.outbound == Flow([], w.conn.outbound.output, false, false, true, true, 0)
    && w'.conn.inbound == Flow(waiting, [], false, false, true, true, 0)
    && w'.client == Wire([], []) && w'.relay.written == w.relay.written
  }

  /** The connect reply, for any bytes: the first ten are looked at, and 10 or 22 are removed. */
  lemma ConnectReplyEffect(dest: Destination, es: seq<Event>, data: seq<byte>)
    requires Run(Start(dest), es).conn.Alive() && Run(Start(dest), es).conn.hook == OnConnectReply && data != []
    ensures var (w, w') := (Run(Start(dest), es), Step(Run(Start(dest), es), Readable(RelaySide, data)));
            var s := w.conn.inbound.input + data;
            if |s| < 10 then w'.conn == w.conn.(inbound := w.conn.inbound.(input := s))
            else if s[0] == 5 && s[1] == 0 && s[3] == 1 then TakenOver(w, w', s[10..])
            else if s[0] == 5 && s[1] == 0 && s[3] == 4 then TakenOver(w, w', if |s| < 22 then [] else s[22..])
            else !w'.conn.Alive()
  {
    Reachable(dest, es);
    var w := Run(Start(dest), es);
    var s := w.conn.inbound.input + data;
    if |s| >= 10 && SuccessReply(s) {
      ConnectReplyStarts(w.conn.(inbound := w.conn.inbound.(input := s)));
    }
  }

  /**
   * A reply of section 6 that is read in full, in whatever pieces, starts the pump if and only if it says
   * succeeded and has an IP address; the bytes behind the reply are then what is forwarded. Any other reply
   * ends the client, or is too short (an unexpected short domain name) to reach the watermark.
   */
  lemma ReplyDecides(dest: Destination, es: seq<Event>, data: seq<byte>,
                     rep: byte, atyp: byte, addr: seq<byte>, port: Port, rest: seq<byte>)
    requires Run(Start(dest), es).conn.Alive() && Run(Start(dest), es).conn.hook == OnConnectReply && data != []
    requires AddressForm(atyp, addr)
    requires Run(Start(dest), es).conn.inbound.input + data == Reply(rep, atyp, addr, port) + rest
    ensures var (w, w') := (Run(Start(dest), es), Step(Run(Start(dest), es), Readable(RelaySide, data)));
            && (w'.conn.hook == OnPump <==> rep == 0 && (atyp == 1 || atyp == 4))
            && (w'.conn.hook == OnPump ==> TakenOver(w, w', rest))
            && (w'.conn.hook != OnPump && |Reply(rep, atyp, addr, port) + rest| >= 10 ==> !w'.conn.Alive())
  {
    ConnectReplyEffect(dest, es, data);
    Reachable(dest, es);
    var s := Reply(rep, atyp, addr, port) + rest;
    assert |Reply(rep, atyp, addr, port)| == 6 + |addr| && s[6 + |addr|..] == rest;
    RejectedStays(Run(Start(dest), es), data);
  }

  lemma RejectedStays(w: World, data: seq<byte>)
    requires w.conn.hook == OnConnectReply
    ensures var w' := Step(w, Readable(RelaySide, data)); !w'.conn.Alive() ==> w'.conn.hook == OnConnectReply
  {
  }

  // ---------------------------------------------------------------------------
  // The pump

  predicate SameBuffers(f: Flow, f': Flow) {
    f'.input == f.input && f'.output == f.output
  }

  /** Nothing more is read from the source; a target with nothing left to write is shut at once. */
  predicate SourceEnded(f: Flow, f': Flow) {
    && SameBuffers(f, f') && f'.sourceEof && !f'.readOn
    && (f'.targetShut <==> f.targetShut || f.output == [])
  }

  /** Nothing more is written to the target, whether or not the source goes on. */
  predicate TargetEnded(f: Flow, f': Flow) {
    SameBuffers(f, f') && f'.targetShut && !f'.writeOn && f'.sourceEof == f.sourceEof
  }

  predicate FlagsKept(f: Flow, f': Flow) {
    SameBuffers(f, f') && f'.sourceEof == f.sourceEof && f'.targetShut == f.targetShut
  }

  predicate AllFourShut(c: Conn) {
    c.outbound.sourceEof && c.outbound.targetShut && c.inbound.sourceEof && c.inbound.targetShut
  }

  lemma ReadEofHeard(c: Conn, side: Side, ev: Flags)
    requires c.state == PumpingData && ev.reading && ev.eof
    ensures var d := PumpEvent(c, side, ev);
            && d.hook == c.hook && SourceEnded(c.From(side), d.From(side)) && FlagsKept(c.To(side), d.To(side))
            && (d.Alive() <==> !AllFourShut(d))
            && (d.Alive() ==> d.To(side) == c.To(side) && d.From(side).writeOn == c.From(side).writeOn)
  {
  }

  lemma WriteEofHeard(c: Conn, side: Side, ev: Flags)
    requires c.state == PumpingData && !(ev.reading && ev.eof)
    requires ev.writing && (ev.eof || (ev.error && ev.reset))
    ensures var d := PumpEvent(c, side, ev);
            && d.hook == c.hook && TargetEnded(c.To(side), d.To(side)) && FlagsKept(c.From(side), d.From(side))
            && (d.Alive() <==> !AllFourShut(d))
            && (d.Alive() ==> d.From(side) == c.From(side) && d.To(side).readOn == c.To(side).readOn)
  {
  }

  /**
   * The event callbacks of the pump. An end of file while reading is heard, as is an end of file or a reset
   * while writing; any other error ends the client; anything else changes nothing. The direction that is not
   * meant keeps its flags, and unless the step frees, everything.
   */
  lemma PumpEventEffect(dest: Destination, es: seq<Event>, side: Side, ev: Flags)
    requires Run(Start(dest), es).conn.Alive() && Run(Start(dest), es).conn.hook == OnPump
    ensures var (w, w') := (Run(Start(dest), es), Step(Run(Start(dest), es), BevEvent(side, ev)));
            var (f, f') := (w.conn.From(side), w'.conn.From(side));
            var (g, g') := (w.conn.To(side), w'.conn.To(side));
            && w'.client == w.client && w'.relay == w.relay && w'.conn.hook == OnPump
            && if ev.reading && ev.eof then
                 && SourceEnded(f, f') && FlagsKept(g, g') && (w'.conn.Alive() <==> !AllFourShut(w'.conn))
                 && (w'.conn.Alive() ==> g' == g && f'.writeOn == f.writeOn)
               else if ev.writing && (ev.eof || (ev.error && ev.reset)) then
                 && TargetEnded(g, g') && FlagsKept(f, f') && (w'.conn.Alive() <==> !AllFourShut(w'.conn))
                 && (w'.conn.Alive() ==> f' == f && g'.readOn == g.readOn)
               else if ev.error then !w'.conn.Alive() && FlagsKept(f, f') && FlagsKept(g, g')
               else w' == w
  {
    Reachable(dest, es);
    var w := Run(Start(dest), es);
    if ev.reading && ev.eof {
      ReadEofHeard(w.conn, side, ev);
    } else if ev.writing && (ev.eof || (ev.error && ev.reset)) {
      WriteEofHeard(w.conn, side, ev);
    }
  }

  /** Before its end of file a side is read: everything buffered and new moves on, and nothing else changes. */
  lemma PumpReadEffect(dest: Destination, es: seq<Event>, side: Side, data: seq<byte>)
    requires Run(Start(dest), es).conn.Alive() && Run(Start(dest), es).conn.hook == OnPump && data != []
    ensures var (w, w') := (Run(Start(dest), es), Step(Run(Start(dest), es), Readable(side, data)));
            var (f, f') := (w.conn.From(side), w'.conn.From(side));
            if f.sourceEof then w' == w
            else
              && w'.conn.state == w.conn.state && w'.conn.hook == OnPump && w'.conn.To(side) == w.conn.To(side)
              && f' == f.(input := [], output := f.output + f.input + data)
              && w'.At(side) == Wire(w.At(side).read + data, w.At(side).written)
              && w'.At(Other(side)) == w.At(Other(side))
  {
    Reachable(dest, es);
    var f := Run(Start(dest), es).conn.From(side);
    Associate(f.output, f.input, data);
  }

  /**
   * Before its target is shut a direction is written: the first n bytes of its output go out. When that empties
   * the output of an ended source the target is shut, and if that was the last of the four flags the client is
   * freed. The other direction keeps its flags.
   */
  lemma PumpWriteEffect(dest: Destination, es: seq<Event>, side: Side, n: nat)
    requires Run(Start(dest), es).conn.Alive() && Run(Start(dest), es).conn.hook == OnPump
    requires 0 < n <= |Run(Start(dest), es).conn.To(side).output|
    ensures var (w, w') := (Run(Start(dest), es), Step(Run(Start(dest), es), Writable(side, n)));
            var (f, f') := (w.conn.To(side), w'.conn.To(side));
            if f.targetShut then w' == w
            else
              && w'.At(side) == Wire(w.At(side).read, w.At(side).written + f.output[..n])
              && w'.At(Other(side)) == w.At(Other(side))
              && f'.input == f.input && f'.output == f.output[n..] && f'.sourceEof == f.sourceEof
              && (f'.targetShut <==> n == |f.output| && f.sourceEof)
              && FlagsKept(w.conn.From(side), w'.conn.From(side))
              && (w'.conn.Alive() <==> !AllFourShut(w'.conn))
              && (w'.conn.Alive() ==> f'.writeOn && f'.readOn == f.readOn && w'.conn.From(side) == w.conn.From(side))
  {
    Reachable(dest, es);
  }

  /** A write callback that no write precedes does nothing. */
  lemma SpuriousWriteCallback(dest: Destination, es: seq<Event>, side: Side)
    requires Run(Start(dest), es).conn.Alive() && Run(Start(dest), es).conn.hook == OnPump
    ensures Step(Run(Start(dest), es), WriteCallback(side)) == Run(Start(dest), es)
  {
    Reachable(dest, es);
  }
}
