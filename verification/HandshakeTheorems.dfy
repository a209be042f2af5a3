/** Trace properties of the SOCKS5 client handshake, over every run. */
module HandshakeTheorems {
  import opened Bytes
  import opened Socks5
  import opened Connection
  import opened Runs
  import opened BufferpumpTheorems

  // ---------------------------------------------------------------------------
  // Trace safety

  function StateRank(s: ClientState): nat {
    match s
    case New => 0
    case RelayConnected => 1
    case FinishedHandshake => 2
    case PumpingData => 3
    case Destroying => 4
    case Destroyed => 5
  }

  function HookRank(h: Hook): nat {
    match h
    case OnConnect => 0
    case OnMethodReply => 1
    case OnConnectReply => 2
    case OnPump => 3
  }

  predicate Onward(c: Conn, d: Conn) {
    && StateRank(c.state) <= StateRank(d.state)
    && HookRank(c.hook) <= HookRank(d.hook) <= HookRank(c.hook) + 1
  }

  lemma ReadMovesForward(w: World, side: Side, data: seq<byte>)
    requires Inv(w) && w.conn.Alive()
    ensures Onward(w.conn, ReadStep(w, side, data).conn)
  {
  }

  lemma EventMovesForward(w: World, side: Side, ev: Flags)
    requires Inv(w) && w.conn.Alive()
    ensures Onward(w.conn, EventCallback(w.conn, side, ev))
  {
  }

  lemma StepMovesForward(w: World, e: Event)
    requires Inv(w)
    ensures Onward(w.conn, Step(w, e).conn)
  {
    if Enabled(w, e) {
      match e {
        case Readable(side, data) => ReadMovesForward(w, side, data);
        case BevEvent(side, ev) => EventMovesForward(w, side, ev);
        case _ =>
      }
    }
  }

  /** client_state never goes back, over any part of any run. */
  lemma {:induction false} StatesMoveForward(dest: Destination, es: seq<Event>, i: nat)
    requires i <= |es|
    ensures StateRank(Run(Start(dest), es[..i]).conn.state) <= StateRank(Run(Start(dest), es).conn.state)
    decreases |es|
  {
    if i == |es| {
      assert es[..i] == es;
    } else {
      var init := es[..|es| - 1];
      StatesMoveForward(dest, init, i);
      assert init[..i] == es[..i];
      Reachable(dest, init);
      StepMovesForward(Run(Start(dest), init), es[|es| - 1]);
    }
  }

  lemma HooksMoveForward(dest: Destination, es: seq<Event>)
    requires es != []
    ensures var h := HookRank(Run(Start(dest), es[..|es| - 1]).conn.hook);
            h <= HookRank(Run(Start(dest), es).conn.hook) <= h + 1
  {
    Reachable(dest, es[..|es| - 1]);
    StepMovesForward(Run(Start(dest), es[..|es| - 1]), es[|es| - 1]);
  }

  /** A run that got past a stage contains the step that left it. */
  lemma {:induction false} Crossing(dest: Destination, es: seq<Event>, rank: nat) returns (i: nat)
    requires rank < HookRank(Run(Start(dest), es).conn.hook)
    ensures i < |es|
    ensures HookRank(Run(Start(dest), es[..i]).conn.hook) == rank
    ensures HookRank(Run(Start(dest), es[..i + 1]).conn.hook) == rank + 1
    decreases |es|
  {
    var init := es[..|es| - 1];
    HooksMoveForward(dest, es);
    if HookRank(Run(Start(dest), init).conn.hook) == rank {
      i := |es| - 1;
      assert es[..i + 1] == es;
    } else {
      i := Crossing(dest, init, rank);
      assert init[..i] == es[..i] && init[..i + 1] == es[..i + 1];
    }
  }

  /** The reasons for leaving each stage: the event, or what has been read from the relay right after. */
  predicate Justified(w: World, e: Event) {
    match w.conn.hook
    case OnConnect => e.BevEvent? && e.side == RelaySide && e.flags.connected
    case OnMethodReply => Step(w, e).relay.read == METHOD_ACCEPTED
    case OnConnectReply => PumpStreams(Step(w, e)) && w.client.read == []
    case OnPump => false
  }

  lemma MethodLeftJustly(w: World, e: Event)
    requires Inv(w) && w.conn.hook == OnMethodReply != Step(w, e).conn.hook
    ensures Step(w, e).relay.read == METHOD_ACCEPTED
  {
    var input := w.conn.inbound.input + e.data;
    assert Step(w, e).relay.read == input;
    assert input == METHOD_ACCEPTED;
  }

  lemma StagesLeftJustly(w: World, e: Event)
    requires Inv(w) && w.conn.hook != Step(w, e).conn.hook
    ensures Justified(w, e)
  {
    if w.conn.hook == OnMethodReply {
      MethodLeftJustly(w, e);
    } else if w.conn.hook == OnConnectReply {
      StepKeepsInv(w, e);
    }
  }

  /**
   * A pump runs only after, in this order, the relay connected (step i), exactly 05 00 had been read
   * when the connect request was sent (step j), and a success reply with an IP address was read (step
   * k). No client byte is read before step k.
   */
  lemma PumpTrace(dest: Destination, es: seq<Event>) returns (i: nat, j: nat, k: nat)
    requires Run(Start(dest), es).conn.hook == OnPump
    ensures i < j < k < |es|
    ensures es[i].BevEvent? && es[i].side == RelaySide && es[i].flags.connected
    ensures Run(Start(dest), es[..i]).conn.hook == OnConnect
    ensures Run(Start(dest), es[..j + 1]).relay.read == [5, 0]
    ensures Run(Start(dest), es[..j + 1]).conn.hook == OnConnectReply
    ensures Run(Start(dest), es[..k]).conn.hook == OnConnectReply
    ensures Run(Start(dest), es[..k + 1]).conn.hook == OnPump
    ensures PumpStreams(Run(Start(dest), es[..k + 1]))
    ensures var read := Run(Start(dest), es[..k + 1]).relay.read;
            |read| >= 12 && read[..4] == [5, 0, 5, 0] && (read[5] == 1 || read[5] == 4)
    ensures Run(Start(dest), es[..k]).client.read == []
  {
    k := Crossing(dest, es, 2);
    j := Crossing(dest, es[..k], 1);
    i := Crossing(dest, es[..k][..j], 0);
    assert es[..k][..j] == es[..j] && es[..k][..j + 1] == es[..j + 1];
    assert es[..j][..i] == es[..i] && es[..j][..i + 1] == es[..i + 1];
    LastStep(dest, es, i);
    LastStep(dest, es, j);
    LastStep(dest, es, k);
  }

  lemma LastStep(dest: Destination, es: seq<Event>, i: nat)
    requires i < |es|
    ensures Run(Start(dest), es[..i + 1]) == Step(Run(Start(dest), es[..i]), es[i])
    ensures var w := Run(Start(dest), es[..i]); w.conn.hook != Step(w, es[i]).conn.hook ==> Justified(w, es[i])
  {
    Reachable(dest, es[..i]);
    assert es[..i + 1][..i] == es[..i];
    var w := Run(Start(dest), es[..i]);
    if w.conn.hook != Step(w, es[i]).conn.hook {
      StagesLeftJustly(w, es[i]);
    }
  }

  // ---------------------------------------------------------------------------
  // Timer discipline

  predicate TimerRight(w: World) {
    w.conn.Alive() ==> (w.conn.timer <==> w.conn.hook != OnPump)
  }

  /** An event callback that deletes the timer although the stage goes on. */
  predicate Stray(w: World, e: Event) {
    && e.BevEvent? && Enabled(w, e)
    && match w.conn.hook
       case OnConnect => !e.flags.connected && !e.flags.error
       case OnPump => false
       case _ => !e.flags.eof && !e.flags.error
  }

  /** The timer keeps being right after a step if and only if the step is not a stray event. */
  lemma TimerStep(w: World, e: Event)
    requires Inv(w) && TimerRight(w)
    ensures TimerRight(Step(w, e)) <==> !Stray(w, e)
  {
  }

  predicate NoStray(w: World, es: seq<Event>)
    decreases |es|
  {
    es == [] || (NoStray(w, es[..|es| - 1]) && !Stray(Run(w, es[..|es| - 1]), es[|es| - 1]))
  }

  /** Without stray events the timer is pending in exactly the three waiting stages. */
  lemma {:induction false} TimerDiscipline(dest: Destination, es: seq<Event>)
    requires NoStray(Start(dest), es)
    ensures TimerRight(Run(Start(dest), es))
  {
    if es == [] {
    } else {
      var init := es[..|es| - 1];
      TimerDiscipline(dest, init);
      Reachable(dest, init);
      TimerStep(Run(Start(dest), init), es[|es| - 1]);
    }
  }

  /** Stray or not, no timeout ever frees a pumping client. */
  lemma TimeoutNeverHitsPump(dest: Destination, es: seq<Event>)
    ensures var w := Run(Start(dest), es);
            Enabled(w, TimerFires) ==> w.conn.hook != OnPump && w.conn.state != PumpingData
  {
    Reachable(dest, es);
  }

  // ---------------------------------------------------------------------------
  // Chunking independence

  /** A server stream: an accepting method reply, a success reply, then arbitrary payload. */
  predicate AcceptingStream(t: seq<byte>) {
    |t| >= 12 && t[..2] == [5, 0] && t[2] == 5 && t[3] == 0 && (t[5] == 1 || t[5] == 4)
  }

  /**
   * Environments of an accepting server: the relay side yields a prefix of t cut anywhere, except
   * that the server waits for the connect request after its method reply and that a reply longer
   * than the watermark is buffered in full before its callback runs. No timeout, and no event but the
   * connection one before the pump.
   */
  predicate Scripted(w: World, e: Event, t: seq<byte>)
    requires AcceptingStream(t)
  {
    match e
    case Readable(side, data) =>
      side == RelaySide ==>
        && w.relay.read + data <= t
        && (w.conn.hook == OnMethodReply ==> |w.relay.read + data| <= 2)
        && (w.conn.hook == OnConnectReply ==>
              |w.relay.read + data| < 12 || |w.relay.read + data| >= 2 + ReplyLength(t[2..]))
    case BevEvent(_, ev) => (w.conn.hook == OnConnect && ev.connected) || w.conn.hook == OnPump
    case TimerFires => false
    case _ => true
  }

  predicate ScriptedRun(w: World, es: seq<Event>, t: seq<byte>)
    requires AcceptingStream(t)
    decreases |es|
  {
    es == [] || (ScriptedRun(w, es[..|es| - 1], t) && Scripted(Run(w, es[..|es| - 1]), es[|es| - 1], t))
  }

  /** The stage is a function of how much of t has been read, not of how it was cut. */
  predicate OnScript(w: World, t: seq<byte>)
    requires AcceptingStream(t)
  {
    && w.relay.read <= t
    && !w.conn.dest.OtherFamily?
    && (w.conn.hook != OnPump ==> w.conn.Alive())
    && match w.conn.hook
       case OnConnect => w.relay.read == []
       case OnMethodReply => |w.relay.read| < 2
       case OnConnectReply => 2 <= |w.relay.read| < 12
       case OnPump => |w.relay.read| >= 2 + ReplyLength(t[2..]) && w.replyBuffered >= ReplyLength(t[2..])
  }

  lemma MethodChunkOnScript(w: World, data: seq<byte>, t: seq<byte>)
    requires AcceptingStream(t) && Inv(w) && OnScript(w, t) && w.conn.hook == OnMethodReply
    requires Enabled(w, Readable(RelaySide, data)) && Scripted(w, Readable(RelaySide, data), t)
    ensures OnScript(ReadStep(w, RelaySide, data), t)
  {
    var input := w.conn.inbound.input + data;
    assert input == t[..|input|];
    if |input| == 2 {
      assert input == METHOD_ACCEPTED;
    }
  }

  lemma HeaderSeen(input: seq<byte>, t: seq<byte>)
    requires METHOD_ACCEPTED + input <= t && |input| >= 10
    ensures input[0] == t[2] && input[1] == t[3] && input[3] == t[5] == t[2..][3]
  {
    var read := METHOD_ACCEPTED + input;
    assert read[2] == t[2] && read[3] == t[3] && read[5] == t[5];
  }

  lemma ReplyChunkOnScript(w: World, data: seq<byte>, t: seq<byte>)
    requires AcceptingStream(t) && Inv(w) && OnScript(w, t) && w.conn.hook == OnConnectReply
    requires Enabled(w, Readable(RelaySide, data)) && Scripted(w, Readable(RelaySide, data), t)
    ensures OnScript(ReadStep(w, RelaySide, data), t)
  {
    var input := w.conn.inbound.input + data;
    var read := w.relay.read + data;
    assert read == METHOD_ACCEPTED + input;
    if |input| >= 10 {
      HeaderSeen(input, t);
    }
  }

  lemma HandshakeStepOnScript(w: World, e: Event, t: seq<byte>)
    requires AcceptingStream(t) && Inv(w) && OnScript(w, t) && Scripted(w, e, t)
    requires Enabled(w, e) && w.conn.hook != OnPump
    ensures OnScript(Step(w, e), t)
  {
    if e.Readable? {
      match w.conn.hook {
        case OnConnect =>
        case OnMethodReply => MethodChunkOnScript(w, e.data, t);
        case OnConnectReply => ReplyChunkOnScript(w, e.data, t);
      }
    }
  }

  lemma StepOnScript(w: World, e: Event, t: seq<byte>)
    requires AcceptingStream(t) && Inv(w) && OnScript(w, t) && Scripted(w, e, t)
    ensures OnScript(Step(w, e), t)
  {
    if w.conn.hook == OnPump {
      PumpKeepsRunning(w, e);
      StepKeepsDestination(w, e);
      assert Step(w, e).relay.read <= t;
    } else if Enabled(w, e) {
      HandshakeStepOnScript(w, e, t);
    }
  }

  lemma {:induction false} ScriptedRunOnScript(dest: Destination, es: seq<Event>, t: seq<byte>)
    requires !dest.OtherFamily? && AcceptingStream(t) && ScriptedRun(Start(dest), es, t)
    ensures OnScript(Run(Start(dest), es), t)
  {
    if es == [] {
    } else {
      var init := es[..|es| - 1];
      ScriptedRunOnScript(dest, init, t);
      Reachable(dest, init);
      StepOnScript(Run(Start(dest), init), es[|es| - 1], t);
    }
  }

  lemma TailOfPrefix(read: seq<byte>, t: seq<byte>, header: nat)
    requires read <= t && header <= |read|
    ensures read[header..] + t[|read|..] == t[header..]
  {
  }

  /** However t is cut, reading past the replies starts the pump, which forwards exactly the rest. */
  lemma ChunkingStartsPump(dest: Destination, es: seq<Event>, t: seq<byte>)
    requires !dest.OtherFamily? && AcceptingStream(t) && ScriptedRun(Start(dest), es, t)
    ensures var w := Run(Start(dest), es);
            var header := if t[5] == 4 then 24 else 12;
            && (w.conn.hook == OnPump <==> |w.relay.read| >= 12)
            && (w.conn.hook == OnPump ==>
                  header <= |w.relay.read| <= |t| && Forwarded(w) + t[|w.relay.read|..] == t[header..])
  {
    var w := Run(Start(dest), es);
    ScriptedRunOnScript(dest, es, t);
    if w.conn.hook == OnPump {
      ClientStreamFidelity(dest, es);
      var header := 2 + ReplyLength(t[2..]);
      assert w.relay.read[2..][3] == w.relay.read[5] == t[5] == t[2..][3];
      assert Forwarded(w) == w.relay.read[header..];
      TailOfPrefix(w.relay.read, t, header);
    }
  }

  /** Two cuts of the same server bytes leave the client with the same bytes. */
  lemma ChunkingIndependence(dest: Destination, es: seq<Event>, fs: seq<Event>, t: seq<byte>)
    requires !dest.OtherFamily? && AcceptingStream(t)
    requires ScriptedRun(Start(dest), es, t) && ScriptedRun(Start(dest), fs, t)
    requires Run(Start(dest), es).relay.read == Run(Start(dest), fs).relay.read
    ensures var (w, v) := (Run(Start(dest), es), Run(Start(dest), fs));
            && (w.conn.hook == OnPump <==> v.conn.hook == OnPump)
            && (w.conn.hook == OnPump ==> Forwarded(w) == Forwarded(v))
  {
    var w, v := Run(Start(dest), es), Run(Start(dest), fs);
    ChunkingStartsPump(dest, es, t);
    ChunkingStartsPump(dest, fs, t);
    if w.conn.hook == OnPump {
      var rest := t[|w.relay.read|..];
      assert Forwarded(w) == (Forwarded(w) + rest)[..|Forwarded(w)|];
      assert Forwarded(v) == (Forwarded(v) + rest)[..|Forwarded(v)|];
    }
  }
}
