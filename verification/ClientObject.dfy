/**
 * The client structure with its two bufferevents, updated in place by the callbacks of
 * src/socks5.c and src/bufferpump.c. Every callback is proved against its function in Connection.
 */
module ClientObject {
  import opened Bytes
  import opened Socks5
  import opened Connection
  import opened Runs

  /** A libevent bufferevent: two buffers, two switches and the read low watermark. */
  class BufferEvent {
    var input: seq<byte>
    var output: seq<byte>
    var readOn: bool
    var writeOn: bool
    var low: nat

    /** bufferevent_socket_new leaves writing enabled and reading disabled. */
    constructor ()
      ensures input == [] && output == [] && !readOn && writeOn && low == 0
    {
      input, output, readOn, writeOn, low := [], [], false, true, 0;
    }

    /** evbuffer_remove_buffer over the whole input. */
    method MoveInputTo(target: BufferEvent)
      requires target != this
      modifies this`input, target`output
      ensures input == [] && target.output == old(target.output) + old(input)
    {
      var srclen := |input|;
      target.output := target.output + input[..srclen];
      input := input[srclen..];
    }

    method DrainInput(n: nat)
      modifies this`input
      ensures input == Drain(old(input), n)
    {
      input := if n >= |input| then [] else input[n..];
    }

    method Disable()
      modifies this`readOn, this`writeOn
      ensures !readOn && !writeOn
    {
      readOn, writeOn := false, false;
    }
  }

  /** The packed request structures, filled field by field. */
  method BuildConnectRequest(dest: Destination) returns (req: array<byte>)
    requires !dest.OtherFamily?
    ensures fresh(req) && req[..] == ConnectRequest(dest)
  {
    var addr: seq<byte> := if dest.V4? then dest.addr4 else dest.addr6;
    var port := PortBytes(if dest.V4? then dest.port4 else dest.port6);
    req := new byte[6 + |addr|];
    req[0] := VERSION;
    req[1] := CMD_CONNECT;
    req[2] := 0x00;
    req[3] := if dest.V4? then ATYP_IPV4 else ATYP_IPV6;
    req[4 + |addr|] := port[0];
    req[5 + |addr|] := port[1];
    for i := 0 to |addr|
      invariant req[0] == VERSION && req[1] == CMD_CONNECT && req[2] == 0
      invariant req[3] == (if dest.V4? then ATYP_IPV4 else ATYP_IPV6)
      invariant forall j | 0 <= j < i :: req[4 + j] == addr[j]
      invariant req[4 + |addr|] == port[0] && req[5 + |addr|] == port[1]
    {
      req[4 + i] := addr[i];
    }
    Fields(req[..], addr, port);
  }

  /** The fields of a request lie one behind the other. */
  lemma Fields(s: seq<byte>, addr: seq<byte>, port: seq<byte>)
    requires |s| == 6 + |addr| && |port| == 2
    requires forall j | 0 <= j < |addr| :: s[4 + j] == addr[j]
    requires s[4 + |addr|] == port[0] && s[5 + |addr|] == port[1]
    ensures s == [s[0], s[1], s[2], s[3]] + addr + port
  {
    assert s[4..4 + |addr|] == addr;
  }

  class Client {
    const dest: Destination
    const clientBev: BufferEvent
    const relayBev: BufferEvent
    var state: ClientState
    var hook: Hook
    var timerAllocated: bool
    var timerPending: bool
    var clientShutdownRead: bool
    var clientShutdownWrite: bool
    var relayShutdownRead: bool
    var relayShutdownWrite: bool

    ghost predicate Valid()
      reads this
    {
      clientBev != relayBev && timerAllocated && state != Destroying
    }

    ghost predicate Ready()
      reads this
    {
      Valid() && state != Destroyed
    }

    /** No timer is pending, and both bufferevents are disabled. */
    ghost predicate Quiet()
      reads this, clientBev, relayBev
    {
      !timerPending && !clientBev.readOn && !clientBev.writeOn && !relayBev.readOn && !relayBev.writeOn
    }

    /** The client as two flows. */
    ghost function Abs(): Conn
      reads this, clientBev, relayBev
    {
      Conn(state, hook, timerPending, dest,
           Flow(clientBev.input, relayBev.output, clientShutdownRead, relayShutdownWrite,
                clientBev.readOn, relayBev.writeOn, clientBev.low),
           Flow(relayBev.input, clientBev.output, relayShutdownRead, clientShutdownWrite,
                relayBev.readOn, clientBev.writeOn, relayBev.low))
    }

    /** transocks_client_new, the listener's set-up and transocks_start_connect_relay. */
    constructor (dest: Destination)
      ensures Valid() && fresh(clientBev) && fresh(relayBev) && Abs() == Started(dest)
    {
      this.dest := dest;
      clientBev := new BufferEvent();
      relayBev := new BufferEvent();
      clientShutdownRead, clientShutdownWrite := false, false;
      relayShutdownRead, relayShutdownWrite := false, false;
      state, hook, timerAllocated, timerPending := New, OnConnect, false, false;
      new;
      SetTimeout();
    }

    // src/context.c

    method SetTimeout()
      modifies this`timerAllocated, this`timerPending
      ensures timerAllocated && timerPending
    {
      if !timerAllocated {
        timerAllocated := true;
        timerPending := true;
      } else {
        timerPending := false;
        timerPending := true;
      }
    }

    method Free()
      requires Valid()
      modifies this, clientBev, relayBev
      ensures Valid() && Abs() == if old(state) == Destroyed then old(Abs()) else old(Abs()).Freed()
      ensures state == Destroyed && (old(state) != Destroyed ==> Quiet())
    {
      if state == Destroyed || state == Destroying {
        return;
      }
      state := Destroying;
      timerPending := false;
      relayBev.Disable();
      clientBev.Disable();
      state := Destroyed;
    }

    // src/bufferpump.c

    method BufferpumpFree()
      requires Ready()
      modifies this, clientBev, relayBev
      ensures Valid() && Abs() == old(Abs()).Freed()
    {
      clientBev.Disable();
      relayBev.Disable();
      Free();
    }

    method FreeIfClosed()
      requires Ready()
      modifies this, clientBev, relayBev
      ensures Valid() && Abs() == CheckClose(old(Abs()))
    {
      if clientShutdownRead && clientShutdownWrite && relayShutdownRead && relayShutdownWrite {
        BufferpumpFree();
      }
    }

    method ClientReadCallback()
      requires Ready()
      modifies this, clientBev, relayBev
      ensures Valid() && Abs() == PumpRead(old(Abs()), ClientSide)
    {
      clientBev.MoveInputTo(relayBev);
    }

    method RelayReadCallback()
      requires Ready()
      modifies this, clientBev, relayBev
      ensures Valid() && Abs() == PumpRead(old(Abs()), RelaySide)
    {
      relayBev.MoveInputTo(clientBev);
    }

    method RelayWriteCallback()
      requires Ready()
      modifies this, clientBev, relayBev
      ensures Valid() && Abs() == PumpWritten(old(Abs()), RelaySide)
    {
      if |relayBev.output| == 0 && clientShutdownRead {
        relayShutdownWrite := true;
      }
      FreeIfClosed();
    }

    method ClientWriteCallback()
      requires Ready()
      modifies this, clientBev, relayBev
      ensures Valid() && Abs() == PumpWritten(old(Abs()), ClientSide)
    {
      if |clientBev.output| == 0 && relayShutdownRead {
        clientShutdownWrite := true;
      }
      FreeIfClosed();
    }

    method ClientEventCallback(ev: Flags)
      requires Ready()
      modifies this, clientBev, relayBev
      ensures Valid() && Abs() == PumpEvent(old(Abs()), ClientSide, ev)
      ensures ev.reading && ev.eof ==>
                && clientShutdownRead && !clientBev.readOn
                && relayShutdownWrite == (old(relayShutdownWrite) || |relayBev.output| == 0)
      ensures !(ev.reading && ev.eof) && ev.writing && (ev.eof || (ev.error && ev.reset)) ==>
                clientShutdownWrite && !clientBev.writeOn
      ensures !(ev.reading && ev.eof) && !(ev.writing && (ev.eof || ev.reset)) && ev.error ==> state == Destroyed
    {
      if ev.reading && ev.eof {
        clientShutdownRead := true;
        clientBev.readOn := false;
        if |relayBev.output| == 0 && clientShutdownRead {
          relayShutdownWrite := true;
        }
      } else if ev.writing && ((ev.error && ev.reset) || ev.eof) {
        clientShutdownWrite := true;
        clientBev.writeOn := false;
      } else if ev.error {
        BufferpumpFree();
        return;
      }
      FreeIfClosed();
    }

    method RelayEventCallback(ev: Flags)
      requires Ready()
      modifies this, clientBev, relayBev
      ensures Valid() && Abs() == PumpEvent(old(Abs()), RelaySide, ev)
      ensures ev.reading && ev.eof ==>
                && relayShutdownRead && !relayBev.readOn
                && clientShutdownWrite == (old(clientShutdownWrite) || |clientBev.output| == 0)
      ensures !(ev.reading && ev.eof) && ev.writing && (ev.eof || (ev.error && ev.reset)) ==>
                relayShutdownWrite && !relayBev.writeOn
      ensures !(ev.reading && ev.eof) && !(ev.writing && (ev.eof || ev.reset)) && ev.error ==> state == Destroyed
    {
      if ev.reading && ev.eof {
        relayShutdownRead := true;
        relayBev.readOn := false;
        if |clientBev.output| == 0 && relayShutdownRead {
          clientShutdownWrite := true;
        }
      } else if ev.writing && ((ev.error && ev.reset) || ev.eof) {
        relayShutdownWrite := true;
        relayBev.writeOn := false;
      } else if ev.error {
        BufferpumpFree();
        return;
      }
      FreeIfClosed();
    }

    method StartPump()
      requires Ready()
      modifies this, clientBev, relayBev
      ensures Valid() && Abs() == StartBufferpump(old(Abs()))
    {
      clientBev.low, relayBev.low := 0, 0;
      hook := OnPump;
      clientBev.readOn, clientBev.writeOn := true, true;
      relayBev.readOn, relayBev.writeOn := true, true;
      state := PumpingData;
    }

    // src/socks5.c

    method SendMethodRequest()
      requires Ready()
      modifies this, clientBev, relayBev
      ensures Valid() && Abs() == SendMethodSelection(old(Abs()))
    {
      relayBev.low := 2;
      relayBev.output := relayBev.output + METHOD_REQUEST;
      hook := OnMethodReply;
      relayBev.readOn := true;
      SetTimeout();
    }

    method SendRequest()
      requires Ready()
      modifies this, clientBev, relayBev
      ensures Valid() && Abs() == SendConnectRequest(old(Abs()))
    {
      if dest.OtherFamily? {
        Free();
        return;
      }
      var req := BuildConnectRequest(dest);
      relayBev.output := relayBev.output + req[..];
      relayBev.low := 10;
      hook := OnConnectReply;
      relayBev.readOn := true;
      SetTimeout();
    }

    method OnConnectEvent(ev: Flags)
      requires Ready()
      modifies this, clientBev, relayBev
      ensures Valid() && Abs() == RelayConnectEvent(old(Abs()), ev)
      ensures state == Destroyed <==> ev.error && !ev.connected
    {
      timerPending := false;
      if ev.connected {
        state := RelayConnected;
        SendMethodRequest();
        return;
      }
      if ev.error {
        Free();
      }
    }

    method OnHandshakeEvent(ev: Flags)
      requires Ready()
      modifies this, clientBev, relayBev
      ensures Valid() && Abs() == HandshakeEvent(old(Abs()), ev)
      ensures !timerPending && (state == Destroyed <==> ev.eof || ev.error)
    {
      timerPending := false;
      if ev.eof || ev.error {
        Free();
      }
    }

    method OnMethodReplyReadable()
      requires Ready()
      modifies this, clientBev, relayBev
      ensures Valid() && Abs() == MethodReply(old(Abs()))
      ensures state == Destroyed <==> old(relayBev.input) != [5, 0] || dest.OtherFamily?
    {
      timerPending := false;
      if |relayBev.input| < 2 || relayBev.input[0] != VERSION || relayBev.input[1] != METHOD_NOAUTH {
        Free();
        return;
      }
      relayBev.DrainInput(2);
      if |relayBev.input| != 0 {
        Free();
        return;
      }
      SendRequest();
    }

    method OnConnectReplyReadable()
      requires Ready()
      modifies this, clientBev, relayBev
      ensures Valid() && Abs() == ConnectReply(old(Abs()))
      ensures var s := old(relayBev.input);
              if |s| >= 10 && s[0] == 5 && s[1] == 0 && s[3] == 1 then state == PumpingData && relayBev.input == s[10..]
              else if |s| >= 10 && s[0] == 5 && s[1] == 0 && s[3] == 4 then
                state == PumpingData && relayBev.input == if |s| < 22 then [] else s[22..]
              else state == Destroyed
    {
      timerPending := false;
      if |relayBev.input| < 10 {
        Free();
        return;
      }
      var ver, rep, atyp := relayBev.input[0], relayBev.input[1], relayBev.input[3];
      if ver != VERSION || rep != REP_SUCCEEDED {
        Free();
        return;
      }
      if atyp == ATYP_IPV4 {
        relayBev.DrainInput(10);
      } else if atyp == ATYP_IPV6 {
        relayBev.DrainInput(22);
      } else {
        Free();
        return;
      }
      state := FinishedHandshake;
      relayBev.Disable();
      StartPump();
    }

    method OnTimeout()
      requires Ready()
      modifies this, clientBev, relayBev
      ensures Valid() && Abs() == TimedOut(old(Abs()))
      ensures state == Destroyed && Quiet()
    {
      Free();
    }

    // ---------------------------------------------------------------------------
    // The event loop

    method RunReadCallback(side: Side)
      requires Ready()
      modifies this, clientBev, relayBev
      ensures Valid() && Abs() == ReadCallback(old(Abs()), side)
    {
      match hook {
        case OnConnect =>
        case OnMethodReply => if side.RelaySide? { OnMethodReplyReadable(); }
        case OnConnectReply => if side.RelaySide? { OnConnectReplyReadable(); }
        case OnPump => if side.ClientSide? { ClientReadCallback(); } else { RelayReadCallback(); }
      }
    }

    method RunWriteCallback(side: Side)
      requires Ready()
      modifies this, clientBev, relayBev
      ensures Valid() && Abs() == PumpWritten(old(Abs()), side)
    {
      if side.ClientSide? { ClientWriteCallback(); } else { RelayWriteCallback(); }
    }

    method RunEventCallback(side: Side, ev: Flags)
      requires Ready()
      modifies this, clientBev, relayBev
      ensures Valid() && Abs() == EventCallback(old(Abs()), side, ev)
    {
      match hook {
        case OnConnect => OnConnectEvent(ev);
        case OnMethodReply => OnHandshakeEvent(ev);
        case OnConnectReply => OnHandshakeEvent(ev);
        case OnPump => if side.ClientSide? { ClientEventCallback(ev); } else { RelayEventCallback(ev); }
      }
    }

    method Bev(side: Side) returns (b: BufferEvent)
      ensures b == if side.ClientSide? then clientBev else relayBev
    {
      b := if side.ClientSide? then clientBev else relayBev;
    }

    method DispatchRead(side: Side, data: seq<byte>, ghost w: World)
      requires Ready() && Abs() == w.conn
      modifies this, clientBev, relayBev
      ensures Valid() && Abs() == ReadStep(w, side, data).conn
    {
      var b := Bev(side);
      b.input := b.input + data;
      if |b.input| >= b.low {
        RunReadCallback(side);
      }
    }

    method DispatchWrite(side: Side, n: nat, ghost w: World)
      requires Ready() && Abs() == w.conn && n <= |w.conn.To(side).output|
      modifies this, clientBev, relayBev
      ensures Valid() && Abs() == WriteStep(w, side, n).conn
    {
      var b := Bev(side);
      b.output := b.output[n..];
      if b.output == [] && hook == OnPump {
        RunWriteCallback(side);
      }
    }

    /** libevent handles one event: it moves bytes and runs the installed callback. */
    method Dispatch(e: Event, ghost w: World)
      requires Ready() && Abs() == w.conn && Enabled(w, e)
      modifies this, clientBev, relayBev
      ensures Valid() && Abs() == Step(w, e).conn
    {
      match e {
        case Readable(side, data) => DispatchRead(side, data, w);
        case Writable(side, n) => DispatchWrite(side, n, w);
        case WriteCallback(side) => RunWriteCallback(side);
        case BevEvent(side, ev) => RunEventCallback(side, ev);
        case TimerFires => OnTimeout();
      }
    }
  }

  /** The object-level client goes through exactly the states of the runs that the theorems speak of. */
  method Replay(dest: Destination, es: seq<Event>) returns (c: Client)
    ensures c.Valid() && c.Abs() == Run(Start(dest), es).conn
  {
    c := new Client(dest);
    ghost var w := Start(dest);
    for i := 0 to |es|
      invariant c.Valid() && fresh(c) && fresh(c.clientBev) && fresh(c.relayBev)
      invariant w == Run(Start(dest), es[..i]) && c.Abs() == w.conn
    {
      assert es[..i + 1][..i] == es[..i];
      if Occurs(c, es[i]) {
        c.Dispatch(es[i], w);
      }
      w := Step(w, es[i]);
    }
    assert es[..|es|] == es;
  }

  /** libevent's own test of whether an event can occur now. */
  predicate Occurs(c: Client, e: Event)
    reads c, c.clientBev, c.relayBev
  {
    && c.state != Destroyed
    && match e
       case Readable(side, data) => data != [] && (if side.ClientSide? then c.clientBev else c.relayBev).readOn
       case Writable(side, n) =>
         var b := if side.ClientSide? then c.clientBev else c.relayBev;
         0 < n <= |b.output| && b.writeOn
       case WriteCallback(_) => c.hook == OnPump
       case BevEvent(side, _) => side == RelaySide || c.hook == OnPump
       case TimerFires => c.timerPending
  }
}
