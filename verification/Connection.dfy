/**
 * What the callbacks of src/socks5.c and src/bufferpump.c do to one client, seen direction by
 * direction. The client structure pairs two bufferevents with four shutdown flags; here they are
 * regrouped into two flows, and ClientObject shows that the pointer-level callbacks compute these
 * functions.
 */
module Connection {
  import opened Bytes
  import opened Socks5

  datatype ClientState = New | RelayConnected | FinishedHandshake | PumpingData | Destroying | Destroyed

  /** The callback set installed on the relay bufferevent. */
  datatype Hook = OnConnect | OnMethodReply | OnConnectReply | OnPump

  /** The event mask of a bufferevent event callback; reset says errno is ECONNRESET. */
  datatype Flags = Flags(reading: bool, writing: bool, eof: bool, error: bool, connected: bool, reset: bool) {
    predicate ReadEof() {
      reading && eof
    }

    predicate WriteEof() {
      writing && ((error && reset) || eof)
    }
  }

  /**
   * One direction: the input buffer, read switch and low watermark of its source, the output buffer
   * and write switch of its target, and the two shutdown flags.
   */
  datatype Flow = Flow(input: seq<byte>, output: seq<byte>, sourceEof: bool, targetShut: bool,
                       readOn: bool, writeOn: bool, low: nat)
  {
    /** A read callback moves the whole input to the output. */
    function Move(): Flow {
      this.(input := [], output := output + input)
    }

    /** The guard in front of every half-close of the target. */
    predicate Drained() {
      output == [] && sourceEof
    }

    function HalfCloseIfDrained(): Flow {
      if Drained() then this.(targetShut := true) else this
    }

    function EndSource(): Flow {
      this.(sourceEof := true, readOn := false).HalfCloseIfDrained()
    }

    function EndTarget(): Flow {
      this.(targetShut := true, writeOn := false)
    }

    function Disabled(): Flow {
      this.(readOn := false, writeOn := false)
    }

    predicate Closed() {
      sourceEof && targetShut
    }
  }

  datatype Side = ClientSide | RelaySide

  function Other(side: Side): Side {
    if side.ClientSide? then RelaySide else ClientSide
  }

  datatype Conn = Conn(state: ClientState, hook: Hook, timer: bool, dest: Destination, outbound: Flow, inbound: Flow)
  {
    /** The flow whose bytes come from the given side. */
    function From(side: Side): Flow {
      if side.ClientSide? then outbound else inbound
    }

    /** The flow whose bytes go to the given side. */
    function To(side: Side): Flow {
      From(Other(side))
    }

    function WithFrom(side: Side, f: Flow): Conn {
      if side.ClientSide? then this.(outbound := f) else this.(inbound := f)
    }

    function WithTo(side: Side, f: Flow): Conn {
      WithFrom(Other(side), f)
    }

    predicate Alive() {
      state != Destroyed
    }

    /** transocks_client_free, and transocks_bufferpump_free in front of it. */
    function Freed(): Conn {
      this.(state := Destroyed, timer := false, outbound := outbound.Disabled(), inbound := inbound.Disabled())
    }
  }

  // ---------------------------------------------------------------------------
  // src/bufferpump.c

  function CheckClose(c: Conn): Conn {
    if c.outbound.Closed() && c.inbound.Closed() then c.Freed() else c
  }

  function PumpRead(c: Conn, side: Side): Conn {
    c.WithFrom(side, c.From(side).Move())
  }

  function PumpWritten(c: Conn, side: Side): Conn {
    CheckClose(c.WithTo(side, c.To(side).HalfCloseIfDrained()))
  }

  function PumpEvent(c: Conn, side: Side, ev: Flags): Conn {
    if ev.ReadEof() then CheckClose(c.WithFrom(side, c.From(side).EndSource()))
    else if ev.WriteEof() then CheckClose(c.WithTo(side, c.To(side).EndTarget()))
    else if ev.error then c.Freed()
    else CheckClose(c)
  }

  function StartBufferpump(c: Conn): Conn {
    c.(state := PumpingData, hook := OnPump,
       outbound := c.outbound.(low := 0, readOn := true, writeOn := true),
       inbound := c.inbound.(low := 0, readOn := true, writeOn := true))
  }

  // ---------------------------------------------------------------------------
  // src/socks5.c

  function SendMethodSelection(c: Conn): Conn {
    c.(hook := OnMethodReply, timer := true,
       outbound := c.outbound.(output := c.outbound.output + METHOD_REQUEST),
       inbound := c.inbound.(low := 2, readOn := true))
  }

  function SendConnectRequest(c: Conn): Conn {
    if c.dest.OtherFamily? then c.Freed()
    else
      c.(hook := OnConnectReply, timer := true,
         outbound := c.outbound.(output := c.outbound.output + ConnectRequest(c.dest)),
         inbound := c.inbound.(low := 10, readOn := true))
  }

  function RelayConnectEvent(c: Conn, ev: Flags): Conn {
    var c := c.(timer := false);
    if ev.connected then SendMethodSelection(c.(state := RelayConnected))
    else if ev.error then c.Freed()
    else c
  }

  function HandshakeEvent(c: Conn, ev: Flags): Conn {
    var c := c.(timer := false);
    if ev.eof || ev.error then c.Freed() else c
  }

  function MethodReply(c: Conn): Conn {
    var c := c.(timer := false);
    var input := c.inbound.input;
    if |input| < 2 || input[0] != VERSION || input[1] != METHOD_NOAUTH then c.Freed()
    else
      var c := c.(inbound := c.inbound.(input := Drain(input, 2)));
      if c.inbound.input != [] then c.Freed() else SendConnectRequest(c)
  }

  function ConnectReply(c: Conn): Conn {
    var c := c.(timer := false);
    var input := c.inbound.input;
    if !SuccessReply(input) then c.Freed()
    else
      StartBufferpump(c.(state := FinishedHandshake,
                         outbound := c.outbound.(writeOn := false),
                         inbound := c.inbound.(input := Drain(input, ReplyLength(input)), readOn := false)))
  }

  function TimedOut(c: Conn): Conn {
    c.Freed()
  }

  /** The state transocks_start_connect_relay leaves behind for an accepted client. */
  function Started(dest: Destination): Conn {
    var idle := Flow([], [], false, false, false, true, 0);
    Conn(New, OnConnect, true, dest, idle, idle)
  }
}
