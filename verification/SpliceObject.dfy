/**
 * The splicepump structure with its two pipes, updated in place by the callbacks of
 * src/splicepump.c. Every callback is proved against its function in Splicepump.
 */
module SpliceObject {
  import opened Splicepump
  import SpliceRuns

  /** transocks_splicepipe, with the true state of its two descriptors. */
  class SplicePipe {
    var readFd: int
    var writeFd: int
    var readOpen: bool
    var writeOpen: bool
    var dataInPipe: nat
    const capacity: nat

    constructor (readFd: int, writeFd: int, capacity: nat)
      ensures this.readFd == readFd && this.writeFd == writeFd && this.capacity == capacity
      ensures readOpen && writeOpen && dataInPipe == 0
    {
      this.readFd, this.writeFd, this.capacity := readFd, writeFd, capacity;
      readOpen, writeOpen, dataInPipe := true, true, 0;
    }

    method Close()
      modifies this
      ensures readFd == writeFd == INVALID_FD && !readOpen && !writeOpen && dataInPipe == old(dataInPipe)
    {
      writeOpen, writeFd := false, INVALID_FD;
      readOpen, readFd := false, INVALID_FD;
    }
  }

  /** A registered libevent event. */
  class PumpEvent {
    var pending: bool
    var active: bool

    constructor ()
      ensures pending && !active
    {
      pending, active := true, false;
    }

    /** TRANSOCKS_EVENT_ACTIVE: activates only an event that is not pending. */
    method Activate()
      modifies this
      ensures active == (old(active) || !pending) && pending == old(pending)
    {
      if !pending {
        active := true;
      }
    }

    method Delete()
      modifies this
      ensures !pending && !active
    {
      pending, active := false, false;
    }
  }

  class SpliceClient {
    const inboundPipe: SplicePipe
    const outboundPipe: SplicePipe
    const clientReadEv: PumpEvent
    const clientWriteEv: PumpEvent
    const relayReadEv: PumpEvent
    const relayWriteEv: PumpEvent
    var alive: bool
    var clientFd: int
    var relayFd: int
    var clientShutdownRead: bool
    var clientShutdownWrite: bool
    var relayShutdownRead: bool
    var relayShutdownWrite: bool

    ghost function Parts(): set<object> {
      {inboundPipe, outboundPipe, clientReadEv, clientWriteEv, relayReadEv, relayWriteEv}
    }

    ghost predicate Valid() {
      && inboundPipe != outboundPipe
      && clientReadEv != clientWriteEv && clientReadEv != relayReadEv && clientReadEv != relayWriteEv
      && clientWriteEv != relayReadEv && clientWriteEv != relayWriteEv && relayReadEv != relayWriteEv
    }

    ghost function AbsLane(pipe: SplicePipe, eof: bool, shut: bool, source: PumpEvent, target: PumpEvent): Lane
      reads pipe, source, target
    {
      Lane(pipe.readFd, pipe.writeFd, pipe.readOpen, pipe.writeOpen, pipe.capacity, pipe.dataInPipe,
           eof, shut, source.pending, target.pending, target.active)
    }

    /** The client as two lanes: the inbound one runs from the relay to the client. */
    ghost function Abs(): Pump
      reads this, Parts()
    {
      Pump(alive, clientFd, relayFd,
           AbsLane(outboundPipe, clientShutdownRead, relayShutdownWrite, clientReadEv, relayWriteEv),
           AbsLane(inboundPipe, relayShutdownRead, clientShutdownWrite, relayReadEv, clientWriteEv))
    }

    /** transocks_splicepump_start_pump on the two sockets and two new pipes, after a successful set-up. */
    constructor (p: Pump)
      requires FreshPump(p)
      ensures Valid() && fresh(Parts()) && Abs() == p
    {
      clientFd, relayFd, alive := p.clientFd, p.relayFd, true;
      inboundPipe := new SplicePipe(p.inbound.readFd, p.inbound.writeFd, p.inbound.capacity);
      outboundPipe := new SplicePipe(p.outbound.readFd, p.outbound.writeFd, p.outbound.capacity);
      clientReadEv := new PumpEvent();
      clientWriteEv := new PumpEvent();
      relayReadEv := new PumpEvent();
      relayWriteEv := new PumpEvent();
      clientShutdownRead, clientShutdownWrite := false, false;
      relayShutdownRead, relayShutdownWrite := false, false;
    }

    method Free()
      requires Valid()
      modifies this, Parts()
      ensures Abs() == old(Abs()).Freed()
      ensures !alive && clientFd == -1 && relayFd == -1
      ensures forall p | p in {inboundPipe, outboundPipe} ::
                p.readFd == -1 && p.writeFd == -1 && !p.readOpen && !p.writeOpen
      ensures forall e | e in {clientReadEv, clientWriteEv, relayReadEv, relayWriteEv} :: !e.pending && !e.active
    {
      inboundPipe.Close();
      outboundPipe.Close();
      clientReadEv.Delete();
      clientWriteEv.Delete();
      relayReadEv.Delete();
      relayWriteEv.Delete();
      clientFd, relayFd, alive := INVALID_FD, INVALID_FD, false;
    }

    method CheckTermination(direction: Direction)
      requires Valid()
      modifies this, Parts()
      ensures Abs() == CheckNormalTermination(old(Abs()), direction)
    {
      var flag := false;
      if clientFd == INVALID_FD || relayFd == INVALID_FD {
        flag := true;
      } else {
        if direction == Inbound && relayShutdownRead && clientShutdownWrite {
          flag := true;
        }
        if direction == Outbound && clientShutdownRead && relayShutdownWrite {
          flag := true;
        }
      }
      if flag {
        Free();
      }
    }

    /** The source has no more data: its flag is set, the pipe's write end closed, its event deleted. */
    method EndSource(direction: Direction)
      requires Valid()
      modifies this, Parts()
      ensures Abs() == old(Abs()).With(direction, old(Abs()).Of(direction)
                                                    .(sourceEof := true, writeOpen := false, sourceEvent := false))
    {
      if direction == Inbound {
        relayShutdownRead := true;
        inboundPipe.writeOpen := false;
        relayReadEv.Delete();
      } else {
        clientShutdownRead := true;
        outboundPipe.writeOpen := false;
        clientReadEv.Delete();
      }
    }

    /** The pipe ended: the target is shut for writing and the pipe's read end closed. */
    method EndTarget(direction: Direction)
      requires Valid()
      modifies this, Parts()
      ensures Abs() == old(Abs()).With(direction, old(Abs()).Of(direction).(targetShut := true, readOpen := false))
    {
      if direction == Inbound {
        clientShutdownWrite := true;
        inboundPipe.readOpen := false;
      } else {
        relayShutdownWrite := true;
        outboundPipe.readOpen := false;
      }
    }

    function Pipe(direction: Direction): SplicePipe {
      if direction == Inbound then inboundPipe else outboundPipe
    }

    /** Both sockets are there and the direction has not ended at both sides. */
    ghost predicate Open(direction: Direction)
      reads this
    {
      && clientFd != -1 && relayFd != -1
      && if direction == Inbound then !(relayShutdownRead && clientShutdownWrite)
         else !(clientShutdownRead && relayShutdownWrite)
    }

    /** data_in_pipe += bytes or -= -bytes, on size_t. */
    method Count(direction: Direction, bytes: int)
      requires Valid()
      modifies Parts()
      ensures Abs() == old(Abs()).With(direction, Counted(old(Abs()).Of(direction), bytes))
    {
      var pipe := Pipe(direction);
      pipe.dataInPipe := (pipe.dataInPipe + bytes) % SIZE_T;
    }

    /** A pipe with data should be cleared soon: activate its reader unless that is pending anyway. */
    method WakeTarget(direction: Direction)
      requires Valid()
      modifies Parts()
      ensures var (p, l) := (old(Abs()), old(Abs()).Of(direction));
              var wake := p.TargetFd(direction) != INVALID_FD && l.dataInPipe > 0 && !l.pipeEvent;
              Abs() == p.With(direction, l.(activated := l.activated || wake))
    {
      var pipe := Pipe(direction);
      var targetFd := if direction == Inbound then clientFd else relayFd;
      if targetFd != INVALID_FD && pipe.dataInPipe > 0 {
        if direction == Inbound { clientWriteEv.Activate(); } else { relayWriteEv.Activate(); }
      }
    }

    method MoveIntoPipe(direction: Direction, n: int, retriable: bool)
      requires Valid() && n >= -1
      modifies this, Parts()
      ensures Abs() == WriteToPipe(old(Abs()), direction, n, retriable)
      ensures n == -1 && !retriable ==> !alive
      ensures n == -1 && retriable && old(Open(direction)) && old(Pipe(direction).writeFd) != -1 ==> alive == old(alive)
    {
      var pipe := Pipe(direction);
      var fromFd := if direction == Inbound then relayFd else clientFd;
      if fromFd == INVALID_FD || pipe.writeFd == INVALID_FD {
        Free();
        return;
      }
      match SingleSplice(n, retriable) {
        case NormalTransfer => Count(direction, n);
        case CanRetry => WakeTarget(direction);
        case FatalFailure =>
          Free();
          return;
        case ReadEof => EndSource(direction);
      }
      CheckTermination(direction);
    }

    method MoveOutOfPipe(direction: Direction, n: int, retriable: bool)
      requires Valid() && n >= -1
      modifies this, Parts()
      ensures Abs() == ReadFromPipe(old(Abs()), direction, n, retriable)
      ensures n == -1 && !retriable ==> !alive
      ensures n == -1 && retriable && old(Open(direction)) && old(Pipe(direction).readFd) != -1 ==> Abs() == old(Abs())
    {
      var pipe := Pipe(direction);
      var toFd := if direction == Inbound then clientFd else relayFd;
      if pipe.readFd == INVALID_FD || toFd == INVALID_FD {
        Free();
        return;
      }
      match SingleSplice(n, retriable) {
        case NormalTransfer => Count(direction, -n);
        case CanRetry =>
        case FatalFailure =>
          Free();
          return;
        case ReadEof =>
          EndTarget(direction);
      }
      CheckTermination(direction);
    }

    /** libevent runs the callback of one event; an activation is consumed by running it. */
    method Dispatch(e: SpliceRuns.Event, ghost w: SpliceRuns.World)
      requires Valid() && Abs() == w.pump && SpliceRuns.Enabled(w, e)
      modifies this, Parts()
      ensures Abs() == SpliceRuns.Step(w, e).pump
    {
      match e {
        case Sends(_, _) =>
        case Finishes(_) =>
        case SourceReady(d, n, retriable) =>
          MoveIntoPipe(d, n, retriable);
        case PipeReady(d, n, retriable) =>
          if d == Inbound { clientWriteEv.active := false; } else { relayWriteEv.active := false; }
          MoveOutOfPipe(d, n, retriable);
      }
    }
  }

  /**
   * From its start on and over any event sequence, the object-level pump goes through exactly the states
   * of the runs that the theorems speak of; the kernel's side of the run is kept in w.
   */
  method Replay(p: Pump, es: seq<SpliceRuns.Event>) returns (c: SpliceClient)
    requires FreshPump(p)
    ensures c.Valid() && c.Abs() == SpliceRuns.Run(SpliceRuns.Start(p), es).pump
  {
    c := new SpliceClient(p);
    var w := SpliceRuns.Start(p);
    for i := 0 to |es|
      invariant c.Valid() && fresh(c) && fresh(c.Parts())
      invariant w == SpliceRuns.Run(SpliceRuns.Start(p), es[..i]) && c.Abs() == w.pump
    {
      assert es[..i + 1][..i] == es[..i];
      if SpliceRuns.Enabled(w, es[i]) {
        c.Dispatch(es[i], w);
      }
      w := SpliceRuns.Step(w, es[i]);
    }
    assert es[..|es|] == es;
  }
}
