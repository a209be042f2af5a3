/** What the callbacks of src/splicepump.c do to one client, direction by direction. */
module Splicepump {

  datatype Direction = Inbound | Outbound

  function Opposite(d: Direction): Direction {
    if d.Inbound? then Outbound else Inbound
  }

  const SIZE_T: nat := 0x1_0000_0000_0000_0000
  const INT_MAX: nat := 0x7fff_ffff
  const INVALID_FD: int := -1

  /**
   * One direction: its pipe (the descriptor fields, whether each end is really open, the byte
   * counter), the source's read flag and the target's write flag, and the registration of the source
   * event and of the event on the pipe's read end.
   */
  datatype Lane = Lane(readFd: int, writeFd: int, readOpen: bool, writeOpen: bool, capacity: nat, dataInPipe: nat,
                       sourceEof: bool, targetShut: bool, sourceEvent: bool, pipeEvent: bool, activated: bool)

  datatype Pump = Pump(alive: bool, clientFd: int, relayFd: int, outbound: Lane, inbound: Lane) {
    function Of(d: Direction): Lane {
      if d.Inbound? then inbound else outbound
    }

    function With(d: Direction, l: Lane): Pump {
      if d.Inbound? then this.(inbound := l) else this.(outbound := l)
    }

    function SourceFd(d: Direction): int {
      if d.Inbound? then relayFd else clientFd
    }

    function TargetFd(d: Direction): int {
      SourceFd(Opposite(d))
    }

    /** transocks_splicepump_free and the transocks_client_free it ends with. */
    function Freed(): Pump {
      Pump(false, INVALID_FD, INVALID_FD, TornDown(outbound), TornDown(inbound))
    }
  }

  function TornDown(l: Lane): Lane {
    l.(readFd := INVALID_FD, writeFd := INVALID_FD, readOpen := false, writeOpen := false,
       sourceEvent := false, pipeEvent := false, activated := false)
  }

  datatype SpliceResult = NormalTransfer | CanRetry | FatalFailure | ReadEof

  /** transocks_single_splice: the classification of splice's return value. */
  function SingleSplice(n: int, retriable: bool): SpliceResult {
    if n == -1 then (if retriable then CanRetry else FatalFailure)
    else if n == 0 then ReadEof
    else NormalTransfer
  }

  function CheckNormalTermination(p: Pump, d: Direction): Pump {
    if p.clientFd == INVALID_FD || p.relayFd == INVALID_FD || (p.Of(d).sourceEof && p.Of(d).targetShut) then p.Freed()
    else p
  }

  /** data_in_pipe is a size_t: additions and subtractions wrap. */
  function Counted(l: Lane, bytes: int): Lane {
    l.(dataInPipe := (l.dataInPipe + bytes) % SIZE_T)
  }

  function WriteToPipe(p: Pump, d: Direction, n: int, retriable: bool): Pump {
    var l := p.Of(d);
    if p.SourceFd(d) == INVALID_FD || l.writeFd == INVALID_FD then p.Freed()
    else
      match SingleSplice(n, retriable)
      case NormalTransfer => CheckNormalTermination(p.With(d, Counted(l, n)), d)
      case CanRetry =>
        var wake := p.TargetFd(d) != INVALID_FD && l.dataInPipe > 0 && !l.pipeEvent;
        CheckNormalTermination(p.With(d, l.(activated := l.activated || wake)), d)
      case FatalFailure => p.Freed()
      case ReadEof =>
        CheckNormalTermination(p.With(d, l.(sourceEof := true, writeOpen := false, sourceEvent := false)), d)
  }

  function ReadFromPipe(p: Pump, d: Direction, n: int, retriable: bool): Pump {
    var l := p.Of(d);
    if l.readFd == INVALID_FD || p.TargetFd(d) == INVALID_FD then p.Freed()
    else
      match SingleSplice(n, retriable)
      case NormalTransfer => CheckNormalTermination(p.With(d, Counted(l, -n)), d)
      case CanRetry => CheckNormalTermination(p, d)
      case FatalFailure => p.Freed()
      case ReadEof => CheckNormalTermination(p.With(d, l.(targetShut := true, readOpen := false)), d)
  }

  /** A lane right after transocks_splicepump_start_pump. */
  function NewLane(readFd: int, writeFd: int, capacity: nat): Lane {
    Lane(readFd, writeFd, true, true, capacity, 0, false, false, true, true, false)
  }

  predicate FreshLane(l: Lane) {
    l == NewLane(l.readFd, l.writeFd, l.capacity) && l.readFd >= 0 && l.writeFd >= 0 && 0 < l.capacity <= INT_MAX
  }

  predicate FreshPump(p: Pump) {
    p.alive && p.clientFd >= 0 && p.relayFd >= 0 && FreshLane(p.outbound) && FreshLane(p.inbound)
  }
}
