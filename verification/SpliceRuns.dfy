/**
 * Runs of the splicepump under the kernel: sockets deliver byte streams that may end, splice moves
 * bytes between a socket and a bounded pipe, and libevent runs the callbacks.
 */
module SpliceRuns {
  import opened Bytes
  import opened Splicepump

  /**
   * One direction as the kernel sees it since the pump took over: everything the source peer has
   * sent, whether it finished sending, what was spliced off its socket, what the pipe holds and what
   * reached the target.
   */
  datatype Medium = Medium(sent: seq<byte>, finished: bool, spliced: seq<byte>, pipe: seq<byte>, delivered: seq<byte>)

  datatype World = World(pump: Pump, outbound: Medium, inbound: Medium) {
    function Of(d: Direction): Medium {
      if d.Inbound? then inbound else outbound
    }

    function With(d: Direction, m: Medium): World {
      if d.Inbound? then this.(inbound := m) else this.(outbound := m)
    }
  }

  datatype Event =
    | Sends(dir: Direction, data: seq<byte>)
    | Finishes(dir: Direction)
    | SourceReady(dir: Direction, n: int, retriable: bool)
    | PipeReady(dir: Direction, n: int, retriable: bool)

  /** The return values of splice(source socket, pipe, want): 0 without delay when nothing is wanted. */
  predicate SpliceIn(l: Lane, m: Medium, want: nat, n: int) {
    if want == 0 then n == 0
    else
      || n == -1
      || (n == 0 && m.finished && m.spliced == m.sent)
      || (1 <= n <= want && |m.spliced| + n <= |m.sent| && |m.pipe| + n <= l.capacity)
  }

  /** The return values of splice(pipe, target socket, want). */
  predicate SpliceOut(l: Lane, m: Medium, want: nat, n: int) {
    if want == 0 then n == 0
    else n == -1 || (n == 0 && m.pipe == [] && !l.writeOpen) || (1 <= n <= want && n <= |m.pipe|)
  }

  /** The pipe event fires only when the pipe holds data or its write end is closed, or when activated. */
  predicate Enabled(w: World, e: Event) {
    var l, m := w.pump.Of(e.dir), w.Of(e.dir);
    match e
    case Sends(_, _) => !m.finished
    case Finishes(_) => true
    case SourceReady(_, n, _) => w.pump.alive && l.sourceEvent && SpliceIn(l, m, l.capacity, n)
    case PipeReady(_, n, _) =>
      && w.pump.alive
      && ((l.pipeEvent && (m.pipe != [] || !l.writeOpen)) || l.activated)
      && SpliceOut(l, m, l.dataInPipe, n)
  }

  function Take(m: Medium, n: int): Medium {
    if 0 < n && |m.spliced| + n <= |m.sent| then
      var bytes := m.sent[|m.spliced|..|m.spliced| + n];
      m.(spliced := m.spliced + bytes, pipe := m.pipe + bytes)
    else m
  }

  function Give(m: Medium, n: int): Medium {
    if 0 < n <= |m.pipe| then m.(pipe := m.pipe[n..], delivered := m.delivered + m.pipe[..n]) else m
  }

  function Step(w: World, e: Event): World {
    if !Enabled(w, e) then w
    else
      match e
      case Sends(d, data) => w.With(d, w.Of(d).(sent := w.Of(d).sent + data))
      case Finishes(d) => w.With(d, w.Of(d).(finished := true))
      case SourceReady(d, n, r) => w.With(d, Take(w.Of(d), n)).(pump := WriteToPipe(w.pump, d, n, r))
      case PipeReady(d, n, r) =>
        var p := w.pump.With(d, w.pump.Of(d).(activated := false));
        w.With(d, Give(w.Of(d), n)).(pump := ReadFromPipe(p, d, n, r))
  }

  function Run(w: World, es: seq<Event>): World
    decreases |es|
  {
    if es == [] then w else Step(Run(w, es[..|es| - 1]), es[|es| - 1])
  }

  function Start(p: Pump): World {
    var idle := Medium([], false, [], [], []);
    World(p, idle, idle)
  }

  // ---------------------------------------------------------------------------
  // The invariant

  predicate MediumInv(m: Medium) {
    m.delivered + m.pipe == m.spliced && m.spliced <= m.sent
  }

  /** A direction of a live pump. */
  predicate LiveLane(l: Lane, m: Medium) {
    && l.readFd >= 0 && l.writeFd >= 0 && l.readOpen && l.pipeEvent && !l.activated && !l.targetShut
    && 0 < l.capacity <= INT_MAX && l.dataInPipe == |m.pipe| <= l.capacity
    && l.writeOpen == l.sourceEvent == !l.sourceEof
  }

  /** End-of-file flags tell the truth, also after the free. */
  predicate EofSound(l: Lane, m: Medium) {
    && (l.sourceEof ==> m.finished && m.spliced == m.sent)
    && (l.targetShut ==> l.sourceEof && m.pipe == [])
  }

  predicate LaneInv(w: World, d: Direction) {
    && MediumInv(w.Of(d))
    && EofSound(w.pump.Of(d), w.Of(d))
    && (w.pump.alive ==> LiveLane(w.pump.Of(d), w.Of(d)))
  }

  predicate Inv(w: World) {
    && LaneInv(w, Inbound) && LaneInv(w, Outbound)
    && (w.pump.alive ==> w.pump.clientFd >= 0 && w.pump.relayFd >= 0)
  }

  lemma TakeKeeps(l: Lane, m: Medium, n: int)
    requires MediumInv(m) && SpliceIn(l, m, l.capacity, n) && |m.pipe| <= l.capacity
    ensures MediumInv(Take(m, n)) && |Take(m, n).pipe| == |m.pipe| + (if n > 0 then n else 0) <= l.capacity
    ensures Take(m, n).delivered == m.delivered && Take(m, n).sent == m.sent && m.spliced <= Take(m, n).spliced
  {
    var m' := Take(m, n);
    if n > 0 {
      var bytes := m.sent[|m.spliced|..|m.spliced| + n];
      assert m.delivered + (m.pipe + bytes) == (m.delivered + m.pipe) + bytes;
    }
  }

  lemma GiveKeeps(l: Lane, m: Medium, n: int)
    requires MediumInv(m) && SpliceOut(l, m, l.dataInPipe, n)
    ensures MediumInv(Give(m, n)) && |Give(m, n).pipe| == |m.pipe| - (if n > 0 then n else 0)
    ensures Give(m, n).spliced == m.spliced && Give(m, n).sent == m.sent && m.delivered <= Give(m, n).delivered
  {
    if n > 0 {
      assert m.pipe == m.pipe[..n] + m.pipe[n..];
      assert (m.delivered + m.pipe[..n]) + m.pipe[n..] == m.delivered + m.pipe;
    }
  }

  /** The check after a pipe write never frees: the target flag of a live direction is unset. */
  lemma SourcePump(w: World, d: Direction, n: int, r: bool)
    requires Inv(w) && Enabled(w, SourceReady(d, n, r))
    ensures var (l, p) := (w.pump.Of(d), Step(w, SourceReady(d, n, r)).pump);
            match SingleSplice(n, r)
            case NormalTransfer => p == w.pump.With(d, l.(dataInPipe := l.dataInPipe + n))
            case CanRetry => p == w.pump
            case FatalFailure => p == w.pump.Freed()
            case ReadEof => p == w.pump.With(d, l.(sourceEof := true, writeOpen := false, sourceEvent := false))
  {
  }

  lemma SourceStep(w: World, d: Direction, n: int, r: bool)
    requires Inv(w) && Enabled(w, SourceReady(d, n, r))
    ensures var w' := Step(w, SourceReady(d, n, r));
            && LaneInv(w', d) && w'.Of(Opposite(d)) == w.Of(Opposite(d))
            && w'.Of(d).delivered == w.Of(d).delivered
            && (w'.pump.alive <==> n != -1 || r)
            && (w'.pump.alive ==> w'.pump == w.pump.With(d, w'.pump.Of(d)))
            && (!w'.pump.alive ==> w'.pump == w.pump.Freed())
            && w'.pump.Of(d).targetShut == w.pump.Of(d).targetShut
  {
    SourcePump(w, d, n, r);
    TakeKeeps(w.pump.Of(d), w.Of(d), n);
  }

  /** The four outcomes of a pipe read; end of file sets the target flag and frees at once. */
  lemma PipePump(w: World, d: Direction, n: int, r: bool)
    requires Inv(w) && Enabled(w, PipeReady(d, n, r))
    ensures var (l, p) := (w.pump.Of(d), Step(w, PipeReady(d, n, r)).pump);
            match SingleSplice(n, r)
            case NormalTransfer => p == w.pump.With(d, l.(dataInPipe := l.dataInPipe - n))
            case CanRetry => p == w.pump
            case FatalFailure => p == w.pump.Freed()
            case ReadEof => p == w.pump.With(d, l.(targetShut := true, readOpen := false)).Freed()
    ensures SingleSplice(n, r) == ReadEof ==> w.Of(d).pipe == [] && !w.pump.Of(d).writeOpen
  {
    assert w.pump.With(d, w.pump.Of(d).(activated := false)) == w.pump;
  }

  /** Reading zero bytes from the pipe means that the write end is closed and the pipe is empty. */
  lemma PipeStep(w: World, d: Direction, n: int, r: bool)
    requires Inv(w) && Enabled(w, PipeReady(d, n, r))
    ensures var w' := Step(w, PipeReady(d, n, r));
            && LaneInv(w', d) && w'.Of(Opposite(d)) == w.Of(Opposite(d))
            && w'.Of(d).spliced == w.Of(d).spliced
            && (n == 0 ==> w.Of(d).pipe == [] && !w.pump.Of(d).writeOpen)
            && (w'.pump.alive <==> n > 0 || (n == -1 && r))
            && (w'.pump.alive ==> w'.pump == w.pump.With(d, w'.pump.Of(d)))
            && (!w'.pump.alive ==> w'.pump.Of(Opposite(d)) == TornDown(w.pump.Of(Opposite(d))))
            && w'.pump.Of(d).sourceEof == w.pump.Of(d).sourceEof
            && (w'.pump.Of(d).targetShut <==> n == 0)
  {
    PipePump(w, d, n, r);
    GiveKeeps(w.pump.Of(d), w.Of(d), n);
  }

  lemma PeerStep(w: World, e: Event)
    requires Inv(w) && Enabled(w, e) && (e.Sends? || e.Finishes?)
    ensures Inv(Step(w, e))
  {
    var m, m' := w.Of(e.dir), Step(w, e).Of(e.dir);
    assert m.spliced <= m.sent <= m'.sent;
    assert LaneInv(Step(w, e), e.dir);
    assert LaneInv(Step(w, e), Opposite(e.dir));
  }

  /** A direction is left alone by the other one, except that a free tears it down. */
  lemma OtherLaneKeeps(w: World, w': World, d: Direction)
    requires LaneInv(w, d) && w'.Of(d) == w.Of(d)
    requires w'.pump.Of(d) == if w'.pump.alive then w.pump.Of(d) else TornDown(w.pump.Of(d))
    requires w.pump.alive
    ensures LaneInv(w', d)
  {
  }

  lemma SourceKeepsInv(w: World, d: Direction, n: int, r: bool)
    requires Inv(w) && Enabled(w, SourceReady(d, n, r))
    ensures Inv(Step(w, SourceReady(d, n, r)))
  {
    SourceStep(w, d, n, r);
    OtherLaneKeeps(w, Step(w, SourceReady(d, n, r)), Opposite(d));
  }

  lemma PipeKeepsInv(w: World, d: Direction, n: int, r: bool)
    requires Inv(w) && Enabled(w, PipeReady(d, n, r))
    ensures Inv(Step(w, PipeReady(d, n, r)))
  {
    PipeStep(w, d, n, r);
    OtherLaneKeeps(w, Step(w, PipeReady(d, n, r)), Opposite(d));
  }

  lemma StepKeepsInv(w: World, e: Event)
    requires Inv(w)
    ensures Inv(Step(w, e))
  {
    if Enabled(w, e) {
      match e {
        case Sends(_, _) => PeerStep(w, e);
        case Finishes(_) => PeerStep(w, e);
        case SourceReady(d, n, r) => SourceKeepsInv(w, d, n, r);
        case PipeReady(d, n, r) => PipeKeepsInv(w, d, n, r);
      }
    }
  }

  /** Every reachable state satisfies the invariant. */
  lemma {:induction false} Reachable(p: Pump, es: seq<Event>)
    requires FreshPump(p)
    ensures Inv(Run(Start(p), es))
  {
    if es == [] {
    } else {
      Reachable(p, es[..|es| - 1]);
      StepKeepsInv(Run(Start(p), es[..|es| - 1]), es[|es| - 1]);
    }
  }
}
