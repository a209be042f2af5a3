/** What every run of the splicepump keeps. */
module SpliceTheorems {
  import opened Bytes
  import opened Splicepump
  import opened SpliceRuns
  import Fifo

  // ---------------------------------------------------------------------------
  // Accounting and conservation

  /**
   * In every reachable state, per direction: delivered bytes, then pipe bytes, are the bytes spliced
   * off the source, a prefix of what the peer sent; while the pump lives, the counter is the real
   * pipe occupancy and within the capacity, so that no addition or subtraction on it ever wraps.
   */
  lemma Accounting(p: Pump, es: seq<Event>, d: Direction)
    requires FreshPump(p)
    ensures var w := Run(Start(p), es);
            var (l, m) := (w.pump.Of(d), w.Of(d));
            && m.delivered + m.pipe == m.spliced && m.spliced <= m.sent
            && (w.pump.alive ==> l.dataInPipe == |m.pipe| <= l.capacity)
            && (forall n, r :: Enabled(w, SourceReady(d, n, r)) ==> l.dataInPipe + n < SIZE_T)
            && (forall n, r :: Enabled(w, PipeReady(d, n, r)) ==> n <= l.dataInPipe)
  {
    Reachable(p, es);
    var w := Run(Start(p), es);
    assert w.pump.alive ==> LiveLane(w.pump.Of(d), w.Of(d));
  }

  /** A step of one direction leaves the bytes and, unless it frees, the fields of the other unchanged. */
  lemma DirectionsIndependent(p: Pump, es: seq<Event>, e: Event)
    requires FreshPump(p)
    ensures var (w, o) := (Run(Start(p), es), Opposite(e.dir));
            && Step(w, e).Of(o) == w.Of(o)
            && (Step(w, e).pump.alive ==> Step(w, e).pump.Of(o) == w.pump.Of(o))
  {
    Reachable(p, es);
    var w := Run(Start(p), es);
    if Enabled(w, e) {
      match e {
        case SourceReady(d, n, r) => SourceStep(w, d, n, r);
        case PipeReady(d, n, r) => PipeStep(w, d, n, r);
        case _ =>
      }
    }
  }

  // ---------------------------------------------------------------------------
  // What each splice result does, field by field

  /** A pipe that is closed at both ends and whose two events are deleted. */
  predicate LaneClosed(l: Lane) {
    && l.readFd == -1 && l.writeFd == -1 && !l.readOpen && !l.writeOpen
    && !l.sourceEvent && !l.pipeEvent && !l.activated
  }

  predicate AllClosed(p: Pump) {
    LaneClosed(p.outbound) && LaneClosed(p.inbound) && p.clientFd == -1 && p.relayFd == -1
  }

  lemma WriteCloses(p: Pump, d: Direction, n: int, r: bool)
    requires p.alive && !WriteToPipe(p, d, n, r).alive
    ensures AllClosed(WriteToPipe(p, d, n, r))
  {
  }

  lemma ReadCloses(p: Pump, d: Direction, n: int, r: bool)
    requires p.alive && !ReadFromPipe(p, d, n, r).alive
    ensures AllClosed(ReadFromPipe(p, d, n, r))
  {
  }

  lemma StepCloses(w: World, e: Event)
    requires w.pump.alive && !Step(w, e).pump.alive
    ensures AllClosed(Step(w, e).pump)
  {
    match e {
      case SourceReady(d, n, r) => WriteCloses(w.pump, d, n, r);
      case PipeReady(d, n, r) => ReadCloses(w.pump.With(d, w.pump.Of(d).(activated := false)), d, n, r);
      case _ =>
    }
  }

  /** An ended pump holds no descriptor and no event, and neither changes nor delivers anything any more. */
  lemma {:induction false} FreedPumpIsClosed(p: Pump, es: seq<Event>)
    requires FreshPump(p)
    ensures var w := Run(Start(p), es);
            !w.pump.alive ==>
              && AllClosed(w.pump)
              && (forall e :: Step(w, e).pump == w.pump)
              && (forall e, d :: Step(w, e).Of(d).delivered == w.Of(d).delivered)
  {
    if es == [] {
    } else {
      FreedPumpIsClosed(p, es[..|es| - 1]);
      var w := Run(Start(p), es[..|es| - 1]);
      if w.pump.alive && !Step(w, es[|es| - 1]).pump.alive {
        StepCloses(w, es[|es| - 1]);
      }
    }
  }

  /**
   * A pipe write: a failed splice changes nothing if it can be retried and else ends the pump; no bytes end the
   * source, close the pipe's write end and delete the source's event; some bytes are counted.
   */
  lemma PipeWriteEffect(p: Pump, es: seq<Event>, d: Direction, n: int, r: bool)
    requires FreshPump(p) && Enabled(Run(Start(p), es), SourceReady(d, n, r))
    ensures var (w, w') := (Run(Start(p), es), Step(Run(Start(p), es), SourceReady(d, n, r)));
            var l := w.pump.Of(d);
            && w'.Of(Opposite(d)) == w.Of(Opposite(d))
            && if n == -1 then
                 w'.Of(d) == w.Of(d) && (w'.pump.alive <==> r) && (r ==> w'.pump == w.pump)
               else if n == 0 then
                 && w'.Of(d) == w.Of(d)
                 && w'.pump == w.pump.With(d, l.(sourceEof := true, writeOpen := false, sourceEvent := false))
               else
                 && w'.pump == w.pump.With(d, l.(dataInPipe := l.dataInPipe + n))
                 && w'.Of(d).spliced == w.Of(d).sent[..|w.Of(d).spliced| + n]
  {
    Reachable(p, es);
    var w := Run(Start(p), es);
    SourcePump(w, d, n, r);
    TakeKeeps(w.pump.Of(d), w.Of(d), n);
  }

  /**
   * A pipe read: a failed splice changes nothing if it can be retried and else ends the pump; no bytes shut the
   * target and end the pump; some bytes are counted and delivered.
   */
  lemma PipeReadEffect(p: Pump, es: seq<Event>, d: Direction, n: int, r: bool)
    requires FreshPump(p) && Enabled(Run(Start(p), es), PipeReady(d, n, r))
    ensures var (w, w') := (Run(Start(p), es), Step(Run(Start(p), es), PipeReady(d, n, r)));
            var (l, m) := (w.pump.Of(d), w.Of(d));
            && w'.Of(Opposite(d)) == w.Of(Opposite(d))
            && if n == -1 then
                 w'.Of(d) == m && (w'.pump.alive <==> r) && (r ==> w'.pump == w.pump)
               else if n == 0 then
                 w'.Of(d) == m && !w'.pump.alive && w'.pump.Of(d).targetShut
               else
                 && w'.pump == w.pump.With(d, l.(dataInPipe := l.dataInPipe - n))
                 && w'.Of(d) == m.(pipe := m.pipe[n..], delivered := m.delivered + m.pipe[..n])
  {
    Reachable(p, es);
    PipePump(Run(Start(p), es), d, n, r);
  }

  /** A pipe write that can be retried activates the reader of a pipe that holds data, unless it is pending. */
  lemma RetryWakesReader(p: Pump, d: Direction)
    requires p.clientFd != -1 && p.relayFd != -1 && p.Of(d).writeFd != -1
    requires !p.Of(d).sourceEof || !p.Of(d).targetShut
    ensures var (l, p') := (p.Of(d), WriteToPipe(p, d, -1, true));
            && (p'.Of(d).activated <==> l.activated || (l.dataInPipe > 0 && !l.pipeEvent))
            && p' == p.With(d, l.(activated := p'.Of(d).activated))
  {
    var l := p.Of(d);
    var q := p.With(d, l.(activated := l.activated || (l.dataInPipe > 0 && !l.pipeEvent)));
    assert p.SourceFd(d) != -1 && p.TargetFd(d) != -1;
    assert CheckNormalTermination(q, d) == q;
  }

  /** With a socket or the pipe end gone there is nothing to do but to end, whatever splice would have returned. */
  lemma InvalidDescriptorEnds(p: Pump, d: Direction, n: int, r: bool)
    requires n >= -1
    ensures p.clientFd == -1 || p.relayFd == -1 || p.Of(d).writeFd == -1 ==> !WriteToPipe(p, d, n, r).alive
    ensures p.clientFd == -1 || p.relayFd == -1 || p.Of(d).readFd == -1 ==> !ReadFromPipe(p, d, n, r).alive
  {
  }

  // ---------------------------------------------------------------------------
  // End of file and termination

  /**
   * Although splice also returns 0 when nothing is wanted, the pipe reader takes its end-of-file
   * branch only when the pipe is empty, its write end closed and every byte of the source delivered.
   */
  lemma PipeEofSound(p: Pump, es: seq<Event>, d: Direction, n: int, r: bool)
    requires FreshPump(p)
    requires Enabled(Run(Start(p), es), PipeReady(d, n, r)) && n == 0
    ensures var w := Run(Start(p), es);
            && w.Of(d).pipe == [] && !w.pump.Of(d).writeOpen
            && w.Of(d).finished && w.Of(d).delivered == w.Of(d).sent
            && !Step(w, PipeReady(d, n, r)).pump.alive
  {
    Reachable(p, es);
    var w := Run(Start(p), es);
    PipeStep(w, d, n, r);
    assert w.Of(d).delivered + w.Of(d).pipe == w.Of(d).delivered;
  }

  /** SHUT_WR towards a target always follows the delivery of everything its source will ever send. */
  lemma ShutdownAfterDelivery(p: Pump, es: seq<Event>, d: Direction)
    requires FreshPump(p)
    ensures var w := Run(Start(p), es);
            w.pump.Of(d).targetShut ==> w.Of(d).finished && w.Of(d).delivered == w.Of(d).sent && !w.pump.alive
  {
    Reachable(p, es);
    var w := Run(Start(p), es);
    if w.pump.Of(d).targetShut {
      assert w.Of(d).delivered + w.Of(d).pipe == w.Of(d).delivered;
    }
  }

  /**
   * The pump ends with the first completed direction: while it lives no write flag is set, a pipe
   * write ends it only on a fatal error, and a pipe read ends it on a fatal error or on completion.
   */
  lemma EndsAtFirstCompletion(p: Pump, es: seq<Event>, e: Event)
    requires FreshPump(p) && Run(Start(p), es).pump.alive
    ensures var w := Run(Start(p), es);
            var w' := Step(w, e);
            && !w.pump.inbound.targetShut && !w.pump.outbound.targetShut
            && (!w'.pump.alive <==>
                  && Enabled(w, e)
                  && (|| (e.SourceReady? && e.n == -1 && !e.retriable)
                      || (e.PipeReady? && e.n == -1 && !e.retriable)
                      || (e.PipeReady? && e.n == 0)))
            && (w'.pump.Of(e.dir).targetShut <==> !w'.pump.alive && e.PipeReady? && e.n == 0)
  {
    Reachable(p, es);
    var w := Run(Start(p), es);
    if Enabled(w, e) {
      match e {
        case SourceReady(d, n, r) => SourceStep(w, d, n, r);
        case PipeReady(d, n, r) => PipeStep(w, d, n, r);
        case _ =>
      }
    }
  }

  /**
   * What the first completed direction costs the other one, in every run: the end-of-file callback of d
   * ends the pump, and the opposite direction then has delivered all it had spliced if and only if its
   * counter is zero, and all it was ever sent if and only if its socket queue is empty, too.
   */
  lemma LossAtCompletion(p: Pump, es: seq<Event>, d: Direction, r: bool)
    requires FreshPump(p) && Enabled(Run(Start(p), es), PipeReady(d, 0, r))
    ensures var (w, o) := (Run(Start(p), es), Opposite(d));
            var w' := Step(w, PipeReady(d, 0, r));
            && !w'.pump.alive && w'.Of(d).delivered == w'.Of(d).sent
            && (w'.Of(o).delivered == w'.Of(o).spliced <==> w.pump.Of(o).dataInPipe == 0)
            && (w'.Of(o).delivered == w'.Of(o).sent <==>
                  w.pump.Of(o).dataInPipe == 0 && |w.Of(o).spliced| == |w.Of(o).sent|)
  {
    Reachable(p, es);
    var w := Run(Start(p), es);
    var m := w.Of(Opposite(d));
    PipeStep(w, d, 0, r);
    PipeEofSound(p, es, d, 0, r);
    assert |m.delivered| + |m.pipe| == |m.spliced|;
    if m.pipe == [] {
      assert m.delivered + m.pipe == m.delivered;
    }
  }

  /**
   * A peer that half-closes loses the answer: for any answer that fits the pipe, the client finishing
   * its (here empty) request ends the pump while the answer sits in the inbound pipe.
   */
  lemma HalfCloseDropsAnswer(p: Pump, answer: seq<byte>)
    requires FreshPump(p) && 0 < |answer| <= p.inbound.capacity
    ensures var es := [Sends(Inbound, answer), SourceReady(Inbound, |answer|, false), Finishes(Outbound),
                       SourceReady(Outbound, 0, false)];
            var w := Run(Start(p), es);
            && Enabled(w, PipeReady(Outbound, 0, false)) && w.inbound.spliced == answer
            && !Step(w, PipeReady(Outbound, 0, false)).pump.alive
            && Step(w, PipeReady(Outbound, 0, false)).inbound.delivered == [] != answer
  {
    var w0 := Start(p);
    var w1 := Step(w0, Sends(Inbound, answer));
    assert w1.inbound.sent == answer;
    var w2 := Step(w1, SourceReady(Inbound, |answer|, false));
    assert w2.pump.alive && w2.inbound.spliced == answer;
    var w3 := Step(w2, Finishes(Outbound));
    var w4 := Step(w3, SourceReady(Outbound, 0, false));
    assert w4.pump.alive && !w4.pump.outbound.writeOpen;
    var es := [Sends(Inbound, answer), SourceReady(Inbound, |answer|, false), Finishes(Outbound),
               SourceReady(Outbound, 0, false)];
    assert es[..3][..2] == es[..2] && es[..2][..1] == es[..1] && es[..1][..0] == [];
    assert Run(w0, es[..1]) == w1;
    assert Run(w0, es[..2]) == w2;
    assert Run(w0, es[..3]) == w3;
    LossAtCompletion(p, es, Outbound, false);
  }

  // ---------------------------------------------------------------------------
  // Progress

  /** Pipe reads that splice lets through. */
  predicate Productive(w: World, e: Event, d: Direction) {
    Enabled(w, e) && e.PipeReady? && e.dir == d && e.n >= 0
  }

  function Work(w: World, d: Direction): nat {
    if w.pump.alive then |w.Of(d).pipe| + 1 else 0
  }

  /** In a live pump, the pipe of an ended direction can always be read, up to its end. */
  lemma EndedDirectionReadable(p: Pump, es: seq<Event>, d: Direction)
    requires FreshPump(p)
    ensures var w := Run(Start(p), es);
            w.pump.alive && w.pump.Of(d).sourceEof ==> Productive(w, PipeReady(d, |w.Of(d).pipe|, false), d)
  {
    Reachable(p, es);
  }

  lemma PipeProgress(w: World, d: Direction, e: Event)
    requires Inv(w) && w.pump.Of(d).sourceEof && Enabled(w, e) && e.PipeReady?
    ensures Step(w, e).pump.Of(d).sourceEof
    ensures Work(Step(w, e), d) + (if Productive(w, e, d) then 1 else 0) <= Work(w, d)
  {
    PipeStep(w, e.dir, e.n, e.retriable);
    GiveKeeps(w.pump.Of(e.dir), w.Of(e.dir), e.n);
  }

  /** Once a direction ended, no step adds work to it, and every productive read removes some. */
  lemma EndedDirectionProgresses(w: World, d: Direction, e: Event)
    requires Inv(w) && w.pump.Of(d).sourceEof
    ensures Step(w, e).pump.Of(d).sourceEof
    ensures Work(Step(w, e), d) + (if Productive(w, e, d) then 1 else 0) <= Work(w, d)
  {
    if Enabled(w, e) {
      match e {
        case SourceReady(f, n, r) => SourceStep(w, f, n, r);
        case PipeReady(_, _, _) => PipeProgress(w, d, e);
        case _ =>
      }
    }
  }

  function Productives(w: World, es: seq<Event>, d: Direction): nat
    decreases |es|
  {
    if es == [] then 0
    else
      var init := es[..|es| - 1];
      Productives(w, init, d) + if Productive(Run(w, init), es[|es| - 1], d) then 1 else 0
  }

  /** Once a source ended, at most one productive pipe read per byte, and one more, until the free. */
  lemma {:induction false} DrainTerminates(w: World, es: seq<Event>, d: Direction)
    requires Inv(w) && w.pump.Of(d).sourceEof
    ensures Inv(Run(w, es)) && Run(w, es).pump.Of(d).sourceEof
    ensures Productives(w, es, d) + Work(Run(w, es), d) <= Work(w, d)
    decreases |es|
  {
    if es == [] {
    } else {
      var init := es[..|es| - 1];
      DrainTerminates(w, init, d);
      StepKeepsInv(Run(w, init), es[|es| - 1]);
      EndedDirectionProgresses(Run(w, init), d, es[|es| - 1]);
    }
  }

  // ---------------------------------------------------------------------------
  // Refinement of the abstract channel

  function View(w: World, d: Direction): Fifo.Channel {
    Fifo.Channel(w.Of(d).spliced, w.Of(d).delivered, w.pump.Of(d).sourceEof, w.pump.Of(d).targetShut)
  }

  lemma SourceSimulates(w: World, d: Direction, n: int, r: bool)
    requires Inv(w) && Enabled(w, SourceReady(d, n, r))
    ensures Fifo.Next(View(w, d), View(Step(w, SourceReady(d, n, r)), d))
  {
    SourceStep(w, d, n, r);
    TakeKeeps(w.pump.Of(d), w.Of(d), n);
  }

  lemma PipeSimulates(w: World, d: Direction, n: int, r: bool)
    requires Inv(w) && Enabled(w, PipeReady(d, n, r))
    ensures Fifo.Next(View(w, d), View(Step(w, PipeReady(d, n, r)), d))
  {
    PipeStep(w, d, n, r);
    GiveKeeps(w.pump.Of(d), w.Of(d), n);
    var m, m' := w.Of(d), Give(w.Of(d), n);
    assert m'.delivered <= m'.delivered + m'.pipe;
    if n == 0 {
      assert m.delivered + m.pipe == m.delivered;
    }
  }

  lemma OtherStepsStutter(w: World, e: Event, d: Direction)
    requires Inv(w) && Enabled(w, e) && (e.dir != d || e.Sends? || e.Finishes?)
    ensures View(Step(w, e), d) == View(w, d)
  {
    match e {
      case SourceReady(f, n, r) => SourceStep(w, f, n, r);
      case PipeReady(f, n, r) => PipeStep(w, f, n, r);
      case _ =>
    }
  }

  /** Each direction of the splicepump simulates the channel that the bufferpump simulates. */
  lemma SplicepumpRefinesChannel(w: World, e: Event, d: Direction)
    requires Inv(w)
    ensures Fifo.Simulates(View(w, d), View(Step(w, e), d))
  {
    var a, b := View(w, d), View(Step(w, e), d);
    if Enabled(w, e) {
      if e.dir != d || e.Sends? || e.Finishes? {
        OtherStepsStutter(w, e, d);
      } else if e.SourceReady? {
        SourceSimulates(w, d, e.n, e.retriable);
      } else {
        PipeSimulates(w, d, e.n, e.retriable);
      }
    }
    assert Fifo.Next(a, b) && Fifo.Next(b, b);
  }

  /**
   * In every run of a freshly started pump, each direction is a safe channel: what was delivered is a
   * prefix of what was taken off the source, and the target is closed only once all of it was.
   */
  lemma {:induction false} SplicepumpStaysSafe(p: Pump, es: seq<Event>, d: Direction)
    requires FreshPump(p)
    ensures Fifo.Safe(View(Run(Start(p), es), d))
  {
    if es == [] {
    } else {
      var init := es[..|es| - 1];
      SplicepumpStaysSafe(p, init, d);
      Reachable(p, init);
      SplicepumpRefinesChannel(Run(Start(p), init), es[|es| - 1], d);
      Fifo.SimulationIsSafe(View(Run(Start(p), init), d), View(Run(Start(p), es), d));
    }
  }
}
