/** The abstract channel that both pumps implement in each direction. */
module Fifo {
  import opened Bytes

  datatype Channel = Channel(received: seq<byte>, delivered: seq<byte>, sourceEof: bool, closed: bool)

  predicate Receives(a: Channel, b: Channel) {
    !a.sourceEof && a.received <= b.received && b == a.(received := b.received)
  }

  predicate Delivers(a: Channel, b: Channel) {
    !a.closed && a.delivered <= b.delivered <= a.received && b == a.(delivered := b.delivered)
  }

  predicate Ends(a: Channel, b: Channel) {
    b == a.(sourceEof := true)
  }

  /** The target is told about the end only when nothing is left to deliver. */
  predicate Closes(a: Channel, b: Channel) {
    a.sourceEof && a.delivered == a.received && b == a.(closed := true)
  }

  predicate Next(a: Channel, b: Channel) {
    a == b || Receives(a, b) || Delivers(a, b) || Ends(a, b) || Closes(a, b)
  }

  /** One callback may do two channel actions, such as delivering the last bytes and closing. */
  ghost predicate Simulates(a: Channel, b: Channel) {
    exists m :: Next(a, m) && Next(m, b)
  }

  predicate Safe(a: Channel) {
    && a.delivered <= a.received
    && (a.closed ==> a.sourceEof && a.delivered == a.received)
  }

  /** What any stretch of channel actions keeps. */
  predicate Extends(a: Channel, b: Channel) {
    && Safe(b)
    && a.received <= b.received && a.delivered <= b.delivered
    && (a.sourceEof ==> b.sourceEof && b.received == a.received)
    && (a.closed ==> b == a)
  }

  lemma NextIsSafe(a: Channel, b: Channel)
    requires Safe(a) && Next(a, b)
    ensures Extends(a, b)
  {
  }

  /** Whatever simulates the channel delivers in order, and closes only after delivering everything. */
  lemma SimulationIsSafe(a: Channel, b: Channel)
    requires Safe(a) && Simulates(a, b)
    ensures Extends(a, b)
  {
    var m :| Next(a, m) && Next(m, b);
    NextIsSafe(a, m);
    NextIsSafe(m, b);
    assert a.received <= m.received <= b.received && a.delivered <= m.delivered <= b.delivered;
  }
}
