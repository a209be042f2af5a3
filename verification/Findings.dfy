/** Runs in which the code does not deliver what its stages suggest, for whole families of inputs. */
module Findings {
  import opened Bytes
  import opened Socks5
  import opened Connection
  import opened Runs
  import opened BufferpumpTheorems
  import opened HandshakeTheorems

  const CONNECTED := Flags(false, false, false, false, true, false)
  const READ_EOF := Flags(true, false, true, false, false, false)

  lemma RelayConnects(dest: Destination)
    ensures var w := Run(Start(dest), [BevEvent(RelaySide, CONNECTED)]);
            && w.conn.hook == OnMethodReply && w.conn.Alive() && w.conn.inbound.readOn && w.conn.dest == dest
            && w.conn.inbound.low == 2 && w.conn.inbound.input == [] == w.conn.inbound.output
            && w.relay.read == [] == w.client.written
  {
    RunSnoc(Start(dest), [], BevEvent(RelaySide, CONNECTED));
    assert [] + [BevEvent(RelaySide, CONNECTED)] == [BevEvent(RelaySide, CONNECTED)];
  }

  /** The run up to the connect request, for any destination the client accepts. */
  lemma RequestSent(dest: Destination)
    requires !dest.OtherFamily?
    ensures var w := Run(Start(dest), [BevEvent(RelaySide, CONNECTED), Readable(RelaySide, METHOD_ACCEPTED)]);
            && w.conn.hook == OnConnectReply && w.conn.Alive() && w.conn.inbound.readOn
            && w.conn.inbound.low == 10 && w.conn.inbound.input == [] == w.conn.inbound.output
            && w.relay.read == METHOD_ACCEPTED && w.client.written == []
  {
    var e, f := BevEvent(RelaySide, CONNECTED), Readable(RelaySide, METHOD_ACCEPTED);
    RelayConnects(dest);
    RunSnoc(Start(dest), [e], f);
    assert [e] + [f] == [e, f];
    AcceptedAlone(Run(Start(dest), [e]));
  }

  /** 05 00 and nothing else, read in one piece, leads to the connect request. */
  lemma AcceptedAlone(w: World)
    requires w.conn.hook == OnMethodReply && w.conn.inbound.low == 2 && w.conn.inbound.input == [] == w.relay.read
    requires !w.conn.dest.OtherFamily?
    ensures var w' := ReadStep(w, RelaySide, METHOD_ACCEPTED);
            && w'.conn == SendConnectRequest(w.conn.(timer := false, inbound := w.conn.inbound.(input := [])))
            && w'.relay.read == METHOD_ACCEPTED && w'.client == w.client
  {
    assert [] + METHOD_ACCEPTED == METHOD_ACCEPTED;
  }

  /** Reading a chunk that starts with a success reply starts the pump on what the drain leaves. */
  lemma ReplyRead(dest: Destination, chunk: seq<byte>)
    requires !dest.OtherFamily? && SuccessReply(chunk)
    ensures var w := Run(Start(dest), [BevEvent(RelaySide, CONNECTED), Readable(RelaySide, METHOD_ACCEPTED),
                                       Readable(RelaySide, chunk)]);
            && w.conn.hook == OnPump && w.conn.Alive() && w.conn.inbound.readOn && w.conn.inbound.low == 0
            && w.conn.inbound.input == Drain(chunk, ReplyLength(chunk)) && w.conn.inbound.output == []
            && w.relay.read == METHOD_ACCEPTED + chunk && w.client.written == []
  {
    var es := [BevEvent(RelaySide, CONNECTED), Readable(RelaySide, METHOD_ACCEPTED)];
    RequestSent(dest);
    RunSnoc(Start(dest), es, Readable(RelaySide, chunk));
    assert es + [Readable(RelaySide, chunk)] == [es[0], es[1], Readable(RelaySide, chunk)];
    assert [] + chunk == chunk;
  }

  /**
   * Any event that reports neither a connection nor an error while the relay connection is pending, such
   * as an end of file alone: the client goes on waiting for the connection, without a timer.
   */
  lemma StrayEventStopsTimer(dest: Destination, ev: Flags)
    requires !ev.connected && !ev.error
    ensures var w := Run(Start(dest), [BevEvent(RelaySide, ev)]);
            w.conn.Alive() && w.conn.hook == OnConnect && !w.conn.timer && !TimerRight(w)
  {
    RunSnoc(Start(dest), [], BevEvent(RelaySide, ev));
    assert [] + [BevEvent(RelaySide, ev)] == [BevEvent(RelaySide, ev)];
  }

  /** A pump with nothing buffered towards the client forwards whatever it reads next from the relay. */
  lemma ForwardsNext(w: World, data: seq<byte>)
    requires w.conn.Alive() && w.conn.hook == OnPump && w.conn.inbound.readOn && w.conn.inbound.low == 0
    requires w.conn.inbound.input == [] == w.conn.inbound.output && w.client.written == [] != data
    ensures var w' := Step(w, Readable(RelaySide, data));
            w'.conn.hook == OnPump && w'.relay.read == w.relay.read + data && Forwarded(w') == data
  {
  }

  lemma RestLeaks(dest: Destination, es: seq<Event>, reply: seq<byte>, cut: nat)
    requires |reply| == 22 && reply[3] == ATYP_IPV6 && 10 <= cut < 22
    requires var w := Run(Start(dest), es);
             && w.conn.Alive() && w.conn.hook == OnPump && w.conn.inbound.readOn && w.conn.inbound.low == 0
             && w.conn.inbound.input == [] == w.conn.inbound.output && w.client.written == []
             && w.relay.read == METHOD_ACCEPTED + reply[..cut]
    ensures var w := Run(Start(dest), es + [Readable(RelaySide, reply[cut..])]);
            && w.conn.hook == OnPump && w.relay.read == METHOD_ACCEPTED + reply
            && RelayPayload(w) == [] && Forwarded(w) == reply[cut..]
  {
    RunSnoc(Start(dest), es, Readable(RelaySide, reply[cut..]));
    ForwardsNext(Run(Start(dest), es), reply[cut..]);
    assert METHOD_ACCEPTED + reply[..cut] + reply[cut..] == METHOD_ACCEPTED + reply;
    assert (METHOD_ACCEPTED + reply)[2..] == reply;
  }

  /**
   * Any IPv6 success reply that is cut between its 10th and its 22nd byte: the second part of the
   * reply is forwarded to the client as if it were payload.
   */
  lemma SplitIpv6ReplyLeaks(dest: Destination, reply: seq<byte>, cut: nat)
    requires !dest.OtherFamily? && |reply| == 22 && SuccessReply(reply) && reply[3] == ATYP_IPV6 && 10 <= cut < 22
    ensures var w := Run(Start(dest), [BevEvent(RelaySide, CONNECTED), Readable(RelaySide, METHOD_ACCEPTED),
                                       Readable(RelaySide, reply[..cut]), Readable(RelaySide, reply[cut..])]);
            && w.conn.hook == OnPump && w.relay.read == METHOD_ACCEPTED + reply
            && RelayPayload(w) == [] && Forwarded(w) == reply[cut..]
  {
    var es := [BevEvent(RelaySide, CONNECTED), Readable(RelaySide, METHOD_ACCEPTED), Readable(RelaySide, reply[..cut])];
    var last := Readable(RelaySide, reply[cut..]);
    ReplyRead(dest, reply[..cut]);
    RestLeaks(dest, es, reply, cut);
    assert es + [last] == [es[0], es[1], es[2], last];
  }

  lemma EofStrandsResidue(dest: Destination, es: seq<Event>)
    requires var w := Run(Start(dest), es);
             w.conn.Alive() && w.conn.hook == OnPump && w.conn.inbound.output == [] && w.client.written == []
    ensures var (w, w') := (Run(Start(dest), es), Run(Start(dest), es + [BevEvent(RelaySide, READ_EOF)]));
            && w'.conn.hook == OnPump && w'.conn.inbound.targetShut && w'.conn.inbound.Drained()
            && w'.client.written == [] && w'.relay.read == w.relay.read
  {
    RunSnoc(Start(dest), es, BevEvent(RelaySide, READ_EOF));
  }

  /**
   * Any payload that arrives in the same read as an IPv4 success reply, followed by the end of the
   * relay's stream: the client is half-closed although none of the payload was sent to it.
   */
  lemma ResidueIsLost(dest: Destination, reply: seq<byte>, payload: seq<byte>)
    requires !dest.OtherFamily? && |reply| == 10 && SuccessReply(reply) && reply[3] == ATYP_IPV4 && payload != []
    ensures var w := Run(Start(dest), [BevEvent(RelaySide, CONNECTED), Readable(RelaySide, METHOD_ACCEPTED),
                                       Readable(RelaySide, reply + payload), BevEvent(RelaySide, READ_EOF)]);
            && w.conn.hook == OnPump && w.conn.inbound.targetShut && w.conn.inbound.Drained()
            && w.client.written == [] && w.relay.read == METHOD_ACCEPTED + reply + payload
  {
    var es := [BevEvent(RelaySide, CONNECTED), Readable(RelaySide, METHOD_ACCEPTED),
               Readable(RelaySide, reply + payload)];
    var last := BevEvent(RelaySide, READ_EOF);
    ReplyRead(dest, reply + payload);
    EofStrandsResidue(dest, es);
    assert es + [last] == [es[0], es[1], es[2], last];
    assert METHOD_ACCEPTED + (reply + payload) == METHOD_ACCEPTED + reply + payload;
  }
}
