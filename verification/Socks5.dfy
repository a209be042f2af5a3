/** The SOCKS5 messages of src/socks5.h, and the server side of RFC 1928 that reads them. */
module Socks5 {
  import opened Bytes

  const VERSION: byte := 0x05
  const METHOD_NOAUTH: byte := 0x00
  const CMD_CONNECT: byte := 0x01
  const ATYP_IPV4: byte := 0x01
  const ATYP_IPV6: byte := 0x04
  const REP_SUCCEEDED: byte := 0x00

  type Addr4 = s: seq<byte> | |s| == 4 witness [0, 0, 0, 0]
  type Addr6 = s: seq<byte> | |s| == 16 witness [0, 0, 0, 0, 0, 0, 0, 0, 0, 0, 0, 0, 0, 0, 0, 0]
  type Port = p: int | 0 <= p < 0x1_0000

  /** dest_addr, as found by getorigdst: AF_INET, AF_INET6 or a family the client refuses. */
  datatype Destination = V4(addr4: Addr4, port4: Port) | V6(addr6: Addr6, port6: Port) | OtherFamily

  /** sin_port is stored in network byte order. */
  function PortBytes(p: Port): seq<byte> {
    [p / 256, p % 256]
  }

  /** The three bytes of struct socks_method_select_request. */
  const METHOD_REQUEST: seq<byte> := [VERSION, 1, METHOD_NOAUTH]

  /** The memory image of the packed struct socks_request_ipv4 or socks_request_ipv6. */
  function ConnectRequest(d: Destination): seq<byte>
    requires !d.OtherFamily?
  {
    match d
    case V4(addr, port) => [VERSION, CMD_CONNECT, 0, ATYP_IPV4] + addr + PortBytes(port)
    case V6(addr, port) => [VERSION, CMD_CONNECT, 0, ATYP_IPV6] + addr + PortBytes(port)
  }

  /** Everything the client says to the server before the first relayed byte. */
  function Preamble(d: Destination): seq<byte>
    requires !d.OtherFamily?
  {
    METHOD_REQUEST + ConnectRequest(d)
  }

  // ---------------------------------------------------------------------------
  // Server side: parsers written from sections 3 and 4 of RFC 1928.

  function BigEndian(high: byte, low: byte): Port {
    (high as int) * 256 + low as int
  }

  datatype Request = Request(cmd: byte, atyp: byte, addr: seq<byte>, port: Port)

  datatype Parsed<T> = NeedMore | Malformed | Parsed(value: T, rest: seq<byte>)

  /** Section 3: VER, NMETHODS, METHODS. */
  function ParseMethods(s: seq<byte>): Parsed<seq<byte>> {
    if |s| < 2 then NeedMore
    else if s[0] != 5 then Malformed
    else
      var n: nat := s[1];
      if |s| < 2 + n then NeedMore else Parsed(s[2..2 + n], s[2 + n..])
  }

  /** Section 4: VER, CMD, RSV, ATYP, DST.ADDR, DST.PORT; section 5 gives the address forms. */
  function ParseRequest(s: seq<byte>): Parsed<Request> {
    if |s| < 5 then NeedMore
    else if s[0] != 5 || s[2] != 0 then Malformed
    else if s[3] == 1 then ParseAddress(s, 4, 4)
    else if s[3] == 3 then ParseAddress(s, 5, s[4])
    else if s[3] == 4 then ParseAddress(s, 4, 16)
    else Malformed
  }

  function ParseAddress(s: seq<byte>, start: nat, n: nat): Parsed<Request>
    requires |s| >= 5
  {
    if |s| < start + n + 2 then NeedMore
    else Parsed(Request(s[1], s[3], s[start..start + n], BigEndian(s[start + n], s[start + n + 1])), s[start + n + 2..])
  }

  datatype Session = Session(methods: seq<byte>, request: Request)

  /** What a server that has read s knows: the offered methods, the request and the payload after it. */
  function ServerView(s: seq<byte>): Parsed<Session> {
    match ParseMethods(s)
    case NeedMore => NeedMore
    case Malformed => Malformed
    case Parsed(methods, s1) =>
      match ParseRequest(s1)
      case NeedMore => NeedMore
      case Malformed => Malformed
      case Parsed(request, s2) => Parsed(Session(methods, request), s2)
  }

  /** The request a server should understand for a destination: CONNECT is 1, IPv4 is 1, IPv6 is 4. */
  function Meaning(d: Destination): Request
    requires !d.OtherFamily?
  {
    match d
    case V4(addr, port) => Request(1, 1, addr, port)
    case V6(addr, port) => Request(1, 4, addr, port)
  }

  /** The section 4 parser reads back exactly the encoded request, whatever follows it. */
  lemma RequestRoundTrip(d: Destination, rest: seq<byte>)
    requires !d.OtherFamily?
    ensures ParseRequest(ConnectRequest(d) + rest) == Parsed(Meaning(d), rest)
    ensures |ConnectRequest(d)| == if d.V4? then 10 else 22
  {
    var s := ConnectRequest(d) + rest;
    match d {
      case V4(addr, port) =>
        assert s[4..8] == addr && s[10..] == rest;
        assert BigEndian(s[8], s[9]) == port;
      case V6(addr, port) =>
        assert s[4..20] == addr && s[22..] == rest;
        assert BigEndian(s[20], s[21]) == port;
    }
  }

  /** Encodings are prefix free: equal streams come from equal destinations and equal payloads. */
  lemma RequestsPrefixFree(d: Destination, e: Destination, r: seq<byte>, q: seq<byte>)
    requires !d.OtherFamily? && !e.OtherFamily?
    requires ConnectRequest(d) + r == ConnectRequest(e) + q
    ensures d == e && r == q
  {
    RequestRoundTrip(d, r);
    RequestRoundTrip(e, q);
  }

  /** A server that reads the preamble and a payload recovers the destination and the payload. */
  lemma ServerRecoversPreamble(d: Destination, payload: seq<byte>)
    requires !d.OtherFamily?
    ensures ServerView(Preamble(d) + payload) == Parsed(Session([0], Meaning(d)), payload)
  {
    var s := Preamble(d) + payload;
    assert s[2..3] == [0];
    assert s[3..] == ConnectRequest(d) + payload;
    RequestRoundTrip(d, payload);
  }

  // ---------------------------------------------------------------------------
  // Replies of the server, sections 3 and 6 of RFC 1928.

  /** Section 6: VER, REP, RSV, ATYP, BND.ADDR, BND.PORT. */
  function Reply(rep: byte, atyp: byte, addr: seq<byte>, port: Port): seq<byte> {
    [5, rep, 0, atyp] + addr + [port / 256, port % 256]
  }

  /** Section 5: four octets, a length octet and a name, or sixteen octets. */
  predicate AddressForm(atyp: byte, addr: seq<byte>) {
    match atyp
    case 1 => |addr| == 4
    case 3 => |addr| > 0 && |addr| - 1 == addr[0]
    case 4 => |addr| == 16
    case _ => true
  }

  const METHOD_ACCEPTED: seq<byte> := [VERSION, METHOD_NOAUTH]

  /** The reply header checks of the connect-reply callback. */
  predicate SuccessReply(s: seq<byte>) {
    && |s| >= 10
    && s[0] == VERSION
    && s[1] == REP_SUCCEEDED
    && (s[3] == ATYP_IPV4 || s[3] == ATYP_IPV6)
  }

  /** Section 6: 4 header bytes, the bound address, 2 port bytes. */
  function ReplyLength(s: seq<byte>): nat
    requires |s| >= 4
  {
    if s[3] == ATYP_IPV6 then 22 else 10
  }
}
