/** Octets and the few sequence operations that evbuffers provide. */
module Bytes {

  type byte = x: int | 0 <= x < 256

  function Min(a: nat, b: nat): nat {
    if a < b then a else b
  }

  /** evbuffer_drain: removes n bytes, or everything when fewer than n are buffered. */
  function Drain(s: seq<byte>, n: nat): seq<byte> {
    s[Min(n, |s|)..]
  }
}
