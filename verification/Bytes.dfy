/** Octets, big-endian 16-bit fields and overwriting a slice of a buffer. */
module Bytes {

  type byte = x: int | 0 <= x < 256

  type u16 = x: int | 0 <= x < 0x1_0000

  function U16At(s: seq<byte>, at: nat): u16
    requires at + 2 <= |s|
  {
    (s[at] as int) * 256 + s[at + 1] as int
  }

  function U16Bytes(v: u16): (r: seq<byte>)
    ensures |r| == 2
  {
    [v / 256, v % 256]
  }

  /** `s` with `bytes` written from position `at`. */
  function Patch(s: seq<byte>, at: nat, bytes: seq<byte>): (r: seq<byte>)
    requires at + |bytes| <= |s|
    ensures |r| == |s|
    ensures forall i :: 0 <= i < |s| ==> r[i] == if at <= i < at + |bytes| then bytes[i - at] else s[i]
  {
    s[..at] + bytes + s[at + |bytes|..]
  }

  method WriteBytes(buf: array<byte>, at: nat, bytes: seq<byte>)
    requires at + |bytes| <= buf.Length
    modifies buf
    ensures buf[..] == Patch(old(buf[..]), at, bytes)
  {
    for i := 0 to |bytes|
      invariant forall j :: 0 <= j < buf.Length ==>
                  buf[j] == if at <= j < at + i then bytes[j - at] else old(buf[j])
    {
      buf[at + i] := bytes[i];
    }
  }

  /** An IP address as its 4 or 16 octets, with a port. */
  datatype SocketAddr = SocketAddr(octets: seq<byte>, port: u16)
}
