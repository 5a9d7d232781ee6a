/** Building UDP packets (crates/core-capture/src/udp_forwarder.rs). */
module UdpForwarder {
  import opened Bytes
  import opened Checksum
  import opened Wrappers
  import opened Packet

  const MAX_V4 := 65507
  const MAX_V6 := 65527

  datatype Sums = Sums(ip: u16, udp: u16)

  /** Section 3.1 of RFC 791: five words, no fragmentation, hop limit 64, protocol UDP. */
  function HeaderV4(src: seq<byte>, dst: seq<byte>, payloadLen: nat, ipSum: u16): seq<byte>
    requires payloadLen <= MAX_V4
  {
    [0x45, 0] + U16Bytes(28 + payloadLen) + [0, 0, 0x40, 0, 64, 17] + U16Bytes(ipSum) + src + dst
  }

  /** Section 3 of RFC 8200. */
  function HeaderV6(src: seq<byte>, dst: seq<byte>, payloadLen: nat): seq<byte>
    requires payloadLen <= MAX_V6
  {
    [0x60, 0, 0, 0] + U16Bytes(8 + payloadLen) + [17, 64] + src + dst
  }

  /** RFC 768. */
  function HeaderUdp(srcPort: u16, dstPort: u16, payloadLen: nat, udpSum: u16): seq<byte>
    requires payloadLen <= MAX_V6
  {
    U16Bytes(srcPort) + U16Bytes(dstPort) + U16Bytes(8 + payloadLen) + U16Bytes(udpSum)
  }

  predicate Buildable(src: SocketAddr, dst: SocketAddr, payload: seq<byte>) {
    || (|src.octets| == |dst.octets| == 4 && |payload| <= MAX_V4)
    || (|src.octets| == |dst.octets| == 16 && |payload| <= MAX_V6)
  }

  function Header(src: SocketAddr, dst: SocketAddr, payload: seq<byte>, sums: Sums): seq<byte>
    requires Buildable(src, dst, payload)
  {
    if |src.octets| == 4 then HeaderV4(src.octets, dst.octets, |payload|, sums.ip)
    else HeaderV6(src.octets, dst.octets, |payload|)
  }

  /** The packet with these checksums. */
  function Assembled(src: SocketAddr, dst: SocketAddr, payload: seq<byte>, sums: Sums): seq<byte>
    requires Buildable(src, dst, payload)
  {
    Header(src, dst, payload, sums) + HeaderUdp(src.port, dst.port, |payload|, sums.udp) + payload
  }

  function Datagram(src: SocketAddr, dst: SocketAddr, payload: seq<byte>, udpSum: u16): seq<byte>
    requires |payload| <= MAX_V6
  {
    HeaderUdp(src.port, dst.port, |payload|, udpSum) + payload
  }

  function PseudoOf(src: SocketAddr, dst: SocketAddr, payload: seq<byte>): (r: seq<byte>)
    requires Buildable(src, dst, payload)
    ensures |r| % 2 == 0
  {
    PseudoHeader(src.octets, dst.octets, 17, 8 + |payload|)
  }

  /** The checksums over zeroed fields; a UDP checksum of zero is sent as all ones. */
  function SumsOf(src: SocketAddr, dst: SocketAddr, payload: seq<byte>): Sums
    requires Buildable(src, dst, payload)
  {
    var udp := ChecksumOf(PseudoOf(src, dst, payload) + Datagram(src, dst, payload, 0));
    Sums(if |src.octets| == 4 then ChecksumOf(HeaderV4(src.octets, dst.octets, |payload|, 0)) else 0,
         if udp == 0 then 0xffff else udp)
  }

  /** The packet, or nothing: mixed families or a payload too long for one packet. */
  function Built(src: SocketAddr, dst: SocketAddr, payload: seq<byte>): Option<seq<byte>> {
    if Buildable(src, dst, payload) then Some(Assembled(src, dst, payload, SumsOf(src, dst, payload))) else None
  }

  lemma FilledInOrder(z: seq<byte>, a: seq<byte>, b: seq<byte>, c: seq<byte>)
    requires |z| == |a| + |b| + |c|
    ensures Patch(Patch(Patch(z, 0, a), |a|, b), |a| + |b|, c) == a + b + c
  {
  }

  /** Fills a zeroed buffer, header by header. */
  method BuildUdpIpPacket(src: SocketAddr, dst: SocketAddr, payload: seq<byte>) returns (r: Option<seq<byte>>)
    ensures r == Built(src, dst, payload)
  {
    if !Buildable(src, dst, payload) {
      return None;
    }
    var sums := SumsOf(src, dst, payload);
    var ip := Header(src, dst, payload, sums);
    var udp := HeaderUdp(src.port, dst.port, |payload|, sums.udp);
    var buf := new byte[|ip| + 8 + |payload|](_ => 0);
    FilledInOrder(buf[..], ip, udp, payload);
    WriteBytes(buf, 0, ip);
    WriteBytes(buf, |ip|, udp);
    WriteBytes(buf, |ip| + 8, payload);
    return Some(buf[..]);
  }

  /** The fields of the IP headers. */
  lemma FieldsV4(src: seq<byte>, dst: seq<byte>, payloadLen: nat, ipSum: u16)
    requires |src| == |dst| == 4 && payloadLen <= MAX_V4
    ensures var h := HeaderV4(src, dst, payloadLen, ipSum);
            && |h| == 20 && h[0] == 0x45 && U16At(h, 2) == 28 + payloadLen && h[8] == 64 && h[9] == 17
            && h[12..16] == src && h[16..20] == dst
  {
    var pre := [0x45, 0] + U16Bytes(28 + payloadLen) + [0, 0, 0x40, 0, 64, 17] + U16Bytes(ipSum);
    assert |pre| == 12 && HeaderV4(src, dst, payloadLen, ipSum) == pre + src + dst;
  }

  lemma FieldsV6(src: seq<byte>, dst: seq<byte>, payloadLen: nat)
    requires |src| == |dst| == 16 && payloadLen <= MAX_V6
    ensures var h := HeaderV6(src, dst, payloadLen);
            && |h| == 40 && h[0] == 0x60 && U16At(h, 4) == 8 + payloadLen && h[6] == 17 && h[7] == 64
            && h[8..24] == src && h[24..40] == dst
  {
    var pre := [0x60, 0, 0, 0] + U16Bytes(8 + payloadLen) + [17, 64];
    assert |pre| == 8 && HeaderV6(src, dst, payloadLen) == pre + src + dst;
  }

  /** The UDP header is read back, wherever it stands. */
  lemma ParseUdp(ip: seq<byte>, srcPort: u16, dstPort: u16, payload: seq<byte>, sum: u16)
    requires |payload| <= MAX_V6
    ensures var p := ip + HeaderUdp(srcPort, dstPort, |payload|, sum) + payload;
            ParseL4(p, 17, |ip|, |p|) == Ok(Udp(srcPort, dstPort, |ip| + 8, |payload|))
  {
    var p := ip + HeaderUdp(srcPort, dstPort, |payload|, sum) + payload;
    var n := |ip|;
    assert U16At(p, n) == srcPort by { assert p[n] == srcPort / 256 && p[n + 1] == srcPort % 256; }
    assert U16At(p, n + 2) == dstPort by { assert p[n + 2] == dstPort / 256 && p[n + 3] == dstPort % 256; }
    var len := 8 + |payload|;
    assert U16At(p, n + 4) == len by { assert p[n + 4] == len / 256 && p[n + 5] == len % 256; }
  }

  /** What parsing a built packet must give. */
  function Expected(src: SocketAddr, dst: SocketAddr, payload: seq<byte>): Parsed {
    var v4 := |src.octets| == 4;
    var ip := if v4 then 20 else 40;
    Parsed(IpHeader(v4, src.octets, dst.octets, 17, ip + 8 + |payload|, ip, 64),
           Udp(src.port, dst.port, ip + 8, |payload|))
  }

  lemma ParseAssembledV4(src: SocketAddr, dst: SocketAddr, payload: seq<byte>, sums: Sums)
    requires |src.octets| == |dst.octets| == 4 && |payload| <= MAX_V4
    ensures ParseIpPacket(Assembled(src, dst, payload, sums)) == Ok(Expected(src, dst, payload))
    ensures |Header(src, dst, payload, sums)| == Expected(src, dst, payload).ip.l4Offset
  {
    var ip := HeaderV4(src.octets, dst.octets, |payload|, sums.ip);
    var p := Assembled(src, dst, payload, sums);
    FieldsV4(src.octets, dst.octets, |payload|, sums.ip);
    assert forall i :: 0 <= i < 20 ==> p[i] == ip[i];
    assert p[12..16] == ip[12..16] && p[16..20] == ip[16..20];
    ParseUdp(ip, src.port, dst.port, payload, sums.udp);
  }

  lemma ParseAssembledV6(src: SocketAddr, dst: SocketAddr, payload: seq<byte>, sums: Sums)
    requires |src.octets| == |dst.octets| == 16 && |payload| <= MAX_V6
    ensures ParseIpPacket(Assembled(src, dst, payload, sums)) == Ok(Expected(src, dst, payload))
    ensures |Header(src, dst, payload, sums)| == Expected(src, dst, payload).ip.l4Offset
  {
    var ip := HeaderV6(src.octets, dst.octets, |payload|);
    var p := Assembled(src, dst, payload, sums);
    FieldsV6(src.octets, dst.octets, |payload|);
    assert forall i :: 0 <= i < 40 ==> p[i] == ip[i];
    assert p[8..24] == ip[8..24] && p[24..40] == ip[24..40];
    ParseUdp(ip, src.port, dst.port, payload, sums.udp);
  }

  lemma ParseAssembled(src: SocketAddr, dst: SocketAddr, payload: seq<byte>, sums: Sums)
    requires Buildable(src, dst, payload)
    ensures var p := Assembled(src, dst, payload, sums);
            && p != [] && IsIpVersionByte(p[0]) && ParseIpPacket(p) == Ok(Expected(src, dst, payload))
            && |p| == Expected(src, dst, payload).l4.payloadOffset + |payload| && p[|p| - |payload|..] == payload
  {
    if |src.octets| == 4 { ParseAssembledV4(src, dst, payload, sums); } else { ParseAssembledV6(src, dst, payload, sums); }
    var head := Header(src, dst, payload, sums) + HeaderUdp(src.port, dst.port, |payload|, sums.udp);
    assert Assembled(src, dst, payload, sums) == head + payload;
  }

  lemma LastBytes(pre: seq<byte>, p: seq<byte>, n: nat)
    requires n <= |p|
    ensures (pre + p)[|pre| + |p| - n..] == p[|p| - n..]
  {
  }

  /** A packet, written in any frame format and read back, gives its endpoints, its
      payload and the format, the link-layer formats coming back as bare packets. */
  lemma UdpRoundTrip(src: SocketAddr, dst: SocketAddr, payload: seq<byte>, format: FrameFormat)
    requires Buildable(src, dst, payload)
    ensures var p := Built(src, dst, payload).value;
            && EncodeTunIpFrame(format, p).Ok?
            && var frame := EncodeTunIpFrame(format, p).value;
               var got := Expected(src, dst, payload);
               && ParseTunFrame(frame) == Ok(TunFrame(got, |frame| - |p|, ReadBack(format)))
               && frame[|frame| - |p| + got.l4.payloadOffset..] == payload
  {
    var p := Built(src, dst, payload).value;
    ParseAssembled(src, dst, payload, SumsOf(src, dst, payload));
    FrameRoundTrip(format, p);
    LastBytes(Prefix(format, p[0] / 16 == 4), p, |payload|);
  }

  // ------------------------------------------------------------------- checksums

  lemma HeaderV4Sum(src: seq<byte>, dst: seq<byte>, payloadLen: nat, sum: u16)
    requires |src| == |dst| == 4 && payloadLen <= MAX_V4
    ensures var zero := HeaderV4(src, dst, payloadLen, 0);
            && |zero| == 20 && zero[10] == 0 && zero[11] == 0
            && HeaderV4(src, dst, payloadLen, sum) == Patch(zero, 10, U16Bytes(sum))
  {
    var pre := [0x45, 0] + U16Bytes(28 + payloadLen) + [0, 0, 0x40, 0, 64, 17];
    assert |pre| == 10 && HeaderV4(src, dst, payloadLen, 0) == pre + U16Bytes(0) + (src + dst);
    assert HeaderV4(src, dst, payloadLen, sum) == pre + U16Bytes(sum) + (src + dst);
  }

  lemma DatagramSum(pseudo: seq<byte>, src: SocketAddr, dst: SocketAddr, payload: seq<byte>, sum: u16)
    requires |payload| <= MAX_V6
    ensures var zero, at := pseudo + Datagram(src, dst, payload, 0), |pseudo| + 6;
            && at + 2 <= |zero| && zero[at] == 0 && zero[at + 1] == 0
            && pseudo + Datagram(src, dst, payload, sum) == Patch(zero, at, U16Bytes(sum))
  {
    var pre := pseudo + (U16Bytes(src.port) + U16Bytes(dst.port) + U16Bytes(8 + |payload|));
    assert |pre| == |pseudo| + 6;
    assert pseudo + Datagram(src, dst, payload, 0) == pre + U16Bytes(0) + payload;
    assert pseudo + Datagram(src, dst, payload, sum) == pre + U16Bytes(sum) + payload;
  }

  lemma HeaderVerifies(src: SocketAddr, dst: SocketAddr, payload: seq<byte>)
    requires |src.octets| == |dst.octets| == 4 && |payload| <= MAX_V4
    ensures Verifies(Header(src, dst, payload, SumsOf(src, dst, payload)))
  {
    var sum := SumsOf(src, dst, payload).ip;
    HeaderV4Sum(src.octets, dst.octets, |payload|, sum);
    FilledVerifies(HeaderV4(src.octets, dst.octets, |payload|, 0), 10, sum);
  }

  lemma DatagramVerifies(src: SocketAddr, dst: SocketAddr, payload: seq<byte>)
    requires Buildable(src, dst, payload)
    ensures Verifies(PseudoOf(src, dst, payload) + Datagram(src, dst, payload, SumsOf(src, dst, payload).udp))
  {
    var sum, pseudo := SumsOf(src, dst, payload).udp, PseudoOf(src, dst, payload);
    DatagramSum(pseudo, src, dst, payload, sum);
    FilledVerifies(pseudo + Datagram(src, dst, payload, 0), |pseudo| + 6, sum);
  }

  lemma BuiltSplits(head: seq<byte>, udp: seq<byte>, payload: seq<byte>)
    requires |udp| == 8
    ensures var p := head + udp + payload;
            p[..|head|] == head && p[|head|..] == udp + payload && U16At(p, |head| + 6) == U16At(udp, 6)
  {
  }

  /** Every built packet verifies: its IPv4 header, and its datagram together with the
      pseudo-header of its endpoints; and its UDP checksum is never the zero that stands
      for none. Positions are those that parsing the packet gives. */
  lemma BuiltVerifies(src: SocketAddr, dst: SocketAddr, payload: seq<byte>)
    requires Buildable(src, dst, payload)
    ensures var p, ip := Built(src, dst, payload).value, Expected(src, dst, payload).ip;
            && ParseIpPacket(p) == Ok(Expected(src, dst, payload)) && |p| == ip.totalLen
            && (ip.v4 ==> Verifies(p[..ip.l4Offset]))
            && Verifies(PseudoHeader(ip.src, ip.dst, 17, ip.totalLen - ip.l4Offset) + p[ip.l4Offset..])
            && U16At(p, ip.l4Offset + 6) != 0
  {
    var sums := SumsOf(src, dst, payload);
    var head, udp := Header(src, dst, payload, sums), HeaderUdp(src.port, dst.port, |payload|, sums.udp);
    ParseAssembled(src, dst, payload, sums);
    assert |head| == Expected(src, dst, payload).ip.l4Offset;
    BuiltSplits(head, udp, payload);
    DatagramVerifies(src, dst, payload);
    if |src.octets| == 4 { HeaderVerifies(src, dst, payload); }
    assert U16At(udp, 6) == sums.udp;
  }
}
