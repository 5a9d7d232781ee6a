/** IP packets and the frames a TUN device wraps them in
    (crates/core-capture/src/packet.rs).

    The header checks of the wire library follow section 3.1 of RFC 791, section 3 of
    RFC 8200, RFC 768 and section 3.1 of RFC 9293; checksums are not checked. */
module Packet {
  import opened Bytes
  import opened Wrappers

  datatype ParseError =
    | Truncated(actual: nat, needed: nat)
    | UnsupportedVersion(version: nat)
    | Wire

  datatype Result<T> = Ok(value: T) | Err(error: ParseError)

  datatype IpHeader = IpHeader(v4: bool, src: seq<byte>, dst: seq<byte>, protocol: byte,
                               totalLen: nat, l4Offset: nat, hopLimit: byte)

  datatype L4 =
    | Tcp(srcPort: u16, dstPort: u16, payloadOffset: nat, payloadLen: nat)
    | Udp(srcPort: u16, dstPort: u16, payloadOffset: nat, payloadLen: nat)
    | Other(protocol: byte)

  datatype Parsed = Parsed(ip: IpHeader, l4: L4)

  datatype FrameFormat =
    | RawIp | LinuxTunPi | Utun | Ethernet | EthernetVlan | LinuxCooked
    | VirtioNetHeader | VirtioNetHeaderMrgRxbuf

  datatype Located = Located(offset: nat, format: FrameFormat)

  datatype TunFrame = TunFrame(packet: Parsed, offset: nat, format: FrameFormat)

  // ------------------------------------------------------------- parsing a packet

  function ParseL4(p: seq<byte>, protocol: byte, at: nat, end: nat): Result<L4>
    requires at <= end <= |p|
  {
    if protocol == 6 then
      if end - at < 20 then Err(Wire)
      else
        var headerLen := (p[at + 12] / 16) * 4;
        if headerLen < 20 || end - at < headerLen then Err(Wire)
        else Ok(Tcp(U16At(p, at), U16At(p, at + 2), at + headerLen, end - at - headerLen))
    else if protocol == 17 then
      if end - at < 8 then Err(Wire)
      else
        var len := U16At(p, at + 4);
        if len < 8 || end - at < len then Err(Wire)
        else Ok(Udp(U16At(p, at), U16At(p, at + 2), at + 8, len - 8))
    else Ok(Other(protocol))
  }

  function WithL4(p: seq<byte>, ip: IpHeader): Result<Parsed>
    requires ip.l4Offset <= ip.totalLen <= |p|
  {
    match ParseL4(p, ip.protocol, ip.l4Offset, ip.totalLen)
    case Ok(l4) => Ok(Parsed(ip, l4))
    case Err(e) => Err(e)
  }

  /** A header that says it is shorter than twenty bytes is read as one of twenty. */
  function HeaderV4(p: seq<byte>): Result<IpHeader> {
    if |p| < 20 then Err(Wire)
    else
      var headerLen, totalLen := if p[0] % 16 < 5 then 20 else (p[0] % 16) * 4, U16At(p, 2);
      if totalLen < headerLen || |p| < totalLen then Err(Wire)
      else Ok(IpHeader(true, p[12..16], p[16..20], p[9], totalLen, headerLen, p[8]))
  }

  function HeaderV6(p: seq<byte>): Result<IpHeader> {
    if |p| < 40 || |p| < 40 + U16At(p, 4) then Err(Wire)
    else Ok(IpHeader(false, p[8..24], p[24..40], p[6], 40 + U16At(p, 4), 40, p[7]))
  }

  function Header(p: seq<byte>): (r: Result<IpHeader>)
    ensures r.Ok? ==> r.value.l4Offset <= r.value.totalLen <= |p|
  {
    if p == [] then Err(Truncated(0, 1))
    else if p[0] / 16 == 4 then HeaderV4(p)
    else if p[0] / 16 == 6 then HeaderV6(p)
    else Err(UnsupportedVersion(p[0] / 16))
  }

  function ParseIpPacket(p: seq<byte>): Result<Parsed> {
    match Header(p)
    case Ok(ip) => WithL4(p, ip)
    case Err(e) => Err(e)
  }

  // ---------------------------------------------------------------- tun frames

  predicate IsIpVersionByte(b: byte) {
    b / 16 == 4 || b / 16 == 6
  }

  predicate IsEtherType(v: u16) {
    v == 0x0800 || v == 0x86dd
  }

  /** At most the two low flag bits; a known segmentation type, its top bit aside. */
  predicate LooksLikeVirtio(buf: seq<byte>, headerLen: nat)
    requires headerLen >= 2
  {
    headerLen < |buf| && IsIpVersionByte(buf[headerLen]) && buf[0] < 4 && buf[1] % 128 in {0, 1, 3, 4, 5}
  }

  /** The four-byte prefixes. */
  function LocateShort(buf: seq<byte>): Option<FrameFormat>
    requires |buf| >= 5
  {
    if IsEtherType(U16At(buf, 2)) then Some(LinuxTunPi)
    else if U16At(buf, 0) == 0 && U16At(buf, 2) in {2, 10, 23, 24, 30} then Some(Utun)
    else None
  }

  /** The link-layer headers. */
  function LocateLink(buf: seq<byte>): Result<Located>
    requires |buf| > 0
  {
    if |buf| >= 15 && IsEtherType(U16At(buf, 12)) && IsIpVersionByte(buf[14]) then Ok(Located(14, Ethernet))
    else if |buf| >= 19 && U16At(buf, 12) in {0x8100, 0x88a8} && IsEtherType(U16At(buf, 16)) && IsIpVersionByte(buf[18])
    then Ok(Located(18, EthernetVlan))
    else if |buf| >= 17 && IsEtherType(U16At(buf, 14)) && IsIpVersionByte(buf[16]) then Ok(Located(16, LinuxCooked))
    else Err(UnsupportedVersion(buf[0] / 16))
  }

  function LocateIpPacket(buf: seq<byte>): (r: Result<Located>)
    ensures r.Ok? ==> r.value.offset < |buf| && IsIpVersionByte(buf[r.value.offset])
  {
    if buf == [] then Err(Truncated(0, 1))
    else if IsIpVersionByte(buf[0]) then Ok(Located(0, RawIp))
    else if |buf| >= 5 && IsIpVersionByte(buf[4]) && LocateShort(buf).Some? then
      Ok(Located(4, LocateShort(buf).value))
    else if LooksLikeVirtio(buf, 10) then Ok(Located(10, VirtioNetHeader))
    else if LooksLikeVirtio(buf, 12) then Ok(Located(12, VirtioNetHeaderMrgRxbuf))
    else LocateLink(buf)
  }

  function ParseTunFrame(buf: seq<byte>): Result<TunFrame> {
    match LocateIpPacket(buf)
    case Err(e) => Err(e)
    case Ok(at) =>
      match ParseIpPacket(buf[at.offset..])
        case Err(e) => Err(e)
        case Ok(packet) => Ok(TunFrame(packet, at.offset, at.format))
  }

  /** What is put before the packet in each format; link-layer formats are written bare. */
  function Prefix(format: FrameFormat, v4: bool): seq<byte> {
    match format
    case LinuxTunPi => [0, 0] + U16Bytes(if v4 then 0x0800 else 0x86dd)
    case Utun => [0, 0] + U16Bytes(if v4 then 2 else 30)
    case VirtioNetHeader => [0, 0, 0, 0, 0, 0, 0, 0, 0, 0]
    case VirtioNetHeaderMrgRxbuf => [0, 0, 0, 0, 0, 0, 0, 0, 0, 0, 0, 0]
    case _ => []
  }

  function EncodeTunIpFrame(format: FrameFormat, p: seq<byte>): Result<seq<byte>> {
    if p == [] then Err(Truncated(0, 1))
    else if !IsIpVersionByte(p[0]) then Err(UnsupportedVersion(p[0] / 16))
    else Ok(Prefix(format, p[0] / 16 == 4) + p)
  }

  /** The format a frame is read back in. */
  function ReadBack(format: FrameFormat): FrameFormat {
    if format.Ethernet? || format.EthernetVlan? || format.LinuxCooked? then RawIp else format
  }

  // ------------------------------------------------------------------ main results

  /** Every packet, in every format, is found again where the prefix ends. */
  lemma LocateEncoded(format: FrameFormat, p: seq<byte>)
    requires EncodeTunIpFrame(format, p).Ok?
    ensures var frame := EncodeTunIpFrame(format, p).value;
            LocateIpPacket(frame) == Ok(Located(|frame| - |p|, ReadBack(format)))
  {
    var pre := Prefix(format, p[0] / 16 == 4);
    var frame := pre + p;
    assert frame[|pre|] == p[0];
    assert forall i :: 0 <= i < |pre| ==> frame[i] == pre[i];
    if pre == [] {
      assert frame == p;
    }
  }

  /** Reading back a written frame is parsing the packet, and tells its format. */
  lemma FrameRoundTrip(format: FrameFormat, p: seq<byte>)
    requires EncodeTunIpFrame(format, p).Ok?
    ensures var frame := EncodeTunIpFrame(format, p).value;
            match ParseIpPacket(p)
            case Ok(packet) => ParseTunFrame(frame) == Ok(TunFrame(packet, |frame| - |p|, ReadBack(format)))
            case Err(e) => ParseTunFrame(frame) == Err(e)
  {
    LocateEncoded(format, p);
    var frame := EncodeTunIpFrame(format, p).value;
    assert frame[|frame| - |p|..] == p;
  }

  /** No two packets, and no two formats that are told apart, share a frame. */
  lemma EncodeIsInjective(f: FrameFormat, p: seq<byte>, g: FrameFormat, q: seq<byte>)
    requires EncodeTunIpFrame(f, p).Ok? && EncodeTunIpFrame(f, p) == EncodeTunIpFrame(g, q)
    ensures p == q && ReadBack(f) == ReadBack(g)
  {
    LocateEncoded(f, p);
    LocateEncoded(g, q);
    var frame := EncodeTunIpFrame(f, p).value;
    assert frame[|frame| - |p|..] == p && frame[|frame| - |q|..] == q;
  }

  // -------------------------------------------------- headers, field by field

  /** An IPv4 header of any length, options included, in front of at least the data it
      announces is read field by field; with fewer than five words in its length field it
      counts as one of twenty bytes. */
  lemma HeaderV4Found(h: seq<byte>, data: seq<byte>)
    requires 20 <= |h| <= 60 && h[0] / 16 == 4
    requires |h| == 4 * (h[0] % 16) || (|h| == 20 && h[0] % 16 < 5)
    requires |h| <= U16At(h, 2) <= |h| + |data|
    ensures Header(h + data) == Ok(IpHeader(true, h[12..16], h[16..20], h[9], U16At(h, 2), |h|, h[8]))
  {
    SamePrefix(h, data);
    assert (h + data)[12..16] == h[12..16];
    assert (h + data)[16..20] == h[16..20];
  }

  lemma HeaderV6Found(h: seq<byte>, data: seq<byte>)
    requires |h| == 40 && h[0] / 16 == 6 && U16At(h, 4) <= |data|
    ensures Header(h + data) == Ok(IpHeader(false, h[8..24], h[24..40], h[6], 40 + U16At(h, 4), 40, h[7]))
  {
    SamePrefix(h, data);
    assert (h + data)[8..24] == h[8..24];
    assert (h + data)[24..40] == h[24..40];
  }

  /** Nothing else is accepted: a header that is cut short, that announces more than there
      is, or less than itself, is an error, and so is any version but four and six. */
  lemma HeaderRefused(p: seq<byte>)
    ensures p == [] ==> Header(p) == Err(Truncated(0, 1))
    ensures p != [] && p[0] / 16 !in {4, 6} ==> Header(p) == Err(UnsupportedVersion(p[0] / 16))
    ensures p != [] && p[0] / 16 == 4 && (|p| < 20 || U16At(p, 2) < 20 || U16At(p, 2) < 4 * (p[0] % 16) || |p| < U16At(p, 2)) ==>
              Header(p) == Err(Wire)
    ensures p != [] && p[0] / 16 == 6 && (|p| < 40 || |p| - 40 < U16At(p, 4)) ==> Header(p) == Err(Wire)
  {
  }

  /** What cannot be found or written says why. */
  lemma ErrorsTell(format: FrameFormat, p: seq<byte>)
    ensures p == [] ==> LocateIpPacket(p) == Err(Truncated(0, 1)) && EncodeTunIpFrame(format, p) == Err(Truncated(0, 1))
    ensures p != [] ==> (LocateIpPacket(p).Err? ==> LocateIpPacket(p) == Err(UnsupportedVersion(p[0] / 16)))
    ensures p != [] ==> (EncodeTunIpFrame(format, p).Ok? <==> p[0] / 16 in {4, 6})
    ensures p != [] && p[0] / 16 !in {4, 6} ==> EncodeTunIpFrame(format, p) == Err(UnsupportedVersion(p[0] / 16))
  {
  }

  /** The header that is written: the packet's own protocol number or address family behind
      two zero bytes, or zeros only. */
  lemma WrittenHeader(format: FrameFormat, p: seq<byte>)
    requires EncodeTunIpFrame(format, p).Ok?
    ensures var frame, v4 := EncodeTunIpFrame(format, p).value, p[0] / 16 == 4;
            var n := |frame| - |p|;
            && n == (match format
                     case LinuxTunPi => 4
                     case Utun => 4
                     case VirtioNetHeader => 10
                     case VirtioNetHeaderMrgRxbuf => 12
                     case _ => 0)
            && frame[n..] == p
            && (format.LinuxTunPi? ==> U16At(frame, 0) == 0 && U16At(frame, 2) == if v4 then 0x0800 else 0x86dd)
            && (format.Utun? ==> U16At(frame, 0) == 0 && U16At(frame, 2) == if v4 then 2 else 30)
            && (format.VirtioNetHeader? || format.VirtioNetHeaderMrgRxbuf? ==> forall i :: 0 <= i < n ==> frame[i] == 0)
  {
  }

  // ------------------------------------------------ frames of other writers

  /** A four-byte prefix is found in the header before anything else is looked for. */
  predicate ReadShort(header: seq<byte>)
    requires |header| >= 5
  {
    IsIpVersionByte(header[0]) || (IsIpVersionByte(header[4]) && LocateShort(header).Some?)
  }

  predicate LikeVirtio(header: seq<byte>)
    requires |header| >= 2
  {
    header[0] < 4 && header[1] % 128 in {0, 1, 3, 4, 5}
  }

  lemma SamePrefix(header: seq<byte>, p: seq<byte>)
    ensures |header + p| == |header| + |p| && (p != [] ==> (header + p)[|header|] == p[0])
    ensures forall i :: 0 <= i < |header| ==> (header + p)[i] == header[i]
  {
  }

  /** Behind four bytes: a protocol number after any two bytes that are not read as a
      packet, or an address family, of whatever system, as a 32-bit number. */
  lemma FourBytesLocated(header: seq<byte>, p: seq<byte>)
    requires |header| == 4 && p != [] && p[0] / 16 in {4, 6}
    ensures LocateIpPacket(header + p) == Ok(Located(4, LinuxTunPi)) <==>
              header[0] / 16 !in {4, 6} && U16At(header, 2) in {0x0800, 0x86dd}
    ensures LocateIpPacket(header + p) == Ok(Located(4, Utun)) <==>
              U16At(header, 0) == 0 && U16At(header, 2) in {2, 10, 23, 24, 30}
  {
    SamePrefix(header, p);
  }

  /** A packet behind an Ethernet header is found there, exactly if the two MAC addresses
      are not read as a packet, as a four-byte prefix or as a virtio header. */
  lemma EthernetLocated(macs: seq<byte>, etherType: u16, p: seq<byte>)
    requires |macs| == 12 && IsEtherType(etherType) && p != [] && IsIpVersionByte(p[0])
    ensures LocateIpPacket(macs + U16Bytes(etherType) + p) == Ok(Located(14, Ethernet)) <==>
              !ReadShort(macs) && !(LikeVirtio(macs) && IsIpVersionByte(macs[10]))
  {
    SamePrefix(macs + U16Bytes(etherType), p);
  }

  /** The same with a VLAN tag. */
  lemma VlanLocated(macs: seq<byte>, tag: u16, id: u16, etherType: u16, p: seq<byte>)
    requires |macs| == 12 && tag in {0x8100, 0x88a8} && IsEtherType(etherType) && p != [] && IsIpVersionByte(p[0])
    ensures LocateIpPacket(macs + U16Bytes(tag) + U16Bytes(id) + U16Bytes(etherType) + p) == Ok(Located(18, EthernetVlan)) <==>
              !ReadShort(macs) && !(LikeVirtio(macs) && IsIpVersionByte(macs[10]))
  {
    SamePrefix(macs + U16Bytes(tag) + U16Bytes(id) + U16Bytes(etherType), p);
  }

  /** Behind a virtio header of either size, whatever its flags and segmentation type. */
  lemma VirtioLocated(header: seq<byte>, p: seq<byte>)
    requires |header| in {10, 12} && LikeVirtio(header) && p != [] && IsIpVersionByte(p[0])
    ensures LocateIpPacket(header + p) ==
              Ok(Located(|header|, if |header| == 10 then VirtioNetHeader else VirtioNetHeaderMrgRxbuf)) <==>
              !ReadShort(header) && (|header| == 12 ==> !IsIpVersionByte(header[10]))
  {
    SamePrefix(header, p);
  }

  /** Behind a cooked header: 14 bytes and a protocol. */
  lemma CookedLocated(header: seq<byte>, etherType: u16, p: seq<byte>)
    requires |header| == 14 && IsEtherType(etherType) && p != [] && IsIpVersionByte(p[0])
    ensures LocateIpPacket(header + U16Bytes(etherType) + p) == Ok(Located(16, LinuxCooked)) <==>
              !ReadShort(header)
              && !(LikeVirtio(header) && (IsIpVersionByte(header[10]) || IsIpVersionByte(header[12])))
  {
    SamePrefix(header + U16Bytes(etherType), p);
    SamePrefix(header, U16Bytes(etherType));
  }

  /** A TCP payload is what follows the header's own length, a UDP payload what follows
      its eight bytes up to the length it gives; other protocols are not looked into. */
  lemma PayloadFound(ip: seq<byte>, l4: seq<byte>, payload: seq<byte>)
    requires var p := ip + l4 + payload;
             Header(p).Ok? && Header(p).value.l4Offset == |ip| && Header(p).value.totalLen == |p|
    ensures var p := ip + l4 + payload;
            var protocol := Header(p).value.protocol;
            && (protocol == 6 && |l4| >= 20 && |l4| == 4 * (l4[12] / 16) ==>
                  ParseIpPacket(p) == Ok(Parsed(Header(p).value, Tcp(U16At(l4, 0), U16At(l4, 2), |ip| + |l4|, |payload|))))
            && (protocol !in {6, 17} ==> ParseIpPacket(p) == Ok(Parsed(Header(p).value, Other(protocol))))
            && (protocol == 17 && |l4| == 8 && U16At(l4, 4) == 8 + |payload| ==>
                  ParseIpPacket(p) == Ok(Parsed(Header(p).value, Udp(U16At(l4, 0), U16At(l4, 2), |ip| + 8, |payload|))))
  {
    var p := ip + l4 + payload;
    assert forall i :: 0 <= i < |l4| ==> p[|ip| + i] == l4[i];
  }

  predicate WithinPacket(l4: L4, totalLen: nat) {
    !l4.Other? ==> l4.payloadOffset + l4.payloadLen <= totalLen
  }

  /** Whatever frame is read, the packet and its payload lie within it. */
  lemma ParsedFrameIsWithin(buf: seq<byte>)
    requires ParseTunFrame(buf).Ok?
    ensures var f := ParseTunFrame(buf).value;
            && f.offset + f.packet.ip.totalLen <= |buf| && WithinPacket(f.packet.l4, f.packet.ip.totalLen)
            && |f.packet.ip.src| == |f.packet.ip.dst| == (if f.packet.ip.v4 then 4 else 16)
  {
  }
}
