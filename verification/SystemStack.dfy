/** The system stack's TCP path (crates/core-capture/src/stack_system.rs): packets
    are rewritten in place so that a client flow reaches a local listener, and the
    listener's answers are rewritten back.

    Field positions are those of section 3.1 of RFC 791, section 3 of RFC 8200 and
    section 3.1 of RFC 9293.
 */
module SystemStack {
  import opened Bytes
  import opened Checksum
  import opened TcpNatTable
  import Packet
  import opened Wrappers

  datatype Outcome = WriteBack | Drop | Reply | NotTcp

  /** One address family of the stack: the listener, and the stand-in client address. */
  datatype Side = Side(address: seq<byte>, next: seq<byte>, listenPort: u16) {
    predicate Wf(size: nat) {
      |address| == size && |next| == size
    }
  }

  /** A TCP packet's layout and endpoints. */
  datatype View = View(headerLen: nat, totalLen: nat, src: SocketAddr, dst: SocketAddr)

  datatype Parsed = Malformed | OtherProtocol | Tcp(v4: bool, view: View)

  /** Where the addresses are: IPv4 12..20, IPv6 8..40. */
  function AddrAt(v4: bool): nat { if v4 then 12 else 8 }

  function AddrLen(v4: bool): nat { if v4 then 4 else 16 }

  function ViewAt(p: seq<byte>, v4: bool, headerLen: nat, totalLen: nat): View
    requires AddrAt(v4) + 2 * AddrLen(v4) <= headerLen && headerLen + 4 <= |p|
  {
    var a, n := AddrAt(v4), AddrLen(v4);
    View(headerLen, totalLen,
         SocketAddr(p[a..a + n], U16At(p, headerLen)),
         SocketAddr(p[a + n..a + 2 * n], U16At(p, headerLen + 2)))
  }

  /** There is room for the IP header, a TCP header behind it, and what follows. */
  predicate Fits(p: seq<byte>, v4: bool, headerLen: nat, totalLen: nat) {
    && AddrAt(v4) + 2 * AddrLen(v4) <= headerLen && headerLen % 2 == 0
    && headerLen + 20 <= totalLen <= |p| && totalLen - headerLen < 0x1_0000
  }

  /** Here an IPv4 header of fewer than five words is malformed. */
  function Parse(p: seq<byte>): (r: Parsed)
    ensures r.Tcp? ==> Fits(p, r.v4, r.view.headerLen, r.view.totalLen)
  {
    match Packet.Header(p)
    case Err(_) => Malformed
    case Ok(ip) =>
      if ip.v4 && p[0] % 16 < 5 then Malformed
      else if ip.protocol != 6 then OtherProtocol
      else
        match Packet.ParseL4(p, 6, ip.l4Offset, ip.totalLen)
        case Ok(Tcp(srcPort, dstPort, _, _)) =>
          Tcp(ip.v4, View(ip.l4Offset, ip.totalLen, SocketAddr(ip.src, srcPort), SocketAddr(ip.dst, dstPort)))
        case _ => Malformed
  }

  /** The stack reads packets as the packet parser does, except that it refuses IPv4
      headers of fewer than five words. */
  lemma ParseAgrees(p: seq<byte>)
    ensures var q := Packet.ParseIpPacket(p);
            var short := p != [] && p[0] / 16 == 4 && p[0] % 16 < 5;
            && (Parse(p).Tcp? <==> q.Ok? && q.value.l4.Tcp? && !short)
            && (Parse(p).OtherProtocol? <==> Packet.Header(p).Ok? && Packet.Header(p).value.protocol != 6 && !short)
            && (Parse(p).Tcp? ==>
                  Parse(p) == Tcp(q.value.ip.v4, View(q.value.ip.l4Offset, q.value.ip.totalLen,
                                                      SocketAddr(q.value.ip.src, q.value.l4.srcPort),
                                                      SocketAddr(q.value.ip.dst, q.value.l4.dstPort))))
  {
  }

  /** The packet with new endpoints. */
  function Readdressed(p: seq<byte>, v4: bool, headerLen: nat, src: SocketAddr, dst: SocketAddr): (r: seq<byte>)
    requires |src.octets| == |dst.octets| == AddrLen(v4)
    requires AddrAt(v4) + 2 * AddrLen(v4) <= headerLen && headerLen + 20 <= |p|
    ensures |r| == |p|
  {
    var p1 := Patch(p, AddrAt(v4), src.octets);
    var p2 := Patch(p1, AddrAt(v4) + AddrLen(v4), dst.octets);
    var p3 := Patch(p2, headerLen, U16Bytes(src.port));
    Patch(p3, headerLen + 2, U16Bytes(dst.port))
  }

  /** The packet with its TCP checksum for these endpoints. */
  function TcpSummed(p: seq<byte>, v4: bool, headerLen: nat, totalLen: nat, src: SocketAddr, dst: SocketAddr)
    : (r: seq<byte>)
    requires |src.octets| == |dst.octets| == AddrLen(v4) && Fits(p, v4, headerLen, totalLen)
    ensures |r| == |p|
  {
    Summed(p, PseudoHeader(src.octets, dst.octets, 6, totalLen - headerLen), headerLen, totalLen, headerLen + 16)
  }

  /** The packet with new endpoints, then with the TCP checksum for them, then, in IPv4,
      with the header checksum. */
  function Rewritten(p: seq<byte>, v4: bool, headerLen: nat, totalLen: nat, src: SocketAddr, dst: SocketAddr)
    : (r: seq<byte>)
    requires |src.octets| == |dst.octets| == AddrLen(v4) && Fits(p, v4, headerLen, totalLen)
    ensures |r| == |p|
  {
    var q := TcpSummed(Readdressed(p, v4, headerLen, src, dst), v4, headerLen, totalLen, src, dst);
    if v4 then Summed(q, [], 0, headerLen, 10) else q
  }

  /** A byte that holds neither an endpoint nor a checksum. */
  predicate Carried(v4: bool, headerLen: nat, i: nat) {
    && !(AddrAt(v4) <= i < AddrAt(v4) + 2 * AddrLen(v4))
    && !(headerLen <= i < headerLen + 4)
    && !(headerLen + 16 <= i < headerLen + 18)
    && !(v4 && 10 <= i < 12)
  }

  predicate CarriesOver(p: seq<byte>, r: seq<byte>, v4: bool, headerLen: nat) {
    |r| == |p| && forall i :: 0 <= i < |p| && Carried(v4, headerLen, i) ==> r[i] == p[i]
  }

  lemma ReaddressCarries(p: seq<byte>, v4: bool, headerLen: nat, src: SocketAddr, dst: SocketAddr)
    requires |src.octets| == |dst.octets| == AddrLen(v4)
    requires AddrAt(v4) + 2 * AddrLen(v4) <= headerLen && headerLen + 20 <= |p|
    ensures CarriesOver(p, Readdressed(p, v4, headerLen, src, dst), v4, headerLen)
  {
  }

  lemma ReaddressShows(p: seq<byte>, v4: bool, headerLen: nat, totalLen: nat, src: SocketAddr, dst: SocketAddr)
    requires |src.octets| == |dst.octets| == AddrLen(v4)
    requires AddrAt(v4) + 2 * AddrLen(v4) <= headerLen && headerLen + 20 <= |p|
    ensures ViewAt(Readdressed(p, v4, headerLen, src, dst), v4, headerLen, totalLen)
            == View(headerLen, totalLen, src, dst)
  {
    var r := Readdressed(p, v4, headerLen, src, dst);
    var a, n := AddrAt(v4), AddrLen(v4);
    assert r[a..a + n] == src.octets;
    assert r[a + n..a + 2 * n] == dst.octets;
    assert r[headerLen] == src.port / 256 && r[headerLen + 1] == src.port % 256;
    assert r[headerLen + 2] == dst.port / 256 && r[headerLen + 3] == dst.port % 256;
  }

  /** They differ in the checksum fields at most. */
  predicate SameButSums(q: seq<byte>, r: seq<byte>, v4: bool, headerLen: nat) {
    && |r| == |q|
    && forall i :: 0 <= i < |q| && !(headerLen + 16 <= i < headerLen + 18) && !(v4 && 10 <= i < 12) ==> r[i] == q[i]
  }

  lemma SameButSumsShows(q: seq<byte>, r: seq<byte>, v4: bool, headerLen: nat, totalLen: nat)
    requires SameButSums(q, r, v4, headerLen) && AddrAt(v4) + 2 * AddrLen(v4) <= headerLen && headerLen + 20 <= |q|
    ensures ViewAt(r, v4, headerLen, totalLen) == ViewAt(q, v4, headerLen, totalLen)
    ensures forall p :: CarriesOver(p, q, v4, headerLen) ==> CarriesOver(p, r, v4, headerLen)
  {
    var a, n := AddrAt(v4), AddrLen(v4);
    assert r[a..a + n] == q[a..a + n];
    assert r[a + n..a + 2 * n] == q[a + n..a + 2 * n];
  }

  /** Filling in the checksums touches nothing else. */
  lemma RewriteSums(p: seq<byte>, v4: bool, headerLen: nat, totalLen: nat, src: SocketAddr, dst: SocketAddr)
    requires |src.octets| == |dst.octets| == AddrLen(v4) && Fits(p, v4, headerLen, totalLen)
    ensures SameButSums(Readdressed(p, v4, headerLen, src, dst), Rewritten(p, v4, headerLen, totalLen, src, dst), v4, headerLen)
  {
    var q := Readdressed(p, v4, headerLen, src, dst);
    var pseudo := PseudoHeader(src.octets, dst.octets, 6, totalLen - headerLen);
    SummedKeeps(q, pseudo, headerLen, totalLen, headerLen + 16);
    SummedKeeps(TcpSummed(q, v4, headerLen, totalLen, src, dst), [], 0, headerLen, 10);
  }

  lemma RewriteShows(p: seq<byte>, v4: bool, headerLen: nat, totalLen: nat, src: SocketAddr, dst: SocketAddr)
    requires |src.octets| == |dst.octets| == AddrLen(v4) && Fits(p, v4, headerLen, totalLen)
    ensures var r := Rewritten(p, v4, headerLen, totalLen, src, dst);
            && ViewAt(r, v4, headerLen, totalLen) == View(headerLen, totalLen, src, dst)
            && CarriesOver(p, r, v4, headerLen)
  {
    ReaddressShows(p, v4, headerLen, totalLen, src, dst);
    ReaddressCarries(p, v4, headerLen, src, dst);
    RewriteSums(p, v4, headerLen, totalLen, src, dst);
    SameButSumsShows(Readdressed(p, v4, headerLen, src, dst), Rewritten(p, v4, headerLen, totalLen, src, dst),
                     v4, headerLen, totalLen);
  }

  /** Both checksums are as a receiver expects them for these endpoints. */
  predicate SumsVerifyAs(r: seq<byte>, v4: bool, v: View) {
    && Fits(r, v4, v.headerLen, v.totalLen) && |v.src.octets| == |v.dst.octets| == AddrLen(v4)
    && Verifies(PseudoHeader(v.src.octets, v.dst.octets, 6, v.totalLen - v.headerLen) + r[v.headerLen..v.totalLen])
    && (v4 ==> Verifies(r[..v.headerLen]))
  }

  predicate SumsVerify(r: seq<byte>) {
    Parse(r).Tcp? && SumsVerifyAs(r, Parse(r).v4, Parse(r).view)
  }

  lemma SegmentKept(q: seq<byte>, r: seq<byte>, from: nat, to: nat)
    requires |q| == |r| && from <= to <= |q| && forall i :: from <= i < to ==> r[i] == q[i]
    ensures r[from..to] == q[from..to]
  {
  }

  /** The header checksum, filled in last, does not disturb the one over the segment. */
  lemma HeaderSumVerifies(q: seq<byte>, headerLen: nat, totalLen: nat)
    requires 20 <= headerLen <= totalLen <= |q|
    ensures var r := Summed(q, [], 0, headerLen, 10);
            Verifies(r[..headerLen]) && r[headerLen..totalLen] == q[headerLen..totalLen]
  {
    var r := Summed(q, [], 0, headerLen, 10);
    SummedVerifies(q, [], 0, headerLen, 10);
    SummedKeeps(q, [], 0, headerLen, 10);
    assert [] + r[0..headerLen] == r[..headerLen];
    SegmentKept(q, r, headerLen, totalLen);
  }

  lemma RewriteVerifies(p: seq<byte>, v4: bool, headerLen: nat, totalLen: nat, src: SocketAddr, dst: SocketAddr)
    requires |src.octets| == |dst.octets| == AddrLen(v4) && Fits(p, v4, headerLen, totalLen)
    ensures SumsVerifyAs(Rewritten(p, v4, headerLen, totalLen, src, dst), v4, View(headerLen, totalLen, src, dst))
  {
    var pseudo := PseudoHeader(src.octets, dst.octets, 6, totalLen - headerLen);
    var p1 := Readdressed(p, v4, headerLen, src, dst);
    SummedVerifies(p1, pseudo, headerLen, totalLen, headerLen + 16);
    if v4 { HeaderSumVerifies(TcpSummed(p1, v4, headerLen, totalLen, src, dst), headerLen, totalLen); }
  }

  /** Parsing depends on the carried bytes and on the endpoints alone. */
  lemma SameLayout(p: seq<byte>, r: seq<byte>)
    requires Parse(p).Tcp? && CarriesOver(p, r, Parse(p).v4, Parse(p).view.headerLen)
    ensures var v := Parse(p).view;
            Parse(r) == Tcp(Parse(p).v4, ViewAt(r, Parse(p).v4, v.headerLen, v.totalLen))
  {
    var v4, h := Parse(p).v4, Parse(p).view.headerLen;
    assert Carried(v4, h, 0) && Carried(v4, h, h + 12);
    if v4 {
      assert Carried(v4, h, 2) && Carried(v4, h, 3) && Carried(v4, h, 9);
    } else {
      assert Carried(v4, h, 4) && Carried(v4, h, 5) && Carried(v4, h, 6);
    }
  }

  /** Rewriting sets the endpoints, makes the checksums verify for them, and carries
      everything else over. */
  lemma RewriteSetsEndpoints(p: seq<byte>, src: SocketAddr, dst: SocketAddr)
    requires Parse(p).Tcp? && |src.octets| == |dst.octets| == AddrLen(Parse(p).v4)
    ensures var v := Parse(p).view;
            var r := Rewritten(p, Parse(p).v4, v.headerLen, v.totalLen, src, dst);
            && Parse(r) == Tcp(Parse(p).v4, View(v.headerLen, v.totalLen, src, dst))
            && SumsVerify(r) && CarriesOver(p, r, Parse(p).v4, v.headerLen)
  {
    var v4, v := Parse(p).v4, Parse(p).view;
    RewriteShows(p, v4, v.headerLen, v.totalLen, src, dst);
    SameLayout(p, Rewritten(p, v4, v.headerLen, v.totalLen, src, dst));
    RewriteVerifies(p, v4, v.headerLen, v.totalLen, src, dst);
  }

  // ------------------------------------------------------- processing a packet

  datatype Stack = Stack(v4: Side, v6: Option<Side>) {
    predicate Wf() {
      v4.Wf(4) && (v6.Some? ==> v6.value.Wf(16))
    }

    function SideOf(isV4: bool): Side
      requires isV4 || v6.Some?
    {
      if isV4 then v4 else v6.value
    }
  }

  /** Both endpoints of the session belong to the family of the packet. */
  predicate SameFamily(k: Key, v4: bool) {
    |k.source.octets| == |k.destination.octets| == AddrLen(v4)
  }

  /** A reset can be built for the packet: its own bytes parse once more. */
  predicate Resettable(p: seq<byte>, v: View) {
    v.totalLen <= |p| && Parse(p[..v.totalLen]).Tcp?
  }

  /** It always can for a packet that came this far. */
  lemma AlwaysResettable(p: seq<byte>)
    requires Parse(p).Tcp?
    ensures Resettable(p, Parse(p).view)
  {
    var v := Parse(p).view;
    var q := p[..v.totalLen];
    assert forall i :: 0 <= i < v.totalLen ==> q[i] == p[i];
  }

  function ProcessTcp(side: Side, t: Table, p: seq<byte>, v4: bool, v: View, now: int)
    : (Table, seq<byte>, Outcome)
    requires side.Wf(AddrLen(v4)) && Parse(p) == Tcp(v4, v)
  {
    if v.src == SocketAddr(side.address, side.listenPort) then
      var (t', session) := LookedBack(t, v.dst.port, now);
      if session.None? || !SameFamily(session.value, v4) then (t', p, Drop)
      else (t', Rewritten(p, v4, v.headerLen, v.totalLen, session.value.destination, session.value.source), WriteBack)
    else if v.dst.octets == side.address then (t, p, Drop)
    else
      var (t', port) := LookedUp(t, Key(v.src, v.dst), now);
      if port.None? then (t', p, if Resettable(p, v) then Reply else Drop)
      else (t', Rewritten(p, v4, v.headerLen, v.totalLen, SocketAddr(side.next, port.value),
                          SocketAddr(side.address, side.listenPort)), WriteBack)
  }

  function Process(st: Stack, t: Table, p: seq<byte>, now: int): (Table, seq<byte>, Outcome)
    requires st.Wf()
  {
    match Parse(p)
    case Malformed => (t, p, Drop)
    case OtherProtocol => (t, p, NotTcp)
    case Tcp(v4, v) =>
      if !v4 && st.v6.None? then (t, p, Drop) else ProcessTcp(st.SideOf(v4), t, p, v4, v, now)
  }

  /** From the listener of its family. */
  predicate FromListener(st: Stack, p: seq<byte>) {
    && Parse(p).Tcp? && (Parse(p).v4 || st.v6.Some?)
    && var side := st.SideOf(Parse(p).v4);
       Parse(p).view.src == SocketAddr(side.address, side.listenPort)
  }

  /** A client packet: neither from nor to the listener's address. */
  predicate FromClient(st: Stack, p: seq<byte>) {
    && Parse(p).Tcp? && (Parse(p).v4 || st.v6.Some?) && !FromListener(st, p)
    && Parse(p).view.dst.octets != st.SideOf(Parse(p).v4).address
  }

  /** The bytes that are neither endpoints nor checksums, the payload among them. */
  predicate SameCargo(p: seq<byte>, r: seq<byte>) {
    Parse(p).Tcp? && CarriesOver(p, r, Parse(p).v4, Parse(p).view.headerLen)
  }

  function ToListener(side: Side, p: seq<byte>, v4: bool, v: View, port: u16): seq<byte>
    requires side.Wf(AddrLen(v4)) && Parse(p) == Tcp(v4, v)
  {
    Rewritten(p, v4, v.headerLen, v.totalLen, SocketAddr(side.next, port), SocketAddr(side.address, side.listenPort))
  }

  lemma ProcessClient(st: Stack, t: Table, p: seq<byte>, now: int)
    requires st.Wf() && FromClient(st, p)
    ensures var v4, v := Parse(p).v4, Parse(p).view;
            var (t', port) := LookedUp(t, Key(v.src, v.dst), now);
            Process(st, t, p, now) ==
              if port.None? then (t', p, Reply)
              else (t', ToListener(st.SideOf(v4), p, v4, v, port.value), WriteBack)
  {
    AlwaysResettable(p);
  }

  lemma ToListenerParses(side: Side, p: seq<byte>, port: u16)
    requires Parse(p).Tcp? && side.Wf(AddrLen(Parse(p).v4))
    ensures var v4, v := Parse(p).v4, Parse(p).view;
            var r := ToListener(side, p, v4, v, port);
            && SameCargo(p, r) && SumsVerify(r)
            && Parse(r) == Tcp(v4, View(v.headerLen, v.totalLen, SocketAddr(side.next, port),
                                        SocketAddr(side.address, side.listenPort)))
  {
    RewriteSetsEndpoints(p, SocketAddr(side.next, port), SocketAddr(side.address, side.listenPort));
  }

  /** A client packet goes to the listener under its flow's port; if there is none left,
      the client is reset. */
  lemma ClientToListener(st: Stack, t: Table, p: seq<byte>, now: int)
    requires st.Wf() && FromClient(st, p)
    ensures var (t', r, o) := Process(st, t, p, now);
            var v4, v := Parse(p).v4, Parse(p).view;
            var side, port := st.SideOf(v4), LookedUp(t, Key(v.src, v.dst), now).1;
            && t' == LookedUp(t, Key(v.src, v.dst), now).0
            && if port.None? then o == Reply && r == p
               else
                 && o == WriteBack && SameCargo(p, r) && SumsVerify(r)
                 && Parse(r) == Tcp(v4, View(v.headerLen, v.totalLen, SocketAddr(side.next, port.value),
                                             SocketAddr(side.address, side.listenPort)))
  {
    var v4, v := Parse(p).v4, Parse(p).view;
    ProcessClient(st, t, p, now);
    var port := LookedUp(t, Key(v.src, v.dst), now).1;
    if port.Some? { ToListenerParses(st.SideOf(v4), p, port.value); }
  }

  function ToClient(p: seq<byte>, v4: bool, v: View, k: Key): seq<byte>
    requires Parse(p) == Tcp(v4, v) && SameFamily(k, v4)
  {
    Rewritten(p, v4, v.headerLen, v.totalLen, k.destination, k.source)
  }

  lemma ProcessListener(st: Stack, t: Table, q: seq<byte>, now: int)
    requires st.Wf() && FromListener(st, q)
    ensures var (t', r, o) := Process(st, t, q, now);
            var v4, v := Parse(q).v4, Parse(q).view;
            if v.dst.port in t.byPort && SameFamily(t.byPort[v.dst.port].key, v4) then
              o == WriteBack && r == ToClient(q, v4, v, t.byPort[v.dst.port].key)
            else o == Drop && r == q
  {
  }

  lemma ToClientParses(q: seq<byte>, k: Key)
    requires Parse(q).Tcp? && SameFamily(k, Parse(q).v4)
    ensures var v4, v := Parse(q).v4, Parse(q).view;
            var r := ToClient(q, v4, v, k);
            SameCargo(q, r) && SumsVerify(r) && Parse(r) == Tcp(v4, View(v.headerLen, v.totalLen, k.destination, k.source))
  {
    RewriteSetsEndpoints(q, k.destination, k.source);
  }

  /** A listener packet goes back to the client of the session on its port, or, if
      there is none or it is of the other IP version, nowhere. */
  lemma ListenerToClient(st: Stack, t: Table, q: seq<byte>, now: int)
    requires st.Wf() && FromListener(st, q)
    ensures var (t', r, o) := Process(st, t, q, now);
            var v4, v := Parse(q).v4, Parse(q).view;
            if v.dst.port in t.byPort && SameFamily(t.byPort[v.dst.port].key, v4) then
              var key := t.byPort[v.dst.port].key;
              && o == WriteBack && SameCargo(q, r) && SumsVerify(r)
              && Parse(r) == Tcp(v4, View(v.headerLen, v.totalLen, key.destination, key.source))
            else o == Drop && r == q
  {
    var v4, v := Parse(q).v4, Parse(q).view;
    ProcessListener(st, t, q, now);
    if v.dst.port in t.byPort && SameFamily(t.byPort[v.dst.port].key, v4) {
      ToClientParses(q, t.byPort[v.dst.port].key);
    }
  }

  /** Any other packet is neither rewritten nor does it touch the table: TCP to the
      listener's own address, TCP of an IP version the stack does not serve, and what does
      not parse is dropped, other protocols are left to their own handlers. */
  lemma OthersPass(st: Stack, t: Table, p: seq<byte>, now: int)
    requires st.Wf() && !FromListener(st, p) && !FromClient(st, p)
    ensures Process(st, t, p, now) == (t, p, if Parse(p).OtherProtocol? then NotTcp else Drop)
  {
  }

  /** With fewer than 30000 sessions every client packet is passed on. */
  lemma ClientIsServed(st: Stack, t: Table, p: seq<byte>, now: int)
    requires st.Wf() && Wf(t) && FromClient(st, p) && |t.byPort| < 30000
    ensures Process(st, t, p, now).2 == WriteBack
  {
    FewSessionsAlwaysServed(t, Key(Parse(p).view.src, Parse(p).view.dst), now);
  }

  /** The port under which a packet was passed on to the listener. */
  function PortOf(p: seq<byte>): u16 {
    if Parse(p).Tcp? then Parse(p).view.src.port else 0
  }

  /** The session a rewritten client packet leaves in the table. */
  lemma ClientSession(st: Stack, t: Table, p: seq<byte>, now: int)
    requires st.Wf() && Wf(t) && FromClient(st, p) && Process(st, t, p, now).2 == WriteBack
    ensures var t', r := Process(st, t, p, now).0, Process(st, t, p, now).1;
            && Wf(t') && PortOf(r) in t'.byPort
            && t'.byPort[PortOf(r)].key == Key(Parse(p).view.src, Parse(p).view.dst)
  {
    var key := Key(Parse(p).view.src, Parse(p).view.dst);
    ClientToListener(st, t, p, now);
    LookupKeeps(t, key, now);
    LookupAnswers(t, key, now);
  }

  /** Both endpoints of a parsed packet are of its family. */
  lemma ParsedFamily(p: seq<byte>)
    requires Parse(p).Tcp?
    ensures SameFamily(Key(Parse(p).view.src, Parse(p).view.dst), Parse(p).v4)
  {
  }

  /** `r` is `q` with its endpoints replaced by those of `p`, reversed, and checksums to
      match. */
  predicate Answers(p: seq<byte>, q: seq<byte>, r: seq<byte>) {
    && Parse(p).Tcp? && SameCargo(q, r) && SumsVerify(r)
    && Parse(r).view.src == Parse(p).view.dst && Parse(r).view.dst == Parse(p).view.src
  }

  lemma AnswerFrom(st: Stack, t: Table, p: seq<byte>, q: seq<byte>, now: int)
    requires st.Wf() && FromListener(st, q) && Parse(p).Tcp? && Parse(q).v4 == Parse(p).v4
    requires Parse(q).view.dst.port in t.byPort
    requires t.byPort[Parse(q).view.dst.port].key == Key(Parse(p).view.src, Parse(p).view.dst)
    ensures Process(st, t, q, now).2 == WriteBack
    ensures Answers(p, q, Process(st, t, q, now).1)
  {
    ParsedFamily(p);
    ListenerToClient(st, t, q, now);
  }

  /** Transparency over whole runs. A client packet `s -> d` is rewritten to port P.
      After any run of table operations that does not remove that session, a
      listener packet to P is rewritten to exactly `d -> s`, its cargo unchanged. */
  lemma Transparency(st: Stack, t: Table, p: seq<byte>, q: seq<byte>, ops: seq<Op>,
                     now: int, later: int)
    requires st.Wf() && Wf(t) && FromClient(st, p) && FromListener(st, q) && Parse(q).v4 == Parse(p).v4
    requires Process(st, t, p, now).2 == WriteBack
    requires Parse(q).view.dst.port == PortOf(Process(st, t, p, now).1)
    requires Survives(Process(st, t, p, now).0, ops, Parse(q).view.dst.port)
    ensures var t' := Run(Process(st, t, p, now).0, ops);
            && Process(st, t', q, later).2 == WriteBack
            && Answers(p, q, Process(st, t', q, later).1)
  {
    ClientSession(st, t, p, now);
    var t1 := Process(st, t, p, now).0;
    SessionIsStable(t1, ops, Parse(q).view.dst.port);
    AnswerFrom(st, Run(t1, ops), p, q, later);
  }

  // --------------------------------------------------- runs of packets and upkeep

  /** A packet to process, or an operation on the table from elsewhere. */
  datatype Event = Arrival(packet: seq<byte>, now: int) | Upkeep(op: Op)

  function OnEvent(st: Stack, t: Table, e: Event): Table
    requires st.Wf()
  {
    match e
    case Arrival(p, now) => Process(st, t, p, now).0
    case Upkeep(op) => Step(t, op)
  }

  function RunEvents(st: Stack, t: Table, events: seq<Event>): Table
    requires st.Wf()
    decreases events
  {
    if events == [] then t else RunEvents(st, OnEvent(st, t, events[0]), events[1..])
  }

  /** The session on `port` is there after every event. */
  predicate Outlives(st: Stack, t: Table, events: seq<Event>, port: u16)
    requires st.Wf()
    decreases events
  {
    port in t.byPort && (events == [] || Outlives(st, OnEvent(st, t, events[0]), events[1..], port))
  }

  /** Processing a packet moves the table by one table operation, or not at all. */
  lemma ProcessIsTableStep(st: Stack, t: Table, p: seq<byte>, now: int)
    requires st.Wf()
    ensures var t' := Process(st, t, p, now).0;
            t' == t || exists op :: t' == Step(t, op)
  {
    if Parse(p).Tcp? {
      var v := Parse(p).view;
      assert Step(t, BackOp(v.dst.port, now)) == LookedBack(t, v.dst.port, now).0;
      assert Step(t, LookupOp(Key(v.src, v.dst), now)) == LookedUp(t, Key(v.src, v.dst), now).0;
    }
  }

  lemma RunCons(t: Table, op: Op, ops: seq<Op>, port: u16)
    ensures Run(t, [op] + ops) == Run(Step(t, op), ops)
    ensures port in t.byPort && Survives(Step(t, op), ops, port) ==> Survives(t, [op] + ops, port)
  {
    assert ([op] + ops)[1..] == ops;
  }

  /** So a run of packets and upkeep is a run of table operations. */
  lemma {:induction false} EventsAreOps(st: Stack, t: Table, events: seq<Event>, port: u16) returns (ops: seq<Op>)
    requires st.Wf()
    ensures Run(t, ops) == RunEvents(st, t, events)
    ensures Outlives(st, t, events, port) ==> Survives(t, ops, port)
    decreases events
  {
    if events == [] {
      ops := [];
    } else {
      var t' := OnEvent(st, t, events[0]);
      ops := EventsAreOps(st, t', events[1..], port);
      if events[0].Arrival? { ProcessIsTableStep(st, t, events[0].packet, events[0].now); }
      if t' != t || events[0].Upkeep? {
        var op :| t' == Step(t, op);
        RunCons(t, op, ops, port);
        ops := [op] + ops;
      }
    }
  }

  /** Transparency over mixed runs: the same when, between the two packets, any other
      packets of either IP version are processed and sessions are purged or removed, as
      long as this one stays. */
  lemma TransparencyAmidTraffic(st: Stack, t: Table, p: seq<byte>, q: seq<byte>, events: seq<Event>,
                                now: int, later: int)
    requires st.Wf() && Wf(t) && FromClient(st, p) && FromListener(st, q) && Parse(q).v4 == Parse(p).v4
    requires Process(st, t, p, now).2 == WriteBack
    requires Parse(q).view.dst.port == PortOf(Process(st, t, p, now).1)
    requires Outlives(st, Process(st, t, p, now).0, events, Parse(q).view.dst.port)
    ensures var t' := RunEvents(st, Process(st, t, p, now).0, events);
            && Process(st, t', q, later).2 == WriteBack
            && Answers(p, q, Process(st, t', q, later).1)
  {
    var ops := EventsAreOps(st, Process(st, t, p, now).0, events, Parse(q).view.dst.port);
    Transparency(st, t, p, q, ops, now, later);
  }

  // ------------------------------------------------------------- in place

  /** Zeroes the checksum field, sums, and writes the result. */
  method FillChecksum(packet: array<byte>, pseudo: seq<byte>, from: nat, to: nat, at: nat)
    requires from <= at && at + 2 <= to <= packet.Length
    modifies packet
    ensures packet[..] == Summed(old(packet[..]), pseudo, from, to, at)
  {
    WriteBytes(packet, at, [0, 0]);
    WriteBytes(packet, at, U16Bytes(ChecksumOf(pseudo + packet[..][from..to])));
  }

  method Readdress(packet: array<byte>, v4: bool, headerLen: nat, src: SocketAddr, dst: SocketAddr)
    requires |src.octets| == |dst.octets| == AddrLen(v4)
    requires AddrAt(v4) + 2 * AddrLen(v4) <= headerLen && headerLen + 20 <= packet.Length
    modifies packet
    ensures packet[..] == Readdressed(old(packet[..]), v4, headerLen, src, dst)
  {
    WriteBytes(packet, AddrAt(v4), src.octets);
    WriteBytes(packet, AddrAt(v4) + AddrLen(v4), dst.octets);
    WriteBytes(packet, headerLen, U16Bytes(src.port));
    WriteBytes(packet, headerLen + 2, U16Bytes(dst.port));
  }

  method FillTcpChecksum(packet: array<byte>, v4: bool, headerLen: nat, totalLen: nat, src: SocketAddr, dst: SocketAddr)
    requires |src.octets| == |dst.octets| == AddrLen(v4) && Fits(packet[..], v4, headerLen, totalLen)
    modifies packet
    ensures packet[..] == TcpSummed(old(packet[..]), v4, headerLen, totalLen, src, dst)
  {
    var pseudo := PseudoHeader(src.octets, dst.octets, 6, totalLen - headerLen);
    FillChecksum(packet, pseudo, headerLen, totalLen, headerLen + 16);
  }

  method RewriteTcp(packet: array<byte>, v4: bool, headerLen: nat, totalLen: nat, src: SocketAddr, dst: SocketAddr)
    requires |src.octets| == |dst.octets| == AddrLen(v4) && Fits(packet[..], v4, headerLen, totalLen)
    modifies packet
    ensures packet[..] == Rewritten(old(packet[..]), v4, headerLen, totalLen, src, dst)
  {
    Readdress(packet, v4, headerLen, src, dst);
    FillTcpChecksum(packet, v4, headerLen, totalLen, src, dst);
    if v4 {
      FillChecksum(packet, [], 0, headerLen, 10);
    }
  }

  /** Whatever is written back, to the listener or to a client, keeps its cargo and
      verifies. */
  predicate GoodOutcome(p: seq<byte>, r: seq<byte>, o: Outcome) {
    if o.WriteBack? then SameCargo(p, r) && SumsVerify(r) else r == p
  }

  lemma WrittenBackVerifies(st: Stack, t: Table, p: seq<byte>, now: int)
    requires st.Wf()
    ensures GoodOutcome(p, Process(st, t, p, now).1, Process(st, t, p, now).2)
  {
    if FromListener(st, p) {
      ListenerToClient(st, t, p, now);
    } else if FromClient(st, p) {
      ClientToListener(st, t, p, now);
    }
  }

  class SystemStack {
    const st: Stack
    const tcpNat: TcpNat

    constructor (st: Stack, table: TcpNat)
      ensures this.st == st && this.tcpNat == table
    {
      this.st := st;
      this.tcpNat := table;
    }

    method ProcessTcpPacket(packet: array<byte>, v4: bool, v: View, now: int) returns (o: Outcome)
      requires st.Wf() && tcpNat.nextPort < U16 && Parse(packet[..]) == Tcp(v4, v) && (v4 || st.v6.Some?)
      modifies packet, tcpNat
      ensures (tcpNat.View(), packet[..], o) ==
                ProcessTcp(st.SideOf(v4), old(tcpNat.View()), old(packet[..]), v4, v, now)
    {
      var side := st.SideOf(v4);
      if v.src == SocketAddr(side.address, side.listenPort) {
        var session := tcpNat.LookupBack(v.dst.port, now);
        if session.None? || !SameFamily(session.value, v4) {
          return Drop;
        }
        RewriteTcp(packet, v4, v.headerLen, v.totalLen, session.value.destination, session.value.source);
        return WriteBack;
      }
      if v.dst.octets == side.address {
        return Drop;
      }
      var port := tcpNat.Lookup(Key(v.src, v.dst), now);
      if port.None? {
        return if Resettable(packet[..], v) then Reply else Drop;
      }
      RewriteTcp(packet, v4, v.headerLen, v.totalLen, SocketAddr(side.next, port.value),
                 SocketAddr(side.address, side.listenPort));
      return WriteBack;
    }

    method ProcessPacket(packet: array<byte>, now: int) returns (o: Outcome)
      requires st.Wf() && tcpNat.nextPort < U16
      modifies packet, tcpNat
      ensures (tcpNat.View(), packet[..], o) == Process(st, old(tcpNat.View()), old(packet[..]), now)
      ensures GoodOutcome(old(packet[..]), packet[..], o)
    {
      WrittenBackVerifies(st, tcpNat.View(), packet[..], now);
      match Parse(packet[..])
      case Malformed => return Drop;
      case OtherProtocol => return NotTcp;
      case Tcp(v4, v) =>
        if !v4 && st.v6.None? {
          return Drop;
        }
        o := ProcessTcpPacket(packet, v4, v, now);
    }
  }
}
