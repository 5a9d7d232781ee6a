/** Route compilation for Android's VpnService
    (crates/core-capture/src/android_vpn_config.rs): interval subtraction followed
    by the greedy decomposition into CIDR blocks, and its agreement with the
    plan's own predicates (crates/core-capture/src/engine.rs).
 */
module AndroidVpnConfig {
  import opened Dyadic
  import opened Addresses
  import opened CidrCover

  const U128_MAX: nat := 0xffff_ffff_ffff_ffff_ffff_ffff_ffff_ffff

  /** The width of `u128`. `one` keeps the solver from unfolding 128 doublings. */
  lemma U128Width(one: nat)
    requires one == 1
    ensures Pow2(128 * one) == U128_MAX + 1
  {
    assert Pow2(one) == 2;
    Pow2Double(one, 2);
    Pow2Double(2 * one, 4);
    Pow2Double(4 * one, 0x10);
    Pow2Double(8 * one, 0x100);
    Pow2Double(16 * one, 0x1_0000);
    Pow2Double(32 * one, 0x1_0000_0000);
    Pow2Double(64 * one, 0x1_0000_0000_0000_0000);
  }

  lemma V6Width(family: Family)
    requires family.V6?
    ensures Pow2(family.Bits()) == U128_MAX + 1
  {
    U128Width(1);
  }

  // ---------------------------------------------------------------- ranges

  datatype NetRange = NetRange(start: nat, end: nat, family: Family)

  /** Starts at `addr`, not at the network address. The IPv6 end is computed in
      `u128` and wraps. */
  function FromNet(n: IpNet): NetRange {
    match n.family
    case V4 => NetRange(n.addr, n.addr + Pow2(n.HostBits()) - 1, V4)
    case V6 =>
      var sum := n.addr + Pow2(n.HostBits());
      NetRange(n.addr,
               if n.HostBits() == 128 then U128_MAX
               else if sum > U128_MAX + 1 then sum - (U128_MAX + 1) - 1
               else sum - 1,
               V6)
  }

  /** For any network, with host bits or without: an IPv4 range may overshoot the address
      space, an IPv6 range wraps around it, and the whole IPv6 space has its own branch. */
  lemma RangeOfAnyNet(n: IpNet)
    ensures var r, size := FromNet(n), Pow2(n.HostBits());
            && r.start == n.addr && r.family == n.family
            && (n.family.V4? ==> r.end == n.addr + size - 1)
            && (n.family.V6? && n.prefix == 0 ==> r.end == U128_MAX)
            && (n.family.V6? && n.prefix > 0 ==>
                  r.end == if n.addr + size - 1 <= U128_MAX then n.addr + size - 1 else n.addr + size - 1 - (U128_MAX + 1))
  {
    if n.family.V6? && n.prefix > 0 {
      V6Width(n.family);
      Pow2Strict(n.HostBits(), n.family.Bits());
    }
  }

  /** The largest end of a range: an IPv4 range may overshoot the address space. */
  function Limit(family: Family): nat {
    if family.V4? then 2 * Pow2(family.Bits()) - 1 else Pow2(family.Bits()) - 1
  }

  predicate InRange(n: IpNet, x: nat) {
    FromNet(n).start <= x <= FromNet(n).end
  }

  lemma FromNetBounds(n: IpNet)
    ensures FromNet(n).start < Pow2(n.family.Bits())
    ensures FromNet(n).end <= Limit(n.family)
  {
    Pow2Monotone(n.HostBits(), n.family.Bits());
    if n.family.V6? { V6Width(n.family); }
  }

  lemma LimitFits(family: Family)
    ensures Limit(family) <= U128_MAX
  {
    V6Width(V6);
    Pow2Strict(V4.Bits(), V6.Bits());
  }

  /** The range is the network exactly when the network has no host bits. */
  lemma RangeIsNetwork(n: IpNet)
    ensures Canonical(n) <==>
            forall ip: IpAddr :: ip.family == n.family ==> (Contains(n, ip) <==> InRange(n, ip.value))
    ensures Canonical(n) ==> FromNet(n).end == n.addr + Pow2(n.HostBits()) - 1
    ensures Canonical(n) ==> FromNet(n).end < Pow2(n.family.Bits())
  {
    var h := n.HostBits();
    if n.family.V6? { V6Width(n.family); }
    if Canonical(n) {
      BlockFits(n.addr, h, n.family.Bits());
      forall ip: IpAddr | ip.family == n.family
        ensures Contains(n, ip) <==> InRange(n, ip.value)
      {
        AlignedBlock(n.addr, h, ip.value);
      }
    } else {
      BaseKeepsPrefix(n.addr, h);
      BaseIsNearest(n.addr, h);
      var first: IpAddr := Ip(n.family, Base(n.addr, h));
      assert Contains(n, first) && !InRange(n, first.value);
    }
  }

  /** The 128-bit sum of `from_net`, which is formed unless the network is the whole
      space, overflows exactly for the networks that reach the last address, and yet the
      range it wraps to is the network. */
  lemma SumOverflowsAtTheTop(n: IpNet)
    requires n.family.V6? && Canonical(n)
    ensures n.prefix > 0 ==> (n.addr + Pow2(n.HostBits()) > U128_MAX <==> InRange(n, U128_MAX))
    ensures n.prefix == 0 ==> FromNet(n) == NetRange(n.addr, U128_MAX, V6)
    ensures FromNet(n).end == n.addr + Pow2(n.HostBits()) - 1
  {
    V6Width(n.family);
    RangeIsNetwork(n);
  }

  // ------------------------------------------------- interval to CIDR blocks

  function AlignedPrefix(value: nat, bits: nat): nat
  {
    if value == 0 then 0
    else
      var t := TrailingZeros(value);
      bits - (if t < bits then t else bits)
  }

  /** Saturates at `u128::MAX`. */
  function BlockEnd(start: nat, prefix: nat, bits: nat): nat
    requires prefix <= bits
  {
    var hostBits := bits - prefix;
    if hostBits == 128 then U128_MAX
    else if start + Pow2(hostBits) - 1 > U128_MAX then U128_MAX
    else start + Pow2(hostBits) - 1
  }

  /** `saturating_add` never saturates on an aligned block. */
  lemma BlockEndIsExact(start: nat, prefix: nat, bits: nat)
    requires prefix <= bits <= 128 && start <= U128_MAX
    requires Aligned(start, bits - prefix)
    ensures BlockEnd(start, prefix, bits) == start + Pow2(bits - prefix) - 1 <= U128_MAX
  {
    V6Width(V6);
    BlockFits(start, bits - prefix, V6.Bits());
  }

  lemma AlignedPrefixIsShortest(value: nat, bits: nat, h: nat)
    requires h <= bits
    ensures AlignedPrefix(value, bits) <= bits
    ensures Aligned(value, bits - AlignedPrefix(value, bits))
    ensures Aligned(value, h) ==> h <= bits - AlignedPrefix(value, bits)
  {
    if value == 0 {
      ZeroIsAligned(bits);
    } else {
      TrailingZerosGreatest(value, h);
      TrailingZerosGreatest(value, bits - AlignedPrefix(value, bits));
    }
  }

  /** The cast of `net_from_parts` to the width of the family. */
  function Cast(x: nat, family: Family): nat {
    if x >= Pow2(family.Bits()) then x - Pow2(family.Bits()) else x
  }

  function NetFromParts(start: nat, prefix: nat, family: Family): IpNet
    requires prefix <= family.Bits() && start < 2 * Pow2(family.Bits())
  {
    Net(family, Cast(start, family), prefix)
  }

  /** The networks that the greedy blocks of `start .. end` become. */
  function Compile(start: nat, end: nat, family: Family): seq<IpNet>
    requires end < 2 * Pow2(family.Bits())
    decreases if start <= end then end + 1 - start else 0
  {
    if start > end then []
    else
      var h := LargestHeight(start, end, family.Bits());
      [NetFromParts(start, family.Bits() - h, family)] + Compile(start + Pow2(h), end, family)
  }

  /** The networks are the blocks, one by one. */
  predicate Renders(nets: seq<IpNet>, blocks: seq<Block>, family: Family) {
    if blocks == [] then nets == []
    else
      && nets != [] && blocks[0].height <= family.Bits()
      && nets[0] == Net(family, blocks[0].start, family.Bits() - blocks[0].height)
      && Renders(nets[1..], blocks[1..], family)
  }

  lemma {:induction false} CompileIsGreedy(start: nat, end: nat, family: Family)
    requires end < Pow2(family.Bits())
    ensures Renders(Compile(start, end, family), GreedyCover(start, end, family.Bits()), family)
    ensures |Compile(start, end, family)| == |GreedyCover(start, end, family.Bits())|
    decreases if start <= end then end + 1 - start else 0
  {
    if start <= end {
      CompileIsGreedy(start + Pow2(LargestHeight(start, end, family.Bits())), end, family);
    }
  }

  /** Networks of one family, host bits set or not, whose union is exactly `start .. end`. */
  ghost predicate CoversExactly(nets: set<IpNet>, start: nat, end: nat, family: Family) {
    && (forall n :: n in nets ==> n.family == family)
    && (forall ip: IpAddr :: ip.family == family ==>
          ((exists n :: n in nets && Contains(n, ip)) <==> start <= ip.value <= end))
  }

  /** The addresses of a network, whatever its host bits. */
  function BlockOf(n: IpNet): Block {
    Block(Base(n.addr, n.HostBits()), n.HostBits())
  }

  lemma BlockOfNetwork(n: IpNet)
    ensures BlockOf(n).IsAligned() && BlockOf(n).Last() < Pow2(n.family.Bits())
    ensures forall ip: IpAddr :: ip.family == n.family ==> (Contains(n, ip) <==> BlockOf(n).Has(ip.value))
  {
    var h := n.HostBits();
    var first := Base(n.addr, h);
    BaseKeepsPrefix(n.addr, h);
    BlockFits(first, h, n.family.Bits());
    forall ip: IpAddr | ip.family == n.family ensures Contains(n, ip) <==> BlockOf(n).Has(ip.value) {
      AlignedBlock(first, h, ip.value);
    }
  }

  lemma {:induction false} ImageIsNoLarger(nets: set<IpNet>)
    ensures |set n | n in nets :: BlockOf(n)| <= |nets|
    decreases |nets|
  {
    if nets != {} {
      var x :| x in nets;
      ImageIsNoLarger(nets - {x});
      assert (set n | n in nets :: BlockOf(n)) == (set n | n in nets - {x} :: BlockOf(n)) + {BlockOf(x)};
    }
  }

  lemma BlockWithin(nets: set<IpNet>, start: nat, end: nat, family: Family, n: IpNet)
    requires CoversExactly(nets, start, end, family) && n in nets
    ensures BlockOf(n).IsAligned() && start <= BlockOf(n).start && BlockOf(n).Last() <= end
  {
    BlockOfNetwork(n);
    var b := BlockOf(n);
    var first: IpAddr := Ip(family, b.start);
    var last: IpAddr := Ip(family, b.Last());
    assert Contains(n, first) && Contains(n, last);
  }

  lemma BlocksCover(nets: set<IpNet>, start: nat, end: nat, family: Family)
    requires end < Pow2(family.Bits()) && CoversExactly(nets, start, end, family)
    ensures ExactCover(set n | n in nets :: BlockOf(n), start, end)
  {
    var c := set n | n in nets :: BlockOf(n);
    forall b | b in c ensures b.IsAligned() && start <= b.start && b.Last() <= end {
      var n :| n in nets && b == BlockOf(n);
      BlockWithin(nets, start, end, family, n);
    }
    forall a: nat | start <= a <= end ensures Reaches(c, a) {
      var ip: IpAddr := Ip(family, a);
      var n :| n in nets && Contains(n, ip);
      BlockOfNetwork(n);
      assert BlockOf(n) in c && BlockOf(n).Has(a);
    }
  }

  /** No set of networks with the same union is smaller, and there are never many. */
  lemma FewestNetworks(start: nat, end: nat, family: Family, nets: set<IpNet>)
    requires end < Pow2(family.Bits()) && CoversExactly(nets, start, end, family)
    ensures |Compile(start, end, family)| <= |nets|
    ensures |Compile(start, end, family)| <= 2 * family.Bits() - 2
  {
    var c := set n | n in nets :: BlockOf(n);
    ImageIsNoLarger(nets);
    BlocksCover(nets, start, end, family);
    GreedyIsOptimal(start, end, family.Bits(), c);
    GreedyLength(start, end, family.Bits());
    CompileIsGreedy(start, end, family);
  }

  /** Shortening an aligned block that is too long keeps it aligned and no shorter than the answer. */
  lemma ShortenBlock(cur: nat, end: nat, bits: nat, prefix: nat)
    requires cur <= end <= U128_MAX && bits <= 128 && prefix <= bits - LargestHeight(cur, end, bits)
    requires Aligned(cur, bits - prefix)
    ensures BlockEnd(cur, prefix, bits) == cur + Pow2(bits - prefix) - 1
    ensures BlockEnd(cur, prefix, bits) > end ==>
              prefix + 1 <= bits - LargestHeight(cur, end, bits) && Aligned(cur, bits - (prefix + 1))
    ensures BlockEnd(cur, prefix, bits) <= end ==> prefix == bits - LargestHeight(cur, end, bits)
  {
    BlockEndIsExact(cur, prefix, bits);
    LargestFits(cur, end, bits);
    var h := bits - prefix;
    if cur + Pow2(h) - 1 > end {
      AlignedLower(cur, h, h - 1);
    } else if LargestHeight(cur, end, bits) < h {
      LargestIsLargest(cur, end, bits, h);
    }
  }

  /** The inner loop: shorten the aligned block until it ends within the range. */
  method FittingPrefix(cur: nat, end: nat, bits: nat) returns (prefix: nat)
    requires cur <= end <= U128_MAX && bits <= 128
    ensures prefix == bits - LargestHeight(cur, end, bits)
    ensures BlockEnd(cur, prefix, bits) == cur + Pow2(LargestHeight(cur, end, bits)) - 1
  {
    prefix := AlignedPrefix(cur, bits);
    LargestFits(cur, end, bits);
    AlignedPrefixIsShortest(cur, bits, LargestHeight(cur, end, bits));
    ShortenBlock(cur, end, bits, prefix);
    while BlockEnd(cur, prefix, bits) > end
      invariant prefix <= bits - LargestHeight(cur, end, bits)
      invariant Aligned(cur, bits - prefix)
      decreases bits - prefix
    {
      ShortenBlock(cur, end, bits, prefix);
      prefix := prefix + 1;
    }
    ShortenBlock(cur, end, bits, prefix);
  }

  lemma CompileStep(cur: nat, end: nat, family: Family, prefix: nat, last: nat)
    requires cur <= end < 2 * Pow2(family.Bits())
    requires prefix == family.Bits() - LargestHeight(cur, end, family.Bits())
    requires last + 1 == cur + Pow2(LargestHeight(cur, end, family.Bits()))
    ensures Compile(cur, end, family)
            == [NetFromParts(cur, prefix, family)] + Compile(last + 1, end, family)
  {
  }

  /** One turn of the outer loop. */
  method NextBlock(cur: nat, end: nat, family: Family, ghost rest: seq<IpNet>)
    returns (net: IpNet, last: nat, ghost next: seq<IpNet>)
    requires cur <= end <= Limit(family)
    requires rest == Compile(cur, end, family)
    ensures cur <= last <= end
    ensures next == Compile(last + 1, end, family)
    ensures rest == [net] + next
    ensures last == U128_MAX || last >= end ==> next == []
  {
    LimitFits(family);
    LargestFits(cur, end, family.Bits());
    var prefix := FittingPrefix(cur, end, family.Bits());
    net := NetFromParts(cur, prefix, family);
    last := BlockEnd(cur, prefix, family.Bits());
    next := Compile(last + 1, end, family);
    CompileStep(cur, end, family, prefix, last);
  }

  lemma Regroup<T>(a: seq<T>, x: T, b: seq<T>)
    ensures a + ([x] + b) == (a + [x]) + b
  {
  }

  lemma NothingYet<T>(b: seq<T>)
    ensures [] + b == b
  {
  }

  method RangeToCidrs(start: nat, end: nat, family: Family) returns (out: seq<IpNet>)
    requires end <= Limit(family)
    ensures out == Compile(start, end, family)
  {
    if start > end {
      return [];
    }
    out := [];
    var cur, more := start, true;
    ghost var whole := Compile(start, end, family);
    ghost var rest := whole;
    NothingYet(whole);
    while more
      invariant start <= cur <= end
      invariant if more then rest == Compile(cur, end, family) else rest == []
      invariant whole == out + rest
      decreases more, end - cur
    {
      var net, last, next := NextBlock(cur, end, family, rest);
      Regroup(out, net, next);
      out, rest := out + [net], next;
      more := !(last == U128_MAX || last >= end);
      if more {
        cur := last + 1;
      }
    }
  }

  // ------------------------------------------------------- what is covered

  /** The cast sends some value of `start .. end` to `ip`. */
  predicate Reached(start: int, end: int, ip: IpAddr) {
    start <= ip.value <= end || start <= ip.value + Pow2(ip.family.Bits()) <= end
  }

  lemma ReachedSplit(start: int, mid: int, end: int, ip: IpAddr)
    requires start <= mid <= end + 1
    ensures Reached(start, end, ip) <==> Reached(start, mid - 1, ip) || Reached(mid, end, ip)
  {
  }

  /** The networks contain an address exactly when the range holds a value that the
      cast sends to it. */
  predicate CoverIsExact(nets: seq<IpNet>, start: int, end: int, ip: IpAddr) {
    AnyContains(nets, ip) <==> Reached(start, end, ip)
  }

  lemma CoverJoin(first: IpNet, rest: seq<IpNet>, start: int, mid: int, end: int, ip: IpAddr)
    requires start <= mid <= end + 1
    requires Contains(first, ip) <==> Reached(start, mid - 1, ip)
    requires CoverIsExact(rest, mid, end, ip)
    ensures CoverIsExact([first] + rest, start, end, ip)
  {
    AnyContainsCons(first, rest, ip);
    ReachedSplit(start, mid, end, ip);
  }

  lemma CoverMore(start: nat, end: nat, ip: IpAddr, h: nat, rest: seq<IpNet>)
    requires start <= end < 2 * Pow2(ip.family.Bits()) && h == LargestHeight(start, end, ip.family.Bits())
    requires CoverIsExact(rest, start + Pow2(h), end, ip)
    ensures CoverIsExact([NetFromParts(start, ip.family.Bits() - h, ip.family)] + rest, start, end, ip)
  {
    LargestFits(start, end, ip.family.Bits());
    BlockCovers(start, h, ip);
    CoverJoin(NetFromParts(start, ip.family.Bits() - h, ip.family), rest, start, start + Pow2(h), end, ip);
  }

  lemma {:induction false} CompileCovers(start: nat, end: nat, ip: IpAddr)
    requires end < 2 * Pow2(ip.family.Bits())
    ensures CoverIsExact(Compile(start, end, ip.family), start, end, ip)
    decreases if start <= end then end + 1 - start else 0
  {
    if start <= end {
      var h := LargestHeight(start, end, ip.family.Bits());
      CompileCovers(start + Pow2(h), end, ip);
      CoverMore(start, end, ip, h, Compile(start + Pow2(h), end, ip.family));
    }
  }

  lemma AnyContainsCons(net: IpNet, rest: seq<IpNet>, ip: IpAddr)
    ensures AnyContains([net] + rest, ip) <==> Contains(net, ip) || AnyContains(rest, ip)
  {
    assert net in [net] + rest;
    assert forall n :: n in rest ==> n in [net] + rest;
  }

  lemma BlockCovers(start: nat, h: nat, ip: IpAddr)
    requires h <= ip.family.Bits() && Aligned(start, h) && start < 2 * Pow2(ip.family.Bits())
    ensures Contains(NetFromParts(start, ip.family.Bits() - h, ip.family), ip)
            <==> Reached(start, start + Pow2(h) - 1, ip)
  {
    var bits := ip.family.Bits();
    if start >= Pow2(bits) {
      AlignedPlusPower(start - Pow2(bits), h, bits);
      AlignedBlock(start - Pow2(bits), h, ip.value);
    } else {
      BlockFits(start, h, bits);
      AlignedBlock(start, h, ip.value);
    }
  }

  type Ranges = seq<(nat, nat)>

  predicate InRanges(ranges: Ranges, x: nat) {
    exists r :: r in ranges && r.0 <= x <= r.1
  }

  predicate Bounded(ranges: Ranges, limit: nat) {
    forall r :: r in ranges ==> r.1 <= limit
  }

  predicate ExcludedBy(excludes: seq<IpNet>, family: Family, x: nat) {
    exists e :: e in excludes && e.family == family && InRange(e, x)
  }

  lemma InRangesAppend(a: Ranges, b: Ranges)
    ensures forall x: nat :: InRanges(a + b, x) <==> InRanges(a, x) || InRanges(b, x)
  {
    forall x: nat | InRanges(a, x) || InRanges(b, x)
      ensures InRanges(a + b, x)
    {
      var r :| (r in a || r in b) && r.0 <= x <= r.1;
      assert r in a + b;
    }
  }

  /** What an exclude leaves of one range: all, one end, both ends or nothing. */
  method CutRange(start: nat, end: nat, exclude: NetRange) returns (pieces: Ranges)
    ensures Bounded(pieces, end)
    ensures forall x: nat :: InRanges(pieces, x) <==> start <= x <= end && !(exclude.start <= x <= exclude.end)
  {
    pieces := [];
    if exclude.end < start || exclude.start > end {
      pieces := [(start, end)];
      assert pieces[0] in pieces;
    } else {
      if exclude.start > start {
        pieces := [(start, exclude.start - 1)];
        assert pieces[0] in pieces;
      }
      if exclude.end < end {
        ghost var before := pieces;
        pieces := pieces + [(exclude.end + 1, end)];
        InRangesAppend(before, [(exclude.end + 1, end)]);
        assert [(exclude.end + 1, end)][0] in [(exclude.end + 1, end)];
      }
    }
  }

  /** Removes one exclude from every range. */
  method SubtractOne(ranges: Ranges, exclude: NetRange, ghost limit: nat) returns (next: Ranges)
    requires Bounded(ranges, limit)
    ensures Bounded(next, limit)
    ensures forall x: nat :: InRanges(next, x) <==> InRanges(ranges, x) && !(exclude.start <= x <= exclude.end)
  {
    next := [];
    for i := 0 to |ranges|
      invariant Bounded(next, limit)
      invariant forall x: nat :: InRanges(next, x)
                  <==> InRanges(ranges[..i], x) && !(exclude.start <= x <= exclude.end)
    {
      var pieces := CutRange(ranges[i].0, ranges[i].1, exclude);
      InRangesAppend(next, pieces);
      InRangesAppend(ranges[..i], [ranges[i]]);
      assert [ranges[i]][0] in [ranges[i]];
      assert ranges[..i + 1] == ranges[..i] + [ranges[i]];
      next := next + pieces;
    }
    assert ranges[..|ranges|] == ranges;
  }

  /** `ranges` is what the excludes of its family leave of `base`. */
  ghost predicate Remaining(ranges: Ranges, base: IpNet, excludes: seq<IpNet>) {
    forall x: nat :: InRanges(ranges, x) <==> InRange(base, x) && !ExcludedBy(excludes, base.family, x)
  }

  method RemainingRanges(base: IpNet, excludes: seq<IpNet>) returns (ranges: Ranges)
    ensures Bounded(ranges, Limit(base.family)) && Remaining(ranges, base, excludes)
  {
    var r := FromNet(base);
    FromNetBounds(base);
    ranges := [(r.start, r.end)];
    assert Remaining(ranges, base, excludes[..0]) by { assert ranges[0] in ranges; }
    for i := 0 to |excludes|
      invariant Bounded(ranges, Limit(base.family)) && Remaining(ranges, base, excludes[..i])
    {
      var e := FromNet(excludes[i]);
      if e.family == base.family {
        var next := SubtractOne(ranges, e, Limit(base.family));
        SubtractedOne(ranges, next, base, excludes, i);
        ranges := next;
        if ranges == [] {
          NothingLeft(base, excludes, i + 1);
          return;
        }
      } else {
        SkippedOne(ranges, base, excludes, i);
      }
    }
    assert excludes[..|excludes|] == excludes;
  }

  lemma SubtractedOne(ranges: Ranges, next: Ranges, base: IpNet, excludes: seq<IpNet>, i: nat)
    requires i < |excludes| && excludes[i].family == base.family
    requires Remaining(ranges, base, excludes[..i])
    requires forall x: nat :: InRanges(next, x) <==> InRanges(ranges, x) && !InRange(excludes[i], x)
    ensures Remaining(next, base, excludes[..i + 1])
  {
    assert excludes[..i + 1] == excludes[..i] + [excludes[i]];
    forall x: nat
      ensures ExcludedBy(excludes[..i + 1], base.family, x)
              <==> ExcludedBy(excludes[..i], base.family, x) || InRange(excludes[i], x)
    {
      assert excludes[i] in excludes[..i + 1];
    }
  }

  lemma SkippedOne(ranges: Ranges, base: IpNet, excludes: seq<IpNet>, i: nat)
    requires i < |excludes| && excludes[i].family != base.family
    requires Remaining(ranges, base, excludes[..i])
    ensures Remaining(ranges, base, excludes[..i + 1])
  {
    assert excludes[..i + 1] == excludes[..i] + [excludes[i]];
    forall x: nat
      ensures ExcludedBy(excludes[..i + 1], base.family, x) <==> ExcludedBy(excludes[..i], base.family, x)
    {
    }
  }

  /** Once nothing is left, the excludes that were not looked at do not matter. */
  lemma NothingLeft(base: IpNet, excludes: seq<IpNet>, i: nat)
    requires i <= |excludes| && Remaining([], base, excludes[..i])
    ensures Remaining([], base, excludes)
  {
    forall x: nat | InRange(base, x)
      ensures ExcludedBy(excludes, base.family, x)
    {
      assert !InRanges([], x);
      var e :| e in excludes[..i] && e.family == base.family && InRange(e, x);
      assert e in excludes;
    }
  }

  /** Some value sent to `ip` by the cast lies in the ranges. */
  predicate RangesReach(ranges: Ranges, ip: IpAddr) {
    InRanges(ranges, ip.value) || InRanges(ranges, ip.value + Pow2(ip.family.Bits()))
  }

  method CompileRanges(ranges: Ranges, family: Family) returns (nets: seq<IpNet>)
    requires Bounded(ranges, Limit(family))
    ensures forall ip: IpAddr :: AnyContains(nets, ip) <==> ip.family == family && RangesReach(ranges, ip)
  {
    nets := [];
    for i := 0 to |ranges|
      invariant forall ip: IpAddr :: AnyContains(nets, ip)
                  <==> ip.family == family && RangesReach(ranges[..i], ip)
    {
      var more := RangeToCidrs(ranges[i].0, ranges[i].1, family);
      forall ip: IpAddr
        ensures AnyContains(nets + more, ip) <==> ip.family == family && RangesReach(ranges[..i + 1], ip)
      {
        CompileOneMore(nets, ranges, i, family, ip);
      }
      nets := nets + more;
    }
    assert ranges[..|ranges|] == ranges;
  }

  lemma CompileOneMore(nets: seq<IpNet>, ranges: Ranges, i: nat, family: Family, ip: IpAddr)
    requires i < |ranges| && ranges[i].1 < 2 * Pow2(family.Bits())
    requires AnyContains(nets, ip) <==> ip.family == family && RangesReach(ranges[..i], ip)
    ensures AnyContains(nets + Compile(ranges[i].0, ranges[i].1, family), ip)
            <==> ip.family == family && RangesReach(ranges[..i + 1], ip)
  {
    var more := Compile(ranges[i].0, ranges[i].1, family);
    assert AnyContains(nets + more, ip) <==> AnyContains(nets, ip) || AnyContains(more, ip);
    CompileFamily(ranges[i].0, ranges[i].1, family);
    if ip.family == family {
      CompileCovers(ranges[i].0, ranges[i].1, ip);
      InRangesAppend(ranges[..i], [ranges[i]]);
      assert [ranges[i]][0] in [ranges[i]];
      assert ranges[..i + 1] == ranges[..i] + [ranges[i]];
    }
  }

  lemma {:induction false} CompileFamily(start: nat, end: nat, family: Family)
    requires end < 2 * Pow2(family.Bits())
    ensures forall n :: n in Compile(start, end, family) ==> n.family == family
    decreases if start <= end then end + 1 - start else 0
  {
    if start <= end {
      CompileFamily(start + Pow2(LargestHeight(start, end, family.Bits())), end, family);
    }
  }

  // ------------------------------------------------------ route compilation

  predicate KeyAtMost(a: IpNet, b: IpNet) {
    if a.family != b.family then a.family.V4?
    else if a.addr != b.addr then a.addr < b.addr
    else a.prefix <= b.prefix
  }

  /** IPv4 before IPv6, then by address, then by prefix. */
  lemma KeyOrder(a: IpNet, b: IpNet)
    ensures KeyAtMost(a, b) <==>
              || (a.family.V4? && b.family.V6?)
              || (a.family == b.family && (a.addr < b.addr || (a.addr == b.addr && a.prefix <= b.prefix)))
  {
  }

  predicate SortedByKey(nets: seq<IpNet>) {
    forall i, j :: 0 <= i < j < |nets| ==> KeyAtMost(nets[i], nets[j])
  }

  function InsertByKey(n: IpNet, nets: seq<IpNet>): seq<IpNet> {
    if nets == [] || KeyAtMost(n, nets[0]) then [n] + nets
    else [nets[0]] + InsertByKey(n, nets[1..])
  }

  /** `sort_by_key(net_sort_key)` */
  function SortByKey(nets: seq<IpNet>): seq<IpNet> {
    if nets == [] then [] else InsertByKey(nets[0], SortByKey(nets[1..]))
  }

  lemma {:induction false} InsertAdds(n: IpNet, nets: seq<IpNet>)
    ensures multiset(InsertByKey(n, nets)) == multiset{n} + multiset(nets)
  {
    if nets != [] && !KeyAtMost(n, nets[0]) {
      InsertAdds(n, nets[1..]);
      assert nets == [nets[0]] + nets[1..];
    }
  }

  lemma SortedCons(nets: seq<IpNet>)
    requires nets != [] && SortedByKey(nets[1..])
    requires forall m :: m in nets[1..] ==> KeyAtMost(nets[0], m)
    ensures SortedByKey(nets)
  {
    forall i, j | 0 <= i < j < |nets|
      ensures KeyAtMost(nets[i], nets[j])
    {
      assert nets[j] == nets[1..][j - 1];
      if i > 0 { assert nets[i] == nets[1..][i - 1]; }
    }
  }

  lemma {:induction false} InsertKeepsOrder(n: IpNet, nets: seq<IpNet>)
    requires SortedByKey(nets)
    ensures SortedByKey(InsertByKey(n, nets))
  {
    var r := InsertByKey(n, nets);
    if nets == [] || KeyAtMost(n, nets[0]) {
      assert r[1..] == nets;
      SortedCons(r);
    } else {
      InsertKeepsOrder(n, nets[1..]);
      InsertAdds(n, nets[1..]);
      assert r[1..] == InsertByKey(n, nets[1..]);
      forall m | m in r[1..]
        ensures KeyAtMost(nets[0], m)
      {
        assert m in multiset(r[1..]);
        assert m == n || m in nets[1..];
      }
      SortedCons(r);
    }
  }

  /** Sorting orders the networks and keeps each as often as it occurs. */
  lemma {:induction false} SortSorts(nets: seq<IpNet>)
    ensures SortedByKey(SortByKey(nets))
    ensures multiset(SortByKey(nets)) == multiset(nets)
  {
    if nets != [] {
      SortSorts(nets[1..]);
      InsertKeepsOrder(nets[0], SortByKey(nets[1..]));
      InsertAdds(nets[0], SortByKey(nets[1..]));
      assert nets == [nets[0]] + nets[1..];
    }
  }

  lemma SortKeepsMembers(nets: seq<IpNet>)
    ensures forall n :: n in SortByKey(nets) <==> n in nets
  {
    SortSorts(nets);
    forall n ensures n in SortByKey(nets) <==> n in nets {
      assert n in SortByKey(nets) <==> n in multiset(SortByKey(nets));
      assert n in nets <==> n in multiset(nets);
    }
  }

  /** A value in some include of the family and in no exclude of the family. */
  predicate Survives(includes: seq<IpNet>, excludes: seq<IpNet>, family: Family, x: nat) {
    (exists n :: n in includes && n.family == family && InRange(n, x)) && !ExcludedBy(excludes, family, x)
  }

  /** What the compiled routes cover, for any networks, host bits or not. */
  predicate Compiled(includes: seq<IpNet>, excludes: seq<IpNet>, ip: IpAddr) {
    || Survives(includes, excludes, ip.family, ip.value)
    || Survives(includes, excludes, ip.family, ip.value + Pow2(ip.family.Bits()))
  }

  method SubtractRoutes(includes: seq<IpNet>, excludes: seq<IpNet>) returns (out: seq<IpNet>)
    ensures SortedByKey(out)
    ensures forall ip: IpAddr :: AnyContains(out, ip) <==> Compiled(includes, excludes, ip)
  {
    out := [];
    for i := 0 to |includes|
      invariant forall ip: IpAddr :: AnyContains(out, ip) <==> Compiled(includes[..i], excludes, ip)
    {
      var ranges := RemainingRanges(includes[i], excludes);
      var more := CompileRanges(ranges, includes[i].family);
      forall ip: IpAddr
        ensures AnyContains(out + more, ip) <==> Compiled(includes[..i + 1], excludes, ip)
      {
        assert AnyContains(out + more, ip) <==> AnyContains(out, ip) || AnyContains(more, ip);
        assert includes[..i + 1] == includes[..i] + [includes[i]];
        CompiledAppend(includes[..i], includes[i], excludes, ranges, ip);
      }
      out := out + more;
    }
    assert includes[..|includes|] == includes;
    SortKeepsMembers(out);
    SortSorts(out);
    out := SortByKey(out);
  }

  lemma CompiledAppend(includes: seq<IpNet>, n: IpNet, excludes: seq<IpNet>, ranges: Ranges, ip: IpAddr)
    requires forall x: nat :: InRanges(ranges, x) <==> InRange(n, x) && !ExcludedBy(excludes, n.family, x)
    ensures Compiled(includes + [n], excludes, ip)
            <==> Compiled(includes, excludes, ip) || (ip.family == n.family && RangesReach(ranges, ip))
  {
    forall x: nat
      ensures Survives(includes + [n], excludes, ip.family, x)
              <==> Survives(includes, excludes, ip.family, x) || (ip.family == n.family && InRanges(ranges, x))
    {
      assert forall m :: m in includes + [n] <==> m in includes || m == n;
    }
  }

  /** The routing part of a capture plan. */
  datatype Plan = Plan(
    routeAddresses: seq<IpNet>,
    routeExcludes: seq<IpNet>,
    excludeCidrs: seq<IpNet>,
    loopbacks: seq<IpAddr>,
    autoRoute: bool,
    tunV6: bool)
  {
    function BaseRoutes(): seq<IpNet> {
      if routeAddresses != [] then routeAddresses
      else if autoRoute then [Net(V4, 0, 0)] + (if tunV6 then [Net(V6, 0, 0)] else [])
      else []
    }

    function Excludes(): seq<IpNet> {
      excludeCidrs + routeExcludes
    }

    /** Every configured network has its host bits clear. */
    predicate CanonicalNets() {
      AllCanonical(routeAddresses) && AllCanonical(routeExcludes) && AllCanonical(excludeCidrs)
    }

    predicate IsLoopbackIp(ip: IpAddr) {
      IsLoopback(ip) || ip in loopbacks
    }

    predicate RouteAllows(ip: IpAddr) {
      if IsLoopbackIp(ip) || AnyContains(routeExcludes, ip) then false
      else if routeAddresses == [] then true
      else AnyContains(routeAddresses, ip)
    }

    predicate IsExcluded(ip: IpAddr) {
      AnyContains(excludeCidrs, ip)
    }

    /** The plan has base routes for this address family. */
    predicate FamilyEnabled(family: Family) {
      routeAddresses != [] || (autoRoute && (family.V4? || tunV6))
    }
  }

  method VpnServiceRouteNets(plan: Plan) returns (routes: seq<IpNet>)
    ensures SortedByKey(routes)
    ensures forall ip: IpAddr :: AnyContains(routes, ip) <==> Compiled(plan.BaseRoutes(), plan.Excludes(), ip)
  {
    var bases := SortByKey(plan.BaseRoutes());
    SortKeepsMembers(plan.BaseRoutes());
    routes := SubtractRoutes(bases, plan.Excludes());
    forall ip: IpAddr
      ensures Compiled(bases, plan.Excludes(), ip) <==> Compiled(plan.BaseRoutes(), plan.Excludes(), ip)
    {
      assert forall x: nat :: Survives(bases, plan.Excludes(), ip.family, x)
                          <==> Survives(plan.BaseRoutes(), plan.Excludes(), ip.family, x);
    }
    SortKeepsMembers(routes);
    SortSorts(routes);
    routes := SortByKey(routes);
  }

  // ---------------------------------------------- agreement with the predicates

  /** On canonical networks the compiled routes are "in a base route and in no exclude". */
  lemma CanonicalAgreement(includes: seq<IpNet>, excludes: seq<IpNet>, ip: IpAddr)
    requires AllCanonical(includes) && AllCanonical(excludes)
    ensures Compiled(includes, excludes, ip) <==> AnyContains(includes, ip) && !AnyContains(excludes, ip)
  {
    forall n | n in includes + excludes && n.family == ip.family
      ensures Contains(n, ip) <==> InRange(n, ip.value)
      ensures FromNet(n).end < Pow2(ip.family.Bits())
    {
      RangeIsNetwork(n);
    }
    assert ExcludedBy(excludes, ip.family, ip.value) <==> AnyContains(excludes, ip) by {
      forall e | e in excludes ensures e in includes + excludes {}
    }
    assert (exists n :: n in includes && n.family == ip.family && InRange(n, ip.value)) <==> AnyContains(includes, ip) by {
      forall n | n in includes ensures n in includes + excludes {}
    }
  }

  lemma DefaultRouteContains(ip: IpAddr)
    ensures Canonical(Net(ip.family, 0, 0)) && Contains(Net(ip.family, 0, 0), ip)
  {
    ZeroIsAligned(ip.family.Bits());
    AlignedBlock(0, ip.family.Bits(), ip.value);
  }

  lemma BaseRouteContains(plan: Plan, ip: IpAddr)
    ensures AnyContains(plan.BaseRoutes(), ip) <==>
            plan.FamilyEnabled(ip.family) && (plan.routeAddresses == [] || AnyContains(plan.routeAddresses, ip))
  {
    DefaultRouteContains(ip);
    if plan.routeAddresses == [] && plan.FamilyEnabled(ip.family) {
      assert Net(ip.family, 0, 0) in plan.BaseRoutes();
    }
  }

  /** For canonical plans and addresses that are not loopback, the routes handed to
      VpnService are the addresses that the plan's predicates accept, in every
      family that has base routes, and nothing in the others. */
  lemma PolicyAgreement(plan: Plan, ip: IpAddr)
    requires plan.CanonicalNets() && !plan.IsLoopbackIp(ip)
    ensures Compiled(plan.BaseRoutes(), plan.Excludes(), ip)
            <==> plan.FamilyEnabled(ip.family) && plan.RouteAllows(ip) && !plan.IsExcluded(ip)
  {
    DefaultRouteContains(Ip(V4, 0));
    DefaultRouteContains(Ip(V6, 0));
    CanonicalAgreement(plan.BaseRoutes(), plan.Excludes(), ip);
    BaseRouteContains(plan, ip);
    assert AnyContains(plan.Excludes(), ip)
      <==> AnyContains(plan.excludeCidrs, ip) || AnyContains(plan.routeExcludes, ip);
  }

  /** The exact condition, for every address: the predicates refuse the loopback addresses,
      built-in or configured, and the routes do not leave them out. */
  lemma PolicyAgreementExactly(plan: Plan, ip: IpAddr)
    requires plan.CanonicalNets()
    ensures var routed := Compiled(plan.BaseRoutes(), plan.Excludes(), ip);
            var wanted := plan.FamilyEnabled(ip.family) && plan.RouteAllows(ip) && !plan.IsExcluded(ip);
            (routed <==> wanted) <==> !(routed && (IsLoopback(ip) || ip in plan.loopbacks))
  {
    if !plan.IsLoopbackIp(ip) { PolicyAgreement(plan, ip); }
  }

  // ------------------------------------------------------- host bits matter

  /** A single base route compiles to its network exactly when it has no host
      bits, or is an IPv4 `/0`, whose overshoot wraps onto the missing part. */
  lemma SingleRouteExactness(n: IpNet)
    ensures (forall ip: IpAddr :: Compiled([n], [], ip) <==> Contains(n, ip))
            <==> Canonical(n) || (n.family.V4? && n.prefix == 0)
  {
    var bits := n.family.Bits();
    var h := n.HostBits();
    if Canonical(n) {
      forall ip: IpAddr
        ensures Compiled([n], [], ip) <==> Contains(n, ip)
      {
        CanonicalAgreement([n], [], ip);
        assert AnyContains([n], ip) <==> Contains(n, ip) by { assert n in [n]; }
      }
    } else {
      BaseKeepsPrefix(n.addr, h);
      BaseIsNearest(n.addr, h);
      var first: IpAddr := Ip(n.family, Base(n.addr, h));
      assert Contains(n, first);
      if n.family.V6? || n.prefix != 0 {
        assert !Compiled([n], [], first) by { FirstIsLost(n, first); }
      } else {
        forall ip: IpAddr
          ensures Compiled([n], [], ip) <==> Contains(n, ip)
        {
          WholeSpaceWraps(n, ip);
        }
      }
    }
  }

  lemma FirstIsLost(n: IpNet, first: IpAddr)
    requires !Canonical(n) && (n.family.V6? || n.prefix != 0)
    requires first == Ip(n.family, Base(n.addr, n.HostBits()))
    ensures !Compiled([n], [], first)
  {
    BaseIsNearest(n.addr, n.HostBits());
    FromNetBounds(n);
    if n.family.V4? {
      Pow2Strict(n.HostBits(), n.family.Bits());
    } else {
      V6Width(n.family);
    }
  }

  lemma WholeSpaceWraps(n: IpNet, ip: IpAddr)
    requires n.family.V4? && n.prefix == 0
    ensures Compiled([n], [], ip) <==> Contains(n, ip)
  {
    ZeroIsAligned(32);
    AlignedBlock(0, 32, n.addr);
    if ip.family.V4? {
      AlignedBlock(0, 32, ip.value);
      var x := if ip.value >= n.addr then ip.value else ip.value + Pow2(32);
      assert n in [n] && InRange(n, x);
      assert Survives([n], [], V4, x);
    }
  }

  /** A single exclude is cut out of the default route exactly when it has no host bits. */
  lemma SingleExcludeExactness(n: IpNet)
    ensures (forall ip: IpAddr :: ip.family == n.family ==>
              (Compiled([Net(n.family, 0, 0)], [n], ip) <==> !Contains(n, ip)))
            <==> Canonical(n)
  {
    var all := Net(n.family, 0, 0);
    if Canonical(n) {
      forall ip: IpAddr | ip.family == n.family
        ensures Compiled([all], [n], ip) <==> !Contains(n, ip)
      {
        DefaultRouteContains(ip);
        CanonicalAgreement([all], [n], ip);
        assert AnyContains([all], ip) by { assert all in [all]; }
        assert AnyContains([n], ip) <==> Contains(n, ip) by { assert n in [n]; }
      }
    } else {
      BaseKeepsPrefix(n.addr, n.HostBits());
      BaseIsNearest(n.addr, n.HostBits());
      var first: IpAddr := Ip(n.family, Base(n.addr, n.HostBits()));
      if n.family.V6? { V6Width(n.family); }
      assert all in [all] && InRange(all, first.value);
      assert !InRange(n, first.value);
      assert Survives([all], [n], n.family, first.value);
      assert Contains(n, first) && Compiled([all], [n], first);
    }
  }
}
