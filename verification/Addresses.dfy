/** IP addresses and CIDR networks as numbers, with the membership test of `ipnet`. */
module Addresses {
  import opened Dyadic

  datatype Family = V4 | V6 {
    function Bits(): nat {
      if V4? then 32 else 128
    }
  }

  datatype RawIp = Ip(family: Family, value: nat)

  type IpAddr = a: RawIp | a.value < Pow2(a.family.Bits()) witness Ip(V4, 0)

  /** `addr` may have host bits set: parsing a CIDR keeps them. */
  datatype RawNet = Net(family: Family, addr: nat, prefix: nat) {
    function HostBits(): nat
      requires prefix <= family.Bits()
    {
      family.Bits() - prefix
    }
  }

  type IpNet = n: RawNet | n.prefix <= n.family.Bits() && n.addr < Pow2(n.family.Bits())
    witness Net(V4, 0, 0)

  /** Both addresses share the network's prefix. */
  predicate Contains(n: IpNet, ip: IpAddr) {
    n.family == ip.family && Shr(ip.value, n.HostBits()) == Shr(n.addr, n.HostBits())
  }

  predicate AnyContains(nets: seq<IpNet>, ip: IpAddr) {
    exists n :: n in nets && Contains(n, ip)
  }

  /** No host bits are set. */
  predicate Canonical(n: IpNet) {
    Aligned(n.addr, n.HostBits())
  }

  predicate AllCanonical(nets: seq<IpNet>) {
    forall n :: n in nets ==> Canonical(n)
  }

  /** 127.0.0.0/8 and ::1, as `IpAddr::is_loopback`. */
  predicate IsLoopback(ip: IpAddr) {
    if ip.family.V4? then Shr(ip.value, 24) == 127 else ip.value == 1
  }

  lemma {:induction false} ShrBounds(v: nat, h: nat)
    ensures Shr(v, h) * Pow2(h) <= v < (Shr(v, h) + 1) * Pow2(h)
    decreases h
  {
    if h > 0 {
      var q, p := Shr(v / 2, h - 1), Pow2(h - 1);
      ShrBounds(v / 2, h - 1);
      Twice(q, p);
      Twice(q + 1, p);
    }
  }

  lemma Twice(q: nat, p: nat)
    ensures q * (2 * p) == 2 * (q * p)
  {
  }

  lemma {:induction false} Pow2Bytes(n: nat)
    ensures Pow2(n + 8) == 256 * Pow2(n)
  {
    var a, b := n + 4, n + 2;
    assert Pow2(b) == 4 * Pow2(n);
    assert Pow2(a) == 4 * Pow2(b);
    assert Pow2(a + 2) == 4 * Pow2(a);
    assert Pow2(a + 4) == 4 * Pow2(a + 2);
  }

  /** The IPv4 addresses whose first octet is 127, and the IPv6 address one. */
  lemma LoopbackRange(ip: IpAddr)
    ensures IsLoopback(ip) <==>
              || (ip.family.V4? && 0x7f00_0000 <= ip.value < 0x8000_0000)
              || (ip.family.V6? && ip.value == 1)
  {
    var h := 0;
    Pow2Bytes(h);
    Pow2Bytes(h + 8);
    Pow2Bytes(h + 16);
    ShrBounds(ip.value, h + 24);
  }
}
