/** The internet checksum of RFC 1071, as the wire library fills it in. */
module Checksum {
  import opened Bytes

  /** The sum of the 16-bit words; an odd last byte is padded with a zero. */
  function WordSum(s: seq<byte>): nat {
    if s == [] then 0
    else if |s| == 1 then s[0] * 256
    else U16At(s, 0) + WordSum(s[2..])
  }

  /** Carries added back in, as often as there are any. */
  function Fold(n: nat): u16 {
    if n == 0 then 0 else (n - 1) % 0xffff + 1
  }

  /** A number of at most 16 bits is left alone; from any other, the bits beyond are added
      to the rest until there are none. */
  lemma FoldAddsCarries(n: nat)
    ensures n < 0x1_0000 ==> Fold(n) == n
    ensures Fold(n) == Fold(n / 0x1_0000 + n % 0x1_0000)
  {
    var k := n / 0x1_0000;
    assert n == k * 0xffff + (k + n % 0x1_0000);
  }

  /** The complement of the folded sum. */
  function ChecksumOf(s: seq<byte>): u16 {
    0xffff - Fold(WordSum(s))
  }

  /** What a receiver checks: summed with its checksum in place, data gives all ones. */
  predicate Verifies(s: seq<byte>) {
    Fold(WordSum(s)) == 0xffff
  }

  lemma {:induction false} WordSumAppend(a: seq<byte>, b: seq<byte>)
    requires |a| % 2 == 0
    ensures WordSum(a + b) == WordSum(a) + WordSum(b)
    decreases |a|
  {
    if a == [] {
      assert a + b == b;
    } else {
      assert (a + b)[2..] == a[2..] + b;
      WordSumAppend(a[2..], b);
    }
  }

  /** Data of odd length is summed as if a zero byte followed. */
  lemma {:induction false} WordSumPads(s: seq<byte>)
    requires |s| % 2 == 1
    ensures WordSum(s) == WordSum(s + [0])
    decreases |s|
  {
    if |s| == 1 {
      assert (s + [0])[2..] == [];
    } else {
      assert (s + [0])[2..] == s[2..] + [0];
      WordSumPads(s[2..]);
    }
  }

  lemma WordSumOne(v: u16)
    ensures WordSum(U16Bytes(v)) == v
  {
    assert U16Bytes(v)[2..] == [];
  }

  lemma WordSumAround(a: seq<byte>, v: u16, b: seq<byte>)
    requires |a| % 2 == 0
    ensures WordSum(a + (U16Bytes(v) + b)) == WordSum(a) + v + WordSum(b)
  {
    WordSumAppend(a, U16Bytes(v) + b);
    WordSumAppend(U16Bytes(v), b);
    WordSumOne(v);
  }

  lemma PatchAround(s: seq<byte>, at: nat, v: u16)
    requires at + 2 <= |s|
    ensures Patch(s, at, U16Bytes(v)) == s[..at] + (U16Bytes(v) + s[at + 2..])
    ensures s[at] == 0 && s[at + 1] == 0 ==> s == s[..at] + (U16Bytes(0) + s[at + 2..])
  {
  }

  /** Writing a word over a zero adds it to the sum. */
  lemma WordSumPatch(s: seq<byte>, at: nat, v: u16)
    requires at % 2 == 0 && at + 2 <= |s| && s[at] == 0 && s[at + 1] == 0
    ensures WordSum(Patch(s, at, U16Bytes(v))) == WordSum(s) + v
  {
    PatchAround(s, at, v);
    WordSumAround(s[..at], 0, s[at + 2..]);
    WordSumAround(s[..at], v, s[at + 2..]);
  }

  lemma FoldComplement(n: nat)
    ensures Fold(n + (0xffff - Fold(n))) == 0xffff
    ensures Fold(n) == 0xffff ==> Fold(n + 0xffff) == 0xffff
  {
  }

  /** A zero checksum field filled in makes the data verify; where zero means that there
      is no checksum, as in UDP, its other form does as well. */
  lemma FilledVerifies(s: seq<byte>, at: nat, v: u16)
    requires at % 2 == 0 && at + 2 <= |s| && s[at] == 0 && s[at + 1] == 0
    requires v == ChecksumOf(s) || (ChecksumOf(s) == 0 && v == 0xffff)
    ensures Verifies(Patch(s, at, U16Bytes(v)))
  {
    WordSumPatch(s, at, v);
    FoldComplement(WordSum(s));
  }

  /** What a TCP or UDP checksum covers besides the segment: section 3.1 of RFC 9293 for
      IPv4, section 8.1 of RFC 8200 for IPv6. */
  function PseudoHeader(src: seq<byte>, dst: seq<byte>, protocol: byte, length: u16): (r: seq<byte>)
    requires |src| % 2 == 0 && |dst| % 2 == 0
    ensures |r| % 2 == 0
  {
    src + dst + (if |src| == 4 then [0, protocol] + U16Bytes(length) else [0, 0] + U16Bytes(length) + [0, 0, 0, protocol])
  }

  /** Source, destination, and then for IPv4 zero, protocol and length, for IPv6 the length
      in four bytes, three zeros and the protocol. */
  lemma PseudoHeaderLayout(src: seq<byte>, dst: seq<byte>, protocol: byte, length: u16)
    requires |src| == |dst| && |src| in {4, 16}
    ensures var r, n := PseudoHeader(src, dst, protocol, length), |src|;
            && |r| == (if n == 4 then 12 else 40) && r[..n] == src && r[n..2 * n] == dst
            && if n == 4 then r[8] == 0 && r[9] == protocol && U16At(r, 10) == length
               else U16At(r, 32) == 0 && U16At(r, 34) == length && r[36] == 0 && r[37] == 0 && r[38] == 0 && r[39] == protocol
  {
    var r, n := PseudoHeader(src, dst, protocol, length), |src|;
    assert r[..n] == src;
    assert r[n..2 * n] == dst;
  }

  /** The packet with the checksum over `pseudo` and `p[from..to]` filled in at `at`. */
  function Summed(p: seq<byte>, pseudo: seq<byte>, from: nat, to: nat, at: nat): (r: seq<byte>)
    requires from <= at && at + 2 <= to <= |p|
    ensures |r| == |p|
  {
    var z := Patch(p, at, [0, 0]);
    Patch(z, at, U16Bytes(ChecksumOf(pseudo + z[from..to])))
  }

  lemma PatchWithin(pseudo: seq<byte>, z: seq<byte>, from: nat, to: nat, at: nat, v: u16)
    requires from <= at && at + 2 <= to <= |z|
    ensures pseudo + Patch(z, at, U16Bytes(v))[from..to] == Patch(pseudo + z[from..to], |pseudo| + at - from, U16Bytes(v))
  {
  }

  lemma SummedKeeps(p: seq<byte>, pseudo: seq<byte>, from: nat, to: nat, at: nat)
    requires from <= at && at + 2 <= to <= |p|
    ensures forall i :: 0 <= i < |p| && !(at <= i < at + 2) ==> Summed(p, pseudo, from, to, at)[i] == p[i]
  {
  }

  lemma SummedVerifies(p: seq<byte>, pseudo: seq<byte>, from: nat, to: nat, at: nat)
    requires from <= at && at + 2 <= to <= |p| && |pseudo| % 2 == 0 && (at - from) % 2 == 0
    ensures Verifies(pseudo + Summed(p, pseudo, from, to, at)[from..to])
  {
    var z := Patch(p, at, [0, 0]);
    var s, k := pseudo + z[from..to], |pseudo| + at - from;
    assert s[k] == z[at] && s[k + 1] == z[at + 1];
    FilledVerifies(s, k, ChecksumOf(s));
    PatchWithin(pseudo, z, from, to, at, ChecksumOf(s));
  }
}
