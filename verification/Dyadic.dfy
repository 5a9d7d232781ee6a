/** Binary arithmetic on unbounded naturals: powers of two, right shifts and
    aligned (dyadic) blocks of addresses.

    Everything is defined by halving, so that every proof is an induction over
    linear facts.
 */
module Dyadic {

  function Pow2(n: nat): (r: nat)
    ensures r >= 1
  {
    if n == 0 then 1 else 2 * Pow2(n - 1)
  }

  /** `v >> h` */
  function Shr(v: nat, h: nat): (r: nat)
    ensures r <= v
  {
    if h == 0 then v else Shr(v / 2, h - 1)
  }

  /** The low `h` bits of `v` are zero. */
  predicate Aligned(v: nat, h: nat) {
    h == 0 || (v % 2 == 0 && Aligned(v / 2, h - 1))
  }

  /** `v` with its low `h` bits cleared. */
  function Base(v: nat, h: nat): (r: nat)
    ensures r <= v
  {
    if h == 0 then v else 2 * Base(v / 2, h - 1)
  }

  /** `u128::trailing_zeros` of a nonzero value. */
  function TrailingZeros(v: nat): nat
    requires v > 0
  {
    if v % 2 == 1 then 0 else 1 + TrailingZeros(v / 2)
  }

  lemma {:induction false} Pow2Monotone(a: nat, b: nat)
    requires a <= b
    ensures Pow2(a) <= Pow2(b)
  {
    if a < b { Pow2Monotone(a, b - 1); }
  }

  lemma {:induction false} Pow2Strict(a: nat, b: nat)
    requires a < b
    ensures 2 * Pow2(a) <= Pow2(b)
  {
    Pow2Monotone(a, b - 1);
  }

  lemma {:induction false} Pow2Sum(a: nat, b: nat)
    ensures Pow2(a + b) == Pow2(a) * Pow2(b)
  {
    if a > 0 {
      Pow2Sum(a - 1, b);
      assert Pow2(a) * Pow2(b) == 2 * (Pow2(a - 1) * Pow2(b));
    }
  }

  lemma Pow2Double(b: nat, v: nat)
    requires Pow2(b) == v
    ensures Pow2(2 * b) == v * v
  {
    Pow2Sum(b, b);
  }

  lemma {:induction false} ZeroIsAligned(h: nat)
    ensures Aligned(0, h)
  {
    if h > 0 { ZeroIsAligned(h - 1); }
  }

  /** An aligned value reaches exactly the addresses that share its prefix. */
  lemma {:induction false} AlignedBlock(start: nat, h: nat, a: nat)
    requires Aligned(start, h)
    ensures Shr(a, h) == Shr(start, h) <==> start <= a < start + Pow2(h)
  {
    if h > 0 { AlignedBlock(start / 2, h - 1, a / 2); }
  }

  lemma {:induction false} ShrCompose(v: nat, i: nat, j: nat)
    ensures Shr(Shr(v, i), j) == Shr(v, i + j)
  {
    if i > 0 { ShrCompose(v / 2, i - 1, j); }
  }

  lemma {:induction false} BaseKeepsPrefix(v: nat, h: nat)
    ensures Aligned(Base(v, h), h)
    ensures Shr(Base(v, h), h) == Shr(v, h)
  {
    if h > 0 {
      BaseKeepsPrefix(v / 2, h - 1);
      assert Base(v, h) / 2 == Base(v / 2, h - 1);
    }
  }

  lemma {:induction false} BaseIsNearest(v: nat, h: nat)
    ensures Base(v, h) <= v < Base(v, h) + Pow2(h)
    ensures Base(v, h) == v <==> Aligned(v, h)
  {
    if h > 0 { BaseIsNearest(v / 2, h - 1); }
  }

  lemma {:induction false} AlignedLower(v: nat, h: nat, k: nat)
    requires Aligned(v, h) && k <= h
    ensures Aligned(v, k)
  {
    if k > 0 { AlignedLower(v / 2, h - 1, k - 1); }
  }

  /** Stepping over an aligned block lands on an aligned address. */
  lemma {:induction false} AlignedStep(v: nat, h: nat)
    requires Aligned(v, h)
    ensures Aligned(v + Pow2(h), h)
    ensures !Aligned(v, h + 1) ==> Aligned(v + Pow2(h), h + 1)
  {
    if h > 0 {
      AlignedStep(v / 2, h - 1);
      assert (v + Pow2(h)) / 2 == v / 2 + Pow2(h - 1);
    } else {
      assert Aligned((v + 1) / 2, 0);
    }
  }

  /** `TrailingZeros` is the greatest alignment. */
  lemma {:induction false} TrailingZerosGreatest(v: nat, h: nat)
    requires v > 0
    ensures Aligned(v, h) <==> h <= TrailingZeros(v)
  {
    if v % 2 == 0 && h > 0 { TrailingZerosGreatest(v / 2, h - 1); }
  }

  /** An aligned block that starts below a larger power of two ends below it too. */
  lemma {:induction false} BlockFits(v: nat, h: nat, bits: nat)
    requires Aligned(v, h) && h <= bits && v < Pow2(bits)
    ensures v + Pow2(h) <= Pow2(bits)
  {
    if h > 0 {
      BlockFits(v / 2, h - 1, bits - 1);
    }
  }

  lemma SharedBlock(s: nat, h: nat, t: nat, k: nat, a: nat, x: nat)
    requires Aligned(s, h) && Aligned(t, k) && h <= k
    requires s <= a < s + Pow2(h) && t <= a < t + Pow2(k)
    requires s <= x < s + Pow2(h)
    ensures t <= x < t + Pow2(k)
  {
    AlignedBlock(s, h, a);
    AlignedBlock(s, h, x);
    AlignedBlock(t, k, a);
    ShrCompose(a, h, k - h);
    ShrCompose(x, h, k - h);
    AlignedBlock(t, k, x);
  }

  /** Dyadic blocks are nested or disjoint. */
  lemma Laminar(s: nat, h: nat, t: nat, k: nat, a: nat)
    requires Aligned(s, h) && Aligned(t, k) && h <= k
    requires s <= a < s + Pow2(h) && t <= a < t + Pow2(k)
    ensures t <= s && s + Pow2(h) <= t + Pow2(k)
  {
    SharedBlock(s, h, t, k, a, s);
    SharedBlock(s, h, t, k, a, s + Pow2(h) - 1);
  }

  /** Adding a larger power of two keeps the alignment. */
  lemma {:induction false} AlignedPlusPower(v: nat, h: nat, b: nat)
    requires h <= b
    ensures Aligned(v + Pow2(b), h) <==> Aligned(v, h)
  {
    if h > 0 {
      AlignedPlusPower(v / 2, h - 1, b - 1);
      assert (v + Pow2(b)) / 2 == v / 2 + Pow2(b - 1);
    }
  }
}
