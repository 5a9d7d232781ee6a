/** The greedy decomposition of an address interval into CIDR blocks
    (crates/core-capture/src/android_vpn_config.rs): a reference definition, the
    exactness of its cover, its optimality and its length.
 */
module CidrCover {
  import opened Dyadic
  import opened Sets

  /** The addresses `start .. start + 2^height - 1`; the prefix length is `bits - height`. */
  datatype Block = Block(start: nat, height: nat) {
    predicate Has(a: nat) {
      start <= a < start + Pow2(height)
    }

    function Last(): nat {
      start + Pow2(height) - 1
    }

    predicate IsAligned() {
      Aligned(start, height)
    }
  }

  /** The largest height, not above `h`, of an aligned block at `cur` that ends by `end`. */
  function LargestHeight(cur: nat, end: nat, h: nat): (r: nat)
    requires cur <= end
    ensures r <= h
  {
    if Aligned(cur, h) && cur + Pow2(h) - 1 <= end then h else LargestHeight(cur, end, h - 1)
  }

  lemma {:induction false} LargestFits(cur: nat, end: nat, h: nat)
    requires cur <= end
    ensures Aligned(cur, LargestHeight(cur, end, h))
    ensures cur + Pow2(LargestHeight(cur, end, h)) - 1 <= end
  {
    if !(Aligned(cur, h) && cur + Pow2(h) - 1 <= end) { LargestFits(cur, end, h - 1); }
  }

  lemma {:induction false} LargestIsLargest(cur: nat, end: nat, h: nat, k: nat)
    requires cur <= end && LargestHeight(cur, end, h) < k <= h && Aligned(cur, k)
    ensures cur + Pow2(k) - 1 > end
  {
    if k < h { LargestIsLargest(cur, end, h - 1, k); }
  }

  function GreedyCover(start: nat, end: nat, bits: nat): seq<Block>
    decreases if start <= end then end + 1 - start else 0
  {
    if start > end then []
    else
      var b := Block(start, LargestHeight(start, end, bits));
      [b] + GreedyCover(b.Last() + 1, end, bits)
  }

  /** `bs` lays aligned blocks end to end from `start` to `end`. */
  predicate Tiles(bs: seq<Block>, start: nat, end: int) {
    if bs == [] then start == end + 1
    else bs[0].start == start && bs[0].IsAligned() && Tiles(bs[1..], bs[0].Last() + 1, end)
  }

  lemma {:induction false} GreedyTiles(start: nat, end: nat, bits: nat)
    requires start <= end + 1
    ensures Tiles(GreedyCover(start, end, bits), start, end)
    ensures forall b :: b in GreedyCover(start, end, bits) ==> b.height <= bits
    decreases end + 1 - start
  {
    if start <= end {
      var b := Block(start, LargestHeight(start, end, bits));
      LargestFits(start, end, bits);
      GreedyTiles(b.Last() + 1, end, bits);
    }
  }

  ghost predicate Reaches(c: set<Block>, a: nat) {
    exists b :: b in c && b.Has(a)
  }

  /** `c` is any family of aligned blocks whose union is `start .. end`. */
  ghost predicate ExactCover(c: set<Block>, start: nat, end: int) {
    && (forall b :: b in c ==> b.IsAligned() && start <= b.start && b.Last() <= end)
    && (forall a: nat :: start <= a <= end ==> Reaches(c, a))
  }

  function Family(bs: seq<Block>): set<Block> {
    set b | b in bs
  }

  /** A tiling covers exactly its interval, in order and without overlap. */
  lemma {:induction false} TilesExactly(bs: seq<Block>, start: nat, end: int)
    requires Tiles(bs, start, end)
    ensures start <= end + 1
    ensures ExactCover(Family(bs), start, end)
    ensures forall i, j :: 0 <= i < j < |bs| ==> bs[i].Last() < bs[j].start
  {
    if bs != [] {
      var m := bs[0].Last() + 1;
      TilesExactly(bs[1..], m, end);
      forall b | b in bs
        ensures b.IsAligned() && start <= b.start && b.Last() <= end
      {
        assert b == bs[0] || b in Family(bs[1..]);
      }
      forall a: nat | start <= a <= end
        ensures Reaches(Family(bs), a)
      {
        if a < m {
          assert bs[0].Has(a);
        } else {
          assert Reaches(Family(bs[1..]), a);
        }
      }
      forall i, j | 0 <= i < j < |bs|
        ensures bs[i].Last() < bs[j].start
      {
        assert bs[j] == bs[1..][j - 1] && bs[j] in Family(bs[1..]);
      }
    }
  }

  /** The blocks past the first greedy one cover the rest, and are fewer. */
  lemma RestCovers(start: nat, end: nat, bits: nat, c: set<Block>, g: Block)
    requires start <= end < Pow2(bits) && ExactCover(c, start, end)
    requires g == Block(start, LargestHeight(start, end, bits))
    ensures var rest := set b | b in c && b.start > g.Last();
            ExactCover(rest, g.Last() + 1, end) && |rest| + 1 <= |c|
  {
    LargestFits(start, end, bits);
    var rest := set b | b in c && b.start > g.Last();
    assert Reaches(c, start);
    var first :| first in c && first.Has(start);
    CardinalityLess(rest, c, first);
    forall a: nat | g.Last() + 1 <= a <= end ensures Reaches(rest, a) {
      assert Reaches(c, a);
      var b :| b in c && b.Has(a);
      InsideOrBeyond(g, b, start, end, bits);
      assert b in rest;
    }
  }

  lemma GreedyFirst(start: nat, end: nat, bits: nat)
    requires start <= end
    ensures var g := Block(start, LargestHeight(start, end, bits));
            |GreedyCover(start, end, bits)| == 1 + |GreedyCover(g.Last() + 1, end, bits)|
  {
  }

  /** No exact cover by aligned blocks is smaller than the greedy one. */
  lemma {:induction false} GreedyIsOptimal(start: nat, end: nat, bits: nat, c: set<Block>)
    requires end < Pow2(bits)
    requires ExactCover(c, start, end)
    ensures |GreedyCover(start, end, bits)| <= |c|
    decreases if start <= end then end + 1 - start else 0
  {
    if start <= end {
      var g := Block(start, LargestHeight(start, end, bits));
      RestCovers(start, end, bits, c, g);
      GreedyFirst(start, end, bits);
      GreedyIsOptimal(g.Last() + 1, end, bits, set b | b in c && b.start > g.Last());
    }
  }

  /** A block of an exact cover lies within the greedy block or past its end. */
  lemma InsideOrBeyond(g: Block, b: Block, start: nat, end: nat, bits: nat)
    requires start <= end < Pow2(bits)
    requires g == Block(start, LargestHeight(start, end, bits))
    requires b.IsAligned() && start <= b.start && b.Last() <= end
    ensures b.Last() <= g.Last() || b.start > g.Last()
  {
    LargestFits(start, end, bits);
    if b.start <= g.Last() {
      if b.height <= g.height {
        Laminar(b.start, b.height, g.start, g.height, b.start);
      } else {
        Laminar(g.start, g.height, b.start, b.height, b.start);
        if b.height > bits {
          Pow2Strict(bits, b.height);
        } else {
          LargestIsLargest(start, end, bits, b.height);
        }
      }
    }
  }

  /** Once less than `2^h` is left past an `h`-aligned address, the heights only fall. */
  lemma {:induction false} DescentLength(cur: nat, end: nat, bits: nat, h: nat)
    requires Aligned(cur, h) && h <= bits
    requires cur <= end + 1 < cur + Pow2(h)
    ensures |GreedyCover(cur, end, bits)| <= h
    decreases h
  {
    if cur <= end {
      var k := LargestHeight(cur, end, bits);
      LargestFits(cur, end, bits);
      if k >= h { Pow2Monotone(h, k); }
      AlignedLower(cur, h, k + 1);
      LargestIsLargest(cur, end, bits, k + 1);
      AlignedStep(cur, k);
      DescentLength(cur + Pow2(k), end, bits, k);
    }
  }

  /** Before that point, each step raises the alignment. */
  lemma {:induction false} AscentLength(cur: nat, end: nat, bits: nat, j: nat)
    requires Aligned(cur, j) && j < bits
    requires 0 < cur <= end < Pow2(bits)
    ensures |GreedyCover(cur, end, bits)| <= if bits == 1 then 1 else 2 * (bits - 1) - j
    decreases end + 1 - cur
  {
    var k := LargestHeight(cur, end, bits);
    LargestFits(cur, end, bits);
    var next := cur + Pow2(k);
    AlignedStep(cur, k);
    BlockFits(cur, k, bits);
    if Aligned(cur, k + 1) {
      if k + 1 >= bits {
        AlignedLower(cur, k + 1, bits);
        BlockFits(cur, bits, bits);
        assert false;
      }
      LargestIsLargest(cur, end, bits, k + 1);
      DescentLength(next, end, bits, k);
    } else {
      if k < j { AlignedLower(cur, j, k + 1); }
      if next <= end {
        if k + 1 >= bits {
          AlignedLower(next, k + 1, bits);
          BlockFits(next, bits, bits);
          assert false;
        }
        AscentLength(next, end, bits, k + 1);
      }
    }
  }

  /** The cover of an interval of `bits`-bit addresses has at most `2 * bits - 2` blocks. */
  lemma GreedyLength(start: nat, end: nat, bits: nat)
    requires end < Pow2(bits) && bits >= 2
    ensures |GreedyCover(start, end, bits)| <= 2 * bits - 2
  {
    if start == 0 {
      var k := LargestHeight(0, end, bits);
      LargestFits(0, end, bits);
      ZeroIsAligned(bits);
      ZeroIsAligned(k + 1);
      AlignedStep(0, k);
      if k < bits {
        LargestIsLargest(0, end, bits, k + 1);
        DescentLength(Pow2(k), end, bits, k);
      }
    } else if start <= end {
      AscentLength(start, end, bits, 0);
    }
  }

  lemma {:induction false} FullDescent(cur: nat, bits: nat, h: nat)
    requires Aligned(cur, h) && h <= bits
    requires cur + Pow2(h) >= 2
    ensures |GreedyCover(cur, cur + Pow2(h) - 2, bits)| == h
    decreases h
  {
    if h > 0 {
      var k := LargestHeight(cur, cur + Pow2(h) - 2, bits);
      LargestFits(cur, cur + Pow2(h) - 2, bits);
      AlignedLower(cur, h, h - 1);
      if k >= h { Pow2Monotone(h, k); }
      if k < h - 1 { LargestIsLargest(cur, cur + Pow2(h) - 2, bits, h - 1); }
      AlignedStep(cur, h - 1);
      FullDescent(cur + Pow2(h - 1), bits, h - 1);
    }
  }

  /** A block limited by its alignment alone. */
  lemma GreedyAlignedStep(cur: nat, end: nat, bits: nat, k: nat)
    requires Aligned(cur, k) && !Aligned(cur, k + 1) && k <= bits
    requires cur + Pow2(k) <= end + 1
    ensures GreedyCover(cur, end, bits) == [Block(cur, k)] + GreedyCover(cur + Pow2(k), end, bits)
  {
    var h := LargestHeight(cur, end, bits);
    LargestFits(cur, end, bits);
    if h > k { AlignedLower(cur, h, k + 1); }
    if h < k { LargestIsLargest(cur, end, bits, k); }
  }

  lemma {:induction false} FullAscent(bits: nat, i: nat)
    requires i < bits && bits >= 2
    ensures |GreedyCover(Pow2(i), Pow2(bits) - 2, bits)| == 2 * (bits - 1) - i
    decreases bits - i
  {
    var end := Pow2(bits) - 2;
    PowerAlignment(i);
    if i == bits - 1 {
      FullDescent(Pow2(i), bits, i);
    } else {
      Pow2Strict(i + 1, bits);
      GreedyAlignedStep(Pow2(i), end, bits, i);
      assert Pow2(i) + Pow2(i) == Pow2(i + 1);
      FullAscent(bits, i + 1);
    }
  }

  lemma {:induction false} PowerAlignment(i: nat)
    ensures Aligned(Pow2(i), i) && !Aligned(Pow2(i), i + 1)
  {
    if i > 0 { PowerAlignment(i - 1); }
  }

  /** That bound is reached, by every address but the first and the last. */
  lemma GreedyLengthIsTight(bits: nat)
    requires bits >= 2
    ensures |GreedyCover(1, Pow2(bits) - 2, bits)| == 2 * bits - 2
  {
    FullAscent(bits, 0);
  }
}
