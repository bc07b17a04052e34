/**
 * How an append of `m` leaves after leaf count `n` splits into aligned perfect subtrees, and the peak
 * heights of a leaf count. The greedy split is compared with every possible aligned tiling.
 */
module Decomposition {
  import opened Bits

  /** The height the greedy loop takes at position `pos` with `remaining` leaves still to place. */
  function GreedyHeight(pos: nat, remaining: nat): (h: nat)
    requires 0 < remaining < U64_LIMIT
    ensures Aligned(pos, h) && Pow2(h) <= remaining
  {
    var hAlign := if pos == 0 then 63 else TrailingZeros(pos);
    var hSize := FloorLog2(remaining);
    LogBelow64(remaining);
    if pos == 0 then AlignedZero(hSize); hSize
    else if hAlign <= hSize then Pow2Mono(hAlign, hSize); hAlign
    else AlignedDown(pos, hAlign, hSize); hSize
  }

  /** No taller subtree could start at `pos` and still fit. */
  lemma GreedyIsMaximal(pos: nat, remaining: nat, g: nat)
    requires 0 < remaining < U64_LIMIT
    requires Aligned(pos, g) && Pow2(g) <= remaining
    ensures g <= GreedyHeight(pos, remaining)
  {
    if g > FloorLog2(remaining) { Pow2Mono(FloorLog2(remaining) + 1, g); }
    if pos > 0 && g > TrailingZeros(pos) { AlignedDown(pos, g, TrailingZeros(pos) + 1); }
  }

  /** The heights of an update of `m` leaves at leaf count `n`. */
  function Decompose(n: nat, m: nat): (heights: seq<nat>)
    requires n + m < U64_LIMIT
    decreases m
  {
    if m == 0 then [] else
      var h := GreedyHeight(n, m);
      [h] + Decompose(n + Pow2(h), m - Pow2(h))
  }

  /** The set bits of `n`, tallest first. */
  function PeakHeights(n: nat): (heights: seq<nat>)
    ensures n > 0 ==> heights != [] && heights[0] == FloorLog2(n)
  {
    if n == 0 then [] else
      var h := FloorLog2(n);
      [h] + PeakHeights(n - Pow2(h))
  }

  /** `hs` covers `[n, n + m)` left to right with subtrees that start at multiples of their size. */
  ghost predicate Tiles(n: nat, m: nat, hs: seq<nat>)
    decreases |hs|
  {
    if hs == [] then m == 0
    else Aligned(n, hs[0]) && Pow2(hs[0]) <= m && Tiles(n + Pow2(hs[0]), m - Pow2(hs[0]), hs[1..])
  }

  ghost predicate Rising(hs: seq<nat>)
  {
    forall i, j :: 0 <= i < j < |hs| ==> hs[i] < hs[j]
  }

  ghost predicate Falling(hs: seq<nat>)
  {
    forall i, j :: 0 <= i < j < |hs| ==> hs[i] > hs[j]
  }

  lemma {:induction false} DecomposeTiles(n: nat, m: nat)
    requires n + m < U64_LIMIT
    ensures Tiles(n, m, Decompose(n, m))
    decreases m
  {
    if m > 0 {
      var h := GreedyHeight(n, m);
      DecomposeTiles(n + Pow2(h), m - Pow2(h));
    }
  }

  // ---- The set bits of a leaf count ----

  /** Bit `k` of `n` is set exactly when `k` is the top bit or a bit of what is left below it. */
  lemma TopBitSplit(n: nat, k: nat)
    requires n > 0
    ensures Bit(n, k) <==> k == FloorLog2(n) || Bit(n - Pow2(FloorLog2(n)), k)
    ensures Bit(n - Pow2(FloorLog2(n)), k) ==> k < FloorLog2(n)
  {
    var h := FloorLog2(n);
    TopBit(n);
    ClearBit(n, h, k);
    if k >= h { NoHighBit(n - Pow2(h), h, k); }
  }

  /** What is left below the top bit is smaller than the top bit. */
  lemma BelowTopBit(n: nat)
    requires n > 0
    ensures n - Pow2(FloorLog2(n)) < Pow2(FloorLog2(n))
  {
  }

  /** A taller height in front of a falling list. */
  lemma FallingCons(h: nat, rest: seq<nat>, n: nat)
    requires Falling(rest) && Pow2(h) <= n < 2 * Pow2(h)
    requires forall i :: 0 <= i < |rest| ==> Pow2(rest[i]) <= n - Pow2(h)
    ensures Falling([h] + rest)
    ensures forall i :: 0 <= i < |[h] + rest| ==> Pow2(([h] + rest)[i]) <= n
  {
    hide Pow2;
    forall i | 0 <= i < |rest| ensures rest[i] < h {
      if rest[i] >= h { Pow2Mono(h, rest[i]); }
    }
  }

  lemma NoneFall()
    ensures Falling([])
  {
  }

  lemma {:induction false} PeakHeightsFall(n: nat)
    ensures Falling(PeakHeights(n))
    ensures forall i :: 0 <= i < |PeakHeights(n)| ==> Pow2(PeakHeights(n)[i]) <= n
  {
    hide Pow2, FloorLog2, Falling;
    if n == 0 {
      NoneFall();
    } else {
      PeakHeightsFall(n - Pow2(FloorLog2(n)));
      BelowTopBit(n);
      FallingCons(FloorLog2(n), PeakHeights(n - Pow2(FloorLog2(n))), n);
    }
  }

  /** The list of peak heights is exactly the set bits, tallest first. */
  lemma {:induction false} PeakHeightsAreBits(n: nat, k: nat)
    ensures k in PeakHeights(n) <==> Bit(n, k)
    ensures Falling(PeakHeights(n))
    ensures forall i :: 0 <= i < |PeakHeights(n)| ==> Pow2(PeakHeights(n)[i]) <= n
  {
    hide Pow2, FloorLog2, Bit, Falling;
    PeakHeightsFall(n);
    if n == 0 {
      NoHighBit(0, 0, k);
    } else {
      PeakHeightsAreBits(n - Pow2(FloorLog2(n)), k);
      TopBitSplit(n, k);
    }
  }

  // ---- The greedy split against every other tiling ----

  /**
   * A tiling that starts at a block boundary cannot straddle the end of the tallest block that fits
   * there: it splits into a tiling of that block and a tiling of the rest.
   */
  lemma {:induction false} TilingSplits(n: nat, m: nat, hs: seq<nat>, base: nat, h: nat) returns (cut: nat)
    requires Tiles(n, m, hs)
    requires Aligned(base, h) && base <= n < base + Pow2(h) <= n + m
    requires n == base ==> hs != [] && hs[0] <= h
    ensures 0 < cut <= |hs|
    ensures Tiles(base + Pow2(h), n + m - (base + Pow2(h)), hs[cut..])
    decreases |hs|
  {
    var end := base + Pow2(h);
    var g := hs[0];
    var next := n + Pow2(g);
    AlignedPow2(h, h);
    AlignedAdd(base, Pow2(h), h);
    if g > h {
      AlignedDown(n, g, h);
      AlignedAdd(base, n - base, h);
      AlignedLower(n - base, h);
    }
    AlignedDown(end, h, g);
    AlignedAdd(n, end - n, g);
    AlignedLower(end - n, g);
    if next == end {
      cut := 1;
    } else {
      var c := TilingSplits(next, m - Pow2(g), hs[1..], base, h);
      cut := c + 1;
      assert hs[1..][c..] == hs[cut..];
    }
  }

  /** No aligned tiling of the same range uses fewer subtrees. */
  lemma {:induction false} DecomposeIsMinimal(n: nat, m: nat, hs: seq<nat>)
    requires n + m < U64_LIMIT
    requires Tiles(n, m, hs)
    ensures |Decompose(n, m)| <= |hs|
    decreases m
  {
    if m > 0 {
      var h := GreedyHeight(n, m);
      GreedyIsMaximal(n, m, hs[0]);
      var cut := TilingSplits(n, m, hs, n, h);
      DecomposeIsMinimal(n + Pow2(h), m - Pow2(h), hs[cut..]);
    }
  }

  // ---- Shape and length ----

  /** Once the size of the remainder decides, the heights are the set bits of the remainder. */
  lemma {:induction false} TailIsPeakHeights(n: nat, m: nat)
    requires n + m < U64_LIMIT
    requires m > 0 ==> Aligned(n, FloorLog2(m))
    ensures Decompose(n, m) == PeakHeights(m)
    decreases m
  {
    hide Aligned, FloorLog2;
    if m > 0 {
      var h := FloorLog2(m);
      GreedyIsMaximal(n, m, h);
      Pow2Mono(h, GreedyHeight(n, m));
      var rest := m - Pow2(h);
      AlignedPow2(h, h);
      AlignedAdd(n, Pow2(h), h);
      if rest > 0 {
        if FloorLog2(rest) > h { Pow2Mono(h + 1, FloorLog2(rest)); }
        AlignedDown(n + Pow2(h), h, FloorLog2(rest));
      }
      TailIsPeakHeights(n + Pow2(h), rest);
    }
  }

  /** How many leading heights are decided by the alignment of the start. */
  ghost function RiseLength(n: nat, m: nat): nat
    requires n + m < U64_LIMIT
    decreases m
  {
    if m == 0 || Aligned(n, FloorLog2(m)) then 0 else
      var h := GreedyHeight(n, m);
      1 + RiseLength(n + Pow2(h), m - Pow2(h))
  }

  /** In the rising phase the height is exactly the alignment of the start. */
  lemma RiseHeightExact(n: nat, m: nat)
    requires 0 < m && n + m < U64_LIMIT && !Aligned(n, FloorLog2(m))
    ensures !Aligned(n, GreedyHeight(n, m) + 1)
  {
    AlignedZero(FloorLog2(m));
    if TrailingZeros(n) >= FloorLog2(m) { AlignedDown(n, TrailingZeros(n), FloorLog2(m)); }
  }

  lemma {:induction false} LowBitCarries(n: nat, h: nat)
    requires Aligned(n, h) && !Aligned(n, h + 1)
    ensures Aligned(n + Pow2(h), h + 1)
  {
    if h > 0 {
      assert (n + Pow2(h)) / 2 == n / 2 + Pow2(h - 1);
      LowBitCarries(n / 2, h - 1);
    }
  }

  /** Adding the lowest set bit of `n` clears it: the next position is aligned at least one step better. */
  lemma RiseAligns(n: nat, m: nat)
    requires 0 < m && n + m < U64_LIMIT && !Aligned(n, FloorLog2(m))
    ensures Aligned(n + Pow2(GreedyHeight(n, m)), GreedyHeight(n, m) + 1)
  {
    RiseHeightExact(n, m);
    LowBitCarries(n, GreedyHeight(n, m));
  }

  /** While alignment decides, no height falls below the alignment of the start. */
  lemma {:induction false} RiseAtLeast(n: nat, m: nat, g: nat)
    requires n + m < U64_LIMIT
    requires Aligned(n, g)
    ensures RiseLength(n, m) <= |Decompose(n, m)|
    ensures forall i :: 0 <= i < RiseLength(n, m) ==> g <= Decompose(n, m)[i]
    decreases m
  {
    if m > 0 && !Aligned(n, FloorLog2(m)) {
      var h := GreedyHeight(n, m);
      RiseHeightExact(n, m);
      if g > h { AlignedDown(n, g, h + 1); }
      RiseAligns(n, m);
      AlignedDown(n + Pow2(h), h + 1, g);
      RiseAtLeast(n + Pow2(h), m - Pow2(h), g);
    }
  }

  /**
   * Heights strictly rise while alignment decides and strictly fall once the remainder decides, so only
   * the two neighbours where the phases meet can be equal.
   */
  lemma {:induction false} DecomposeShape(n: nat, m: nat)
    requires n + m < U64_LIMIT
    ensures RiseLength(n, m) <= |Decompose(n, m)|
    ensures Rising(Decompose(n, m)[..RiseLength(n, m)])
    ensures Falling(Decompose(n, m)[RiseLength(n, m)..])
    decreases m
  {
    hide Pow2, FloorLog2, GreedyHeight, Aligned;
    if m == 0 {
    } else if Aligned(n, FloorLog2(m)) {
      TailIsPeakHeights(n, m);
      PeakHeightsAreBits(m, 0);
    } else {
      var h := GreedyHeight(n, m);
      var hs, rest := Decompose(n, m), Decompose(n + Pow2(h), m - Pow2(h));
      var r := RiseLength(n + Pow2(h), m - Pow2(h));
      DecomposeShape(n + Pow2(h), m - Pow2(h));
      RiseAligns(n, m);
      RiseAtLeast(n + Pow2(h), m - Pow2(h), h + 1);
      assert hs[..r + 1] == [h] + rest[..r] && hs[r + 1..] == rest[r..];
    }
  }

  /** Every height of a tiling fits in the range. */
  lemma {:induction false} TileFits(n: nat, m: nat, hs: seq<nat>, i: nat)
    requires Tiles(n, m, hs) && i < |hs|
    ensures Pow2(hs[i]) <= m
    decreases |hs|
  {
    if i > 0 { TileFits(n + Pow2(hs[0]), m - Pow2(hs[0]), hs[1..], i - 1); }
  }

  lemma {:induction false} RisingLength(hs: seq<nat>, bound: nat)
    requires Rising(hs) && forall i :: 0 <= i < |hs| ==> hs[i] < bound
    ensures |hs| <= bound
  {
    if hs != [] {
      var last := hs[|hs| - 1];
      RisingLength(hs[..|hs| - 1], last);
    }
  }

  lemma {:induction false} FallingLength(hs: seq<nat>, bound: nat)
    requires Falling(hs) && forall i :: 0 <= i < |hs| ==> hs[i] < bound
    ensures |hs| <= bound
  {
    if hs != [] { FallingLength(hs[1..], hs[0]); }
  }

  /** At most two subtrees per bit of the update size. */
  lemma DecomposeLength(n: nat, m: nat)
    requires 0 < m && n + m < U64_LIMIT
    ensures |Decompose(n, m)| <= 2 * (FloorLog2(m) + 1)
  {
    var hs, r, bound := Decompose(n, m), RiseLength(n, m), FloorLog2(m) + 1;
    DecomposeShape(n, m);
    DecomposeTiles(n, m);
    forall i | 0 <= i < |hs| ensures hs[i] < bound {
      TileFits(n, m, hs, i);
      if hs[i] >= bound { Pow2Mono(bound, hs[i]); }
    }
    RisingLength(hs[..r], bound);
    FallingLength(hs[r..], bound);
  }

  // ---- The loops of the source ----

  method DecomposeLoop(n: nat, m: nat) returns (heights: seq<nat>)
    requires m >= 1 && n + m < U64_LIMIT
    ensures heights == Decompose(n, m)
  {
    hide Pow2, GreedyHeight;
    heights := [];
    var pos: nat, remaining: nat := n, m;
    while remaining > 0
      invariant pos + remaining == n + m
      invariant heights + Decompose(pos, remaining) == Decompose(n, m)
    {
      var h := GreedyHeight(pos, remaining);
      ghost var rest := Decompose(pos + Pow2(h), remaining - Pow2(h));
      assert heights + Decompose(pos, remaining) == (heights + [h]) + rest;
      heights, pos, remaining := heights + [h], pos + Pow2(h), remaining - Pow2(h);
    }
  }

  /** Of a number below `2^(k + 1)`, bit `k` is the tallest peak if it is set; otherwise the number is below `2^k`. */
  lemma PeakHeightsStep(left: nat, k: nat)
    requires left < Pow2(k + 1)
    ensures Bit(left, k) ==>
      Pow2(k) <= left < 2 * Pow2(k) && PeakHeights(left) == [k] + PeakHeights(left - Pow2(k))
    ensures !Bit(left, k) ==> left < Pow2(k)
  {
    hide Bit, FloorLog2;
    if Bit(left, k) {
      BitLower(left, k);
      LogUnique(left, k);
    } else if left >= Pow2(k) {
      LogUnique(left, k);
      TopBit(left);
    }
  }

  lemma NoPeaks(left: nat)
    requires left < Pow2(0)
    ensures PeakHeights(left) == []
  {
  }

  method PeakHeightsLoop(n: U64) returns (heights: seq<nat>)
    ensures heights == PeakHeights(n)
  {
    hide FloorLog2, Bit, Pow2, PeakHeights;
    heights := [];
    var k, left: nat := 64, n;
    Pow2Values();
    while k > 0
      invariant k <= 64 && left < Pow2(k)
      invariant heights + PeakHeights(left) == PeakHeights(n)
      invariant forall j :: j < k ==> (Bit(n, j) <==> Bit(left, j))
    {
      k := k - 1;
      PeakHeightsStep(left, k);
      if Bit(n, k) {
        heights := heights + [k];
        forall j | j < k ensures Bit(n, j) <==> Bit(left - Pow2(k), j) { ClearBit(left, k, j); }
        left := left - Pow2(k);
      }
    }
    NoPeaks(left);
  }
}
