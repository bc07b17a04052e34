/**
 * The Merkle mountain range over a chunk sequence: perfect subtrees, the peaks of a leaf count, the
 * binary-counter carry, and the theorem that a batched append is leaf-by-leaf append.
 * Chunk sequences are indexed, never sliced, so that a subtree is named by its first leaf and height.
 */
module Forest {
  import opened Data
  import opened Bits
  import opened Decomposition

  /** One peak per height. */
  type Peaks = map<nat, Hash>

  /** Root of the perfect subtree over leaves `[start, start + 2^h)`. */
  function SubtreeRoot(cs: seq<Chunk>, start: nat, h: nat): Hash
    requires start + Pow2(h) <= |cs|
    decreases h
  {
    if h == 0 then Leaf(cs[start])
    else Node(SubtreeRoot(cs, start, h - 1), SubtreeRoot(cs, start + Pow2(h - 1), h - 1))
  }

  /** The canonical peak list of the `n` leaves from `start`: tallest, hence oldest, first. */
  function PeakList(cs: seq<Chunk>, start: nat, n: nat): seq<Hash>
    requires start + n <= |cs|
    decreases n
  {
    if n == 0 then [] else
      var h := FloorLog2(n);
      [SubtreeRoot(cs, start, h)] + PeakList(cs, start + Pow2(h), n - Pow2(h))
  }

  /** The same peaks by height. */
  function PeakMap(cs: seq<Chunk>, start: nat, n: nat): Peaks
    requires start + n <= |cs|
    decreases n
  {
    if n == 0 then map[] else
      var h := FloorLog2(n);
      PeakMap(cs, start + Pow2(h), n - Pow2(h))[h := SubtreeRoot(cs, start, h)]
  }

  /** The binary-counter invariant: height `h` is occupied exactly when bit `h` of the count is set. */
  ghost predicate BinaryCounter(peaks: Peaks, n: nat)
  {
    forall h :: h in peaks <==> Bit(n, h)
  }

  /** Merge upwards while a peak of the incoming height exists, then insert. */
  function Carry(peaks: Peaks, h: nat, p: Hash): Peaks
    decreases |peaks|
  {
    if h in peaks then
      assert (peaks - {h}).Keys == peaks.Keys - {h};
      Carry(peaks - {h}, h + 1, Node(peaks[h], p))
    else peaks[h := p]
  }

  /** The merges one carry performs. */
  function Merges(peaks: Peaks, h: nat): nat
    decreases |peaks|
  {
    if h in peaks then
      assert (peaks - {h}).Keys == peaks.Keys - {h};
      1 + Merges(peaks - {h}, h + 1)
    else 0
  }

  /** Carry a list of subtree roots in, in order. */
  function CarryAll(peaks: Peaks, heights: seq<nat>, roots: seq<Hash>): Peaks
    requires |heights| == |roots|
    decreases |heights|
  {
    if heights == [] then peaks
    else CarryAll(Carry(peaks, heights[0], roots[0]), heights[1..], roots[1..])
  }

  /** The merges a list of subtree roots causes. */
  function MergesAll(peaks: Peaks, heights: seq<nat>, roots: seq<Hash>): nat
    requires |heights| == |roots|
    decreases |heights|
  {
    if heights == [] then 0
    else Merges(peaks, heights[0]) + MergesAll(Carry(peaks, heights[0], roots[0]), heights[1..], roots[1..])
  }

  /** Append leaves `[from, from + count)` one at a time: the slow, obviously correct path. */
  function AppendLeaves(peaks: Peaks, cs: seq<Chunk>, from: nat, count: nat): Peaks
    requires from + count <= |cs|
    decreases count
  {
    if count == 0 then peaks
    else AppendLeaves(Carry(peaks, 0, Leaf(cs[from])), cs, from + 1, count - 1)
  }

  /** Leaves covered by a list of heights. */
  function Span(heights: seq<nat>): nat
  {
    if heights == [] then 0 else Pow2(heights[0]) + Span(heights[1..])
  }

  /** The subtree roots of a tiling of `[start, ...)` over the data. */
  function RootsOf(cs: seq<Chunk>, start: nat, heights: seq<nat>): (roots: seq<Hash>)
    requires start + Span(heights) <= |cs|
    ensures |roots| == |heights|
    decreases |heights|
  {
    if heights == [] then []
    else [SubtreeRoot(cs, start, heights[0])] + RootsOf(cs, start + Pow2(heights[0]), heights[1..])
  }

  lemma {:induction false} TilesSpan(n: nat, m: nat, heights: seq<nat>)
    requires Tiles(n, m, heights)
    ensures Span(heights) == m
    decreases |heights|
  {
    if heights != [] { TilesSpan(n + Pow2(heights[0]), m - Pow2(heights[0]), heights[1..]); }
  }

  lemma DecomposeSpan(n: nat, m: nat)
    requires n + m < U64_LIMIT
    ensures Span(Decompose(n, m)) == m
  {
    DecomposeTiles(n, m);
    TilesSpan(n, m, Decompose(n, m));
  }

  // ---- The carry is binary addition ----

  lemma RemovePeak(peaks: Peaks, n: nat, h: nat)
    requires BinaryCounter(peaks, n) && h in peaks
    ensures n >= Pow2(h) && BinaryCounter(peaks - {h}, n - Pow2(h))
    ensures (peaks - {h}).Keys == peaks.Keys - {h} && |peaks - {h}| == |peaks| - 1
  {
    BitLower(n, h);
    var rest := peaks - {h};
    assert rest.Keys == peaks.Keys - {h};
    forall k ensures k in rest <==> Bit(n - Pow2(h), k) { ClearBit(n, h, k); }
  }

  lemma InsertPeak(peaks: Peaks, n: nat, h: nat, p: Hash)
    requires BinaryCounter(peaks, n) && h !in peaks
    ensures BinaryCounter(peaks[h := p], n + Pow2(h))
  {
    var next := peaks[h := p];
    forall k ensures k in next <==> Bit(n + Pow2(h), k) { SetBit(n, h, k); }
  }

  /** Carrying a subtree of height `h` into the peaks of `n` gives the peaks of `n + 2^h`. */
  lemma {:induction false} CarryCounts(peaks: Peaks, n: nat, h: nat, p: Hash)
    requires BinaryCounter(peaks, n)
    ensures BinaryCounter(Carry(peaks, h, p), n + Pow2(h))
    decreases |peaks|
  {
    if h in peaks {
      RemovePeak(peaks, n, h);
      CarryCounts(peaks - {h}, n - Pow2(h), h + 1, Node(peaks[h], p));
    } else {
      InsertPeak(peaks, n, h, p);
    }
  }

  lemma {:induction false} CarryAllCounts(peaks: Peaks, n: nat, heights: seq<nat>, roots: seq<Hash>)
    requires |heights| == |roots| && BinaryCounter(peaks, n)
    ensures BinaryCounter(CarryAll(peaks, heights, roots), n + Span(heights))
    decreases |heights|
  {
    if heights != [] {
      CarryCounts(peaks, n, heights[0], roots[0]);
      CarryAllCounts(Carry(peaks, heights[0], roots[0]), n + Pow2(heights[0]), heights[1..], roots[1..]);
    }
  }

  /** Each merge removes one peak and each insertion adds one. */
  lemma {:induction false} CarryConserves(peaks: Peaks, h: nat, p: Hash)
    ensures |Carry(peaks, h, p)| + Merges(peaks, h) == |peaks| + 1
    decreases |peaks|
  {
    if h in peaks {
      assert (peaks - {h}).Keys == peaks.Keys - {h};
      CarryConserves(peaks - {h}, h + 1, Node(peaks[h], p));
    } else {
      assert peaks[h := p].Keys == peaks.Keys + {h};
    }
  }

  lemma {:induction false} CarryAllConserves(peaks: Peaks, heights: seq<nat>, roots: seq<Hash>)
    requires |heights| == |roots|
    ensures |CarryAll(peaks, heights, roots)| + MergesAll(peaks, heights, roots) == |peaks| + |heights|
    decreases |heights|
  {
    if heights != [] {
      CarryConserves(peaks, heights[0], roots[0]);
      CarryAllConserves(Carry(peaks, heights[0], roots[0]), heights[1..], roots[1..]);
    }
  }

  /** There are as many peaks as the count has set bits. */
  lemma {:induction false} PeakCount(peaks: Peaks, n: nat)
    requires BinaryCounter(peaks, n)
    ensures |peaks| == |PeakHeights(n)|
    decreases n
  {
    if n == 0 {
      forall k ensures k !in peaks { NoHighBit(0, 0, k); assert k in peaks <==> Bit(n, k); }
      assert peaks == map[];
    } else {
      var h := FloorLog2(n);
      TopBit(n);
      assert h in peaks;
      RemovePeak(peaks, n, h);
      PeakCount(peaks - {h}, n - Pow2(h));
    }
  }

  /** An update performs exactly `popcount(n) + len - popcount(n + m)` merges, whatever the hashes are. */
  lemma MergeCount(peaks: Peaks, n: nat, m: nat, roots: seq<Hash>)
    requires n + m < U64_LIMIT && BinaryCounter(peaks, n) && |roots| == |Decompose(n, m)|
    ensures MergesAll(peaks, Decompose(n, m), roots)
         == |PeakHeights(n)| + |Decompose(n, m)| - |PeakHeights(n + m)|
  {
    hide Decompose, BinaryCounter, CarryAll, MergesAll, PeakHeights, Span, Pow2;
    var heights := Decompose(n, m);
    DecomposeSpan(n, m);
    CarryAllCounts(peaks, n, heights, roots);
    CarryAllConserves(peaks, heights, roots);
    PeakCount(peaks, n);
    PeakCount(CarryAll(peaks, heights, roots), n + m);
  }

  // ---- A batched append is leaf-by-leaf append ----

  lemma {:induction false} AppendSplit(peaks: Peaks, cs: seq<Chunk>, from: nat, a: nat, b: nat)
    requires from + a + b <= |cs|
    ensures AppendLeaves(peaks, cs, from, a + b)
         == AppendLeaves(AppendLeaves(peaks, cs, from, a), cs, from + a, b)
    decreases a
  {
    if a > 0 { AppendSplit(Carry(peaks, 0, Leaf(cs[from])), cs, from + 1, a - 1, b); }
  }

  /** Carrying a right sibling onto its left sibling is carrying their parent. */
  lemma CarryPair(peaks: Peaks, h: nat, left: Hash, right: Hash)
    requires h !in peaks
    ensures Carry(peaks[h := left], h, right) == Carry(peaks, h + 1, Node(left, right))
  {
    assert peaks[h := left] - {h} == peaks;
  }

  /** Carrying in an aligned subtree at its root is appending its leaves one at a time. */
  lemma {:induction false} CarrySubtree(peaks: Peaks, n: nat, cs: seq<Chunk>, start: nat, h: nat)
    requires BinaryCounter(peaks, n) && Aligned(n, h)
    requires start + Pow2(h) <= |cs|
    ensures Carry(peaks, h, SubtreeRoot(cs, start, h)) == AppendLeaves(peaks, cs, start, Pow2(h))
    decreases h
  {
    hide Bit, Aligned;
    if h == 0 {
      assert AppendLeaves(peaks, cs, start, 1)
          == AppendLeaves(Carry(peaks, 0, Leaf(cs[start])), cs, start + 1, 0);
    } else {
      var half := Pow2(h - 1);
      var left := SubtreeRoot(cs, start, h - 1);
      var mid := peaks[h - 1 := left];
      AlignedNoBit(n, h, h - 1);
      AlignedDown(n, h, h - 1);
      assert h - 1 !in peaks;
      InsertPeak(peaks, n, h - 1, left);
      AlignedPow2(h - 1, h - 1);
      AlignedAdd(n, half, h - 1);
      assert Carry(peaks, h - 1, left) == mid;
      CarrySubtree(peaks, n, cs, start, h - 1);
      CarrySubtree(mid, n + half, cs, start + half, h - 1);
      CarryPair(peaks, h - 1, left, SubtreeRoot(cs, start + half, h - 1));
      AppendSplit(peaks, cs, start, half, half);
    }
  }

  /** Any aligned tiling of an update, carried in at its roots, is leaf-by-leaf append. */
  lemma {:induction false} TilingIsLeafByLeaf(peaks: Peaks, n: nat, m: nat, hs: seq<nat>, cs: seq<Chunk>, start: nat)
    requires BinaryCounter(peaks, n) && Tiles(n, m, hs) && Span(hs) == m
    requires start + m <= |cs|
    ensures CarryAll(peaks, hs, RootsOf(cs, start, hs)) == AppendLeaves(peaks, cs, start, m)
    decreases |hs|
  {
    hide Aligned, Pow2, SubtreeRoot, Carry, BinaryCounter;
    if hs != [] {
      var size, root := Pow2(hs[0]), SubtreeRoot(cs, start, hs[0]);
      CarrySubtree(peaks, n, cs, start, hs[0]);
      CarryCounts(peaks, n, hs[0], root);
      TilingIsLeafByLeaf(Carry(peaks, hs[0], root), n + size, m - size, hs[1..], cs, start + size);
      AppendSplit(peaks, cs, start, size, m - size);
      assert RootsOf(cs, start, hs)[1..] == RootsOf(cs, start + size, hs[1..]);
    }
  }

  /**
   * Batched append refines leaf-by-leaf append on every state the verifier can hold, including one
   * rehydrated from peaks taken on trust.
   */
  lemma BatchIsLeafByLeaf(peaks: Peaks, n: nat, cs: seq<Chunk>, start: nat, m: nat)
    requires BinaryCounter(peaks, n) && n + m < U64_LIMIT && start + m <= |cs|
    ensures Span(Decompose(n, m)) == m
    ensures CarryAll(peaks, Decompose(n, m), RootsOf(cs, start, Decompose(n, m)))
         == AppendLeaves(peaks, cs, start, m)
  {
    DecomposeTiles(n, m);
    TilesSpan(n, m, Decompose(n, m));
    TilingIsLeafByLeaf(peaks, n, m, Decompose(n, m), cs, start);
  }

  // ---- Leaf-by-leaf append from empty gives the canonical peaks ----

  /** Updates at different heights do not see each other. */
  lemma UpdatesCommute(peaks: Peaks, h: nat, p: Hash, top: nat, t: Hash)
    requires h != top
    ensures peaks[top := t][h := p] == peaks[h := p][top := t]
    ensures peaks[top := t] - {h} == (peaks - {h})[top := t]
  {
  }

  /** One unfolding of the carry. */
  lemma CarryStep(peaks: Peaks, h: nat, p: Hash)
    ensures Carry(peaks, h, p)
         == if h in peaks then Carry(peaks - {h}, h + 1, Node(peaks[h], p)) else peaks[h := p]
  {
  }

  /** A peak taller than everything the carry can reach is untouched by it. */
  lemma {:induction false} CarryBelow(peaks: Peaks, n: nat, h: nat, p: Hash, top: nat, t: Hash)
    requires BinaryCounter(peaks, n) && n + Pow2(h) < Pow2(top)
    ensures Carry(peaks[top := t], h, p) == Carry(peaks, h, p)[top := t]
    decreases |peaks|
  {
    assert h != top by { if h >= top { Pow2Mono(top, h); } }
    UpdatesCommute(peaks, h, p, top, t);
    CarryStep(peaks[top := t], h, p);
    CarryStep(peaks, h, p);
    if h in peaks {
      RemovePeak(peaks, n, h);
      CarryBelow(peaks - {h}, n - Pow2(h), h + 1, Node(peaks[h], p), top, t);
    }
  }

  lemma {:induction false} AppendBelow(peaks: Peaks, n: nat, cs: seq<Chunk>, from: nat, count: nat, top: nat, t: Hash)
    requires BinaryCounter(peaks, n) && from + count <= |cs| && n + count < Pow2(top)
    ensures AppendLeaves(peaks[top := t], cs, from, count) == AppendLeaves(peaks, cs, from, count)[top := t]
    decreases count
  {
    if count > 0 {
      var p := Leaf(cs[from]);
      CarryBelow(peaks, n, 0, p, top, t);
      CarryCounts(peaks, n, 0, p);
      AppendBelow(Carry(peaks, 0, p), n + 1, cs, from + 1, count - 1, top, t);
    }
  }

  lemma EmptyCounter()
    ensures BinaryCounter(map[], 0)
  {
    forall k ensures !Bit(0, k) { NoHighBit(0, 0, k); }
  }

  /** Leaf-by-leaf append from the empty state yields exactly one subtree root per set bit. */
  lemma {:induction false} AppendFromEmpty(cs: seq<Chunk>, start: nat, n: nat)
    requires start + n <= |cs|
    ensures AppendLeaves(map[], cs, start, n) == PeakMap(cs, start, n)
    ensures BinaryCounter(PeakMap(cs, start, n), n)
    decreases n
  {
    hide FloorLog2, Bit, SubtreeRoot;
    EmptyCounter();
    if n > 0 {
      var h := FloorLog2(n);
      var size := Pow2(h);
      AlignedZero(h);
      CarrySubtree(map[], 0, cs, start, h);
      AppendSplit(map[], cs, start, size, n - size);
      AppendBelow(map[], 0, cs, start + size, n - size, h, SubtreeRoot(cs, start, h));
      AppendFromEmpty(cs, start + size, n - size);
      forall k ensures k in PeakMap(cs, start, n) <==> Bit(n, k) {
        TopBitSplit(n, k);
        assert k in PeakMap(cs, start + size, n - size) <==> Bit(n - size, k);
      }
    }
  }

  /**
   * The headline: on the state of the first `n` chunks, one batched update with the subtree roots of the
   * next `m` chunks gives the peaks of all `n + m`, which is also what `m` single appends give.
   */
  lemma BatchedAppend(cs: seq<Chunk>, n: nat, m: nat)
    requires n + m <= |cs| && n + m < U64_LIMIT
    ensures Span(Decompose(n, m)) == m
    ensures CarryAll(PeakMap(cs, 0, n), Decompose(n, m), RootsOf(cs, n, Decompose(n, m)))
         == PeakMap(cs, 0, n + m) == AppendLeaves(PeakMap(cs, 0, n), cs, n, m)
    ensures BinaryCounter(PeakMap(cs, 0, n + m), n + m)
  {
    AppendFromEmpty(cs, 0, n);
    BatchIsLeafByLeaf(PeakMap(cs, 0, n), n, cs, n, m);
    AppendSplit(map[], cs, 0, n, m);
    AppendFromEmpty(cs, 0, n + m);
  }

  // ---- Canonical order ----

  /** Peaks below `top`, tallest first: the order they are stored and bagged in. */
  function Canonical(peaks: Peaks, top: nat): seq<Hash>
    decreases top, |peaks|
  {
    if top == 0 then []
    else (if top - 1 in peaks then [peaks[top - 1]] else []) + Canonical(peaks, top - 1)
  }

  lemma CanonicalStep(peaks: Peaks, h: nat)
    ensures Canonical(peaks, h + 1) == (if h in peaks then [peaks[h]] else []) + Canonical(peaks, h)
  {
  }

  lemma CanonicalNone(peaks: Peaks)
    ensures Canonical(peaks, 0) == []
  {
  }

  /** Rehydrate: zip heights with a peak list. */
  function Rehydrate(heights: seq<nat>, list: seq<Hash>): Peaks
    requires |heights| == |list|
    decreases |heights|
  {
    if heights == [] then map[] else Rehydrate(heights[1..], list[1..])[heights[0] := list[0]]
  }

  lemma {:induction false} CanonicalSkips(peaks: Peaks, n: nat, top: nat, low: nat)
    requires BinaryCounter(peaks, n) && n < Pow2(low) && low <= top
    ensures Canonical(peaks, top) == Canonical(peaks, low)
    decreases top - low
  {
    if low < top {
      NoHighBit(n, low, top - 1);
      assert top - 1 in peaks <==> Bit(n, top - 1);
      CanonicalSkips(peaks, n, top - 1, low);
    }
  }

  lemma {:induction false} CanonicalSame(a: Peaks, b: Peaks, top: nat)
    requires forall k :: k < top ==> (k in a <==> k in b) && (k in a ==> a[k] == b[k])
    ensures Canonical(a, top) == Canonical(b, top)
  {
    if top > 0 { CanonicalSame(a, b, top - 1); }
  }

  /** Dropping the tallest peak drops the head of the list. */
  lemma CanonicalTop(peaks: Peaks, n: nat, top: nat)
    requires BinaryCounter(peaks, n) && 0 < n < Pow2(top)
    ensures FloorLog2(n) in peaks && BinaryCounter(peaks - {FloorLog2(n)}, n - Pow2(FloorLog2(n)))
    ensures Canonical(peaks, top)
         == [peaks[FloorLog2(n)]] + Canonical(peaks - {FloorLog2(n)}, top)
  {
    var h := FloorLog2(n);
    var rest := peaks - {h};
    TopBit(n);
    assert h in peaks;
    RemovePeak(peaks, n, h);
    if top < h + 1 { Pow2Mono(top, h); }
    CanonicalSkips(peaks, n, top, h + 1);
    CanonicalSkips(rest, n - Pow2(h), top, h);
    CanonicalSame(peaks, rest, h);
  }

  /** The canonical list of the peaks over the data. */
  lemma {:induction false} CanonicalOfPeakMap(cs: seq<Chunk>, start: nat, n: nat, top: nat)
    requires start + n <= |cs| && n < Pow2(top)
    ensures Canonical(PeakMap(cs, start, n), top) == PeakList(cs, start, n)
    decreases n
  {
    hide FloorLog2, Bit, SubtreeRoot;
    AppendFromEmpty(cs, start, n);
    if n == 0 {
      EmptyCounter();
      CanonicalSkips(map[], 0, top, 0);
    } else {
      var h := FloorLog2(n);
      CanonicalTop(PeakMap(cs, start, n), n, top);
      AppendFromEmpty(cs, start + Pow2(h), n - Pow2(h));
      NoHighBit(n - Pow2(h), h, h);
      assert PeakMap(cs, start, n) - {h} == PeakMap(cs, start + Pow2(h), n - Pow2(h));
      CanonicalOfPeakMap(cs, start + Pow2(h), n - Pow2(h), top);
    }
  }

  /** Storing the canonical list and rehydrating it loses nothing, for any hashes. */
  lemma {:induction false} RehydrateCanonical(peaks: Peaks, n: nat, top: nat)
    requires BinaryCounter(peaks, n) && n < Pow2(top)
    ensures |Canonical(peaks, top)| == |PeakHeights(n)|
    ensures Rehydrate(PeakHeights(n), Canonical(peaks, top)) == peaks
    decreases n
  {
    hide FloorLog2, Bit;
    if n == 0 {
      forall k ensures k !in peaks { NoHighBit(0, 0, k); assert k in peaks <==> Bit(n, k); }
      assert peaks == map[];
      CanonicalSkips(peaks, 0, top, 0);
    } else {
      var h := FloorLog2(n);
      CanonicalTop(peaks, n, top);
      RehydrateCanonical(peaks - {h}, n - Pow2(h), top);
      assert Canonical(peaks, top)[1..] == Canonical(peaks - {h}, top);
    }
  }

  /** Rehydrating any list of the right length gives a binary counter whose canonical list is that list. */
  lemma {:induction false} CanonicalRehydrate(n: nat, list: seq<Hash>, top: nat)
    requires n < Pow2(top) && |list| == |PeakHeights(n)|
    ensures BinaryCounter(Rehydrate(PeakHeights(n), list), n)
    ensures Canonical(Rehydrate(PeakHeights(n), list), top) == list
    decreases n
  {
    hide FloorLog2, Bit;
    if n == 0 {
      EmptyCounter();
      CanonicalSkips(map[], 0, top, 0);
    } else {
      var h := FloorLog2(n);
      var peaks, rest := Rehydrate(PeakHeights(n), list), Rehydrate(PeakHeights(n - Pow2(h)), list[1..]);
      CanonicalRehydrate(n - Pow2(h), list[1..], top);
      assert PeakHeights(n)[1..] == PeakHeights(n - Pow2(h));
      forall k ensures k in peaks <==> Bit(n, k) { TopBitSplit(n, k); assert k in rest <==> Bit(n - Pow2(h), k); }
      CanonicalTop(peaks, n, top);
      NoHighBit(n - Pow2(h), h, h);
      assert h in rest <==> Bit(n - Pow2(h), h);
      assert peaks - {h} == rest;
    }
  }
}
