/**
 * The two executable forms of the peak merge: the reference's map of peaks updated in place, and the
 * contract's 64-slot table whose occupancy is read off the running leaf count.
 */
module Mmr {
  import opened Data
  import opened Bits
  import opened Decomposition
  import opened Forest
  import opened Inclusion

  datatype UpdateError = PeakCountMismatch | SubtreeCountMismatch

  lemma SingleLeafHeights(n: nat)
    requires n + 1 < U64_LIMIT
    ensures Decompose(n, 1) == [0]
  {
    GreedyIsMaximal(n, 1, 0);
    Pow2Mono(0, GreedyHeight(n, 1));
    assert GreedyHeight(n, 1) == 0;
  }

  /** The leaves covered from the `k`-th height on. */
  lemma SpanStep(heights: seq<nat>, k: nat)
    requires k < |heights|
    ensures heights[k..][0] == heights[k] && heights[k..][1..] == heights[k + 1..]
    ensures Span(heights[k..]) == Pow2(heights[k]) + Span(heights[k + 1..])
  {
    assert heights[k..][1..] == heights[k + 1..];
  }

  /** The state a verifier holds: leaf count plus one peak per height. */
  class Mmr {
    var peaks: Peaks
    var leafCount: U64

    ghost predicate Valid()
      reads this
    {
      BinaryCounter(peaks, leafCount)
    }

    constructor ()
      ensures Valid() && peaks == map[] && leafCount == 0
    {
      peaks, leafCount := map[], 0;
      EmptyCounter();
    }

    constructor Holding(peaks: Peaks, n: U64)
      requires BinaryCounter(peaks, n)
      ensures Valid() && this.peaks == peaks && leafCount == n
    {
      this.peaks, leafCount := peaks, n;
    }

    /** Rehydrate from a leaf count and a canonical list; a list of the wrong length is refused, all others taken. */
    static method FromState(n: U64, list: seq<Hash>) returns (r: Result<Mmr, UpdateError>)
      ensures r == Err(PeakCountMismatch) <==> |list| != |PeakHeights(n)|
      ensures r.Err? ==> r == Err(PeakCountMismatch)
      ensures r.Ok? ==> fresh(r.value) && r.value.Valid() && r.value.leafCount == n
      ensures r.Ok? ==> Canonical(r.value.peaks, 64) == list && r.value.peaks == Rehydrate(PeakHeights(n), list)
    {
      hide BinaryCounter, Canonical, Rehydrate, PeakHeights;
      var heights := PeakHeightsLoop(n);
      if |list| != |heights| { return Err(PeakCountMismatch); }
      Pow2Values();
      CanonicalRehydrate(n, list, 64);
      var mmr := new Mmr.Holding(Rehydrate(heights, list), n);
      r := Ok(mmr);
    }

    /** The canonical peak list: descending height. */
    method PeakListing() returns (list: seq<Hash>)
      requires Valid()
      ensures list == Canonical(peaks, 64)
      ensures |list| == |PeakHeights(leafCount)| && Rehydrate(PeakHeights(leafCount), list) == peaks
    {
      hide Pow2, Bit, Shr, PeakHeights, Rehydrate;
      list := [];
      var h := 64;
      while h > 0
        invariant h <= 64 && list + Canonical(peaks, h) == Canonical(peaks, 64)
      {
        h := h - 1;
        if h in peaks { list := list + [peaks[h]]; }
      }
      Pow2Values();
      RehydrateCanonical(peaks, leafCount, 64);
    }

    /**
     * Apply an update of `m` chunks given its subtree roots in decomposition order. A list of the wrong
     * length is refused and changes nothing.
     */
    method ApplyUpdate(roots: seq<Hash>, m: U64) returns (r: Result<(), UpdateError>)
      requires Valid() && m >= 1 && leafCount + m < U64_LIMIT
      modifies this
      ensures Valid()
      ensures r.Ok? <==> |roots| == |Decompose(old(leafCount), m)|
      ensures r.Ok? ==> leafCount == old(leafCount) + m
      ensures r.Ok? ==> peaks == CarryAll(old(peaks), Decompose(old(leafCount), m), roots)
      ensures r.Err? ==> leafCount == old(leafCount) && peaks == old(peaks)
    {
      hide Decompose, Pow2, Bit;
      var heights := DecomposeLoop(leafCount, m);
      if |roots| != |heights| { return Err(SubtreeCountMismatch); }
      DecomposeSpan(leafCount, m);
      var k := 0;
      while k < |heights|
        invariant k <= |heights| && Valid()
        invariant leafCount + Span(heights[k..]) == old(leafCount) + m
        invariant CarryAll(peaks, heights[k..], roots[k..]) == CarryAll(old(peaks), heights, roots)
      {
        var h, p := heights[k], roots[k];
        CarryCounts(peaks, leafCount, h, p);
        ghost var carried, count := Carry(peaks, h, p), leafCount;
        while h in peaks
          invariant Carry(peaks, h, p) == carried && leafCount == count
          decreases |peaks|
        {
          assert (peaks - {h}).Keys == peaks.Keys - {h};
          peaks, p, h := peaks - {h}, Node(peaks[h], p), h + 1;
        }
        peaks := peaks[h := p];
        SpanStep(heights, k);
        assert roots[k..][1..] == roots[k + 1..];
        leafCount := leafCount + Pow2(heights[k]);
        k := k + 1;
      }
      r := Ok(());
    }

    /** Append a single chunk. */
    method AppendLeaf(chunk: Chunk)
      requires Valid() && leafCount + 1 < U64_LIMIT
      modifies this
      ensures Valid() && leafCount == old(leafCount) + 1
      ensures peaks == Carry(old(peaks), 0, Leaf(chunk))
    {
      SingleLeafHeights(leafCount);
      var r := ApplyUpdate([Leaf(chunk)], 1);
      assert CarryAll(old(peaks), [0], [Leaf(chunk)]) == Carry(old(peaks), 0, Leaf(chunk));
    }
  }

  /** Root of a perfect subtree over a power-of-two slice, by halving the slice. */
  function ChunkSubtreeRoot(chunks: seq<Chunk>, h: nat): Hash
    requires |chunks| == Pow2(h)
    decreases h
  {
    if h == 0 then Leaf(chunks[0])
    else
      var half := Pow2(h - 1);
      Node(ChunkSubtreeRoot(chunks[..half], h - 1), ChunkSubtreeRoot(chunks[half..], h - 1))
  }

  /** Hashing a slice is hashing the subtree in place. */
  lemma {:induction false} SliceRoot(cs: seq<Chunk>, start: nat, h: nat)
    requires start + Pow2(h) <= |cs|
    ensures ChunkSubtreeRoot(cs[start..start + Pow2(h)], h) == SubtreeRoot(cs, start, h)
    decreases h
  {
    if h > 0 {
      var half, slice := Pow2(h - 1), cs[start..start + Pow2(h)];
      assert slice[..half] == cs[start..start + half];
      assert slice[half..] == cs[start + half..start + half + half];
      SliceRoot(cs, start, h - 1);
      SliceRoot(cs, start + half, h - 1);
    }
  }

  /** The publisher's subtree roots of an update, in decomposition order. */
  method UpdateSubtreeRoots(n0: nat, chunks: seq<Chunk>) returns (roots: seq<Hash>)
    requires 1 <= |chunks| && n0 + |chunks| < U64_LIMIT
    ensures Span(Decompose(n0, |chunks|)) == |chunks|
    ensures roots == RootsOf(chunks, 0, Decompose(n0, |chunks|))
  {
    hide Decompose, Pow2, SubtreeRoot, ChunkSubtreeRoot;
    var heights := DecomposeLoop(n0, |chunks|);
    DecomposeSpan(n0, |chunks|);
    roots := [];
    var off: nat, k: nat := 0, 0;
    while k < |heights|
      invariant k <= |heights| && off + Span(heights[k..]) == |chunks|
      invariant roots + RootsOf(chunks, off, heights[k..]) == RootsOf(chunks, 0, heights)
    {
      SpanStep(heights, k);
      var size := Pow2(heights[k]);
      SliceRoot(chunks, off, heights[k]);
      var root := ChunkSubtreeRoot(chunks[off..off + size], heights[k]);
      ghost var rest := RootsOf(chunks, off + size, heights[k + 1..]);
      assert roots + ([root] + rest) == (roots + [root]) + rest;
      roots, off, k := roots + [root], off + size, k + 1;
    }
    assert heights[k..] == [] && roots + [] == roots;
  }

  /** A subtree of the appended chunks is the same subtree further along the whole data. */
  lemma {:induction false} SubtreeRootShift(data: seq<Chunk>, chunks: seq<Chunk>, start: nat, h: nat)
    requires start + Pow2(h) <= |chunks|
    ensures SubtreeRoot(data + chunks, |data| + start, h) == SubtreeRoot(chunks, start, h)
    decreases h
  {
    if h > 0 {
      SubtreeRootShift(data, chunks, start, h - 1);
      SubtreeRootShift(data, chunks, start + Pow2(h - 1), h - 1);
    }
  }

  lemma {:induction false} RootsOfShift(data: seq<Chunk>, chunks: seq<Chunk>, start: nat, heights: seq<nat>)
    requires start + Span(heights) <= |chunks|
    ensures RootsOf(data + chunks, |data| + start, heights) == RootsOf(chunks, start, heights)
    decreases |heights|
  {
    hide SubtreeRoot, Pow2;
    if heights != [] {
      SubtreeRootShift(data, chunks, start, heights[0]);
      RootsOfShift(data, chunks, start + Pow2(heights[0]), heights[1..]);
    }
  }

  /** Rehydrating the canonical list of the data gives back the peaks of the data, however long it grew since. */
  lemma RehydrateData(data: seq<Chunk>, more: seq<Chunk>)
    requires |data| < U64_LIMIT
    ensures |PeakList(data, 0, |data|)| == |PeakHeights(|data|)|
    ensures Rehydrate(PeakHeights(|data|), PeakList(data, 0, |data|)) == PeakMap(data + more, 0, |data|)
  {
    var n, all := |data|, data + more;
    assert n < Pow2(64) by { Pow2Values(); }
    PeakListStable(data, more, 0, n);
    CanonicalOfPeakMap(all, 0, n, 64);
    AppendFromEmpty(all, 0, n);
    RehydrateCanonical(PeakMap(all, 0, n), n, 64);
  }

  /**
   * A stored state that commits to the data, updated with the subtree roots of the next chunks, commits to
   * the longer data.
   */
  lemma StoredUpdate(data: seq<Chunk>, chunks: seq<Chunk>)
    requires |data| + |chunks| < U64_LIMIT
    ensures |PeakList(data, 0, |data|)| == |PeakHeights(|data|)|
    ensures Span(Decompose(|data|, |chunks|)) == |chunks|
    ensures CarryAll(Rehydrate(PeakHeights(|data|), PeakList(data, 0, |data|)), Decompose(|data|, |chunks|),
                     RootsOf(chunks, 0, Decompose(|data|, |chunks|))) == PeakMap(data + chunks, 0, |data + chunks|)
  {
    hide CarryAll, Rehydrate, Decompose, PeakHeights, PeakList, PeakMap, RootsOf, Span;
    var n, m, all := |data|, |chunks|, data + chunks;
    DecomposeSpan(n, m);
    RootsOfShift(data, chunks, 0, Decompose(n, m));
    RehydrateData(data, chunks);
    BatchedAppend(all, n, m);
  }

  /** The canonical list of the peaks of the data. */
  lemma CanonicalOfData(data: seq<Chunk>)
    requires |data| < U64_LIMIT
    ensures Canonical(PeakMap(data, 0, |data|), 64) == PeakList(data, 0, |data|)
    ensures BinaryCounter(PeakMap(data, 0, |data|), |data|)
  {
    assert |data| < Pow2(64) by { Pow2Values(); }
    CanonicalOfPeakMap(data, 0, |data|, 64);
    AppendFromEmpty(data, 0, |data|);
  }

  /**
   * Under the decomposition, subtree roots determine the chunks: bytes whose recomputed roots match are
   * the bytes that were merged.
   */
  lemma {:induction false} SubtreeRootInjective(a: seq<Chunk>, b: seq<Chunk>, start: nat, h: nat, i: nat)
    requires start + Pow2(h) <= |a| && start + Pow2(h) <= |b|
    requires SubtreeRoot(a, start, h) == SubtreeRoot(b, start, h)
    requires start <= i < start + Pow2(h)
    ensures a[i] == b[i]
    decreases h
  {
    if h > 0 {
      var half := Pow2(h - 1);
      SubtreeRootInjective(a, b, if i < start + half then start else start + half, h - 1, i);
    }
  }

  lemma {:induction false} RootsInjective(a: seq<Chunk>, b: seq<Chunk>, start: nat, heights: seq<nat>, i: nat)
    requires start + Span(heights) <= |a| && start + Span(heights) <= |b|
    requires RootsOf(a, start, heights) == RootsOf(b, start, heights)
    requires start <= i < start + Span(heights)
    ensures a[i] == b[i]
    decreases |heights|
  {
    var size := Pow2(heights[0]);
    assert RootsOf(a, start, heights)[0] == SubtreeRoot(a, start, heights[0]);
    assert RootsOf(b, start, heights)[0] == SubtreeRoot(b, start, heights[0]);
    if i < start + size {
      SubtreeRootInjective(a, b, start, heights[0], i);
    } else {
      assert RootsOf(a, start, heights)[1..] == RootsOf(b, start, heights)[1..];
      RootsInjective(a, b, start + size, heights[1..], i);
    }
  }

  /** Same decomposition and same roots, same chunks. */
  lemma UpdateRootsDetermineChunks(n: nat, a: seq<Chunk>, b: seq<Chunk>)
    requires |a| == |b| && n + |a| < U64_LIMIT
    ensures Span(Decompose(n, |a|)) == |a|
    ensures RootsOf(a, 0, Decompose(n, |a|)) == RootsOf(b, 0, Decompose(n, |a|)) <==> a == b
  {
    DecomposeSpan(n, |a|);
    if RootsOf(a, 0, Decompose(n, |a|)) == RootsOf(b, 0, Decompose(n, |a|)) {
      forall i | 0 <= i < |a| ensures a[i] == b[i] { RootsInjective(a, b, 0, Decompose(n, |a|), i); }
    }
  }

  // ---- The contract's table ----

  /** `(x >> h) & 1` agrees with the peak table for all 64 slots. */
  ghost predicate TableMatches(table: array<Hash>, peaks: Peaks, count: nat)
    reads table
  {
    table.Length == 64 && BinaryCounter(peaks, count)
    && forall h :: 0 <= h < 64 && h in peaks ==> table[h] == peaks[h]
  }

  /** An occupied height of a machine word has a slot. */
  lemma SlotBelow64(count: U64, h: nat)
    requires Bit(count, h)
    ensures h < 64
  {
    BitLower(count, h);
    Pow2Values();
    if h >= 64 { Pow2Mono(64, h); }
  }

  /** One carry chain in the table; returns the peaks the table now stands for. */
  method TableCarry(table: array<Hash>, count: U64, height: nat, root: Hash, ghost peaks: Peaks)
    returns (ghost carried: Peaks)
    requires TableMatches(table, peaks, count) && count + Pow2(height) < U64_LIMIT
    modifies table
    ensures carried == Carry(peaks, height, root)
    ensures TableMatches(table, carried, count + Pow2(height))
  {
    hide Bit, Pow2, Carry;
    CarryCounts(peaks, count, height, root);
    ghost var rest: Peaks := peaks;
    var h: nat, p := height, root;
    carried := Carry(peaks, height, root);
    while Bit(count, h)
      invariant Carry(rest, h, p) == carried && height <= h
      invariant h in rest <==> h in peaks
      invariant forall k :: k in rest ==> k in peaks && rest[k] == peaks[k]
      invariant forall k :: h <= k ==> (k in rest <==> k in peaks)
      decreases |rest|
      modifies {}
    {
      SlotBelow64(count, h);
      assert h in peaks && table[h] == rest[h];
      CarryStep(rest, h, p);
      assert (rest - {h}).Keys == rest.Keys - {h};
      p, h, rest := Node(table[h], p), h + 1, rest - {h};
    }
    CarryStep(rest, h, p);
    assert h !in peaks && carried == rest[h := p];
    assert h in carried <==> Bit(count + Pow2(height), h);
    SlotBelow64(count + Pow2(height), h);
    table[h] := p;
  }

  /** All carry chains of an update, in order. */
  method TableMerge(table: array<Hash>, n: U64, heights: seq<nat>, roots: seq<Hash>, ghost peaks: Peaks)
    requires TableMatches(table, peaks, n)
    requires |heights| == |roots| && n + Span(heights) < U64_LIMIT
    modifies table
    ensures TableMatches(table, CarryAll(peaks, heights, roots), n + Span(heights))
  {
    hide Bit, Pow2, Carry;
    var count: nat, k: nat := n, 0;
    ghost var current: Peaks := peaks;
    while k < |heights|
      invariant k <= |heights| && count + Span(heights[k..]) == n + Span(heights)
      invariant TableMatches(table, current, count)
      invariant CarryAll(current, heights[k..], roots[k..]) == CarryAll(peaks, heights, roots)
    {
      SpanStep(heights, k);
      assert roots[k..][1..] == roots[k + 1..];
      current := TableCarry(table, count, heights[k], roots[k], current);
      count := count + Pow2(heights[k]);
      k := k + 1;
    }
  }

  /** Scatter: slot `h` gets the next list entry whenever bit `h` of the count is set. */
  method Scatter(list: seq<Hash>, n: U64, ghost peaks: Peaks) returns (table: array<Hash>)
    requires BinaryCounter(peaks, n) && Canonical(peaks, 64) == list
    ensures fresh(table) && TableMatches(table, peaks, n)
  {
    hide Bit, Pow2;
    table := new Hash[64](_ => Word(0));
    var h, idx := 64, 0;
    while h > 0
      invariant h <= 64 && idx <= |list| && list[idx..] == Canonical(peaks, h)
      invariant forall k :: h <= k < 64 && k in peaks ==> table[k] == peaks[k]
    {
      h := h - 1;
      assert h in peaks <==> Bit(n, h);
      if Bit(n, h) {
        assert list[idx..][1..] == list[idx + 1..];
        table[h] := list[idx];
        idx := idx + 1;
      }
    }
  }

  /** Gather: the occupied slots, tallest first. */
  method Gather(table: array<Hash>, count: U64, ghost peaks: Peaks) returns (list: seq<Hash>)
    requires TableMatches(table, peaks, count)
    ensures list == Canonical(peaks, 64)
  {
    hide Bit, Pow2, Canonical;
    list := [];
    var h := 64;
    while h > 0
      invariant h <= 64 && list + Canonical(peaks, h) == Canonical(peaks, 64)
    {
      h := h - 1;
      CanonicalStep(peaks, h);
      assert h in peaks <==> Bit(count, h);
      if Bit(count, h) { list := list + [table[h]]; }
    }
    CanonicalNone(peaks);
  }

  /**
   * The contract's merge: scatter the canonical list into a table, run the carries with occupancy read
   * off the running count, gather. It computes exactly what the map of peaks computes.
   */
  method TableApplyUpdate(list: seq<Hash>, n: U64, roots: seq<Hash>, m: U64)
    returns (newList: seq<Hash>, newCount: U64)
    requires 1 <= m && n + m < U64_LIMIT
    requires |list| == |PeakHeights(n)| && |roots| == |Decompose(n, m)|
    ensures newCount == n + m
    ensures newList == Canonical(CarryAll(Rehydrate(PeakHeights(n), list), Decompose(n, m), roots), 64)
    ensures |newList| == |PeakHeights(n + m)|
  {
    hide CarryAll, Rehydrate, Decompose, PeakHeights, Canonical, Span;
    assert n < Pow2(64) && n + m < Pow2(64) by { Pow2Values(); }
    CanonicalRehydrate(n, list, 64);
    ghost var peaks: Peaks := Rehydrate(PeakHeights(n), list);
    var table := Scatter(list, n, peaks);
    var heights := DecomposeLoop(n, m);
    DecomposeSpan(n, m);
    ghost var target := CarryAll(peaks, heights, roots);
    TableMerge(table, n, heights, roots, peaks);
    newCount := n + m;
    newList := Gather(table, newCount, target);
    CarryAllCounts(peaks, n, heights, roots);
    RehydrateCanonical(target, n + m, 64);
  }
}
