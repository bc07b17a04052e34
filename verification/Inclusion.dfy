/**
 * Inclusion proofs: locating the covering peak, building the sibling path, climbing it, and the facts
 * that make them trustworthy. Proofs over the true data always verify, a proof that verifies is the true
 * one, and later appends only lengthen it.
 */
module Inclusion {
  import opened Data
  import opened Bits
  import opened Decomposition
  import opened Forest

  /** Position of leaf `i` at leaf count `n`: the covering peak's place in the list, its first leaf, its height. */
  datatype Place = Place(index: nat, start: nat, height: nat)

  function Locate(i: nat, n: nat): (place: Place)
    requires i < n
    ensures place.start <= i < place.start + Pow2(place.height) <= n
    ensures place.index < |PeakHeights(n)|
    decreases n
  {
    var h := FloorLog2(n);
    if i < Pow2(h) then Place(0, 0, h)
    else
      var rest := Locate(i - Pow2(h), n - Pow2(h));
      Place(rest.index + 1, Pow2(h) + rest.start, rest.height)
  }

  /** The sibling of an offset at a level: `x ^ 1`. */
  function Flip(x: nat): (y: nat)
    ensures y / 2 == x / 2 && y != x && (x % 2 == 1 ==> y == x - 1)
  {
    if x % 2 == 0 then x + 1 else x - 1
  }

  /** First leaf of the sibling subtree at a level: `((x >> lvl) ^ 1) << lvl`. */
  function SiblingStart(x: nat, lvl: nat): nat
  {
    if lvl == 0 then Flip(x) else 2 * SiblingStart(x / 2, lvl - 1)
  }

  /** Sibling hashes of leaf `start + off` inside the subtree of height `h` at `start`, bottom first. */
  function SiblingPath(cs: seq<Chunk>, start: nat, h: nat, off: nat): (path: seq<Hash>)
    requires start + Pow2(h) <= |cs| && off < Pow2(h)
    ensures |path| == h
    decreases h
  {
    if h == 0 then []
    else
      var half := Pow2(h - 1);
      if off < half
      then SiblingPath(cs, start, h - 1, off) + [SubtreeRoot(cs, start + half, h - 1)]
      else SiblingPath(cs, start + half, h - 1, off - half) + [SubtreeRoot(cs, start, h - 1)]
  }

  /** The inclusion proof of leaf `i` at leaf count `n`. */
  function ProofPath(cs: seq<Chunk>, i: nat, n: nat): (path: seq<Hash>)
    requires i < n <= |cs|
    ensures |path| == Locate(i, n).height
  {
    var place := Locate(i, n);
    SiblingPath(cs, place.start, place.height, i - place.start)
  }

  /** Hash upwards along a path; bit `lvl` of the offset says which side the sibling is on. */
  function Climb(acc: Hash, off: nat, path: seq<Hash>): Hash
    decreases |path|
  {
    if path == [] then acc
    else Climb(if off % 2 == 0 then Node(acc, path[0]) else Node(path[0], acc), off / 2, path[1..])
  }

  /** The check the contract runs. */
  predicate Verifies(chunk: Chunk, i: nat, path: seq<Hash>, n: nat, peaks: seq<Hash>)
  {
    i < n && |peaks| == |PeakHeights(n)| &&
    var place := Locate(i, n);
    |path| == place.height && Climb(Leaf(chunk), i - place.start, path) == peaks[place.index]
  }

  // ---- Climbing ----

  /** The last step of a climb. */
  lemma {:induction false} ClimbLast(acc: Hash, off: nat, path: seq<Hash>, sib: Hash)
    ensures Climb(acc, off, path + [sib])
         == if Bit(off, |path|) then Node(sib, Climb(acc, off, path)) else Node(Climb(acc, off, path), sib)
    decreases |path|
  {
    if path == [] {
      assert [sib][1..] == [];
    } else {
      var up := if off % 2 == 0 then Node(acc, path[0]) else Node(path[0], acc);
      assert (path + [sib])[1..] == path[1..] + [sib];
      ClimbLast(up, off / 2, path[1..], sib);
    }
  }

  /** A climb of `h` steps reads only the low `h` bits of the offset. */
  lemma {:induction false} ClimbLowBits(acc: Hash, off: nat, path: seq<Hash>, h: nat)
    requires |path| <= h
    ensures Climb(acc, off + Pow2(h), path) == Climb(acc, off, path)
    decreases |path|
  {
    if path != [] {
      assert (off + Pow2(h)) / 2 == off / 2 + Pow2(h - 1);
      assert (off + Pow2(h)) % 2 == off % 2;
      ClimbLowBits(if off % 2 == 0 then Node(acc, path[0]) else Node(path[0], acc), off / 2, path[1..], h - 1);
    }
  }

  /** Bit `h - 1` of an offset below `2^h` says which half it is in. */
  lemma HalfBit(off: nat, h: nat)
    requires h > 0 && off < Pow2(h)
    ensures Bit(off, h - 1) <==> off >= Pow2(h - 1)
  {
    if off < Pow2(h - 1) { NoHighBit(off, h - 1, h - 1); }
    else { NoHighBit(off - Pow2(h - 1), h - 1, h - 1); SetBit(off - Pow2(h - 1), h - 1, h - 1); }
  }

  /** A subtree and a path in it, one level taken apart. */
  lemma PathUnfolds(cs: seq<Chunk>, start: nat, h: nat, off: nat)
    requires h > 0 && start + Pow2(h) <= |cs| && off < Pow2(h)
    ensures Pow2(h) == 2 * Pow2(h - 1)
    ensures SubtreeRoot(cs, start, h)
         == Node(SubtreeRoot(cs, start, h - 1), SubtreeRoot(cs, start + Pow2(h - 1), h - 1))
    ensures SiblingPath(cs, start, h, off) == var half := Pow2(h - 1);
      if off < half then SiblingPath(cs, start, h - 1, off) + [SubtreeRoot(cs, start + half, h - 1)]
      else SiblingPath(cs, start + half, h - 1, off - half) + [SubtreeRoot(cs, start, h - 1)]
  {
  }

  lemma LeafUnfolds(cs: seq<Chunk>, start: nat, off: nat, chunk: Chunk)
    requires start + Pow2(0) <= |cs| && off < Pow2(0)
    ensures off == 0 && SubtreeRoot(cs, start, 0) == Leaf(cs[start])
    ensures Climb(Leaf(chunk), off, []) == Leaf(chunk) && SiblingPath(cs, start, 0, off) == []
  {
  }

  lemma AppendInjective(a: seq<Hash>, x: Hash, b: seq<Hash>, y: Hash)
    ensures a + [x] == b + [y] <==> a == b && x == y
  {
    if a + [x] == b + [y] {
      assert a == (a + [x])[..|a|] && b == (b + [y])[..|b|];
      assert (a + [x])[|a|] == x && (b + [y])[|b|] == y;
    }
  }

  /** A child and a sibling are right exactly when the path up to here and the sibling are. */
  lemma OneLevel(x: Hash, child: Hash, sib: Hash, other: Hash, low: seq<Hash>, path: seq<Hash>, chunkIsTrue: bool)
    requires x == child <==> chunkIsTrue && low == path
    ensures x == child && sib == other <==> chunkIsTrue && low + [sib] == path + [other]
  {
    AppendInjective(low, sib, path, other);
  }

  /** Inside one subtree, exactly one chunk and one path climb to the root: the true ones. */
  lemma {:induction false} ClimbExact(cs: seq<Chunk>, start: nat, h: nat, off: nat, chunk: Chunk, path: seq<Hash>)
    requires start + Pow2(h) <= |cs| && off < Pow2(h) && |path| == h
    ensures Climb(Leaf(chunk), off, path) == SubtreeRoot(cs, start, h)
       <==> chunk == cs[start + off] && path == SiblingPath(cs, start, h, off)
    decreases h
  {
    hide Climb, SubtreeRoot, SiblingPath, Bit, Pow2, FloorLog2;
    if h == 0 {
      assert path == [];
      LeafUnfolds(cs, start, off, chunk);
    } else {
      PathUnfolds(cs, start, h, off);
      var half, low, sib := Pow2(h - 1), path[..h - 1], path[h - 1];
      assert path == low + [sib];
      ClimbLast(Leaf(chunk), off, low, sib);
      HalfBit(off, h);
      if off < half {
        ClimbExact(cs, start, h - 1, off, chunk, low);
        OneLevel(Climb(Leaf(chunk), off, low), SubtreeRoot(cs, start, h - 1), sib, SubtreeRoot(cs, start + half, h - 1),
                 low, SiblingPath(cs, start, h - 1, off), chunk == cs[start + off]);
      } else {
        ClimbLowBits(Leaf(chunk), off - half, low, h - 1);
        ClimbExact(cs, start + half, h - 1, off - half, chunk, low);
        OneLevel(Climb(Leaf(chunk), off, low), SubtreeRoot(cs, start + half, h - 1), sib, SubtreeRoot(cs, start, h - 1),
                 low, SiblingPath(cs, start + half, h - 1, off - half), chunk == cs[start + off]);
      }
    }
  }

  // ---- Peaks ----

  lemma {:induction false} PeakListLength(cs: seq<Chunk>, base: nat, n: nat)
    requires base + n <= |cs|
    ensures |PeakList(cs, base, n)| == |PeakHeights(n)|
    decreases n
  {
    if n > 0 { PeakListLength(cs, base + Pow2(FloorLog2(n)), n - Pow2(FloorLog2(n))); }
  }

  /** The located peak is the subtree that covers the leaf. */
  lemma {:induction false} LocatedPeak(cs: seq<Chunk>, base: nat, i: nat, n: nat)
    requires i < n && base + n <= |cs|
    ensures |PeakList(cs, base, n)| == |PeakHeights(n)|
    ensures PeakList(cs, base, n)[Locate(i, n).index]
         == SubtreeRoot(cs, base + Locate(i, n).start, Locate(i, n).height)
    decreases n
  {
    hide Pow2, FloorLog2, SubtreeRoot;
    var h := FloorLog2(n);
    if i >= Pow2(h) { LocatedPeak(cs, base + Pow2(h), i - Pow2(h), n - Pow2(h)); }
    else { PeakListLength(cs, base, n); }
  }

  /**
   * Against the true peaks, a proof verifies exactly when it reveals the true chunk with the true path:
   * every honest proof passes and no other proof does.
   */
  lemma VerifiesExactly(cs: seq<Chunk>, i: nat, n: nat, chunk: Chunk, path: seq<Hash>)
    requires i < n <= |cs|
    ensures Verifies(chunk, i, path, n, PeakList(cs, 0, n)) <==> chunk == cs[i] && path == ProofPath(cs, i, n)
  {
    hide Pow2, FloorLog2, SubtreeRoot, SiblingPath, Climb, PeakHeights;
    var place := Locate(i, n);
    LocatedPeak(cs, 0, i, n);
    if |path| == place.height {
      ClimbExact(cs, place.start, place.height, i - place.start, chunk, path);
    }
  }

  /**
   * Against a one-word pin: any leaf count, peak list, chunk and path that re-bag to the pinned root and
   * verify are the true leaf count, the true peaks, the true chunk and the true path.
   */
  lemma PinnedProofIsTrue(cs: seq<Chunk>, pinned: nat, n: nat, peaks: seq<Hash>, i: nat, chunk: Chunk, path: seq<Hash>)
    requires pinned <= |cs|
    requires Root(n, peaks) == Root(pinned, PeakList(cs, 0, pinned))
    requires Verifies(chunk, i, path, n, peaks)
    ensures n == pinned && peaks == PeakList(cs, 0, n)
    ensures i < |cs| && chunk == cs[i] && path == ProofPath(cs, i, n)
  {
    VerifiesExactly(cs, i, n, chunk, path);
  }

  // ---- The source's bottom-up path ----

  lemma {:induction false} SiblingStartIsShifted(x: nat, lvl: nat)
    ensures SiblingStart(x, lvl) == Shl(Flip(Shr(x, lvl)), lvl)
  {
    if lvl > 0 { SiblingStartIsShifted(x / 2, lvl - 1); }
  }

  /** The topmost sibling is the other half. */
  lemma {:induction false} SiblingTop(off: nat, lvl: nat)
    requires off < Pow2(lvl + 1)
    ensures SiblingStart(off, lvl) == if off < Pow2(lvl) then Pow2(lvl) else 0
  {
    if lvl > 0 { SiblingTop(off / 2, lvl - 1); }
  }

  /** Below the height of an aligned block, siblings move with the block. */
  lemma {:induction false} SiblingMoves(start: nat, h: nat, off: nat, lvl: nat)
    requires Aligned(start, h) && lvl < h
    ensures SiblingStart(start + off, lvl) == start + SiblingStart(off, lvl)
    decreases lvl
  {
    if lvl > 0 {
      assert (start + off) / 2 == start / 2 + off / 2;
      SiblingMoves(start / 2, h - 1, off / 2, lvl - 1);
    }
  }

  /** The path read bottom-up, as the source builds it level by level. */
  lemma {:induction false} SiblingAt(cs: seq<Chunk>, start: nat, h: nat, off: nat, lvl: nat)
    requires start + Pow2(h) <= |cs| && off < Pow2(h) && lvl < h
    ensures SiblingStart(off, lvl) + Pow2(lvl) <= Pow2(h)
    ensures SiblingPath(cs, start, h, off)[lvl] == SubtreeRoot(cs, start + SiblingStart(off, lvl), lvl)
    decreases h
  {
    hide SubtreeRoot, Aligned, SiblingStart, SiblingPath, Pow2, FloorLog2;
    PathUnfolds(cs, start, h, off);
    var half := Pow2(h - 1);
    if lvl == h - 1 {
      assert lvl + 1 == h;
      SiblingTop(off, lvl);
    } else if off < half {
      SiblingAt(cs, start, h - 1, off, lvl);
    } else {
      SiblingAt(cs, start + half, h - 1, off - half, lvl);
      AlignedPow2(h - 1, h - 1);
      SiblingMoves(half, h - 1, off - half, lvl);
    }
  }

  // ---- Appends only extend proofs ----

  /** A later append leaves every subtree root of the old data unchanged. */
  lemma {:induction false} SubtreeRootStable(cs: seq<Chunk>, more: seq<Chunk>, start: nat, h: nat)
    requires start + Pow2(h) <= |cs|
    ensures SubtreeRoot(cs + more, start, h) == SubtreeRoot(cs, start, h)
    decreases h
  {
    if h > 0 {
      SubtreeRootStable(cs, more, start, h - 1);
      SubtreeRootStable(cs, more, start + Pow2(h - 1), h - 1);
    }
  }

  lemma {:induction false} HeightBound(i: nat, n: nat)
    requires i < n
    ensures Locate(i, n).height <= FloorLog2(n)
    decreases n
  {
    hide Pow2, FloorLog2;
    var h := FloorLog2(n);
    if i >= Pow2(h) {
      HeightBound(i - Pow2(h), n - Pow2(h));
      LogMono(n - Pow2(h), n);
    }
  }

  /** The covering subtree of a leaf never shrinks as the range grows. */
  lemma {:induction false} HeightGrows(i: nat, n: nat, n': nat)
    requires i < n <= n'
    ensures Locate(i, n).height <= Locate(i, n').height
    decreases n
  {
    hide Pow2, FloorLog2;
    LogMono(n, n');
    HeightBound(i, n);
    var h, h' := FloorLog2(n), FloorLog2(n');
    if i >= Pow2(h') {
      LogUnique(n, h');
      HeightGrows(i - Pow2(h), n - Pow2(h), n' - Pow2(h));
    }
  }

  /** The covering subtree starts at the leaf index with its low bits cleared. */
  lemma {:induction false} StartIsAligned(i: nat, n: nat)
    requires i < n
    ensures Aligned(Locate(i, n).start, Locate(i, n).height)
    decreases n
  {
    hide Pow2, FloorLog2, Aligned;
    var h := FloorLog2(n);
    if i < Pow2(h) {
      AlignedZero(h);
    } else {
      var rest := Locate(i - Pow2(h), n - Pow2(h));
      StartIsAligned(i - Pow2(h), n - Pow2(h));
      HeightBound(i - Pow2(h), n - Pow2(h));
      LogMono(n - Pow2(h), n);
      AlignedPow2(h, rest.height);
      AlignedAdd(Pow2(h), rest.start, rest.height);
    }
  }

  /** Each element of a path inside an aligned block, named by the leaf and the level only. */
  lemma PathInBlock(cs: seq<Chunk>, start: nat, h: nat, i: nat, lvl: nat)
    requires Aligned(start, h) && start <= i < start + Pow2(h) <= |cs| && lvl < h
    ensures SiblingStart(i, lvl) + Pow2(lvl) <= start + Pow2(h)
    ensures SiblingPath(cs, start, h, i - start)[lvl] == SubtreeRoot(cs, SiblingStart(i, lvl), lvl)
  {
    hide Pow2, Aligned, SiblingPath, SubtreeRoot, SiblingStart;
    SiblingAt(cs, start, h, i - start, lvl);
    SiblingMoves(start, h, i - start, lvl);
  }

  /** Each element of a proof, whatever the covering peak. */
  lemma PathAt(cs: seq<Chunk>, i: nat, n: nat, lvl: nat)
    requires i < n <= |cs| && lvl < Locate(i, n).height
    ensures SiblingStart(i, lvl) + Pow2(lvl) <= n
    ensures ProofPath(cs, i, n)[lvl] == SubtreeRoot(cs, SiblingStart(i, lvl), lvl)
  {
    hide Pow2, FloorLog2, Aligned, SiblingPath, SubtreeRoot, SiblingStart, Locate;
    StartIsAligned(i, n);
    PathInBlock(cs, Locate(i, n).start, Locate(i, n).height, i, lvl);
  }

  /** Growing the data only lengthens a proof: the old path is a prefix of the new one. */
  lemma ProofsOnlyExtend(cs: seq<Chunk>, more: seq<Chunk>, i: nat, n: nat, n': nat)
    requires i < n <= |cs| && n <= n' <= |cs + more|
    ensures ProofPath(cs, i, n) <= ProofPath(cs + more, i, n')
  {
    HeightGrows(i, n, n');
    var short, long := ProofPath(cs, i, n), ProofPath(cs + more, i, n');
    forall lvl | 0 <= lvl < |short| ensures short[lvl] == long[lvl] {
      PathAt(cs, i, n, lvl);
      PathAt(cs + more, i, n', lvl);
      SubtreeRootStable(cs, more, SiblingStart(i, lvl), lvl);
    }
  }

  /** The peaks of a prefix do not change as the data grows: a historical pin stays reproducible. */
  lemma {:induction false} PeakListStable(cs: seq<Chunk>, more: seq<Chunk>, start: nat, n: nat)
    requires start + n <= |cs|
    ensures PeakList(cs + more, start, n) == PeakList(cs, start, n)
    decreases n
  {
    if n > 0 {
      SubtreeRootStable(cs, more, start, FloorLog2(n));
      PeakListStable(cs, more, start + Pow2(FloorLog2(n)), n - Pow2(FloorLog2(n)));
    }
  }

  // ---- The loops of the source ----

  function Shifted(place: Place, k: nat, start: nat): Place {
    Place(k + place.index, start + place.start, place.height)
  }

  /** Walking past a peak. */
  lemma LocateStep(i: nat, n: nat, size: nat) returns (i': nat, n': nat, rest: Place)
    requires i < n && size == Pow2(PeakHeights(n)[0]) <= i
    ensures i' == i - size && n' == n - size && i' < n'
    ensures PeakHeights(n)[1..] == PeakHeights(n') != []
    ensures rest == Locate(i', n') && Locate(i, n) == Shifted(rest, 1, size)
  {
    i', n' := i - size, n - size;
    rest := Locate(i', n');
  }

  method LocateLoop(i: U64, n: U64) returns (place: Place)
    requires i < n
    ensures place == Locate(i, n)
  {
    var heights := PeakHeightsLoop(n);
    var start: nat, k: nat := 0, 0;
    ghost var left: nat, total: nat, rest := i, n, Locate(i, n);
    while i >= start + Pow2(heights[k])
      invariant left + start == i && total + start == n && left < total
      invariant k < |heights| && heights[k..] == PeakHeights(total)
      invariant rest == Locate(left, total) && Locate(i, n) == Shifted(rest, k, start)
      decreases |heights| - k
    {
      var size := Pow2(heights[k]);
      assert heights[k..][0] == heights[k] && heights[k..][1..] == heights[k + 1..];
      left, total, rest := LocateStep(left, total, size);
      start, k := start + size, k + 1;
    }
    place := Place(k, start, heights[k]);
  }

  method Verify(chunk: Chunk, i: U64, path: seq<Hash>, n: U64, peaks: seq<Hash>) returns (ok: bool)
    ensures ok <==> Verifies(chunk, i, path, n, peaks)
  {
    if i >= n { return false; }
    var place := LocateLoop(i, n);
    var heights := PeakHeightsLoop(n);
    if |path| != place.height || |peaks| != |heights| { return false; }
    var off := i - place.start;
    var acc := Leaf(chunk);
    for lvl := 0 to |path|
      invariant Climb(acc, Shr(off, lvl), path[lvl..]) == Climb(Leaf(chunk), off, path)
    {
      ShrStep(off, lvl);
      assert path[lvl..][1..] == path[lvl + 1..];
      acc := if !Bit(off, lvl) then Node(acc, path[lvl]) else Node(path[lvl], acc);
    }
    ok := acc == peaks[place.index];
  }
}
