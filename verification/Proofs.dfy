/**
 * Building proofs: the memoizing path builder over a chunk source that may fail, the bottom-up tree of
 * the circuit tooling, and the proof set a response is cut from. Caches and parked failures must be
 * invisible: what leaves here is what plain recursion over the true data gives.
 */
module Proofs {
  import opened Data
  import opened Bits
  import opened Decomposition
  import opened Forest
  import opened Inclusion

  /** Subtrees at least this tall are memoized. */
  const MEMO_MIN_HEIGHT: nat := 10

  datatype ReadError = OutOfBounds(index: nat) | Io

  /**
   * A bounded reader over committed chunks. Any read may fail; a failed read is parked, yields a zero
   * chunk, and stays parked.
   */
  class ChunkSource {
    const data: seq<Chunk>
    const reliable: bool
    var parked: Option<ReadError>

    constructor (data: seq<Chunk>, reliable: bool)
      ensures this.data == data && this.reliable == reliable && parked == None
    {
      this.data, this.reliable, parked := data, reliable, None;
    }

    /** A fallible positioned read. */
    method Read(i: nat) returns (r: Result<Chunk, ReadError>)
      ensures i >= |data| ==> r == Err(OutOfBounds(i))
      ensures i < |data| ==> r == Ok(data[i]) || (r == Err(Io) && !reliable)
    {
      if i >= |data| { return Err(OutOfBounds(i)); }
      var faulty: bool := *;
      r := if faulty && !reliable then Err(Io) else Ok(data[i]);
    }

    /** The infallible face the builder sees. */
    method At(i: nat) returns (c: Chunk)
      modifies this
      ensures old(parked).Some? ==> parked == old(parked)
      ensures parked.None? ==> i < |data| && c == data[i]
      ensures reliable && i < |data| ==> parked == old(parked)
    {
      var r := Read(i);
      match r
      case Ok(chunk) => c := chunk;
      case Err(e) =>
        if parked.None? { parked := Some(e); }
        c := seq(CHUNK_BYTES, _ => 0);
    }
  }

  class PathBuilder {
    const source: ChunkSource
    var memo: map<(nat, nat), Hash>

    /** As long as no read has failed, every memoized root is the true one. */
    ghost predicate Valid()
      reads this, source
    {
      source.parked.None? ==>
        forall k :: k in memo ==> k.0 + Pow2(k.1) <= |source.data| && memo[k] == SubtreeRoot(source.data, k.0, k.1)
    }

    constructor (source: ChunkSource)
      ensures this.source == source && Valid()
    {
      this.source, memo := source, map[];
    }

    method Root(start: nat, h: nat) returns (out: Hash)
      requires Valid() && start + Pow2(h) <= |source.data|
      modifies this, source
      ensures Valid()
      ensures old(source.parked).Some? ==> source.parked == old(source.parked)
      ensures source.reliable ==> source.parked == old(source.parked)
      ensures source.parked.None? ==> out == SubtreeRoot(source.data, start, h)
      decreases h
    {
      if h == 0 {
        var c := source.At(start);
        return Leaf(c);
      }
      if h >= MEMO_MIN_HEIGHT && (start, h) in memo { return memo[(start, h)]; }
      var half := Pow2(h - 1);
      var left := Root(start, h - 1);
      var right := Root(start + half, h - 1);
      out := Node(left, right);
      if h >= MEMO_MIN_HEIGHT { memo := memo[(start, h) := out]; }
    }

    /** The canonical peaks at any leaf count the source covers. */
    method PeaksAt(n: U64) returns (peaks: seq<Hash>)
      requires Valid() && n <= |source.data|
      modifies this, source
      ensures Valid()
      ensures old(source.parked).Some? ==> source.parked == old(source.parked)
      ensures source.reliable ==> source.parked == old(source.parked)
      ensures source.parked.None? ==> peaks == PeakList(source.data, 0, n)
    {
      hide Pow2, FloorLog2, SubtreeRoot;
      var heights := PeakHeightsLoop(n);
      peaks := [];
      var start: nat, k: nat, left: nat := 0, 0, n;
      while k < |heights|
        invariant k <= |heights| && start + left == n && heights[k..] == PeakHeights(left) && Valid()
        invariant old(source.parked).Some? ==> source.parked == old(source.parked)
        invariant source.reliable ==> source.parked == old(source.parked)
        invariant source.parked.None? ==> peaks + PeakList(source.data, start, left) == PeakList(source.data, 0, n)
      {
        assert heights[k..][0] == heights[k] && heights[k..][1..] == heights[k + 1..];
        var root := Root(start, heights[k]);
        assert forall rest: seq<Hash> :: peaks + ([root] + rest) == (peaks + [root]) + rest;
        peaks := peaks + [root];
        start, left, k := start + Pow2(heights[k]), left - Pow2(heights[k]), k + 1;
      }
    }

    /** The covering peak's index and the sibling hashes, bottom level first. */
    method Prove(i: U64, n: U64) returns (index: nat, path: seq<Hash>)
      requires Valid() && i < n <= |source.data|
      modifies this, source
      ensures Valid()
      ensures old(source.parked).Some? ==> source.parked == old(source.parked)
      ensures source.reliable ==> source.parked == old(source.parked)
      ensures index == Locate(i, n).index
      ensures source.parked.None? ==> path == ProofPath(source.data, i, n)
    {
      var place := LocateLoop(i, n);
      index := place.index;
      var off := i - place.start;
      path := [];
      for lvl := 0 to place.height
        invariant Valid() && |path| == lvl
        invariant old(source.parked).Some? ==> source.parked == old(source.parked)
        invariant source.reliable ==> source.parked == old(source.parked)
        invariant source.parked.None? ==> path == ProofPath(source.data, i, n)[..lvl]
      {
        SiblingStartIsShifted(off, lvl);
        SiblingAt(source.data, place.start, place.height, off, lvl);
        var root := Root(place.start + Shl(Flip(Shr(off, lvl)), lvl), lvl);
        path := path + [root];
      }
    }
  }

  datatype ProvenChunk = ProvenChunk(chunk: Chunk, path: seq<Hash>)

  datatype ProofSet = ProofSet(n: nat, peaks: seq<Hash>, proven: seq<ProvenChunk>)

  datatype ProofError =
    | BeyondFrontier
    | IndexOutOfRange(index: nat)
    | Store(error: ReadError)
    | PinMismatch
    | SelfCheckFailed(index: nat)

  /** The one correct answer for a pinned leaf count and an index list. */
  ghost function TrueProofSet(data: seq<Chunk>, indices: seq<U64>, n: nat): ProofSet
    requires n <= |data| && forall j :: 0 <= j < |indices| ==> indices[j] < n
  {
    ProofSet(n, PeakList(data, 0, n),
             seq(|indices|, j requires 0 <= j < |indices| =>
               ProvenChunk(data[indices[j]], ProofPath(data, indices[j], n))))
  }

  ghost predicate InRange(indices: seq<U64>, n: nat)
  {
    forall j :: 0 <= j < |indices| ==> indices[j] < n
  }

  /**
   * Peaks and proofs at leaf count `n`, checked before they leave. A set that leaves is the true one and
   * answers the pin; a reliable source always yields it; the self-check never fires.
   */
  method BuildProofSet(source: ChunkSource, indices: seq<U64>, n: U64, pinnedRoot: Hash)
    returns (r: Result<ProofSet, ProofError>)
    requires source.parked.None?
    modifies source
    ensures r.Ok? ==> n <= |source.data| && InRange(indices, n)
    ensures r.Ok? ==> pinnedRoot == Hash.Root(n, PeakList(source.data, 0, n))
    ensures r.Ok? ==> r.value == TrueProofSet(source.data, indices, n)
    ensures source.reliable && n <= |source.data| && InRange(indices, n)
        ==> (r.Ok? <==> pinnedRoot == Hash.Root(n, PeakList(source.data, 0, n)))
    ensures r == Err(BeyondFrontier) <==> n > |source.data|
    ensures r.Err? ==> !r.error.SelfCheckFailed?
  {
    if n > |source.data| { return Err(BeyondFrontier); }
    for j := 0 to |indices|
      invariant forall t :: 0 <= t < j ==> indices[t] < n
    {
      if indices[j] >= n { return Err(IndexOutOfRange(indices[j])); }
    }
    var chunks: seq<Chunk> := [];
    for j := 0 to |indices|
      invariant |chunks| == j && forall t :: 0 <= t < j ==> chunks[t] == source.data[indices[t]]
      invariant source.parked.None?
    {
      var c := source.Read(indices[j]);
      if c.Err? { return Err(Store(c.error)); }
      chunks := chunks + [c.value];
    }
    var builder := new PathBuilder(source);
    var peaks := builder.PeaksAt(n);
    var paths: seq<seq<Hash>> := [];
    for j := 0 to |indices|
      invariant builder.Valid() && |paths| == j
      invariant source.reliable ==> source.parked.None?
      invariant source.parked.None? ==> peaks == PeakList(source.data, 0, n)
      invariant source.parked.None? ==> forall t :: 0 <= t < j ==> paths[t] == ProofPath(source.data, indices[t], n)
    {
      var _, path := builder.Prove(indices[j], n);
      paths := paths + [path];
    }
    if source.parked.Some? { return Err(Store(source.parked.value)); }
    if Hash.Root(n, peaks) != pinnedRoot { return Err(PinMismatch); }
    var accepted, culprit: U64 := true, 0;
    for j := 0 to |indices|
      invariant source.parked.None? && accepted
    {
      var index := indices[j];
      VerifiesExactly(source.data, index, n, chunks[j], paths[j]);
      var ok := Verify(chunks[j], index, paths[j], n, peaks);
      if !ok { accepted, culprit := false, index; }
    }
    var proven := seq(|indices|, j requires 0 <= j < |indices| => ProvenChunk(chunks[j], paths[j]));
    assert proven == TrueProofSet(source.data, indices, n).proven;
    r := if accepted then Ok(ProofSet(n, peaks, proven)) else Err(SelfCheckFailed(culprit));
  }

  // ---- The bottom-up tree ----

  lemma {:induction false} ShlDouble(x: nat, lvl: nat)
    ensures Shl(2 * x, lvl) == Shl(x, lvl + 1) && Shl(x + 1, lvl) == Shl(x, lvl) + Pow2(lvl)
  {
    if lvl > 0 { ShlDouble(x, lvl - 1); }
  }

  /** `node` is the `j`-th node at level `lvl` above the leaves from `start`. */
  ghost predicate TrueNode(cs: seq<Chunk>, start: nat, lvl: nat, j: nat, node: Hash)
  {
    start + Shl(j, lvl) + Pow2(lvl) <= |cs| && node == SubtreeRoot(cs, start + Shl(j, lvl), lvl)
  }

  /** Level `lvl` of the perfect subtree of height `h` at `start`, hashed over the data. */
  ghost predicate TrueLevel(cs: seq<Chunk>, start: nat, h: nat, lvl: nat, nodes: seq<Hash>)
  {
    lvl <= h && start + Pow2(h) <= |cs| && |nodes| == Pow2(h - lvl) &&
    forall j :: 0 <= j < |nodes| ==> TrueNode(cs, start, lvl, j, nodes[j])
  }

  ghost predicate TrueLevels(cs: seq<Chunk>, start: nat, h: nat, levels: seq<seq<Hash>>)
  {
    |levels| == h + 1 && forall lvl :: 0 <= lvl <= h ==> TrueLevel(cs, start, h, lvl, levels[lvl])
  }

  /** A node of the next level is the parent of a pair. */
  lemma ParentNode(cs: seq<Chunk>, start: nat, h: nat, lvl: nat, prev: seq<Hash>, j: nat)
    requires lvl < h && TrueLevel(cs, start, h, lvl, prev) && 2 * j + 1 < |prev|
    ensures TrueNode(cs, start, lvl + 1, j, Node(prev[2 * j], prev[2 * j + 1]))
  {
    assert TrueNode(cs, start, lvl, 2 * j, prev[2 * j]);
    assert TrueNode(cs, start, lvl, 2 * j + 1, prev[2 * j + 1]);
    ShlDouble(j, lvl);
    ShlDouble(2 * j, lvl);
  }

  /** Pair up a level. */
  method NextLevel(ghost cs: seq<Chunk>, ghost start: nat, ghost h: nat, ghost lvl: nat, prev: seq<Hash>)
    returns (next: seq<Hash>)
    requires lvl < h && TrueLevel(cs, start, h, lvl, prev)
    ensures TrueLevel(cs, start, h, lvl + 1, next)
  {
    var size := |prev| / 2;
    assert |prev| == 2 * Pow2(h - (lvl + 1));
    next := seq(size, j requires 0 <= j < size => Node(prev[2 * j], prev[2 * j + 1]));
    forall j | 0 <= j < |next| ensures TrueNode(cs, start, lvl + 1, j, next[j]) {
      ParentNode(cs, start, h, lvl, prev, j);
    }
  }

  /** Leaf hashes of one peak, then level upon level. */
  method PeakLevels(cs: seq<Chunk>, start: nat, h: nat) returns (levels: seq<seq<Hash>>)
    requires start + Pow2(h) <= |cs|
    ensures TrueLevels(cs, start, h, levels)
  {
    var leaves := seq(Pow2(h), j requires 0 <= j < Pow2(h) => Leaf(cs[start + j]));
    forall j | 0 <= j < |leaves| ensures TrueNode(cs, start, 0, j, leaves[j]) {
      assert Shl(j, 0) == j;
    }
    assert TrueLevel(cs, start, h, 0, leaves);
    levels := [leaves];
    for lvl := 0 to h
      invariant |levels| == lvl + 1
      invariant forall l :: 0 <= l <= lvl ==> TrueLevel(cs, start, h, l, levels[l])
    {
      var next := NextLevel(cs, start, h, lvl, levels[lvl]);
      levels := levels + [next];
    }
  }

  lemma FlipBelow(x: nat, half: nat)
    requires x < 2 * half
    ensures Flip(x) < 2 * half
  {
  }

  /** The sibling of an offset inside a subtree is a node of its level. */
  lemma {:induction false} FlipInLevel(off: nat, h: nat, lvl: nat)
    requires off < Pow2(h) && lvl < h
    ensures Flip(Shr(off, lvl)) < Pow2(h - lvl)
    decreases lvl
  {
    assert Pow2(h) == 2 * Pow2(h - 1);
    assert Shr(off, lvl) == if lvl == 0 then off else Shr(off / 2, lvl - 1);
    hide Pow2, FloorLog2, Shr, Flip;
    if lvl == 0 {
      FlipBelow(off, Pow2(h - 1));
    } else {
      FlipInLevel(off / 2, h - 1, lvl - 1);
      assert h - 1 - (lvl - 1) == h - lvl;
    }
  }

  /** The sibling at a level, read off the level's nodes. */
  lemma LevelSibling(cs: seq<Chunk>, start: nat, h: nat, lvl: nat, nodes: seq<Hash>, off: nat)
    requires TrueLevel(cs, start, h, lvl, nodes) && lvl < h && off < Pow2(h)
    ensures Flip(Shr(off, lvl)) < |nodes|
    ensures nodes[Flip(Shr(off, lvl))] == SiblingPath(cs, start, h, off)[lvl]
  {
    FlipInLevel(off, h, lvl);
    assert TrueNode(cs, start, lvl, Flip(Shr(off, lvl)), nodes[Flip(Shr(off, lvl))]);
    SiblingStartIsShifted(off, lvl);
    SiblingAt(cs, start, h, off, lvl);
  }

  lemma {:induction false} ShlZero(lvl: nat)
    ensures Shl(0, lvl) == 0
  {
    if lvl > 0 { ShlZero(lvl - 1); }
  }

  /** First leaf of the `k`-th peak. */
  function PeakStart(n: nat, k: nat): nat
    requires k <= |PeakHeights(n)|
  {
    if k == 0 then 0 else Pow2(FloorLog2(n)) + PeakStart(n - Pow2(FloorLog2(n)), k - 1)
  }

  lemma {:induction false} PeakStartStep(n: nat, k: nat)
    requires k < |PeakHeights(n)|
    ensures PeakStart(n, k + 1) == PeakStart(n, k) + Pow2(PeakHeights(n)[k]) <= n
  {
    var rest := n - Pow2(FloorLog2(n));
    assert PeakStart(n, k + 1) == Pow2(FloorLog2(n)) + PeakStart(rest, k);
    assert PeakHeights(n) == [FloorLog2(n)] + PeakHeights(rest);
    hide Pow2, FloorLog2, PeakHeights;
    if k > 0 { PeakStartStep(rest, k - 1); }
  }

  lemma {:induction false} PeakListAt(cs: seq<Chunk>, base: nat, n: nat, k: nat)
    requires base + n <= |cs| && k < |PeakHeights(n)|
    ensures |PeakList(cs, base, n)| == |PeakHeights(n)|
    ensures base + PeakStart(n, k) + Pow2(PeakHeights(n)[k]) <= |cs|
    ensures PeakList(cs, base, n)[k] == SubtreeRoot(cs, base + PeakStart(n, k), PeakHeights(n)[k])
    decreases n
  {
    hide Pow2, FloorLog2, SubtreeRoot;
    var size := Pow2(FloorLog2(n));
    PeakListLength(cs, base, n);
    if k > 0 { PeakListAt(cs, base + size, n - size, k - 1); }
  }

  lemma {:induction false} LocateIsPeak(i: nat, n: nat)
    requires i < n
    ensures Locate(i, n).height == PeakHeights(n)[Locate(i, n).index]
    ensures Locate(i, n).start == PeakStart(n, Locate(i, n).index)
    decreases n
  {
    hide Pow2, FloorLog2;
    var size := Pow2(FloorLog2(n));
    if i >= size { LocateIsPeak(i - size, n - size); }
  }

  class MemoTree {
    const n: U64
    const peaks: seq<seq<seq<Hash>>>
    ghost const data: seq<Chunk>

    ghost predicate Valid()
    {
      n <= |data| && |peaks| == |PeakHeights(n)| &&
      forall k :: 0 <= k < |peaks| ==> TrueLevels(data, PeakStart(n, k), PeakHeights(n)[k], peaks[k])
    }

    constructor Build(cs: seq<Chunk>, n: U64)
      requires n <= |cs|
      ensures Valid() && this.n == n && data == cs
    {
      var heights := PeakHeightsLoop(n);
      var built: seq<seq<seq<Hash>>> := [];
      var start: nat := 0;
      for k := 0 to |heights|
        invariant |built| == k && start == PeakStart(n, k)
        invariant forall t :: 0 <= t < k ==> TrueLevels(cs, PeakStart(n, t), heights[t], built[t])
      {
        PeakStartStep(n, k);
        var levels := PeakLevels(cs, start, heights[k]);
        built := built + [levels];
        start := start + Pow2(heights[k]);
      }
      this.n, peaks, data := n, built, cs;
    }

    /** The same peaks as top-down hashing. */
    method Peaks() returns (list: seq<Hash>)
      requires Valid()
      ensures list == PeakList(data, 0, n)
    {
      hide Pow2, FloorLog2, SubtreeRoot, PeakList, PeakStart, PeakHeights;
      list := [];
      PeakListLength(data, 0, n);
      for k := 0 to |peaks|
        invariant |list| == k && list == PeakList(data, 0, n)[..k]
      {
        var h := |peaks[k]| - 1;
        PeakListAt(data, 0, n, k);
        assert TrueLevel(data, PeakStart(n, k), h, h, peaks[k][h]);
        ShlZero(h);
        assert TrueNode(data, PeakStart(n, k), h, 0, peaks[k][h][0]);
        list := list + [peaks[k][h][0]];
      }
    }

    /** The same path as top-down hashing. */
    method Path(i: U64) returns (path: seq<Hash>)
      requires Valid() && i < n
      ensures path == ProofPath(data, i, n)
    {
      var place := LocateLoop(i, n);
      LocateIsPeak(i, n);
      var levels := peaks[place.index];
      var off := i - place.start;
      path := [];
      for lvl := 0 to place.height
        invariant |path| == lvl && off == Shr(i - place.start, lvl)
        invariant path == ProofPath(data, i, n)[..lvl]
      {
        assert TrueLevel(data, place.start, place.height, lvl, levels[lvl]);
        LevelSibling(data, place.start, place.height, lvl, levels[lvl], i - place.start);
        path := path + [levels[lvl][Flip(off)]];
        ShrStep(i - place.start, lvl);
        off := off / 2;
      }
    }
  }
}
