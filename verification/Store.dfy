/**
 * The crash-safe store: a chunk file with chunk `i` at byte `31 * i`, and a frontier that says how much of
 * it is committed. The promise is about every interleaving of commits, failures at any step, restarts and
 * power cuts: what was acknowledged is never lost, what is read is what the chain declared.
 */
module Store {
  import opened Data
  import opened Bits
  import opened Decomposition
  import opened Forest
  import opened Disk
  import M = Mmr

  datatype StoreError =
    | Io
    | CorruptFrontier
    | MissingCommittedData(found: nat, committed: nat)
    | OrphanedChunkData(bytes: nat)
    | OutOfBounds(index: nat, leafCount: nat)
    | InconsistentFrontier

  /** What the chain may declare: nonempty updates, fewer than `2^64` chunks in all. */
  ghost predicate Feed(decls: seq<seq<Chunk>>) {
    |Concat(decls)| < U64_LIMIT && forall k :: 0 <= k < |decls| ==> decls[k] != []
  }

  // ---- Where declared data lies in the file ----

  lemma DataLength(decls: seq<seq<Chunk>>, k: nat)
    requires k <= |decls|
    ensures |DataAt(decls, k)| <= |Concat(decls)| && DataAt(decls, k) <= Concat(decls)
  {
    DataGrows(decls, k, |decls|);
    assert decls[..|decls|] == decls;
  }

  /** Declaration `k` occupies the bytes right after everything before it. */
  lemma DeclarationBytes(decls: seq<seq<Chunk>>, k: nat)
    requires k < |decls|
    ensures var off, data, whole := CHUNK_BYTES * |DataAt(decls, k)|, Flat(decls[k]), Flat(Concat(decls));
      off + |data| <= |whole| && data == whole[off..off + |data|] &&
      off + |data| == CHUNK_BYTES * |DataAt(decls, k + 1)|
  {
    hide Concat, Flat;
    var before, all := DataAt(decls, k), Concat(decls);
    DataGrows(decls, k, k + 1);
    DataLength(decls, k + 1);
    var rest := all[|before| + |decls[k]|..];
    assert all == before + (decls[k] + rest);
    FlatSplit(before, decls[k] + rest);
    FlatSplit(decls[k], rest);
  }

  /** Chunk `i` read back from a file of declared data. */
  lemma ChunkBytes(decls: seq<seq<Chunk>>, bytes: seq<Byte>, i: nat)
    requires bytes <= Flat(Concat(decls)) && CHUNK_BYTES * i + CHUNK_BYTES <= |bytes|
    ensures i < |Concat(decls)|
    ensures bytes[CHUNK_BYTES * i..CHUNK_BYTES * i + CHUNK_BYTES] == Concat(decls)[i]
  {
    hide Concat, Flat;
    FlatAt(Concat(decls), i);
  }

  // ---- Recovery ----

  /** What opening decides from the files alone, damaged or not. */
  function OpenOutcome(d: Disk): Result<Frontier, StoreError> {
    match d.visible
    case Torn => Err(CorruptFrontier)
    case Absent => if |d.bytes| > 0 then Err(OrphanedChunkData(|d.bytes|)) else Ok(Frontier(0, 0, []))
    case Whole(f) =>
      if |f.peaks| != |PeakHeights(f.leafCount)| then Err(InconsistentFrontier)
      else if |d.bytes| / CHUNK_BYTES < f.leafCount then Err(MissingCommittedData(|d.bytes| / CHUNK_BYTES, f.leafCount))
      else Ok(f)
  }

  /** `read_exact_at`: the chunk's 31 bytes, or an error past the end of the file. */
  function FileRead(d: Disk, index: nat): Result<Chunk, StoreError> {
    var off := CHUNK_BYTES * index;
    if off + CHUNK_BYTES > |d.bytes| then Err(Io) else Ok(d.bytes[off..off + CHUNK_BYTES])
  }

  /**
   * What opening decides on every disk, damaged or not, told from what can be read back: it succeeds exactly
   * when the frontier file names a peak for every tree of its leaf count and every committed chunk is there
   * (or there is no file of either kind), and the shortage it reports is the first chunk that is missing.
   */
  lemma OpensExactly(d: Disk, f: Frontier)
    ensures OpenOutcome(d) == Ok(f) <==>
      (d.visible == Absent && d.bytes == [] && f == Frontier(0, 0, [])) ||
      (d.visible == Whole(f) && |f.peaks| == |PeakHeights(f.leafCount)| &&
       forall i: nat :: i < f.leafCount ==> FileRead(d, i).Ok?)
    ensures forall found: nat :: d.visible == Whole(f) ==>
      (OpenOutcome(d) == Err(MissingCommittedData(found, f.leafCount)) <==>
       |f.peaks| == |PeakHeights(f.leafCount)| && found < f.leafCount && FileRead(d, found).Err? &&
       forall i: nat :: i < found ==> FileRead(d, i).Ok?)
    ensures OpenOutcome(d) == Err(CorruptFrontier) <==> d.visible.Torn?
    ensures d.visible == Whole(f) ==>
      (OpenOutcome(d) == Err(InconsistentFrontier) <==> |f.peaks| != |PeakHeights(f.leafCount)|)
  {
    hide PeakHeights;
    var whole := |d.bytes| / CHUNK_BYTES;
    forall i: nat
      ensures FileRead(d, i).Ok? <==> i < whole
    {
    }
    assert FileRead(d, whole).Err?;
  }

  /**
   * Opening a recoverable disk finds a faithful frontier at or past everything acknowledged. The one
   * refusal is a chunk file with bytes and no frontier, which a store that has published one never shows.
   */
  lemma OpenRecovers(decls: seq<seq<Chunk>>, d: Disk, acked: nat)
    requires Feed(decls) && Recoverable(decls, d, acked)
    ensures OpenOutcome(d).Err? <==> d.visible == Absent && d.bytes != []
    ensures OpenOutcome(d).Err? ==> OpenOutcome(d).error == OrphanedChunkData(|d.bytes|) && acked == 0 && !Published(d)
    ensures OpenOutcome(d).Ok? ==>
      var f := OpenOutcome(d).value;
      Faithful(decls, f) && acked <= f.nonce == NonceOf(d.visible) && CHUNK_BYTES * f.leafCount <= d.stable
  {
    assert PeakList([], 0, 0) == [];
    hide Flat, PeakHeights, PeakList;
    match d.visible
    case Absent =>
      assert DataAt(decls, 0) == [];
      assert FrontierAt(decls, 0) == Frontier(0, 0, []);
    case Torn =>
    case Whole(f) =>
      DataLength(decls, f.nonce);
      M.RehydrateData(DataAt(decls, f.nonce), []);
  }

  /** A store at frontier `f`, in step with the chain and with a disk that holds nothing but declared data. */
  ghost predicate InStep(decls: seq<seq<Chunk>>, d: Disk, f: Frontier, acked: nat) {
    Feed(decls) && Recoverable(decls, d, acked) && d.bytes <= Flat(Concat(decls)) &&
    Faithful(decls, f) && CHUNK_BYTES * f.leafCount <= d.stable &&
    acked <= f.nonce <= NonceOf(d.visible) <= f.nonce + 1
  }

  /** `d'` is how a commit from frontier `f` on disk `d` ended. */
  ghost predicate EndsAs(decls: seq<seq<Chunk>>, d: Disk, f: Frontier, d': Disk, e: Ending) {
    f.nonce < |decls| && CHUNK_BYTES * f.leafCount <= |d.bytes| && d.stable <= |d.bytes| &&
    Possible(e, |Flat(decls[f.nonce])|) &&
    d' == EndDisk(d, CHUNK_BYTES * f.leafCount, Flat(decls[f.nonce]), FrontierAt(decls, f.nonce + 1), e)
  }

  /**
   * The refusal, from an empty disk: the first append stops after one byte, and the next opening finds a chunk
   * file without a frontier.
   */
  lemma FirstAppendOrphans(decls: seq<seq<Chunk>>)
    requires Feed(decls) && decls != []
    ensures var empty, torn := Disk([], 0, Absent, {}, Absent, false), Flat(decls[0])[..1];
      var d' := empty.(bytes := torn);
      InStep(decls, empty, FrontierAt(decls, 0), 0) &&
      EndsAs(decls, empty, FrontierAt(decls, 0), d', Ending(1, false, Unpublished(Absent, false))) &&
      OpenOutcome(d') == Err(OrphanedChunkData(1))
  {
    hide Flat, PeakList, PeakHeights;
    FreshDisk(decls);
    assert DataAt(decls, 0) == [];
    var data := Flat(decls[0]);
    assert Overwrite([], 0, data[..1]) == data[..1];
  }

  /** An append leaves the temporary file alone. */
  lemma SameTmp(d: Disk, off: nat, data: seq<Byte>, written: nat, synced: bool, f: Frontier)
    requires off <= |d.bytes| && d.stable <= |d.bytes| && written <= |data|
    ensures var a := AfterAppend(d, off, data, written, synced);
      AfterPublish(a, f, Unpublished(d.tmp, d.tmpSynced)) == a
  {
  }

  /** What the frontier files are after a publication. */
  lemma PublishShows(d: Disk, f: Frontier, e: Publication)
    ensures var d' := AfterPublish(d, f, e);
      d'.bytes == d.bytes && d'.stable == d.stable &&
      d'.visible == (if e.Unpublished? then d.visible else Whole(f)) && (e.Settled? ==> d'.shadows == {})
  {
  }

  datatype Reader = Reader(leafCount: nat)

  method ReadAt(device: Device, index: nat) returns (r: Result<Chunk, StoreError>)
    ensures r == Err(Io) || r == FileRead(device.d, index)
  {
    if * { r := FileRead(device.d, index); } else { r := Err(Io); }
  }

  /** A file cut to its committed length holds declared data only. */
  lemma TailIsGone(decls: seq<seq<Chunk>>, d: Disk, acked: nat, committed: nat)
    requires Recoverable(decls, d, acked) && |d.bytes| == committed <= d.stable
    ensures d.bytes <= Flat(Concat(decls)) && d.stable == committed
    ensures d.(stable := |d.bytes|) == d
  {
    assert d.bytes[..d.stable] == d.bytes;
  }

  class Store {
    const device: Device
    var frontier: Frontier

    ghost predicate Valid(decls: seq<seq<Chunk>>, acked: nat)
      reads this, device
    {
      InStep(decls, device.d, frontier, acked)
    }

    constructor (device: Device, frontier: Frontier)
      ensures this.device == device && this.frontier == frontier
    {
      this.device, this.frontier := device, frontier;
    }

    /**
     * Open the store. A refusal touches nothing; an I/O failure may have cut the uncommitted tail; success
     * cuts it, so that the file is exactly the committed chunks.
     */
    static method Open(device: Device, ghost decls: seq<seq<Chunk>>, ghost acked: nat)
      returns (r: Result<Store, StoreError>)
      modifies device
      ensures r.Err? && r.error != Io ==> device.d == old(device.d) && OpenOutcome(device.d) == Err(r.error)
      ensures r.Ok? ==> fresh(r.value) && r.value.device == device
      ensures r.Ok? ==> OpenOutcome(old(device.d)) == Ok(r.value.frontier)
      ensures r.Ok? ==> |device.d.bytes| == CHUNK_BYTES * r.value.frontier.leafCount
      ensures device.d.bytes <= old(device.d.bytes)
      ensures device.d.visible == old(device.d.visible) && device.d.shadows == old(device.d.shadows)
      ensures Feed(decls) && Recoverable(decls, old(device.d), acked) ==> Recoverable(decls, device.d, acked)
      ensures Feed(decls) && Recoverable(decls, old(device.d), acked) && r.Ok? ==> r.value.Valid(decls, acked)
    {
      hide Flat, Concat, PeakHeights, PeakList;
      ghost var known := Feed(decls) && Recoverable(decls, device.d, acked);
      if known { OpenRecovers(decls, device.d, acked); }
      var readable := *;
      if !readable { return Err(Io); }
      var outcome := OpenOutcome(device.d);
      if outcome.Err? { return Err(outcome.error); }
      var f := outcome.value;
      var committed := CHUNK_BYTES * f.leafCount;
      if |device.d.bytes| > committed {
        if known { TruncateKeeps(decls, device.d, acked); }
        var cut := device.Truncate(committed);
        if !cut { return Err(Io); }
        if known { TailIsGone(decls, device.d, acked, committed); }
        var synced := device.SyncData();
        if !synced { return Err(Io); }
      }
      if known { TailIsGone(decls, device.d, acked, committed); }
      var store := new Store(device, f);
      r := Ok(store);
    }

    /** The verifier state at the committed frontier. */
    method MmrAt(ghost decls: seq<seq<Chunk>>) returns (mmr: M.Mmr)
      requires Feed(decls) && Faithful(decls, frontier)
      ensures fresh(mmr) && mmr.Valid() && mmr.leafCount == frontier.leafCount
      ensures mmr.peaks == PeakMap(DataAt(decls, frontier.nonce), 0, frontier.leafCount)
      ensures Canonical(mmr.peaks, 64) == frontier.peaks
    {
      hide Concat, PeakHeights, PeakList, PeakMap, Rehydrate, Canonical, BinaryCounter;
      ghost var data := DataAt(decls, frontier.nonce);
      DataLength(decls, frontier.nonce);
      M.RehydrateData(data, []);
      assert data + [] == data;
      var r := M.Mmr.FromState(frontier.leafCount, frontier.peaks);
      mmr := r.value;
    }

    /**
     * Commit the next declaration. Whatever fails, at whatever step, committed bytes stay as they are and the
     * disk is one a commit can end in. An `Ok` is final: from then on no power cut can show anything else.
     */
    method CommitDeclaration(nextNonce: nat, chunks: seq<Chunk>, mmr: M.Mmr,
                             ghost decls: seq<seq<Chunk>>, ghost acked: nat)
      returns (r: Result<(), StoreError>, ghost e: Ending)
      requires Valid(decls, acked) && mmr.Valid()
      requires nextNonce == frontier.nonce + 1 <= |decls| && chunks == decls[frontier.nonce]
      requires mmr.peaks == PeakMap(DataAt(decls, nextNonce), 0, |DataAt(decls, nextNonce)|)
      requires mmr.leafCount == |DataAt(decls, nextNonce)|
      modifies this`frontier, device
      ensures r.Ok? || r == Err(Io)
      ensures r.Ok? ==> frontier == FrontierAt(decls, nextNonce) && Valid(decls, nextNonce) && e.publication.Settled?
      ensures r.Ok? ==> device.d.visible == Whole(frontier) && device.d.shadows == {}
      ensures r.Err? ==> frontier == old(frontier) && Valid(decls, acked)
      ensures EndsAs(decls, old(device.d), old(frontier), device.d, e)
      ensures old(device.d.bytes) <= device.d.bytes
    {
      hide Flat, Concat, PeakHeights, PeakList, PeakMap, BinaryCounter, Recoverable, Written, DataAt, Canonical;
      hide AfterAppend, AfterPublish;
      StablePrefix(decls, device.d, acked);
      DeclarationBytes(decls, frontier.nonce);
      DataLength(decls, nextNonce);
      var off, data := CHUNK_BYTES * frontier.leafCount, Flat(chunks);
      ghost var before, untouched := device.d, Unpublished(device.d.tmp, device.d.tmpSynced);
      var ok, written, synced := device.Append(off, data);
      AppendKeeps(decls, before, acked, off, data, written, synced);
      SameTmp(before, off, data, written, synced, FrontierAt(decls, nextNonce));
      e := Ending(written, synced, untouched);
      if !ok { return Err(Io), e; }
      var peaks := mmr.PeakListing();
      M.CanonicalOfData(DataAt(decls, nextNonce));
      var next := Frontier(nextNonce, mmr.leafCount, peaks);
      ghost var publication;
      ghost var appended := device.d;
      ok, publication := device.WriteAtomic(next);
      PublishKeeps(decls, appended, acked, next, publication);
      PublishShows(appended, next, publication);
      e := Ending(written, synced, publication);
      if !ok { return Err(Io), e; }
      frontier := next;
      r := Ok(());
    }

    /** A committed chunk; bytes past the frontier do not exist. */
    method ReadChunk(index: nat) returns (r: Result<Chunk, StoreError>)
      ensures index >= frontier.leafCount ==> r == Err(OutOfBounds(index, frontier.leafCount))
      ensures index < frontier.leafCount ==> r == Err(Io) || r == FileRead(device.d, index)
    {
      if index >= frontier.leafCount { return Err(OutOfBounds(index, frontier.leafCount)); }
      r := ReadAt(device, index);
    }

    /** A detached view at the current frontier. */
    method Snapshot() returns (reader: Reader)
      ensures reader == Reader(frontier.leafCount)
    {
      reader := Reader(frontier.leafCount);
    }
  }

  /** A reader's chunk: its own bound, then a positioned read. */
  method ReadThrough(reader: Reader, device: Device, index: nat) returns (r: Result<Chunk, StoreError>)
    ensures index >= reader.leafCount ==> r == Err(OutOfBounds(index, reader.leafCount))
    ensures index < reader.leafCount ==> r == Err(Io) || r == FileRead(device.d, index)
  {
    if index >= reader.leafCount { return Err(OutOfBounds(index, reader.leafCount)); }
    r := ReadAt(device, index);
  }
}
