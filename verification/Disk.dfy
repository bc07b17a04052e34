/**
 * The disk a store lives on. The chunk file has a stable prefix; everything past it is arbitrary after a
 * power cut. The frontier file is replaced by rename: until the directory is synced a power cut may show
 * any file it replaced, and a file renamed before its bytes were synced comes back torn. Every primitive
 * may fail, and a failed one may have had no effect, part of it or all of it, so stopping after a failure
 * covers a crash at every point inside it.
 */
module Disk {
  import opened Data
  import opened Forest

  /** The committed frontier. */
  datatype Frontier = Frontier(nonce: nat, leafCount: nat, peaks: seq<Hash>)

  datatype File = Absent | Torn | Whole(frontier: Frontier)

  /** `shadows` are the frontier files a power cut may still bring back in place of `visible`. */
  datatype Disk = Disk(
    bytes: seq<Byte>, stable: nat,
    visible: File, shadows: set<File>,
    tmp: File, tmpSynced: bool)

  // ---- The data the chain declares ----

  function Concat(decls: seq<seq<Chunk>>): seq<Chunk> {
    if decls == [] then [] else decls[0] + Concat(decls[1..])
  }

  /** Chunks declared before nonce `k`. */
  function DataAt(decls: seq<seq<Chunk>>, k: nat): seq<Chunk>
    requires k <= |decls|
  {
    Concat(decls[..k])
  }

  function Flat(chunks: seq<Chunk>): (bytes: seq<Byte>)
    ensures |bytes| == CHUNK_BYTES * |chunks|
  {
    if chunks == [] then [] else chunks[0] + Flat(chunks[1..])
  }

  lemma {:induction false} ConcatSplit(a: seq<seq<Chunk>>, b: seq<seq<Chunk>>)
    ensures Concat(a + b) == Concat(a) + Concat(b)
  {
    if a == [] {
      assert a + b == b;
    } else {
      assert (a + b)[1..] == a[1..] + b;
      ConcatSplit(a[1..], b);
    }
  }

  /** Earlier declarations are a prefix of later ones. */
  lemma DataGrows(decls: seq<seq<Chunk>>, k: nat, l: nat)
    requires k <= l <= |decls|
    ensures DataAt(decls, k) <= DataAt(decls, l)
    ensures k < |decls| ==> DataAt(decls, k + 1) == DataAt(decls, k) + decls[k]
  {
    assert decls[..l] == decls[..k] + decls[k..l];
    ConcatSplit(decls[..k], decls[k..l]);
    if k < |decls| {
      assert decls[..k + 1] == decls[..k] + [decls[k]];
      ConcatSplit(decls[..k], [decls[k]]);
      assert Concat([decls[k]]) == decls[k];
    }
  }

  lemma {:induction false} FlatSplit(a: seq<Chunk>, b: seq<Chunk>)
    ensures Flat(a + b) == Flat(a) + Flat(b)
  {
    if a == [] {
      assert a + b == b;
    } else {
      assert (a + b)[1..] == a[1..] + b;
      FlatSplit(a[1..], b);
    }
  }

  /** The bytes after the first chunk, shifted. */
  lemma SliceShift(head: seq<Byte>, tail: seq<Byte>, from: nat, size: nat)
    requires from + size <= |tail|
    ensures (head + tail)[|head| + from..|head| + from + size] == tail[from..from + size]
  {
  }

  /** Chunk `i` lives at byte offset `31 * i`. */
  lemma {:induction false} FlatAt(chunks: seq<Chunk>, i: nat)
    requires i < |chunks|
    ensures Flat(chunks)[CHUNK_BYTES * i..CHUNK_BYTES * i + CHUNK_BYTES] == chunks[i]
  {
    var head: seq<Byte>, tail: seq<Byte> := chunks[0], Flat(chunks[1..]);
    assert Flat(chunks) == head + tail;
    hide Flat;
    if i == 0 {
      assert (head + tail)[..CHUNK_BYTES] == head;
    } else {
      FlatAt(chunks[1..], i - 1);
      SliceShift(head, tail, CHUNK_BYTES * (i - 1), CHUNK_BYTES);
    }
  }

  // ---- What must hold of a disk, whatever happens next ----

  /** The frontier that states exactly what the chain declared before nonce `k`. */
  function FrontierAt(decls: seq<seq<Chunk>>, k: nat): Frontier
    requires k <= |decls|
  {
    var data := DataAt(decls, k);
    Frontier(k, |data|, PeakList(data, 0, |data|))
  }

  ghost predicate Faithful(decls: seq<seq<Chunk>>, f: Frontier) {
    f.nonce <= |decls| && f == FrontierAt(decls, f.nonce)
  }

  function NonceOf(file: File): nat {
    if file.Whole? then file.frontier.nonce else 0
  }

  /** A frontier file a power cut may leave: whole, faithful, backed by stable bytes, not behind `acked`. */
  ghost predicate Backed(decls: seq<seq<Chunk>>, stable: nat, acked: nat, file: File) {
    !file.Torn? && acked <= NonceOf(file) &&
    (file.Whole? ==> Faithful(decls, file.frontier) && CHUNK_BYTES * file.frontier.leafCount <= stable)
  }

  /** The stable prefix is declared data, and it backs every frontier a power cut may show. */
  ghost predicate Recoverable(decls: seq<seq<Chunk>>, d: Disk, acked: nat) {
    d.stable <= |d.bytes| && d.bytes[..d.stable] <= Flat(Concat(decls)) &&
    Backed(decls, d.stable, acked, d.visible) &&
    forall s :: s in d.shadows ==> Backed(decls, d.stable, acked, s) && NonceOf(s) <= NonceOf(d.visible)
  }

  /** No power cut can leave the store without a frontier file. */
  ghost predicate Published(d: Disk) {
    d.visible != Absent && Absent !in d.shadows
  }

  // ---- The primitives ----

  function Overwrite(bytes: seq<Byte>, off: nat, data: seq<Byte>): seq<Byte>
    requires off <= |bytes|
  {
    bytes[..off] + data + if off + |data| <= |bytes| then bytes[off + |data|..] else []
  }

  /** A positioned write of `data`; bytes rewritten with their own value stay stable. */
  function Written(d: Disk, off: nat, data: seq<Byte>): Disk
    requires off <= |d.bytes| && d.stable <= |d.bytes|
  {
    var bytes := Overwrite(d.bytes, off, data);
    d.(bytes := bytes, stable := if bytes[..d.stable] == d.bytes[..d.stable] then d.stable else off)
  }

  function Truncated(d: Disk, n: nat): Disk
    requires n <= |d.bytes|
  {
    d.(bytes := d.bytes[..n], stable := if d.stable <= n then d.stable else n)
  }

  /** Renaming over the frontier: what was there stays possible until the directory is synced. */
  function Renamed(d: Disk): Disk {
    d.(visible := if d.tmpSynced then d.tmp else Torn, shadows := d.shadows + {d.visible},
       tmp := Absent, tmpSynced := false)
  }

  // ---- How a commit can end ----

  /** How replacing the frontier file can end: never renamed, renamed only, or renamed and made durable. */
  datatype Publication = Unpublished(tmp: File, synced: bool) | Unsettled | Settled

  /** How a commit can end: bytes written, whether they were synced, and the publication. */
  datatype Ending = Ending(written: nat, synced: bool, publication: Publication)

  /** Publication starts only after all bytes were synced. */
  predicate Possible(e: Ending, length: nat) {
    e.written <= length && (e.synced ==> e.written == length) && (!e.publication.Unpublished? ==> e.synced)
  }

  function AfterAppend(d: Disk, off: nat, data: seq<Byte>, written: nat, synced: bool): Disk
    requires off <= |d.bytes| && d.stable <= |d.bytes| && written <= |data|
  {
    var w := Written(d, off, data[..written]);
    if synced then w.(stable := |w.bytes|) else w
  }

  function AfterPublish(d: Disk, f: Frontier, e: Publication): Disk {
    match e
    case Unpublished(tmp, synced) => d.(tmp := tmp, tmpSynced := synced)
    case Unsettled => Renamed(d.(tmp := Whole(f), tmpSynced := true))
    case Settled => Renamed(d.(tmp := Whole(f), tmpSynced := true)).(shadows := {})
  }

  function EndDisk(d: Disk, off: nat, data: seq<Byte>, f: Frontier, e: Ending): Disk
    requires off <= |d.bytes| && d.stable <= |d.bytes| && e.written <= |data|
  {
    AfterPublish(AfterAppend(d, off, data, e.written, e.synced), f, e.publication)
  }

  /** After a power cut: the stable prefix survives, the rest is arbitrary, any shadow may be back. */
  ghost predicate PowerCut(d: Disk, d': Disk) {
    d.stable <= |d.bytes| && d.stable <= |d'.bytes| && d'.bytes[..d.stable] == d.bytes[..d.stable] &&
    d'.stable == d.stable && d'.visible in d.shadows + {d.visible} && d'.shadows == {}
  }

  lemma WrittenStable(d: Disk, off: nat, data: seq<Byte>)
    requires off <= |d.bytes| && d.stable <= |d.bytes|
    ensures Written(d, off, data).stable <= |Written(d, off, data).bytes|
  {
  }

  /** The device: every operation may fail, at any point and with any part of its effect. */
  class Device {
    var d: Disk

    constructor (d0: Disk)
      ensures d == d0
    {
      d := d0;
    }

    method Write(off: nat, data: seq<Byte>) returns (ok: bool)
      requires off <= |d.bytes| && d.stable <= |d.bytes|
      modifies this
      ensures exists n: nat :: n <= |data| && d == Written(old(d), off, data[..n])
      ensures ok ==> d == Written(old(d), off, data)
    {
      var n: nat :| n <= |data|;
      ok := n == |data|;
      if ok { assert data[..n] == data; }
      d := Written(d, off, data[..n]);
    }

    method SyncData() returns (ok: bool)
      requires d.stable <= |d.bytes|
      modifies this
      ensures d == old(d) || d == old(d).(stable := |old(d).bytes|)
      ensures ok ==> d.stable == |d.bytes|
    {
      if * { d := d.(stable := |d.bytes|); }
      if * { ok := d.stable == |d.bytes|; } else { ok := false; }
    }

    method Truncate(n: nat) returns (ok: bool)
      requires n <= |d.bytes|
      modifies this
      ensures d == old(d) || d == Truncated(old(d), n)
      ensures ok ==> d == Truncated(old(d), n)
    {
      ok := *;
      if ok { d := Truncated(d, n); } else if * { d := Truncated(d, n); }
    }

    /** Create the temporary file and write the frontier into it. */
    method WriteTmp(f: Frontier) returns (ok: bool)
      modifies this
      ensures d == old(d).(tmp := d.tmp, tmpSynced := false)
      ensures ok ==> d.tmp == Whole(f)
    {
      ok := *;
      if ok { d := d.(tmp := Whole(f), tmpSynced := false); }
      else if * { d := d.(tmp := Torn, tmpSynced := false); }
      else { d := d.(tmpSynced := false); }
    }

    method SyncTmp() returns (ok: bool)
      modifies this
      ensures d == old(d).(tmpSynced := d.tmpSynced)
      ensures ok ==> d.tmpSynced
    {
      if * { d := d.(tmpSynced := true); }
      if * { ok := d.tmpSynced; } else { ok := false; }
    }

    method Rename() returns (ok: bool)
      modifies this
      ensures d == old(d) || d == Renamed(old(d))
      ensures ok ==> d == Renamed(old(d))
    {
      ok := *;
      if ok { d := Renamed(d); } else if * { d := Renamed(d); }
    }

    method SyncDir() returns (ok: bool)
      modifies this
      ensures d == old(d) || d == old(d).(shadows := {})
      ensures ok ==> d.shadows == {}
    {
      if * { d := d.(shadows := {}); }
      if * { ok := d.shadows == {}; } else { ok := false; }
    }

    /** Write a declaration's bytes, then sync them. */
    method Append(off: nat, data: seq<Byte>) returns (ok: bool, ghost written: nat, ghost synced: bool)
      requires off <= |d.bytes| && d.stable <= |d.bytes|
      modifies this
      ensures written <= |data| && (synced ==> written == |data|) && (ok ==> synced)
      ensures d == AfterAppend(old(d), off, data, written, synced)
    {
      hide Written;
      ok := Write(off, data);
      synced := false;
      assert data[..|data|] == data;
      if !ok {
        written :| written <= |data| && d == Written(old(d), off, data[..written]);
        return;
      }
      written := |data|;
      ghost var w := d;
      WrittenStable(old(d), off, data);
      ok := SyncData();
      synced := d == w.(stable := |w.bytes|);
    }

    /** Durably replace the frontier file: temporary file, sync, rename, directory sync. */
    method WriteAtomic(f: Frontier) returns (ok: bool, ghost e: Publication)
      modifies this
      ensures d == AfterPublish(old(d), f, e) && (ok ==> e.Settled?)
    {
      ok := WriteTmp(f);
      e := Unpublished(d.tmp, d.tmpSynced);
      if !ok { return; }
      ok := SyncTmp();
      e := Unpublished(d.tmp, d.tmpSynced);
      if !ok { return; }
      ghost var ready := d;
      ok := Rename();
      e := if d == ready then Unpublished(d.tmp, d.tmpSynced) else Unsettled;
      if !ok { return; }
      ok := SyncDir();
      e := if d.shadows == {} then Settled else Unsettled;
    }

    /** The power goes: everything not stable is at the mercy of the device. */
    method LosePower(garbage: seq<Byte>)
      requires d.stable <= |d.bytes|
      modifies this
      ensures PowerCut(old(d), d)
    {
      var back :| back in d.shadows + {d.visible};
      var kept := d.bytes[..d.stable];
      assert (kept + garbage)[..d.stable] == kept;
      d := Disk(kept + garbage, d.stable, back, {}, Torn, false);
    }
  }

  // ---- What the primitives keep ----

  lemma StablePrefix(decls: seq<seq<Chunk>>, d: Disk, acked: nat)
    requires Recoverable(decls, d, acked)
    ensures d.stable <= |d.bytes|
  {
  }

  lemma FreshDisk(decls: seq<seq<Chunk>>)
    ensures Recoverable(decls, Disk([], 0, Absent, {}, Absent, false), 0)
  {
  }

  /** A power cut at any moment leaves a recoverable disk. */
  lemma PowerCutKeeps(decls: seq<seq<Chunk>>, d: Disk, d': Disk, acked: nat)
    requires Recoverable(decls, d, acked) && PowerCut(d, d')
    ensures Recoverable(decls, d', acked) && NonceOf(d'.visible) <= NonceOf(d.visible)
    ensures Published(d) ==> Published(d')
  {
  }

  /** Writing declared data where it belongs never disturbs what is stable: re-commits land identically. */
  lemma WriteKeeps(decls: seq<seq<Chunk>>, d: Disk, acked: nat, off: nat, data: seq<Byte>)
    requires Recoverable(decls, d, acked) && d.bytes <= Flat(Concat(decls)) && off <= |d.bytes|
    requires off + |data| <= |Flat(Concat(decls))| && data == Flat(Concat(decls))[off..off + |data|]
    ensures var d' := Written(d, off, data);
      && Recoverable(decls, d', acked) && d' == d.(bytes := d'.bytes)
      && d'.bytes <= Flat(Concat(decls)) && d.bytes <= d'.bytes
      && |d'.bytes| == if off + |data| <= |d.bytes| then |d.bytes| else off + |data|
  {
    hide Flat, Concat, Faithful;
    var whole, d' := Flat(Concat(decls)), Written(d, off, data);
    forall i | 0 <= i < |d'.bytes| ensures d'.bytes[i] == whole[i] {
      if off <= i < off + |data| { assert data[i - off] == whole[i]; }
    }
    assert d.bytes <= d'.bytes;
    assert d'.bytes[..d.stable] == d.bytes[..d.stable];
  }

  /** A file that holds nothing but declared data may be synced. */
  lemma SyncKeeps(decls: seq<seq<Chunk>>, d: Disk, acked: nat)
    requires Recoverable(decls, d, acked) && d.bytes <= Flat(Concat(decls))
    ensures Recoverable(decls, d.(stable := |d.bytes|), acked)
  {
    hide Flat, Concat, Faithful;
    assert d.bytes[..|d.bytes|] == d.bytes;
  }

  /** An append that stops anywhere keeps every frontier recoverable, and completes the bytes if synced. */
  lemma AppendKeeps(decls: seq<seq<Chunk>>, d: Disk, acked: nat, off: nat, data: seq<Byte>, written: nat, synced: bool)
    requires Recoverable(decls, d, acked) && d.bytes <= Flat(Concat(decls)) && off <= |d.bytes| && written <= |data|
    requires off + |data| <= |Flat(Concat(decls))| && data == Flat(Concat(decls))[off..off + |data|]
    ensures d.stable <= |d.bytes|
    ensures var d' := AfterAppend(d, off, data, written, synced);
      && Recoverable(decls, d', acked) && d' == d.(bytes := d'.bytes, stable := d'.stable)
      && d'.bytes <= Flat(Concat(decls)) && d.bytes <= d'.bytes && d.stable <= d'.stable
      && (synced && written == |data| ==> off + |data| <= d'.stable)
  {
    hide Flat, Concat, Faithful, Recoverable, Written;
    StablePrefix(decls, d, acked);
    assert data[..written] == Flat(Concat(decls))[off..off + written];
    WriteKeeps(decls, d, acked, off, data[..written]);
    var w := Written(d, off, data[..written]);
    StablePrefix(decls, w, acked);
    SyncKeeps(decls, w, acked);
  }

  /** Publishing a backed frontier: until the directory is synced a power cut may undo it, never tear it. */
  lemma RenameKeeps(decls: seq<seq<Chunk>>, d: Disk, acked: nat)
    requires Recoverable(decls, d, acked) && d.tmpSynced && d.tmp.Whole?
    requires Backed(decls, d.stable, acked, d.tmp) && NonceOf(d.visible) <= NonceOf(d.tmp)
    ensures Recoverable(decls, Renamed(d), acked)
  {
    hide Flat, Concat, Faithful;
  }

  /** Publishing a backed frontier keeps it recoverable however it ends; settled, nothing older can return. */
  lemma PublishKeeps(decls: seq<seq<Chunk>>, d: Disk, acked: nat, f: Frontier, e: Publication)
    requires Recoverable(decls, d, acked) && Backed(decls, d.stable, acked, Whole(f)) && NonceOf(d.visible) <= f.nonce
    ensures Recoverable(decls, AfterPublish(d, f, e), acked)
    ensures e.Settled? ==> Recoverable(decls, AfterPublish(d, f, e), f.nonce)
  {
    hide Flat, Concat, Faithful;
    if !e.Unpublished? { RenameKeeps(decls, d.(tmp := Whole(f), tmpSynced := true), acked); }
  }

  /** Cutting back to the visible frontier keeps every frontier a power cut may show. */
  lemma TruncateKeeps(decls: seq<seq<Chunk>>, d: Disk, acked: nat)
    requires Recoverable(decls, d, acked) && d.visible.Whole?
    ensures var n := CHUNK_BYTES * d.visible.frontier.leafCount;
      n <= |d.bytes| && Recoverable(decls, Truncated(d, n), acked) && Truncated(d, n).stable == n
  {
    hide Flat, Concat;
    var n := CHUNK_BYTES * d.visible.frontier.leafCount;
    var d' := Truncated(d, n);
    forall s | s in d.shadows ensures Backed(decls, n, acked, s) {
      if s.Whole? { DataGrows(decls, NonceOf(s), NonceOf(d.visible)); }
    }
    assert d'.bytes[..n] == d.bytes[..d.stable][..n];
  }
}
