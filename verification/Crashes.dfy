/**
 * Every interleaving of a store's life: commits that fail at any step, reads, restarts, power cuts. The log
 * of what the outside world saw is consistent with what the chain declared, whatever happens in between.
 */
module Crashes {
  import opened Data
  import opened Decomposition
  import opened Forest
  import opened Disk
  import opened Store
  import opened Ingest
  import M = Mmr

  datatype Event =
    | Restart
    | PowerLoss(garbage: seq<Byte>)
    | CommitNext
    | TakeReader
    | Read(reader: nat, index: nat)

  datatype Outcome =
    | Opened(frontier: Frontier)
    | Refused(error: StoreError)
    | Acknowledged(nonce: nat)
    | Served(index: nat, chunk: Chunk)
    | Nothing

  /** What one entry of the log promises on its own. */
  ghost predicate Truthful(decls: seq<seq<Chunk>>, o: Outcome) {
    match o
    case Opened(f) => Faithful(decls, f)
    case Served(i, c) => i < |Concat(decls)| && c == Concat(decls)[i]
    case Refused(e) => e == Io || e.OrphanedChunkData?
    case Acknowledged(k) => 0 < k <= |decls|
    case Nothing => true
  }

  /** Acknowledged declarations are never lost, acknowledged twice, or followed by a refusal. */
  ghost predicate Lasting(first: Outcome, later: Outcome) {
    first.Acknowledged? ==>
      (later.Opened? ==> first.nonce <= later.frontier.nonce) &&
      (later.Acknowledged? ==> first.nonce < later.nonce) &&
      (later.Refused? ==> later.error == Io)
  }

  ghost predicate Consistent(decls: seq<seq<Chunk>>, log: seq<Outcome>) {
    (forall i :: 0 <= i < |log| ==> Truthful(decls, log[i])) &&
    (forall i, j :: 0 <= i < j < |log| ==> Lasting(log[i], log[j]))
  }

  /** Everything acknowledged so far is at or below `acked`. */
  ghost predicate AckedUpTo(log: seq<Outcome>, acked: nat) {
    forall i :: 0 <= i < |log| ==> log[i].Acknowledged? ==> log[i].nonce <= acked
  }

  lemma Extend(decls: seq<seq<Chunk>>, log: seq<Outcome>, o: Outcome, acked: nat)
    requires Consistent(decls, log) && AckedUpTo(log, acked) && Truthful(decls, o)
    requires o.Opened? ==> acked <= o.frontier.nonce
    requires o.Acknowledged? ==> acked < o.nonce
    requires o.Refused? && o.error != Io ==> acked == 0
    ensures Consistent(decls, log + [o]) && AckedUpTo(log + [o], if o.Acknowledged? then o.nonce else acked)
  {
    hide Faithful, Concat;
    var all := log + [o];
    forall i, j | 0 <= i < j < |all| ensures Lasting(all[i], all[j]) {
      if j == |log| && all[i].Acknowledged? { assert Truthful(decls, log[i]); }
    }
  }

  /** A committed chunk is on disk, and stays readable while the file only grows. */
  lemma CommittedIsServed(decls: seq<seq<Chunk>>, d: Disk, leafCount: nat, i: nat)
    requires d.bytes <= Flat(Concat(decls)) && CHUNK_BYTES * leafCount <= |d.bytes| && i < leafCount
    ensures i < |Concat(decls)| && FileRead(d, i) == Ok(Concat(decls)[i])
  {
    ChunkBytes(decls, d.bytes, i);
  }

  /** Open, and report it. */
  method Reopen(device: Device, ghost decls: seq<seq<Chunk>>, ghost acked: nat)
    returns (store: Store?, o: Outcome)
    requires Feed(decls) && Recoverable(decls, device.d, acked)
    modifies device
    ensures Recoverable(decls, device.d, acked) && Truthful(decls, o)
    ensures store != null ==> fresh(store) && store.device == device && store.Valid(decls, acked)
    ensures if store != null then o == Opened(store.frontier) else o.Refused?
    ensures o.Refused? && o.error != Io ==> acked == 0 && !Published(device.d)
    ensures o.Opened? ==> OpenOutcome(old(device.d)) == Ok(o.frontier)
    ensures o.Opened? ==> acked <= o.frontier.nonce == NonceOf(device.d.visible)
    ensures o.Refused? && o.error != Io ==> OpenOutcome(old(device.d)).Err?
    ensures device.d.bytes <= old(device.d.bytes) && device.d.visible == old(device.d.visible)
  {
    hide Flat, Concat, Recoverable, Feed;
    OpenRecovers(decls, device.d, acked);
    var r := Store.Open(device, decls, acked);
    if r.Ok? {
      store, o := r.value, Opened(r.value.frontier);
    } else {
      store, o := null, Refused(r.error);
    }
  }

  /** Commit the declaration the store owes, from its own stored state. */
  method CommitOwed(store: Store, decls: seq<seq<Chunk>>, ghost acked: nat) returns (o: Outcome, ghost ending: Ending)
    requires store.Valid(decls, acked) && store.frontier.nonce < |decls|
    modifies store`frontier, store.device
    ensures o == Nothing || o == Acknowledged(old(store.frontier.nonce) + 1)
    ensures store.Valid(decls, if o.Acknowledged? then o.nonce else acked)
    ensures store.frontier == if o.Acknowledged? then FrontierAt(decls, old(store.frontier.nonce) + 1)
                              else old(store.frontier)
    ensures old(store.device.d.bytes) <= store.device.d.bytes
    ensures o.Acknowledged? ==> store.device.d.visible == Whole(store.frontier) && store.device.d.shadows == {}
    ensures EndsAs(decls, old(store.device.d), old(store.frontier), store.device.d, ending)
  {
    hide Flat, Concat, Recoverable, PeakList, PeakHeights, Decompose, RootsOf, EndsAs;
    var k := store.frontier.nonce;
    DataGrows(decls, k, k + 1);
    DataLength(decls, k + 1);
    var roots := M.UpdateSubtreeRoots(store.frontier.leafCount, decls[k]);
    var ingestor := new Ingestor(store);
    var r;
    r, ending := ingestor.CommitVerified(decls[k], roots, decls, acked);
    o := if r.Ok? then Acknowledged(k + 1) else Nothing;
  }

  // ---- One commit and one power cut ----

  /** A live store's committed chunks are in its file, and the file holds nothing undeclared. */
  lemma CommittedFits(decls: seq<seq<Chunk>>, d: Disk, f: Frontier, acked: nat)
    requires InStep(decls, d, f, acked)
    ensures CHUNK_BYTES * f.leafCount <= |d.bytes|
  {
    hide Flat, Concat;
  }

  lemma CleanBytes(decls: seq<seq<Chunk>>, d: Disk, f: Frontier, acked: nat)
    requires InStep(decls, d, f, acked)
    ensures d.bytes <= Flat(Concat(decls))
  {
  }

  /** Only the frontier before the coming commit and the one after it can be on disk. */
  ghost predicate PreOrPost(decls: seq<seq<Chunk>>, d: Disk, f: Frontier)
    requires f.nonce < |decls|
  {
    var pair := {Whole(f), Whole(FrontierAt(decls, f.nonce + 1))};
    d.visible in pair && d.shadows <= pair
  }

  /** What a commit's ending adds to what a power cut can show. */
  lemma EndingShows(d: Disk, off: nat, data: seq<Byte>, f: Frontier, e: Ending)
    requires off <= |d.bytes| && d.stable <= |d.bytes| && e.written <= |data|
    ensures var d' := EndDisk(d, off, data, f, e);
      d'.visible in {d.visible, Whole(f)} && d'.shadows <= d.shadows + {d.visible, Whole(f)}
  {
  }

  /** A commit may fail before it did anything. */
  lemma NoEffect(decls: seq<seq<Chunk>>, d: Disk, f: Frontier)
    requires f.nonce < |decls| && CHUNK_BYTES * f.leafCount <= |d.bytes| && d.stable <= |d.bytes|
    ensures EndsAs(decls, d, f, d, Ending(0, false, Unpublished(d.tmp, d.tmpSynced)))
  {
    hide Flat, FrontierAt;
    var off := CHUNK_BYTES * f.leafCount;
    assert Overwrite(d.bytes, off, []) == d.bytes;
    assert Flat(decls[f.nonce])[..0] == [];
  }

  /**
   * However a commit ends, and wherever the power then goes, the frontier found is the one before or the one
   * after, exactly when those two are the only ones possible as the commit starts: after a synced directory,
   * or on a retry in the same process after the directory sync failed.
   */
  lemma CutAfterCommit(decls: seq<seq<Chunk>>, d: Disk, f: Frontier, acked: nat)
    requires InStep(decls, d, f, acked) && f.nonce < |decls|
    ensures (forall e, d', cut :: EndsAs(decls, d, f, d', e) && PowerCut(d', cut) ==>
              cut.visible in {Whole(f), Whole(FrontierAt(decls, f.nonce + 1))}) <==> PreOrPost(decls, d, f)
  {
    hide Flat, Concat, FrontierAt, EndDisk, Faithful;
    StablePrefix(decls, d, acked);
    var off, data, post := CHUNK_BYTES * f.leafCount, Flat(decls[f.nonce]), FrontierAt(decls, f.nonce + 1);
    var pair := {Whole(f), Whole(post)};
    if PreOrPost(decls, d, f) {
      forall e, d', cut | EndsAs(decls, d, f, d', e) && PowerCut(d', cut) ensures cut.visible in pair {
        EndingShows(d, off, data, post, e);
      }
    } else {
      var s :| s in d.shadows + {d.visible} && s !in pair;
      NoEffect(decls, d, f);
      assert PowerCut(d, d.(visible := s, shadows := {}));
    }
  }

  /** The bytes of anything at or below the visible frontier are on disk. */
  lemma CommittedStays(decls: seq<seq<Chunk>>, d: Disk, acked: nat, committed: nat)
    requires Recoverable(decls, d, acked) && d.visible.Whole? && committed <= CHUNK_BYTES * d.visible.frontier.leafCount
    ensures committed <= |d.bytes|
  {
  }

  lemma InStepParts(decls: seq<seq<Chunk>>, d: Disk, f: Frontier, acked: nat)
    requires InStep(decls, d, f, acked)
    ensures Feed(decls) && Recoverable(decls, d, acked) && d.stable <= |d.bytes| && acked <= f.nonce
    ensures f.nonce <= |decls| && f == FrontierAt(decls, f.nonce)
    ensures CHUNK_BYTES * f.leafCount <= d.stable
  {
    hide Flat, Concat, FrontierAt;
  }

  lemma FrontierGrows(decls: seq<seq<Chunk>>, k: nat)
    requires k < |decls|
    ensures FrontierAt(decls, k).leafCount <= FrontierAt(decls, k + 1).leafCount
  {
    DataGrows(decls, k, k + 1);
  }

  lemma SamePrefix(reopened: seq<Byte>, cut: seq<Byte>, after: Disk, before: seq<Byte>, committed: nat)
    requires committed <= |reopened| && reopened <= cut && before <= after.bytes && committed <= |before|
    requires committed <= after.stable <= |after.bytes| && after.stable <= |cut|
    requires cut[..after.stable] == after.bytes[..after.stable]
    ensures reopened[..committed] == before[..committed]
  {
    assert cut[..committed] == cut[..after.stable][..committed] == after.bytes[..committed];
  }

  /** What a cut after the commit leaves: one of the two frontiers, opening at or past all acknowledged. */
  lemma CutShows(decls: seq<seq<Chunk>>, before: Disk, pre: Frontier, acked: nat, after: Disk, ending: Ending,
                 cut: Disk, acked': nat)
    requires InStep(decls, before, pre, acked) && pre.nonce < |decls| && PreOrPost(decls, before, pre)
    requires EndsAs(decls, before, pre, after, ending) && Recoverable(decls, after, acked') && PowerCut(after, cut)
    ensures Recoverable(decls, cut, acked') && OpenOutcome(cut).Ok? && cut.visible.Whole?
    ensures cut.visible.frontier in {pre, FrontierAt(decls, pre.nonce + 1)}
    ensures OpenOutcome(cut).value == cut.visible.frontier && acked' <= cut.visible.frontier.nonce
    ensures pre.leafCount <= cut.visible.frontier.leafCount
  {
    hide Flat, Concat, Recoverable, PeakList, EndsAs, DataAt, PreOrPost, PeakHeights;
    CutAfterCommit(decls, before, pre, acked);
    PowerCutKeeps(decls, after, cut, acked');
    OpenRecovers(decls, cut, acked');
    DataGrows(decls, pre.nonce, pre.nonce + 1);
  }

  /**
   * A commit that ends anywhere, a power cut, a reopening: under the exact condition above the store is at
   * the frontier before it or after it, its committed bytes untouched.
   */
  method CommitThenCut(store: Store, decls: seq<seq<Chunk>>, garbage: seq<Byte>, ghost acked: nat)
    returns (acknowledged: bool, o: Outcome)
    requires store.Valid(decls, acked) && store.frontier.nonce < |decls|
    requires PreOrPost(decls, store.device.d, store.frontier)
    modifies store`frontier, store.device
    ensures var pre, post := old(store.frontier), FrontierAt(decls, old(store.frontier.nonce) + 1);
      (o.Opened? ==> o.frontier in {pre, post}) && (o.Opened? && acknowledged ==> o.frontier == post)
    ensures o == Refused(Io) || o.Opened?
    ensures var committed := CHUNK_BYTES * old(store.frontier.leafCount);
      committed <= |store.device.d.bytes| && committed <= |old(store.device.d.bytes)| &&
      store.device.d.bytes[..committed] == old(store.device.d.bytes)[..committed]
  {
    hide Flat, Concat, Recoverable, EndsAs, InStep, FrontierAt, PreOrPost, OpenOutcome, Faithful;
    var k := store.frontier.nonce;
    var device := store.device;
    ghost var pre, before := store.frontier, device.d;
    CommittedFits(decls, before, pre, acked);
    ghost var ending;
    var attempted;
    attempted, ending := CommitOwed(store, decls, acked);
    acknowledged := attempted.Acknowledged?;
    ghost var acked' := if acknowledged then k + 1 else acked;
    ghost var after := device.d;
    CommittedFits(decls, after, store.frontier, acked');
    InStepParts(decls, before, pre, acked);
    FrontierGrows(decls, k);
    InStepParts(decls, after, store.frontier, acked');
    device.LosePower(garbage);
    ghost var cut := device.d;
    CutShows(decls, before, pre, acked, after, ending, cut, acked');
    var reopened;
    reopened, o := Reopen(device, decls, acked');
    CommittedStays(decls, device.d, acked', CHUNK_BYTES * pre.leafCount);
    SamePrefix(device.d.bytes, cut.bytes, after, before.bytes, CHUNK_BYTES * pre.leafCount);
  }

  /** The disk of a store settled at nonce `k`, with nothing in progress. */
  function SettledDisk(decls: seq<seq<Chunk>>, k: nat): Disk
    requires k <= |decls|
  {
    var bytes := Flat(DataAt(decls, k));
    Disk(bytes, |bytes|, Whole(FrontierAt(decls, k)), {}, Absent, false)
  }

  lemma DataBytes(decls: seq<seq<Chunk>>, k: nat)
    requires k <= |decls|
    ensures Flat(DataAt(decls, k)) <= Flat(Concat(decls))
  {
    hide Flat;
    DataLength(decls, k);
    var data, all := DataAt(decls, k), Concat(decls);
    assert all == data + all[|data|..];
    FlatSplit(data, all[|data|..]);
  }

  lemma SettledIsInStep(decls: seq<seq<Chunk>>, k: nat)
    requires Feed(decls) && k <= |decls|
    ensures InStep(decls, SettledDisk(decls, k), FrontierAt(decls, k), k)
  {
    hide Flat, Concat, PeakList;
    DataBytes(decls, k);
    var d := SettledDisk(decls, k);
    assert d.bytes[..d.stable] == d.bytes;
  }

  /** Appending declaration `k` to everything before it. */
  lemma AppendBytes(decls: seq<seq<Chunk>>, k: nat)
    requires k < |decls|
    ensures Flat(DataAt(decls, k)) + Flat(decls[k]) == Flat(DataAt(decls, k + 1))
  {
    hide Flat, Concat;
    DataGrows(decls, k, k + 1);
    FlatSplit(DataAt(decls, k), decls[k]);
  }

  /** The disk between the rename and the directory sync of the commit of declaration 1. */
  function RenamedDisk(decls: seq<seq<Chunk>>): Disk
    requires |decls| >= 2
  {
    SettledDisk(decls, 2).(shadows := {Whole(FrontierAt(decls, 1))})
  }

  /** One step earlier: frontier 1 published and alone, frontier 2 in a synced temporary file. */
  function ReadyDisk(decls: seq<seq<Chunk>>): Disk
    requires |decls| >= 2
  {
    SettledDisk(decls, 2).(
      visible := Whole(FrontierAt(decls, 1)), tmp := Whole(FrontierAt(decls, 2)), tmpSynced := true)
  }

  lemma ReadyIsInStep(decls: seq<seq<Chunk>>)
    requires Feed(decls) && |decls| >= 2
    ensures InStep(decls, ReadyDisk(decls), FrontierAt(decls, 1), 1)
    ensures RenamedDisk(decls) == Renamed(ReadyDisk(decls))
  {
    hide Flat, Concat, PeakList;
    DataBytes(decls, 2);
    DataGrows(decls, 1, 2);
    var d := ReadyDisk(decls);
    assert d.bytes[..d.stable] == d.bytes;
    assert {} + {d.visible} == {Whole(FrontierAt(decls, 1))};
  }

  lemma RenamedIsAnEnding(decls: seq<seq<Chunk>>)
    requires |decls| >= 2
    ensures EndsAs(decls, SettledDisk(decls, 1), FrontierAt(decls, 1), RenamedDisk(decls),
                   Ending(|Flat(decls[1])|, true, Unsettled))
  {
    hide Flat, Concat, PeakList, DataAt;
    var d, data := SettledDisk(decls, 1), Flat(decls[1]);
    AppendBytes(decls, 1);
    assert data[..|data|] == data;
    assert Overwrite(d.bytes, |d.bytes|, data) == d.bytes + data;
    assert (d.bytes + data)[..d.stable] == d.bytes[..d.stable];
    assert {} + {d.visible} == {Whole(FrontierAt(decls, 1))};
  }

  lemma RenamedIsInStep(decls: seq<seq<Chunk>>)
    requires Feed(decls) && |decls| >= 2
    ensures InStep(decls, RenamedDisk(decls), FrontierAt(decls, 2), 1)
  {
    hide Flat, Concat, PeakList;
    DataBytes(decls, 2);
    DataGrows(decls, 1, 2);
    var d := RenamedDisk(decls);
    assert d.bytes[..d.stable] == d.bytes;
  }

  /**
   * Outside that condition it is false. From a store settled at nonce 1, a commit stops between the rename
   * and the directory sync; the next process opens at nonce 2 and starts its own commit; the power goes
   * before it does anything. The store is back at nonce 1, neither before that commit nor after it.
   */
  lemma UnsyncedRenameCanReturn(decls: seq<seq<Chunk>>) returns (renamed: Disk, cut: Disk)
    requires Feed(decls) && |decls| >= 3
    ensures var start, one, two := SettledDisk(decls, 1), FrontierAt(decls, 1), FrontierAt(decls, 2);
      && InStep(decls, start, one, 1) && PreOrPost(decls, start, one)
      && EndsAs(decls, start, one, renamed, Ending(|Flat(decls[1])|, true, Unsettled))
      && renamed == Renamed(ReadyDisk(decls))
      && InStep(decls, ReadyDisk(decls), one, 1) && PreOrPost(decls, ReadyDisk(decls), one)
      && OpenOutcome(renamed) == Ok(two) && |renamed.bytes| == CHUNK_BYTES * two.leafCount
      && InStep(decls, renamed, two, 1) && !PreOrPost(decls, renamed, two)
      && EndsAs(decls, renamed, two, renamed, Ending(0, false, Unpublished(renamed.tmp, renamed.tmpSynced)))
      && PowerCut(renamed, cut) && OpenOutcome(cut) == Ok(one)
  {
    hide Flat, Concat, PeakList, PeakHeights, DataAt, Recoverable, EndsAs;
    var one, two := FrontierAt(decls, 1), FrontierAt(decls, 2);
    renamed := RenamedDisk(decls);
    SettledIsInStep(decls, 1);
    RenamedIsAnEnding(decls);
    RenamedIsInStep(decls);
    ReadyIsInStep(decls);
    OpenRecovers(decls, renamed, 1);
    StablePrefix(decls, renamed, 1);
    NoEffect(decls, renamed, two);
    cut := renamed.(visible := Whole(one), shadows := {});
    PowerCutKeeps(decls, renamed, cut, 1);
    OpenRecovers(decls, cut, 1);
  }

  // ---- Every interleaving ----

  /** A commit moves the visible frontier to its own nonce or not at all. */
  lemma EndingNonce(decls: seq<seq<Chunk>>, d: Disk, f: Frontier, d': Disk, e: Ending)
    requires EndsAs(decls, d, f, d', e)
    ensures NonceOf(d'.visible) in {NonceOf(d.visible), f.nonce + 1}
  {
  }

  /** How many commits were attempted. */
  function Attempts(script: seq<Event>): nat {
    if script == [] then 0
    else Attempts(script[..|script| - 1]) + if script[|script| - 1].CommitNext? then 1 else 0
  }

  /** Nothing is opened or acknowledged that no commit attempted. */
  ghost predicate Attempted(script: seq<Event>, log: seq<Outcome>)
    requires |log| <= |script|
  {
    forall i :: 0 <= i < |log| ==>
      (log[i].Opened? ==> log[i].frontier.nonce <= Attempts(script[..i])) &&
      (log[i].Acknowledged? ==> log[i].nonce <= Attempts(script[..i + 1]))
  }

  lemma EmptyLog(decls: seq<seq<Chunk>>, script: seq<Event>)
    ensures Consistent(decls, []) && AckedUpTo([], 0) && Attempted(script, [])
  {
  }

  lemma ExtendAttempted(script: seq<Event>, log: seq<Outcome>, o: Outcome)
    requires |log| < |script| && Attempted(script, log)
    requires o.Opened? ==> o.frontier.nonce <= Attempts(script[..|log|])
    requires o.Acknowledged? ==> o.nonce <= Attempts(script[..|log| + 1])
    ensures Attempted(script, log + [o])
  {
    hide Attempts;
  }

  /** Lose power, then open. */
  method CutAndReopen(device: Device, garbage: seq<Byte>, ghost decls: seq<seq<Chunk>>, ghost acked: nat)
    returns (store: Store?, o: Outcome)
    requires Feed(decls) && Recoverable(decls, device.d, acked)
    modifies device
    ensures Recoverable(decls, device.d, acked) && NonceOf(device.d.visible) <= NonceOf(old(device.d.visible))
    ensures Truthful(decls, o) && (o.Opened? || o.Refused?)
    ensures store != null ==> fresh(store) && store.device == device && store.Valid(decls, acked)
    ensures o.Opened? ==> acked <= o.frontier.nonce <= NonceOf(device.d.visible)
    ensures o.Refused? && o.error != Io ==> acked == 0
  {
    hide Flat, Concat, Recoverable, Feed, Truthful;
    StablePrefix(decls, device.d, acked);
    ghost var before := device.d;
    device.LosePower(garbage);
    PowerCutKeeps(decls, before, device.d, acked);
    store, o := Reopen(device, decls, acked);
  }

  /** A commit raises what is acknowledged or visible by at most its own declaration. */
  method CommitCounted(store: Store, decls: seq<seq<Chunk>>, ghost acked: nat) returns (o: Outcome)
    requires store.Valid(decls, acked) && store.frontier.nonce < |decls|
    modifies store`frontier, store.device
    ensures Truthful(decls, o) && (o.Nothing? || o.Acknowledged?)
    ensures store.Valid(decls, if o.Acknowledged? then o.nonce else acked)
    ensures Recoverable(decls, store.device.d, if o.Acknowledged? then o.nonce else acked)
    ensures old(store.device.d.bytes) <= store.device.d.bytes
    ensures NonceOf(store.device.d.visible) <= NonceOf(old(store.device.d.visible)) + 1
    ensures o.Acknowledged? ==> acked < o.nonce <= NonceOf(old(store.device.d.visible)) + 1
  {
    hide Flat, Concat, Recoverable, Feed, EndsAs, Faithful;
    ghost var was, frontier := store.device.d, store.frontier;
    ghost var ending;
    o, ending := CommitOwed(store, decls, acked);
    EndingNonce(decls, was, frontier, store.device.d, ending);
  }

  /**
   * Any script, any failures: the log is consistent. In particular every chunk ever served, through a
   * reader however old, is the declared one, and every reopening finds a frontier the chain declared, at
   * or past all that was acknowledged and within what was attempted.
   */
  method Run(device: Device, decls: seq<seq<Chunk>>, script: seq<Event>) returns (log: seq<Outcome>)
    requires Feed(decls) && device.d == Disk([], 0, Absent, {}, Absent, false)
    modifies device
    ensures |log| == |script| && Consistent(decls, log) && Attempted(script, log)
    ensures forall i :: 0 <= i < |log| ==> log[i].Served? ==> script[i].Read? && script[i].index == log[i].index
  {
    hide Flat, Concat, Recoverable, Faithful, Feed, InStep, Consistent, AckedUpTo, Attempted;
    log := [];
    FreshDisk(decls);
    EmptyLog(decls, script);
    ghost var acked: nat := 0;
    var store: Store? := null;
    var readers: seq<Reader> := [];
    var t := 0;
    while t < |script|
      invariant t == |log| <= |script| && Consistent(decls, log) && AckedUpTo(log, acked) && Attempted(script, log)
      invariant Recoverable(decls, device.d, acked) && NonceOf(device.d.visible) <= Attempts(script[..t])
      invariant store != null ==> fresh(store) && store.device == device && store.Valid(decls, acked)
      invariant store == null ==> readers == []
      invariant forall i :: 0 <= i < |readers| ==> CHUNK_BYTES * readers[i].leafCount <= |device.d.bytes|
      invariant forall i :: 0 <= i < |log| ==> log[i].Served? ==> script[i].Read? && script[i].index == log[i].index
    {
      var o := Nothing;
      assert script[..t + 1][..t] == script[..t];
      match script[t] {
        case Restart =>
          readers := [];
          store, o := Reopen(device, decls, acked);
        case PowerLoss(garbage) =>
          readers := [];
          store, o := CutAndReopen(device, garbage, decls, acked);
        case CommitNext =>
          if store != null && store.frontier.nonce < |decls| {
            o := CommitCounted(store, decls, acked);
          }
        case TakeReader =>
          if store != null {
            var reader := store.Snapshot();
            CommittedFits(decls, device.d, store.frontier, acked);
            readers := readers + [reader];
          }
        case Read(k, index) =>
          if k < |readers| {
            var r := ReadThrough(readers[k], device, index);
            if r.Ok? {
              if store != null { CleanBytes(decls, device.d, store.frontier, acked); }
              CommittedIsServed(decls, device.d, readers[k].leafCount, index);
              o := Served(index, r.value);
            }
          }
      }
      Extend(decls, log, o, acked);
      ExtendAttempted(script, log, o);
      log := log + [o];
      if o.Acknowledged? { acked := o.nonce; }
      t := t + 1;
    }
  }
}
