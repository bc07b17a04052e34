/**
 * What the contract tells the daemon. The events of every run are exactly what the daemon's guarantees assume
 * of them: the accepted declarations form a chain whose frontiers are the contract's own states, and the
 * openings and resolutions of challenges form a history that a full replay turns into the records still open.
 */
module Events {
  import opened Data
  import opened Bits
  import opened Decomposition
  import opened Forest
  import opened Packing
  import opened Disk
  import opened Store
  import opened Ingest
  import opened InstanceSpec
  import opened Solvency
  import opened Lifecycle
  import opened Runs
  import opened Effects
  import C = Crashes
  import F = Follower
  import L = Ledger

  /** The block of each transaction, in order, all after `floor`. */
  ghost predicate Mined(txs: seq<Tx>, blocks: seq<nat>, floor: nat) {
    |blocks| == |txs| &&
    (forall i :: 0 <= i < |blocks| ==> floor < blocks[i]) &&
    (forall i, j :: 0 <= i <= j < |blocks| ==> blocks[i] <= blocks[j])
  }

  // ---- Declarations ----

  /** The event of an accepted declaration. */
  function EventOf(d: Declaration, block: nat): DeclaredEvent {
    DeclaredEvent(d.nonce, d.newLeafCount, d.versionedHashes, d.roots, block)
  }

  ghost predicate Accepts(p: Params, s: State, tx: Tx)
    requires Stored(s)
  {
    tx.action.ADeclare? && Execute(p, s, tx.now, tx.action).Ok?
  }

  /** The declarations accepted in the first `n` transactions. */
  ghost function Updates(p: Params, states: seq<State>, txs: seq<Tx>, n: nat): (decls: seq<seq<Chunk>>)
    requires IsRun(p, states, txs) && n <= |txs|
  {
    if n == 0 then []
    else
      assert Step(p, states[n - 1], txs[n - 1], states[n - 1 + 1]);
      Updates(p, states, txs, n - 1) +
      if Accepts(p, states[n - 1], txs[n - 1]) then [txs[n - 1].action.chunks] else []
  }

  /** Their events. */
  ghost function Emitted(p: Params, states: seq<State>, txs: seq<Tx>, blocks: seq<nat>, n: nat)
    : (events: seq<DeclaredEvent>)
    requires IsRun(p, states, txs) && n <= |txs| == |blocks|
    ensures |events| == |Updates(p, states, txs, n)|
  {
    if n == 0 then []
    else
      assert Step(p, states[n - 1], txs[n - 1], states[n - 1 + 1]);
      Emitted(p, states, txs, blocks, n - 1) +
      if Accepts(p, states[n - 1], txs[n - 1]) then [EventOf(txs[n - 1].action.d, blocks[n - 1])] else []
  }

  lemma EmittedStep(p: Params, states: seq<State>, txs: seq<Tx>, blocks: seq<nat>, i: nat)
    requires IsRun(p, states, txs) && i < |txs| == |blocks|
    ensures Stored(states[i])
    ensures Accepts(p, states[i], txs[i]) ==>
      Updates(p, states, txs, i + 1) == Updates(p, states, txs, i) + [txs[i].action.chunks] &&
      Emitted(p, states, txs, blocks, i + 1)
        == Emitted(p, states, txs, blocks, i) + [EventOf(txs[i].action.d, blocks[i])] &&
      EventOf(txs[i].action.d, blocks[i]).block == blocks[i]
    ensures !Accepts(p, states[i], txs[i]) ==>
      Updates(p, states, txs, i + 1) == Updates(p, states, txs, i) &&
      Emitted(p, states, txs, blocks, i + 1) == Emitted(p, states, txs, blocks, i)
  {
    assert Step(p, states[i], txs[i], states[i + 1]);
    hide Execute, Accepts;
  }

  /** What an accepted declaration publishes is what its event says. */
  lemma AcceptedDeclares(p: Params, s: State, now: U64, d: Declaration, chunks: seq<Chunk>, block: nat)
    requires Stored(s) && Declare(p, s, now, d, chunks).Ok?
    ensures d.nonce == s.declarationNonce
    ensures Declares(p.blobHash, EventOf(d, block), s.leafCount, chunks)
    ensures var s' := Declare(p, s, now, d, chunks).value;
      s'.dataset == s.dataset + chunks && s'.declarationNonce == d.nonce + 1 && s'.leafCount == d.newLeafCount
  {
    hide CarryAll, Rehydrate, Canonical, RootsOf, Decompose, Span, BlobCount, PeakHeights, PackedUnder;
    DecomposeSpan(s.leafCount, d.newLeafCount - s.leafCount);
  }

  /** One more declaration, announced after all others. */
  lemma ChainExtends(vh: BlobHash, decls: seq<seq<Chunk>>, chain: seq<DeclaredEvent>, floor: nat,
                     chunks: seq<Chunk>, e: DeclaredEvent)
    requires F.Chain(vh, decls, chain, floor) && e.nonce == |decls| && floor < e.block
    requires Declares(vh, e, |Concat(decls)|, chunks)
    requires forall k :: 0 <= k < |chain| ==> chain[k].block <= e.block
    ensures F.Chain(vh, decls + [chunks], chain + [e], floor)
    ensures Concat(decls + [chunks]) == Concat(decls) + chunks
  {
    hide Declares, Concat;
    var more := decls + [chunks];
    forall k | 0 <= k <= |decls| ensures DataAt(more, k) == DataAt(decls, k) {
      assert more[..k] == decls[..k];
    }
    assert decls[..|decls|] == decls;
    DataGrows(more, |decls|, |decls|);
    assert more[..|decls| + 1] == more;
    forall k | 0 <= k < |more| ensures Genuine(vh, more, (chain + [e])[k]) {
      if k < |chain| { assert Genuine(vh, decls, chain[k]); }
    }
  }

  /** A chain declares no empty update. */
  lemma ChainFeeds(vh: BlobHash, decls: seq<seq<Chunk>>, chain: seq<DeclaredEvent>, floor: nat)
    requires F.Chain(vh, decls, chain, floor) && |Concat(decls)| < U64_LIMIT
    ensures Feed(decls)
  {
    hide Concat, CommitsTo, PackedUnder;
    forall k | 0 <= k < |decls| ensures decls[k] != [] { assert Genuine(vh, decls, chain[k]); }
  }

  lemma RejectedStep(p: Params, s: State, tx: Tx, s': State)
    requires Inv(p, s) && Step(p, s, tx, s') && !Accepts(p, s, tx)
    ensures s'.dataset == s.dataset && s'.declarationNonce == s.declarationNonce
  {
    hide Execute, Inv;
    if Execute(p, s, tx.now, tx.action).Ok? { Frames(p, s, tx.now, tx.action); }
  }

  /** What one transaction does to the published data. */
  lemma DataStep(p: Params, s: State, tx: Tx, s': State, block: nat)
    requires Inv(p, s) && Step(p, s, tx, s')
    ensures !Accepts(p, s, tx) ==> s'.dataset == s.dataset && s'.declarationNonce == s.declarationNonce
    ensures Accepts(p, s, tx) ==>
      var d, chunks := tx.action.d, tx.action.chunks;
      d.nonce == s.declarationNonce && Declares(p.blobHash, EventOf(d, block), |s.dataset|, chunks) &&
      s'.dataset == s.dataset + chunks && s'.declarationNonce == d.nonce + 1
  {
    hide Declares, Declare;
    assert s.leafCount == |s.dataset|;
    hide Inv;
    if Accepts(p, s, tx) {
      AcceptedDeclares(p, s, tx.now, tx.action.d, tx.action.chunks, block);
    } else {
      RejectedStep(p, s, tx, s');
    }
  }

  lemma NoData()
    ensures Concat([]) == [] && Feed([])
  {
  }

  /** The stored tree of a state is the frontier over its data. */
  lemma StateIsFrontier(p: Params, s: State, decls: seq<seq<Chunk>>)
    requires Inv(p, s) && |decls| == s.declarationNonce && Concat(decls) == s.dataset
    ensures |Concat(decls)| < U64_LIMIT
    ensures FrontierAt(decls, |decls|) == Frontier(s.declarationNonce, s.leafCount, s.peaks)
  {
    hide Concat, PeakList;
    assert decls[..|decls|] == decls;
  }

  /**
   * The events up to block `last` announce exactly the data of state `s`: they form a chain, and the frontier
   * after all of them is the contract's own nonce, leaf count and peaks.
   */
  ghost predicate Announced(p: Params, s: State, decls: seq<seq<Chunk>>, chain: seq<DeclaredEvent>,
                            floor: nat, last: nat) {
    F.Chain(p.blobHash, decls, chain, floor) && Feed(decls) &&
    (forall k :: 0 <= k < |chain| ==> chain[k].block <= last) &&
    |decls| == s.declarationNonce && Concat(decls) == s.dataset &&
    FrontierAt(decls, |decls|) == Frontier(s.declarationNonce, s.leafCount, s.peaks)
  }

  lemma AnnounceNext(p: Params, s: State, tx: Tx, s': State, decls: seq<seq<Chunk>>, chain: seq<DeclaredEvent>,
                     floor: nat, last: nat, block: nat)
    requires Inv(p, s) && Inv(p, s') && Step(p, s, tx, s') && Accepts(p, s, tx)
    requires Announced(p, s, decls, chain, floor, last) && floor < block && last <= block
    ensures Announced(p, s', decls + [tx.action.chunks], chain + [EventOf(tx.action.d, block)], floor, block)
  {
    hide Declares, Concat, Genuine, FrontierAt, Inv, Step, Feed, Execute, F.Chain;
    DataStep(p, s, tx, s', block);
    var more, longer := decls + [tx.action.chunks], chain + [EventOf(tx.action.d, block)];
    ChainExtends(p.blobHash, decls, chain, floor, tx.action.chunks, EventOf(tx.action.d, block));
    StateIsFrontier(p, s', more);
    ChainFeeds(p.blobHash, more, longer, floor);
  }

  lemma AnnounceNone(p: Params, s: State, tx: Tx, s': State, decls: seq<seq<Chunk>>, chain: seq<DeclaredEvent>,
                     floor: nat, last: nat, block: nat)
    requires Inv(p, s) && Inv(p, s') && Step(p, s, tx, s') && !Accepts(p, s, tx)
    requires Announced(p, s, decls, chain, floor, last) && last <= block
    ensures Announced(p, s', decls, chain, floor, block)
  {
    hide Declares, Concat, Genuine, FrontierAt, Inv, Step, Feed, Accepts, F.Chain;
    DataStep(p, s, tx, s', block);
    StateIsFrontier(p, s', decls);
  }

  lemma AnnounceNothing(p: Params, s: State, floor: nat)
    requires Inv(p, s) && s.dataset == [] && s.declarationNonce == 0
    ensures Announced(p, s, [], [], floor, floor)
  {
    hide Inv, FrontierAt;
    NoData();
    StateIsFrontier(p, s, []);
  }

  /** The block of the last of the first `n` transactions. */
  function LastBlock(blocks: seq<nat>, floor: nat, n: nat): nat
    requires n <= |blocks|
  {
    if n == 0 then floor else blocks[n - 1]
  }

  lemma Sizes(p: Params, states: seq<State>, txs: seq<Tx>, blocks: seq<nat>, floor: nat)
    requires IsRun(p, states, txs) && Mined(txs, blocks, floor)
    ensures |states| == |txs| + 1 && |blocks| == |txs|
  {
  }

  lemma NothingYet(p: Params, states: seq<State>, txs: seq<Tx>, blocks: seq<nat>, floor: nat)
    requires IsRun(p, states, txs) && |txs| == |blocks|
    ensures Updates(p, states, txs, 0) == [] && Emitted(p, states, txs, blocks, 0) == []
    ensures states[0].dataset == [] && states[0].declarationNonce == 0 && LastBlock(blocks, floor, 0) == floor
  {
    hide Step, Execute, Accepts;
  }

  lemma InOrder(txs: seq<Tx>, blocks: seq<nat>, floor: nat, i: nat)
    requires Mined(txs, blocks, floor) && i < |txs|
    ensures floor < blocks[i] == LastBlock(blocks, floor, i + 1) && LastBlock(blocks, floor, i) <= blocks[i]
  {
  }

  /**
   * The accepted declarations of every run form a chain: numbered from zero without a gap, each event genuine,
   * none before deployment, in block order. The frontier after all of them is the contract's own state.
   */
  lemma {:induction false} DeclarationsFormAChain(p: Params, states: seq<State>, txs: seq<Tx>, blocks: seq<nat>,
                                                  floor: nat, n: nat)
    requires IsRun(p, states, txs) && Mined(txs, blocks, floor) && n <= |txs|
    ensures Announced(p, states[n], Updates(p, states, txs, n), Emitted(p, states, txs, blocks, n), floor,
                      LastBlock(blocks, floor, n))
  {
    hide *;
    Sizes(p, states, txs, blocks, floor);
    RunKeeps(p, states, txs, n);
    if n == 0 {
      NothingYet(p, states, txs, blocks, floor);
      AnnounceNothing(p, states[0], floor);
    } else {
      var i := n - 1;
      DeclarationsFormAChain(p, states, txs, blocks, floor, i);
      RunKeeps(p, states, txs, i);
      StepAt(p, states, txs, i);
      EmittedStep(p, states, txs, blocks, i);
      InOrder(txs, blocks, floor, i);
      var decls, chain := Updates(p, states, txs, i), Emitted(p, states, txs, blocks, i);
      var last := LastBlock(blocks, floor, i);
      if Accepts(p, states[i], txs[i]) {
        AnnounceNext(p, states[i], txs[i], states[n], decls, chain, floor, last, blocks[i]);
      } else {
        AnnounceNone(p, states[i], txs[i], states[n], decls, chain, floor, last, blocks[i]);
      }
    }
  }

  lemma BlocksRise(txs: seq<Tx>, blocks: seq<nat>, floor: nat, i: nat, j: nat)
    requires Mined(txs, blocks, floor) && i <= j < |txs|
    ensures |blocks| == |txs| && blocks[i] <= blocks[j]
  {
  }

  /** Later transactions only add events, in later blocks. */
  lemma {:induction false} EmittedGrows(p: Params, states: seq<State>, txs: seq<Tx>, blocks: seq<nat>, floor: nat,
                                        n: nat, m: nat)
    requires IsRun(p, states, txs) && Mined(txs, blocks, floor) && n <= m <= |txs|
    ensures Updates(p, states, txs, n) <= Updates(p, states, txs, m)
    ensures Emitted(p, states, txs, blocks, n) <= Emitted(p, states, txs, blocks, m)
    ensures forall k :: |Emitted(p, states, txs, blocks, n)| <= k < |Emitted(p, states, txs, blocks, m)| ==>
      n < m && blocks[n] <= Emitted(p, states, txs, blocks, m)[k].block
    decreases m - n
  {
    hide *;
    Sizes(p, states, txs, blocks, floor);
    if n < m {
      EmittedGrows(p, states, txs, blocks, floor, n, m - 1);
      EmittedStep(p, states, txs, blocks, m - 1);
      BlocksRise(txs, blocks, floor, n, m - 1);
    }
  }

  lemma FrontierOfPrefix(decls: seq<seq<Chunk>>, more: seq<seq<Chunk>>)
    requires decls <= more
    ensures FrontierAt(more, |decls|) == FrontierAt(decls, |decls|)
  {
    hide Concat, PeakList;
    assert more[..|decls|] == decls[..|decls|];
  }

  /** Every state the contract was ever in is the frontier at its nonce. */
  lemma EveryStateIsAFrontier(p: Params, states: seq<State>, txs: seq<Tx>, blocks: seq<nat>, floor: nat,
                              i: nat, n: nat)
    requires IsRun(p, states, txs) && Mined(txs, blocks, floor) && i <= n <= |txs|
    ensures var decls, s := Updates(p, states, txs, n), states[i];
      s.declarationNonce <= |decls| &&
      FrontierAt(decls, s.declarationNonce) == Frontier(s.declarationNonce, s.leafCount, s.peaks)
  {
    hide F.Chain, Feed, FrontierAt, Updates, Emitted, Concat;
    DeclarationsFormAChain(p, states, txs, blocks, floor, i);
    EmittedGrows(p, states, txs, blocks, floor, i, n);
    FrontierOfPrefix(Updates(p, states, txs, i), Updates(p, states, txs, n));
  }

  /** `n` transactions are in blocks up to `b`. */
  ghost predicate UpTo(blocks: seq<nat>, n: nat, b: nat) {
    n <= |blocks| && (forall i :: 0 <= i < n ==> blocks[i] <= b) && (forall i :: n <= i < |blocks| ==> b < blocks[i])
  }

  /** The contract's nonce at a block is the number of events up to it. */
  lemma NonceAtBlock(p: Params, states: seq<State>, txs: seq<Tx>, blocks: seq<nat>, floor: nat, n: nat, b: nat)
    requires IsRun(p, states, txs) && Mined(txs, blocks, floor) && UpTo(blocks, n, b) && floor <= b
    ensures n <= |txs| && F.DeclaredBy(Emitted(p, states, txs, blocks, |txs|), b) == states[n].declarationNonce
  {
    hide Updates, Emitted, Concat, Feed, FrontierAt, Genuine, IsRun;
    Sizes(p, states, txs, blocks, floor);
    DeclarationsFormAChain(p, states, txs, blocks, floor, n);
    DeclarationsFormAChain(p, states, txs, blocks, floor, |txs|);
    EmittedGrows(p, states, txs, blocks, floor, n, |txs|);
    var chain, count := Emitted(p, states, txs, blocks, |txs|), states[n].declarationNonce;
    var counted: nat := F.DeclaredBy(chain, b);
    if counted < count { F.DeclaredByIsCount(chain, b, counted); }
    if count < counted { F.DeclaredByIsCount(chain, b, count); }
  }

  // ---- The root check ----

  /** More declarations, more chunks. */
  lemma DataStrictlyGrows(decls: seq<seq<Chunk>>, k: nat, l: nat)
    requires Feed(decls) && k < l <= |decls|
    ensures |DataAt(decls, k)| < |DataAt(decls, l)|
  {
    hide Concat;
    DataGrows(decls, k, k + 1);
    DataGrows(decls, k + 1, l);
  }

  /**
   * Against the contract's answer at block `b`, a store that holds the first `k` declarations passes the root
   * check exactly when `k` is the number declared by then. A store that is ahead of the node's block fails it
   * as one that is behind does.
   */
  lemma RootCheckExactly(p: Params, states: seq<State>, txs: seq<Tx>, blocks: seq<nat>, floor: nat,
                         n: nat, b: nat, k: nat)
    requires IsRun(p, states, txs) && Mined(txs, blocks, floor) && UpTo(blocks, n, b) && floor <= b
    requires k <= |Updates(p, states, txs, |txs|)|
    ensures n <= |txs|
    ensures var f := FrontierAt(Updates(p, states, txs, |txs|), k);
      (states[n].leafCount, CurrentRoot(states[n])) == (f.leafCount, Root(f.leafCount, f.peaks)) <==>
      k == F.DeclaredBy(Emitted(p, states, txs, blocks, |txs|), b)
  {
    hide Updates, Emitted, Concat, F.Chain, F.DeclaredBy, PeakList, DataAt, Feed;
    NonceAtBlock(p, states, txs, blocks, floor, n, b);
    EveryStateIsAFrontier(p, states, txs, blocks, floor, n, |txs|);
    DeclarationsFormAChain(p, states, txs, blocks, floor, |txs|);
    var decls, at := Updates(p, states, txs, |txs|), states[n].declarationNonce;
    if k < at { DataStrictlyGrows(decls, k, at); }
    if at < k { DataStrictlyGrows(decls, at, k); }
  }

  lemma InStepIsRecoverable(decls: seq<seq<Chunk>>, d: Disk, f: Frontier, acked: nat)
    requires InStep(decls, d, f, acked)
    ensures Feed(decls) && Recoverable(decls, d, acked)
  {
  }

  /**
   * So the alarm can be false: a store that holds everything declared, settled on disk and in step with the
   * chain, fails the check against any earlier block. The guard on the cursor does not exclude it when a
   * commit was not followed by a written cursor.
   */
  lemma LaggingNodeAlarms(p: Params, states: seq<State>, txs: seq<Tx>, blocks: seq<nat>, floor: nat, n: nat, b: nat)
    requires IsRun(p, states, txs) && Mined(txs, blocks, floor) && UpTo(blocks, n, b) && floor <= b
    requires n <= |txs| && states[n].declarationNonce < |Updates(p, states, txs, |txs|)|
    ensures var decls, k := Updates(p, states, txs, |txs|), |Updates(p, states, txs, |txs|)|;
      var f := FrontierAt(decls, k);
      InStep(decls, C.SettledDisk(decls, k), f, k) && OpenOutcome(C.SettledDisk(decls, k)) == Ok(f) &&
      (states[n].leafCount, CurrentRoot(states[n])) != (f.leafCount, Root(f.leafCount, f.peaks))
  {
    hide Updates, Emitted, Concat, F.Chain, F.DeclaredBy, PeakList, DataAt, Feed, PeakHeights, Flat;
    var decls := Updates(p, states, txs, |txs|);
    RootCheckExactly(p, states, txs, blocks, floor, n, b, |decls|);
    NonceAtBlock(p, states, txs, blocks, floor, n, b);
    DeclarationsFormAChain(p, states, txs, blocks, floor, |txs|);
    C.SettledIsInStep(decls, |decls|);
    OpenRecovers(decls, C.SettledDisk(decls, |decls|), |decls|);
  }

  /**
   * Such a start: the process died after a commit and before its cursor was written, the next one opens the store
   * and reads the older cursor `b`, and its node answers for block `b`.
   */
  method RestartBeforeCursor(d: Disk, deploymentBlock: nat, logPage: nat, b: nat, answer: (nat, Hash), p: Params,
                             ghost states: seq<State>, ghost txs: seq<Tx>, ghost blocks: seq<nat>, ghost floor: nat,
                             ghost n: nat)
    returns (reopened: bool, alarmed: bool)
    requires IsRun(p, states, txs) && Mined(txs, blocks, floor) && UpTo(blocks, n, b) && floor <= b && n <= |txs|
    requires states[n].declarationNonce < |Updates(p, states, txs, |txs|)| && 1 <= logPage < F.BLOCK_LIMIT
    requires d == C.SettledDisk(Updates(p, states, txs, |txs|), |Updates(p, states, txs, |txs|)|)
    requires answer == (states[n].leafCount, CurrentRoot(states[n]))
    ensures alarmed <==> reopened
  {
    hide Updates, Emitted, Concat, F.Chain, F.DeclaredBy, PeakList, DataAt, Feed, PeakHeights, Flat, Recoverable;
    ghost var decls := Updates(p, states, txs, |txs|);
    LaggingNodeAlarms(p, states, txs, blocks, floor, n, b);
    InStepIsRecoverable(decls, d, FrontierAt(decls, |decls|), |decls|);
    var device := new Device(d);
    var r := Store.Open(device, decls, |decls|);
    if r.Err? { return false, false; }
    var ingestor := new Ingestor(r.value);
    var follower := new F.Follower(ingestor, deploymentBlock, logPage, Some(b));
    var check;
    check, alarmed := follower.CheckRoot(b, Some(answer), decls, |decls|);
    reopened := true;
  }

  /**
   * One poll of the daemon against a run of the contract: scan, then check the root against the contract's own
   * answer at the finalized block. Under complete pages a scan that goes through leaves the store at or past the
   * contract's state of that block; and the alarm sounds exactly when the store is at another nonce.
   */
  method Poll(follower: F.Follower, finalized: nat, answer: (nat, Hash), feed: F.LogFeed, sources: F.SourceFeed,
              p: Params, ghost states: seq<State>, ghost txs: seq<Tx>, ghost blocks: seq<nat>, ghost n: nat,
              ghost acked: nat)
    returns (scan: Result<(), F.FollowerError>, alarmed: bool, ghost acked': nat)
    requires IsRun(p, states, txs) && Mined(txs, blocks, follower.floor)
    requires UpTo(blocks, n, finalized) && n <= |txs| && follower.floor <= finalized
    requires answer == (states[n].leafCount, CurrentRoot(states[n]))
    requires follower.Valid(Updates(p, states, txs, |txs|), acked) && finalized + follower.logPage <= U64_LIMIT
    requires follower.CaughtUp(Emitted(p, states, txs, blocks, |txs|))
    requires F.Authentic(Emitted(p, states, txs, blocks, |txs|), feed)
    requires F.Complete(Emitted(p, states, txs, blocks, |txs|), feed)
    modifies follower, follower.ingestor.store`frontier, follower.ingestor.store.device
    ensures follower.Valid(Updates(p, states, txs, |txs|), acked') && acked <= acked'
    ensures follower.CaughtUp(Emitted(p, states, txs, blocks, |txs|))
    ensures scan.Ok? ==> states[n].declarationNonce <= follower.ingestor.store.frontier.nonce
    ensures alarmed <==>
      finalized >= follower.cursor && follower.ingestor.store.frontier.nonce != states[n].declarationNonce
  {
    hide Updates, Emitted, Concat, F.Chain, F.DeclaredBy, PeakList, DataAt, Feed, F.Complete, F.Authentic, Recoverable;
    ghost var decls, chain := Updates(p, states, txs, |txs|), Emitted(p, states, txs, blocks, |txs|);
    DeclarationsFormAChain(p, states, txs, blocks, follower.floor, |txs|);
    NonceAtBlock(p, states, txs, blocks, follower.floor, n, finalized);
    scan, acked' := follower.ScanDeclared(p.blobHash, finalized, feed, sources, decls, chain, acked);
    var check;
    check, alarmed := follower.CheckRoot(finalized, Some(answer), decls, acked');
    RootCheckExactly(p, states, txs, blocks, follower.floor, n, finalized, follower.ingestor.store.frontier.nonce);
  }

  // ---- Challenges ----

  /** What the opening of a record announces. */
  function OpeningOf(p: Params, id: nat, c: Challenge): L.OpenChallenge {
    L.OpenChallenge(id, c.indices, c.pinnedRoot, c.pinnedLeafCount, c.openedAt + p.responseWindow, None)
  }

  /** The challenge events of one transaction from `s` to `s'`. */
  ghost function Announces(p: Params, s: State, tx: Tx, s': State): (events: seq<L.Event>)
    requires Stored(s)
  {
    if Execute(p, s, tx.now, tx.action).Err? then []
    else
      match tx.action
      case AChallenge(_, _, _, pid, _) =>
        if s.nextChallengeId in s'.challenges
        then [L.Opened(pid, OpeningOf(p, s.nextChallengeId, s'.challenges[s.nextChallengeId]))] else []
      case ARespond(_, id, _, _, _, _, _) => [L.Resolved(id, false)]
      case ATimeout(id, _) =>
        [L.Resolved(id, id in s.challenges && s.challenges[id].providerId in s.providers &&
                        !s.providers[s.challenges[id].providerId].status.Slashed?)]
      case _ => []
  }

  /** All challenge events of the first `n` transactions. */
  ghost function ChallengeEvents(p: Params, states: seq<State>, txs: seq<Tx>, n: nat): (events: seq<L.Event>)
    requires IsRun(p, states, txs) && n <= |txs|
  {
    if n == 0 then []
    else
      assert Step(p, states[n - 1], txs[n - 1], states[n - 1 + 1]);
      ChallengeEvents(p, states, txs, n - 1) + Announces(p, states[n - 1], txs[n - 1], states[n])
  }

  predicate Tells(p: Params, s: State, e: L.Event) {
    match e
    case Opened(provider, c) =>
      c.id in s.challenges && provider == s.challenges[c.id].providerId && c == OpeningOf(p, c.id, s.challenges[c.id])
    case Resolved(id, _) => id in s.challenges && s.challenges[id].resolved
  }

  lemma ChallengeHasProvider(p: Params, s: State, now: U64, id: nat, push: bool)
    requires Stored(s) && Execute(p, s, now, ATimeout(id, push)).Ok?
    ensures id in s.challenges && s.challenges[id].providerId in s.providers
  {
  }

  /** A resolution is announced as timed out exactly when it is the one that slashes. */
  lemma TimeoutIsAnnounced(p: Params, s: State, tx: Tx, s': State)
    requires Inv(p, s) && Step(p, s, tx, s') && tx.action.ATimeout? && Execute(p, s, tx.now, tx.action).Ok?
    ensures tx.action.id in s.challenges && s.challenges[tx.action.id].providerId in s.providers
    ensures s.challenges[tx.action.id].providerId in s'.providers
    ensures var pid := s.challenges[tx.action.id].providerId;
      Announces(p, s, tx, s') == [L.Resolved(tx.action.id,
        !s.providers[pid].status.Slashed? && s'.providers[pid].status.Slashed?)]
  {
    hide Execute, Inv;
    RecordsMove(p, s, tx.now, tx.action);
    ChallengeHasProvider(p, s, tx.now, tx.action.id, tx.action.push);
  }

  /** The events say exactly what the records are. */
  ghost predicate Told(p: Params, s: State, events: seq<L.Event>) {
    L.History(events) &&
    (forall i :: 0 <= i < |events| ==> Tells(p, s, events[i])) &&
    (forall id :: id in s.challenges ==> L.OpenedIn(s.challenges[id].providerId, events, id)) &&
    (forall id :: id in s.challenges && s.challenges[id].resolved ==> L.ResolvedIn(events, id))
  }

  lemma OpenedStays(ours: nat, events: seq<L.Event>, e: L.Event, id: nat)
    requires L.OpenedIn(ours, events, id)
    ensures L.OpenedIn(ours, events + [e], id)
  {
    var i :| 0 <= i < |events| && L.OpensOurs(ours, events[i], id);
    assert (events + [e])[i] == events[i];
  }

  lemma ResolvedStays(events: seq<L.Event>, e: L.Event, id: nat)
    requires L.ResolvedIn(events, id)
    ensures L.ResolvedIn(events + [e], id)
  {
    var i :| 0 <= i < |events| && events[i].Resolved? && events[i].id == id;
    assert (events + [e])[i] == events[i];
  }

  lemma ToldOpening(p: Params, s: State, s': State, events: seq<L.Event>, c: Challenge)
    requires Told(p, s, events) && s.nextChallengeId !in s.challenges && !c.resolved
    requires s'.challenges == s.challenges[s.nextChallengeId := c]
    ensures Told(p, s', events + [L.Opened(c.providerId, OpeningOf(p, s.nextChallengeId, c))])
  {
    var e := L.Opened(c.providerId, OpeningOf(p, s.nextChallengeId, c));
    var all, next := events + [e], s.nextChallengeId;
    assert all[|events|] == e && L.OpensOurs(c.providerId, e, next);
    forall i | 0 <= i < |events| ensures Tells(p, s', all[i]) { assert Tells(p, s, events[i]); }
    forall id | id in s'.challenges ensures L.OpenedIn(s'.challenges[id].providerId, all, id) {
      if id != next { OpenedStays(s.challenges[id].providerId, events, e, id); }
    }
    forall id | id in s'.challenges && s'.challenges[id].resolved ensures L.ResolvedIn(all, id) {
      ResolvedStays(events, e, id);
    }
    forall i, j | 0 <= i < |all| && 0 <= j < |all| && L.Resolves(all[i], all[j]) ensures i < j {
      if j < |events| { assert Tells(p, s, events[j]); }
    }
    forall i, j | 0 <= i < j < |all| && all[i].Opened? && all[j].Opened?
      ensures all[i].challenge.id != all[j].challenge.id
    {
      assert Tells(p, s, events[i]);
    }
  }

  /** A resolution may follow anything. */
  lemma HistoryGoesOn(events: seq<L.Event>, id: nat, timedOut: bool)
    requires L.History(events)
    ensures L.History(events + [L.Resolved(id, timedOut)])
  {
  }

  lemma ToldResolution(p: Params, s: State, s': State, events: seq<L.Event>, id: nat, timedOut: bool)
    requires Told(p, s, events) && id in s.challenges
    requires s'.challenges == s.challenges[id := s.challenges[id].(resolved := true)]
    ensures Told(p, s', events + [L.Resolved(id, timedOut)])
  {
    var e := L.Resolved(id, timedOut);
    var all := events + [e];
    assert all[|events|] == e;
    HistoryGoesOn(events, id, timedOut);
    hide L.History, L.OpenedIn;
    forall i | 0 <= i < |events| ensures Tells(p, s', all[i]) { assert Tells(p, s, events[i]); }
    forall k | k in s'.challenges ensures L.OpenedIn(s'.challenges[k].providerId, all, k) {
      OpenedStays(s.challenges[k].providerId, events, e, k);
    }
    forall k | k in s'.challenges && s'.challenges[k].resolved ensures L.ResolvedIn(all, k) {
      if k != id { ResolvedStays(events, e, k); }
    }
  }

  /** The records after a successful challenge, response or timeout. */
  lemma RecordsAfter(p: Params, s: State, now: U64, a: Action)
    requires Inv(p, s) && Stored(s) && Execute(p, s, now, a).Ok?
    ensures var s' := Execute(p, s, now, a).value;
      match a
      case AChallenge(_, _, _, pid, _) =>
        exists c: Challenge :: !c.resolved && c.providerId == pid &&
          s'.challenges == s.challenges[s.nextChallengeId := c]
      case ARespond(_, id, _, _, _, _, _) =>
        id in s.challenges && s'.challenges == s.challenges[id := s.challenges[id].(resolved := true)]
      case ATimeout(id, _) =>
        id in s.challenges && s'.challenges == s.challenges[id := s.challenges[id].(resolved := true)]
      case _ => s'.challenges == s.challenges
  {
    if a.AChallenge? || a.ARespond? {
      hide Inv, ProofsVerify, RequiredBond;
    } else if a.ATimeout? {
      hide Inv, Bounty, ResolveTimeout;
      var before := TimeoutShape(p, s, now, a.id, a.push);
    } else {
      hide Execute, Inv;
      Frames(p, s, now, a);
    }
  }

  lemma NextChallengeIsFree(p: Params, s: State)
    requires Inv(p, s)
    ensures s.nextChallengeId !in s.challenges
  {
  }

  lemma SameRecords(p: Params, s: State, s': State, events: seq<L.Event>)
    requires Told(p, s, events) && s'.challenges == s.challenges
    ensures Told(p, s', events + [])
  {
    hide L.History, L.OpenedIn, L.ResolvedIn;
    assert events + [] == events;
    forall i | 0 <= i < |events| ensures Tells(p, s', events[i]) { assert Tells(p, s, events[i]); }
  }

  lemma ToldStep(p: Params, s: State, tx: Tx, s': State, events: seq<L.Event>)
    requires Inv(p, s) && Step(p, s, tx, s') && Told(p, s, events)
    ensures Told(p, s', events + Announces(p, s, tx, s'))
  {
    hide Told, Execute, Inv, Tells;
    if Execute(p, s, tx.now, tx.action).Ok? {
      RecordsAfter(p, s, tx.now, tx.action);
      match tx.action
      case AChallenge(_, _, _, pid, _) =>
        NextChallengeIsFree(p, s);
        var c: Challenge :| !c.resolved && c.providerId == pid &&
          s'.challenges == s.challenges[s.nextChallengeId := c];
        ToldOpening(p, s, s', events, c);
      case ARespond(_, id, _, _, _, _, _) =>
        ToldResolution(p, s, s', events, id, false);
      case ATimeout(id, _) =>
        ToldResolution(p, s, s', events, id, Announces(p, s, tx, s')[0].timedOut);
      case _ =>
        SameRecords(p, s, s', events);
    } else {
      SameRecords(p, s, s', events);
    }
  }

  lemma ChallengeEventsStep(p: Params, states: seq<State>, txs: seq<Tx>, n: nat)
    requires IsRun(p, states, txs) && n <= |txs|
    ensures n == 0 ==> ChallengeEvents(p, states, txs, n) == [] && states[n].challenges == map[]
    ensures n > 0 ==> Stored(states[n - 1])
    ensures n > 0 ==>
      ChallengeEvents(p, states, txs, n)
        == ChallengeEvents(p, states, txs, n - 1) + Announces(p, states[n - 1], txs[n - 1], states[n])
  {
    if n > 0 { assert Step(p, states[n - 1], txs[n - 1], states[n - 1 + 1]); }
    hide Execute, Announces;
  }

  lemma NothingTold(p: Params, s: State)
    requires s.challenges == map[]
    ensures Told(p, s, [])
  {
  }

  /**
   * The challenge events of every run form a history, and they say exactly what the records are: each record
   * was opened against its provider with its own index set, pin and deadline, and is resolved exactly when a
   * resolution was announced.
   */
  lemma {:induction false} ChallengesFormAHistory(p: Params, states: seq<State>, txs: seq<Tx>, n: nat)
    requires IsRun(p, states, txs) && n <= |txs|
    ensures |states| == |txs| + 1 && Told(p, states[n], ChallengeEvents(p, states, txs, n))
  {
    hide *;
    RunLength(p, states, txs);
    ChallengeEventsStep(p, states, txs, n);
    if n == 0 {
      NothingTold(p, states[0]);
    } else {
      ChallengesFormAHistory(p, states, txs, n - 1);
      RunKeeps(p, states, txs, n - 1);
      StepAt(p, states, txs, n - 1);
      ToldStep(p, states[n - 1], txs[n - 1], states[n], ChallengeEvents(p, states, txs, n - 1));
    }
  }

  /** The ids open on chain against one provider. */
  ghost function OpenOnChain(s: State, ours: nat, n: nat): set<nat> {
    set id | id in s.challenges && id < n && !s.challenges[id].resolved && s.challenges[id].providerId == ours
  }

  lemma OpenCountStep(cs: map<nat, Challenge>, n: nat, pid: nat)
    ensures OpenCount(cs, n, pid) == if n == 0 then 0 else OpenCount(cs, n - 1, pid) + OpenOf(cs, pid, n - 1)
  {
  }

  lemma OpenOnChainStep(s: State, ours: nat, n: nat)
    ensures n == 0 ==> OpenOnChain(s, ours, n) == {}
    ensures n > 0 ==> n - 1 !in OpenOnChain(s, ours, n - 1)
    ensures n > 0 ==>
      OpenOnChain(s, ours, n)
        == OpenOnChain(s, ours, n - 1) + if OpenOf(s.challenges, ours, n - 1) == 1 then {n - 1} else {}
    ensures n > 0 ==> OpenOf(s.challenges, ours, n - 1) <= 1
  {
  }

  lemma {:induction false} OpenOnChainIsCounted(s: State, ours: nat, n: nat)
    ensures |OpenOnChain(s, ours, n)| == OpenCount(s.challenges, n, ours)
  {
    hide *;
    OpenCountStep(s.challenges, n, ours);
    OpenOnChainStep(s, ours, n);
    if n > 0 { OpenOnChainIsCounted(s, ours, n - 1); }
  }

  lemma AllNumbered(p: Params, s: State, ours: nat)
    requires Inv(p, s)
    ensures forall id :: id in s.challenges ==> id < s.nextChallengeId
    ensures ours in s.providers ==> s.providers[ours].openChallenges == OpenCount(s.challenges, s.nextChallengeId, ours)
  {
    if ours in s.providers { assert Counted(s, ours); }
  }

  /** A ledger entry that holds the index set, the pin and the deadline of the record, answered or not. */
  predicate MatchesRecord(p: Params, id: nat, c: Challenge, entry: L.OpenChallenge) {
    entry.id == id && entry.indices == c.indices && entry.pinnedRoot == c.pinnedRoot &&
    entry.pinnedLeafCount == c.pinnedLeafCount && entry.deadline == c.openedAt + p.responseWindow
  }

  lemma ReplayedIsOpen(p: Params, s: State, events: seq<L.Event>, ours: nat, hs: seq<L.Happening>)
    requires Told(p, s, events) && L.Feeds(events, hs)
    ensures var done := L.Replay(ours, L.AfterAll(ours, hs), events);
      && (forall id :: id in done <==>
            id in s.challenges && s.challenges[id].providerId == ours && !s.challenges[id].resolved)
      && (forall id :: id in done ==> MatchesRecord(p, id, s.challenges[id], done[id]))
  {
    hide L.History, L.Replay, L.AfterAll, L.Feeds;
    var start := L.AfterAll(ours, hs);
    var done := L.Replay(ours, start, events);
    L.ReplayConverges(ours, events, hs);
    L.ReachedFromHistory(ours, events, hs);
    forall id: nat
      ensures L.OpenedIn(ours, events, id) && !L.ResolvedIn(events, id) <==>
        id in s.challenges && s.challenges[id].providerId == ours && !s.challenges[id].resolved
    {
      if L.OpenedIn(ours, events, id) {
        var i :| 0 <= i < |events| && L.OpensOurs(ours, events[i], id);
        assert Tells(p, s, events[i]);
      }
      if L.ResolvedIn(events, id) {
        var i :| 0 <= i < |events| && events[i].Resolved? && events[i].id == id;
        assert Tells(p, s, events[i]);
      }
    }
    forall id | id in done ensures MatchesRecord(p, id, s.challenges[id], done[id]) {
      if id in start {
        assert L.Recorded(ours, events, id, start[id]);
        var i :| 0 <= i < |events| && L.OpensOurs(ours, events[i], id) &&
          start[id] == events[i].challenge.(respondedTx := start[id].respondedTx);
        assert Tells(p, s, events[i]);
      } else {
        var i :| 0 <= i < |events| && L.OpensOurs(ours, events[i], id);
        assert Tells(p, s, events[i]);
      }
    }
  }

  /**
   * A rescan makes the daemon's ledger the contract's records. From a ledger reached in any way, with any events
   * dropped, a replay of the run's events leaves exactly the challenges open on chain against this provider,
   * each with the record's index set, pin and deadline, and as many as the contract counts.
   */
  lemma RescanFindsTheOpen(p: Params, states: seq<State>, txs: seq<Tx>, n: nat, ours: nat, hs: seq<L.Happening>)
    requires IsRun(p, states, txs) && n <= |txs| && L.Feeds(ChallengeEvents(p, states, txs, n), hs)
    ensures |states| == |txs| + 1
    ensures var s, start := states[n], L.AfterAll(ours, hs);
      var done := L.Replay(ours, start, ChallengeEvents(p, states, txs, n));
      && (forall id :: id in done <==>
            id in s.challenges && s.challenges[id].providerId == ours && !s.challenges[id].resolved)
      && (forall id :: id in done ==> MatchesRecord(p, id, s.challenges[id], done[id]))
      && (ours in s.providers ==> |done.Keys| == s.providers[ours].openChallenges)
  {
    ChallengesFormAHistory(p, states, txs, n);
    var s, events := states[n], ChallengeEvents(p, states, txs, n);
    var start := L.AfterAll(ours, hs);
    var done := L.Replay(ours, start, events);
    RunKeeps(p, states, txs, n);
    hide IsRun, ChallengeEvents;
    ReplayedIsOpen(p, s, events, ours, hs);
    OpenOnChainIsCounted(s, ours, s.nextChallengeId);
    AllNumbered(p, s, ours);
    hide Inv, Told, MatchesRecord;
    assert done.Keys == OpenOnChain(s, ours, s.nextChallengeId);
  }
}
