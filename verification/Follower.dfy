/**
 * The chain follower's declaration scan. The log feed is untrusted: pages may fail, repeat, reorder or drop
 * events. Whatever it does the store stays in step with the chain; and while pages are complete, everything
 * declared at or below the cursor is committed.
 */
module Follower {
  import opened Data
  import opened Bits
  import opened Packing
  import opened Disk
  import opened Store
  import opened Ingest
  import opened Crashes

  datatype FollowerError =
    | Rpc
    | CursorFile
    | Halted(nonce: nat)

  /** The answer to the `call`-th log request for blocks `from..to`; `None` is a failed request. */
  type LogFeed = (nat, nat, nat) -> Option<seq<DeclaredEvent>>

  /** What the blob sources answer for an event. */
  type SourceFeed = (nat, DeclaredEvent) -> seq<Offer>

  // ---- The chain ----

  /** The declared events of the chain, in order of emission, all after the deployment block. */
  ghost predicate Chain(vh: BlobHash, decls: seq<seq<Chunk>>, chain: seq<DeclaredEvent>, floor: nat) {
    |chain| == |decls| &&
    (forall k :: 0 <= k < |chain| ==> chain[k].nonce == k && Genuine(vh, decls, chain[k]) && floor < chain[k].block) &&
    (forall k, l :: 0 <= k <= l < |chain| ==> chain[k].block <= chain[l].block)
  }

  /** How many declarations the chain holds up to and including block `b`. */
  function DeclaredBy(chain: seq<DeclaredEvent>, b: nat): (n: nat)
    ensures n <= |chain|
  {
    if chain == [] then 0
    else if chain[|chain| - 1].block <= b then |chain|
    else DeclaredBy(chain[..|chain| - 1], b)
  }

  lemma {:induction false} DeclaredByIsCount(chain: seq<DeclaredEvent>, b: nat, k: nat)
    requires forall i, j :: 0 <= i <= j < |chain| ==> chain[i].block <= chain[j].block
    requires k < |chain|
    ensures k < DeclaredBy(chain, b) <==> chain[k].block <= b
  {
    var last := |chain| - 1;
    if chain[last].block > b && k < last { DeclaredByIsCount(chain[..last], b, k); }
  }

  lemma DeclaredByGrows(chain: seq<DeclaredEvent>, b: nat, c: nat)
    requires forall i, j :: 0 <= i <= j < |chain| ==> chain[i].block <= chain[j].block
    requires b <= c
    ensures DeclaredBy(chain, b) <= DeclaredBy(chain, c)
  {
    var n: nat := DeclaredBy(chain, b);
    if n > 0 {
      DeclaredByIsCount(chain, b, n - 1);
      DeclaredByIsCount(chain, c, n - 1);
    }
  }

  /** Nothing was declared before deployment. */
  lemma NothingAtFloor(vh: BlobHash, decls: seq<seq<Chunk>>, chain: seq<DeclaredEvent>, floor: nat)
    requires Chain(vh, decls, chain, floor)
    ensures DeclaredBy(chain, floor) == 0
  {
    hide Genuine;
    var n: nat := DeclaredBy(chain, floor);
    if n > 0 { DeclaredByIsCount(chain, floor, n - 1); }
  }

  /** Events are never forged: whatever a page holds, the chain emitted. */
  ghost predicate Authentic(chain: seq<DeclaredEvent>, feed: LogFeed) {
    forall call, from, to, e :: feed(call, from, to).Some? && e in feed(call, from, to).value ==> e in chain
  }

  /** Every answered page is exactly the events of the blocks asked for, in order. */
  ghost predicate Complete(chain: seq<DeclaredEvent>, feed: LogFeed) {
    forall call, from: nat, to: nat :: 0 < from <= to && feed(call, from, to).Some? ==>
      DeclaredBy(chain, from - 1) <= DeclaredBy(chain, to) &&
      feed(call, from, to).value == chain[DeclaredBy(chain, from - 1)..DeclaredBy(chain, to)]
  }

  // ---- The adaptive page ----

  /** Below this bound no doubled page wraps in 64 bits. */
  const BLOCK_LIMIT: nat := 0x8000_0000_0000_0000

  function Grown(page: nat, logPage: nat): nat {
    if Wrap64(2 * page) < logPage then Wrap64(2 * page) else logPage
  }

  function Shrunk(page: nat): nat {
    if page / 2 < 1 then 1 else page / 2
  }

  /** The last block of the next page. */
  function PageEnd(finalized: nat, cursor: nat, page: nat): nat {
    if finalized < Wrap64(cursor + page) then finalized else Wrap64(cursor + page)
  }

  /** Cursor after `n` answered, eventless pages. */
  function CursorAfter(finalized: nat, cursor: nat, page: nat, logPage: nat, n: nat): nat
    decreases n
  {
    if n == 0 || finalized <= cursor then cursor
    else CursorAfter(finalized, PageEnd(finalized, cursor, page), Grown(page, logPage), logPage, n - 1)
  }

  /** Enough answered pages reach the finalized block. */
  ghost predicate Ends(finalized: nat, cursor: nat, page: nat, logPage: nat) {
    exists n :: CursorAfter(finalized, cursor, page, logPage, n) >= finalized
  }

  /** The page after a sequence of answers (`true`) and failures, from the configured ceiling on. */
  function PageOver(logPage: U64, answers: seq<bool>): (page: nat)
    ensures page < U64_LIMIT
  {
    if answers == [] then logPage
    else
      var n := |answers| - 1;
      var before := PageOver(logPage, answers[..n]);
      if answers[n] then Grown(before, logPage) else Shrunk(before)
  }

  lemma {:induction false} PageInRange(logPage: U64, answers: seq<bool>)
    requires 1 <= logPage < BLOCK_LIMIT
    ensures 1 <= PageOver(logPage, answers) <= logPage
  {
    if answers != [] { PageInRange(logPage, answers[..|answers| - 1]); }
  }

  function Repeat(answer: bool, n: nat): (answers: seq<bool>)
    ensures |answers| == n && forall i :: 0 <= i < n ==> answers[i] == answer
  {
    seq(n, _ => answer)
  }

  lemma PageStep(logPage: U64, answers: seq<bool>, answer: bool)
    ensures PageOver(logPage, answers + [answer]) ==
      if answer then Grown(PageOver(logPage, answers), logPage) else Shrunk(PageOver(logPage, answers))
  {
    assert (answers + [answer])[..|answers|] == answers;
  }

  /** Failures bring any page down to one. */
  lemma {:induction false} FailuresShrink(logPage: U64, n: nat)
    requires logPage > 0
    ensures 1 <= PageOver(logPage, Repeat(false, n))
    ensures PageOver(logPage, Repeat(false, n)) == 1 || PageOver(logPage, Repeat(false, n)) + n <= logPage
  {
    if n > 0 {
      FailuresShrink(logPage, n - 1);
      PageStep(logPage, Repeat(false, n - 1), false);
      assert Repeat(false, n) == Repeat(false, n - 1) + [false];
    } else {
      assert Repeat(false, 0) == [];
    }
  }

  lemma HalveAgain(x: nat, n: nat)
    ensures x / Pow2(n + 1) == x / Pow2(n) / 2
  {
    var d: nat := Pow2(n);
    assert Pow2(n + 1) == 2 * d;
    hide Pow2;
    var q, r := x / d, x % d;
    assert x == q * d + r;
    var half, odd := q / 2, q % 2;
    assert q * d == (2 * half + odd) * d == half * (2 * d) + odd * d;
    assert odd * d <= d;
    DivUnique(x, 2 * d, half, odd * d + r);
  }

  lemma OnlyCeiling(logPage: U64)
    ensures PageOver(logPage, Repeat(false, 0)) == logPage
  {
    assert Repeat(false, 0) == [];
  }

  /** Each failure halves the page exactly, down to one. */
  lemma {:induction false} FailuresHalve(logPage: U64, n: nat)
    requires logPage > 0 && n > 0
    ensures PageOver(logPage, Repeat(false, n)) == if logPage / Pow2(n) > 0 then logPage / Pow2(n) else 1
  {
    HalveAgain(logPage, n - 1);
    PageStep(logPage, Repeat(false, n - 1), false);
    assert Repeat(false, n) == Repeat(false, n - 1) + [false];
    assert Pow2(0) == 1;
    hide Pow2, PageOver;
    if n > 1 {
      FailuresHalve(logPage, n - 1);
    } else {
      OnlyCeiling(logPage);
    }
  }

  lemma GrownDoubles(page: nat, logPage: U64)
    requires 2 * page <= BLOCK_LIMIT <= logPage
    ensures Grown(page, logPage) == 2 * page
  {
  }

  /** From one on, answers double the page, up to `2^63`. */
  lemma {:induction false} AnswersDouble(logPage: U64, start: seq<bool>, n: nat) returns (answers: seq<bool>)
    requires logPage >= BLOCK_LIMIT && PageOver(logPage, start) == 1 && n <= 63
    ensures PageOver(logPage, answers) == Pow2(n)
  {
    Pow2Values();
    Pow2Mono(n, 63);
    assert Pow2(0) == 1 && (n > 0 ==> Pow2(n) == 2 * Pow2(n - 1));
    hide PageOver, Pow2, Grown;
    answers := start;
    if n > 0 {
      GrownDoubles(Pow2(n - 1), logPage);
      var before := AnswersDouble(logPage, start, n - 1);
      PageStep(logPage, before, true);
      answers := before + [true];
    }
  }

  /** Some answers and failures lead to an empty page exactly under a ceiling of zero or at least `2^63`. */
  lemma EmptyPageReachable(logPage: U64)
    ensures (exists answers :: PageOver(logPage, answers) == 0) <==> logPage == 0 || logPage >= BLOCK_LIMIT
  {
    if logPage == 0 {
      assert PageOver(logPage, Repeat(true, 0)) == 0;
    } else if logPage < BLOCK_LIMIT {
      forall answers ensures PageOver(logPage, answers) != 0 { PageInRange(logPage, answers); }
    } else {
      var start := Repeat(false, logPage);
      FailuresShrink(logPage, logPage);
      var doubled := AnswersDouble(logPage, start, 63);
      Pow2Values();
      PageStep(logPage, doubled, true);
    }
  }

  /** The ceiling doubled `k` times, in 64 bits. */
  function Doubled(logPage: U64, k: nat): nat {
    Wrap64(Pow2(k) * logPage)
  }

  lemma SixtyFourDoublings(logPage: U64)
    ensures Doubled(logPage, 64) == 0
  {
    Pow2Values();
    hide Pow2;
    assert Doubled(logPage, 64) == (U64_LIMIT * logPage) % U64_LIMIT;
  }

  lemma WrapDouble(x: nat)
    ensures Wrap64(2 * x) == Wrap64(2 * Wrap64(x))
  {
    var q, r := x / U64_LIMIT, x % U64_LIMIT;
    assert x == q * U64_LIMIT + r;
    assert 2 * x == (2 * q) * U64_LIMIT + 2 * r;
  }

  lemma DoubledStep(logPage: U64, k: nat)
    ensures Doubled(logPage, k + 1) == Wrap64(2 * Doubled(logPage, k))
  {
    var power: nat := Pow2(k);
    assert Pow2(k + 1) == 2 * power;
    hide Pow2, Wrap64;
    assert (2 * power) * logPage == 2 * (power * logPage);
    WrapDouble(power * logPage);
  }

  lemma {:induction false} PageDoubles(logPage: U64, n: nat)
    requires forall k: nat :: k <= n ==> Doubled(logPage, k) <= logPage
    ensures PageOver(logPage, Repeat(true, n)) == Doubled(logPage, n)
  {
    if n > 0 {
      PageDoubles(logPage, n - 1);
      PageStep(logPage, Repeat(true, n - 1), true);
      DoubledStep(logPage, n - 1);
      assert Repeat(true, n) == Repeat(true, n - 1) + [true];
    } else {
      assert Repeat(true, 0) == [];
    }
  }

  lemma {:induction false} ZeroStays(logPage: U64, j: nat, k: nat)
    requires Doubled(logPage, j) == 0 && j <= k
    ensures Doubled(logPage, k) == 0
    decreases k
  {
    if j < k {
      ZeroStays(logPage, j, k - 1);
      DoubledStep(logPage, k - 1);
    }
  }

  lemma {:induction false} FirstExcess(logPage: U64, k: nat) returns (first: nat)
    requires Doubled(logPage, k) > logPage
    ensures first <= k && Doubled(logPage, first) > logPage
    ensures forall j: nat :: j < first ==> 0 < Doubled(logPage, j) <= logPage
  {
    if j: nat :| j < k && Doubled(logPage, j) > logPage {
      first := FirstExcess(logPage, j);
    } else {
      first := k;
      forall j: nat | j < k ensures Doubled(logPage, j) > 0 {
        if Doubled(logPage, j) == 0 { ZeroStays(logPage, j, k); }
      }
    }
  }

  /** The page is always some doubling before the first that exceeds the ceiling. */
  lemma {:induction false} PageCycles(logPage: U64, first: nat, n: nat) returns (j: nat)
    requires Doubled(logPage, first) > logPage
    requires forall i: nat :: i < first ==> 0 < Doubled(logPage, i) <= logPage
    ensures j < first && PageOver(logPage, Repeat(true, n)) == Doubled(logPage, j)
  {
    assert Doubled(logPage, 0) == logPage;
    if n == 0 {
      assert Repeat(true, 0) == [];
      j := 0;
    } else {
      var i := PageCycles(logPage, first, n - 1);
      PageStep(logPage, Repeat(true, n - 1), true);
      DoubledStep(logPage, i);
      assert Repeat(true, n) == Repeat(true, n - 1) + [true];
      j := if i + 1 < first then i + 1 else 0;
    }
  }

  /**
   * With no failure in between, an empty page comes exactly when no doubling of the ceiling, cut to 64 bits,
   * exceeds it. Otherwise the page cycles, from the ceiling back to the ceiling.
   */
  lemma EmptyPageExactly(logPage: U64)
    ensures (exists n :: PageOver(logPage, Repeat(true, n)) == 0) <==>
            (forall k: nat :: k <= 64 ==> Doubled(logPage, k) <= logPage)
  {
    hide PageOver, Repeat, Wrap64;
    if k: nat :| k <= 64 && Doubled(logPage, k) > logPage {
      var first := FirstExcess(logPage, k);
      forall n ensures PageOver(logPage, Repeat(true, n)) != 0 { var j := PageCycles(logPage, first, n); }
    } else {
      PageDoubles(logPage, 64);
      SixtyFourDoublings(logPage);
    }
  }

  lemma {:induction false} Stuck(finalized: U64, cursor: nat, logPage: nat, n: nat)
    requires cursor < finalized
    ensures CursorAfter(finalized, cursor, 0, logPage, n) == cursor
    decreases n
  {
    if n > 0 { Stuck(finalized, cursor, logPage, n - 1); }
  }

  /** One page covers the next blocks, as many as asked for, or those left. */
  lemma PageCovers(finalized: U64, cursor: nat, page: nat)
    requires cursor < finalized && cursor + page < U64_LIMIT
    ensures PageEnd(finalized, cursor, page) - cursor == if page < finalized - cursor then page else finalized - cursor
  {
  }

  lemma {:induction false} Reaches(finalized: nat, cursor: nat, page: nat, logPage: nat, n: nat)
    requires 1 <= page <= logPage < BLOCK_LIMIT && finalized <= cursor + n && finalized + logPage <= U64_LIMIT
    ensures CursorAfter(finalized, cursor, page, logPage, n) >= finalized
    decreases n
  {
    if n > 0 && cursor < finalized {
      Reaches(finalized, PageEnd(finalized, cursor, page), Grown(page, logPage), logPage, n - 1);
    }
  }

  /**
   * Every scan ends, from any cursor and whatever answers and failures came before, exactly when the ceiling is
   * at least one and below `2^63`. Under such a ceiling no block sum may wrap either.
   */
  lemma {:induction false} ScanEnds(finalized: U64, logPage: U64)
    requires 0 < finalized && (logPage < BLOCK_LIMIT ==> finalized + logPage <= U64_LIMIT)
    ensures 1 <= logPage < BLOCK_LIMIT <==>
      forall answers, cursor: nat :: cursor < finalized ==> Ends(finalized, cursor, PageOver(logPage, answers), logPage)
  {
    if 1 <= logPage < BLOCK_LIMIT {
      forall answers, cursor: nat | cursor < finalized
        ensures Ends(finalized, cursor, PageOver(logPage, answers), logPage)
      {
        PageInRange(logPage, answers);
        Reaches(finalized, cursor, PageOver(logPage, answers), logPage, finalized - cursor);
      }
    } else {
      EmptyPageReachable(logPage);
      var answers :| PageOver(logPage, answers) == 0;
      forall n: nat ensures CursorAfter(finalized, 0, 0, logPage, n) == 0 { Stuck(finalized, 0, logPage, n); }
      assert !Ends(finalized, 0, PageOver(logPage, answers), logPage);
    }
  }

  /** One answered page under a ceiling of `2^63` is enough: the next is empty, and no page moves again. */
  lemma HugePageSticks(finalized: U64, cursor: nat, n: nat)
    requires cursor < finalized
    ensures CursorAfter(finalized, cursor, PageOver(BLOCK_LIMIT, [true]), BLOCK_LIMIT, n) == cursor
  {
    var none: seq<bool> := [];
    PageStep(BLOCK_LIMIT, none, true);
    assert none + [true] == [true];
    hide PageOver;
    Stuck(finalized, cursor, BLOCK_LIMIT, n);
  }

  // ---- The scan ----

  /** Halting before event `k` of a complete page leaves nothing uncommitted behind the cursor. */
  lemma HaltKeepsUp(vh: BlobHash, decls: seq<seq<Chunk>>, chain: seq<DeclaredEvent>, floor: nat,
                    cursor: nat, to: nat, k: nat)
    requires Chain(vh, decls, chain, floor) && cursor <= to
    requires DeclaredBy(chain, cursor) <= k < DeclaredBy(chain, to)
    ensures cursor < chain[k].block && DeclaredBy(chain, chain[k].block - 1) <= k
    ensures DeclaredBy(chain, floor) == 0 && chain[k].nonce == k
  {
    hide Genuine;
    NothingAtFloor(vh, decls, chain, floor);
    DeclaredByIsCount(chain, cursor, k);
    DeclaredByIsCount(chain, chain[k].block - 1, k);
  }

  class Follower {
    const ingestor: Ingestor
    const floor: nat
    const logPage: nat
    var cursor: nat
    var page: nat
    var calls: nat

    ghost predicate Valid(decls: seq<seq<Chunk>>, acked: nat)
      reads this, ingestor, ingestor.store, ingestor.store.device
    {
      1 <= page <= logPage < BLOCK_LIMIT && ingestor.store.Valid(decls, acked)
    }

    /** Everything declared at or below the cursor is committed. */
    ghost predicate CaughtUp(chain: seq<DeclaredEvent>)
      reads this, ingestor, ingestor.store
    {
      DeclaredBy(chain, cursor) <= ingestor.store.frontier.nonce
    }

    /** Resume from the cursor file, or from the block before deployment. */
    constructor (ingestor: Ingestor, deploymentBlock: nat, logPage: nat, saved: Option<nat>)
      ensures this.ingestor == ingestor && this.logPage == logPage && page == logPage
      ensures floor == if deploymentBlock == 0 then 0 else deploymentBlock - 1
      ensures cursor == if saved.Some? then saved.value else floor
    {
      this.ingestor, this.logPage, this.page, calls := ingestor, logPage, logPage, 0;
      floor := if deploymentBlock == 0 then 0 else deploymentBlock - 1;
      cursor := if saved.Some? then saved.value else if deploymentBlock == 0 then 0 else deploymentBlock - 1;
    }

    /** Writing the cursor file may fail; the cursor then stays. */
    method SetCursor(block: nat) returns (r: Result<(), FollowerError>)
      modifies `cursor
      ensures r == Ok(()) || r == Err(CursorFile)
      ensures cursor == if r.Ok? then block else old(cursor)
    {
      if * { cursor := block; r := Ok(()); } else { r := Err(CursorFile); }
    }

    /** One log request; the page halves on failure and grows back on success. */
    method Request(feed: LogFeed, from: nat, to: nat) returns (logs: Option<seq<DeclaredEvent>>)
      requires 1 <= page <= logPage < BLOCK_LIMIT
      modifies `page, `calls
      ensures logs == feed(old(calls), from, to) && 1 <= page <= logPage
      ensures page == if logs.Some? then Grown(old(page), logPage) else Shrunk(old(page))
    {
      logs := feed(calls, from, to);
      calls := calls + 1;
      page := if logs.Some? then Grown(page, logPage) else Shrunk(page);
    }

    /**
     * Ingest one event. A gap rewinds to the floor, where nothing is owed; any other halt moves the cursor
     * to just before the event.
     */
    method Dispatch(vh: BlobHash, e: DeclaredEvent, sources: SourceFeed, ghost decls: seq<seq<Chunk>>, ghost acked: nat)
      returns (r: Result<(), FollowerError>, ghost acked': nat)
      requires Valid(decls, acked) && Genuine(vh, decls, e)
      modifies `cursor, ingestor.store`frontier, ingestor.store.device
      ensures Valid(decls, acked') && acked <= acked'
      ensures old(ingestor.store.frontier.nonce) <= ingestor.store.frontier.nonce
      ensures acked == old(ingestor.store.frontier.nonce) ==> acked' == ingestor.store.frontier.nonce
      ensures r.Ok? ==> cursor == old(cursor) && e.nonce < ingestor.store.frontier.nonce
      ensures r.Err? && !r.error.Halted? ==> cursor == old(cursor)
      ensures r.Err? && r.error.Halted? ==>
        if e.nonce > old(ingestor.store.frontier.nonce)
        then r.error.nonce == old(ingestor.store.frontier.nonce) && cursor == floor
        else r.error.nonce == e.nonce == old(ingestor.store.frontier.nonce) &&
             cursor == if e.block == 0 then 0 else e.block - 1
      ensures old(ingestor.store.device.d.bytes) <= ingestor.store.device.d.bytes
    {
      hide Genuine, Recoverable;
      acked' := acked;
      var timestamp := *;
      if !timestamp { return Err(Rpc), acked; }
      var ingested := ingestor.IngestEvent(vh, sources(calls, e), e, decls, acked);
      match ingested {
        case Ok(committed) =>
          if committed { acked' := e.nonce + 1; }
          r := Ok(());
        case Err(error) =>
          var gap := error.NonceGap?;
          var block := if gap then floor else if e.block == 0 then 0 else e.block - 1;
          var written := SetCursor(block);
          r := if written.Err? then Err(CursorFile)
               else Err(Halted(if gap then error.expected else e.nonce));
      }
    }

    /**
     * Dispatch one page in order. If it is the complete page up to block `to`, nothing uncommitted is ever left
     * behind the cursor, and at its end everything up to `to` is committed.
     */
    method DispatchPage(vh: BlobHash, logs: seq<DeclaredEvent>, sources: SourceFeed, ghost to: nat, ghost tracked: bool,
                        ghost decls: seq<seq<Chunk>>, ghost chain: seq<DeclaredEvent>, ghost acked: nat)
      returns (r: Result<(), FollowerError>, ghost acked': nat)
      requires Valid(decls, acked) && Chain(vh, decls, chain, floor) && forall e :: e in logs ==> e in chain
      requires tracked ==> CaughtUp(chain) && cursor <= to && DeclaredBy(chain, cursor) <= DeclaredBy(chain, to)
      requires tracked ==> logs == chain[DeclaredBy(chain, cursor)..DeclaredBy(chain, to)]
      modifies `cursor, ingestor.store`frontier, ingestor.store.device
      ensures Valid(decls, acked') && acked <= acked'
      ensures old(ingestor.store.frontier.nonce) <= ingestor.store.frontier.nonce
      ensures old(ingestor.store.device.d.bytes) <= ingestor.store.device.d.bytes
      ensures acked == old(ingestor.store.frontier.nonce) ==> acked' == ingestor.store.frontier.nonce
      ensures r.Ok? ==> cursor == old(cursor)
      ensures tracked ==> CaughtUp(chain)
      ensures tracked && r.Ok? ==> DeclaredBy(chain, to) <= ingestor.store.frontier.nonce
    {
      hide Genuine, InStep, FrontierAt;
      acked' := acked;
      ghost var base := DeclaredBy(chain, cursor);
      for j := 0 to |logs|
        invariant Valid(decls, acked') && acked <= acked' && cursor == old(cursor)
        invariant old(ingestor.store.frontier.nonce) <= ingestor.store.frontier.nonce
        invariant old(ingestor.store.device.d.bytes) <= ingestor.store.device.d.bytes
        invariant acked == old(ingestor.store.frontier.nonce) ==> acked' == ingestor.store.frontier.nonce
        invariant tracked ==> base + j <= ingestor.store.frontier.nonce
      {
        var e := logs[j];
        assert e in chain && Genuine(vh, decls, e);
        if tracked {
          assert e == chain[base + j];
          HaltKeepsUp(vh, decls, chain, floor, cursor, to, base + j);
        }
        r, acked' := Dispatch(vh, e, sources, decls, acked');
        if r.Err? { return; }
      }
      r := Ok(());
    }

    /**
     * Scan declarations up to the finalized block. It ends, it keeps the store in step with the chain under
     * any feed of authentic events, and under complete pages the cursor never passes an uncommitted one.
     */
    method ScanDeclared(vh: BlobHash, finalized: nat, feed: LogFeed, sources: SourceFeed,
                        ghost decls: seq<seq<Chunk>>, ghost chain: seq<DeclaredEvent>, ghost acked: nat)
      returns (r: Result<(), FollowerError>, ghost acked': nat)
      requires Valid(decls, acked) && Chain(vh, decls, chain, floor) && Authentic(chain, feed)
      requires finalized + logPage <= U64_LIMIT
      modifies this, ingestor.store`frontier, ingestor.store.device
      ensures Valid(decls, acked') && acked <= acked'
      ensures old(ingestor.store.frontier.nonce) <= ingestor.store.frontier.nonce
      ensures old(ingestor.store.device.d.bytes) <= ingestor.store.device.d.bytes
      ensures r.Ok? ==> cursor == if old(cursor) < finalized then finalized else old(cursor)
      ensures acked == old(ingestor.store.frontier.nonce) ==> acked' == ingestor.store.frontier.nonce
      ensures Complete(chain, feed) && old(CaughtUp(chain)) ==> CaughtUp(chain)
      ensures Complete(chain, feed) && old(CaughtUp(chain)) && r.Ok? ==>
        DeclaredBy(chain, finalized) <= ingestor.store.frontier.nonce
    {
      hide Genuine, InStep, FrontierAt;
      acked' := acked;
      ghost var tracked := Complete(chain, feed) && CaughtUp(chain);
      while cursor < finalized
        invariant cursor == old(cursor) || old(cursor) < cursor <= finalized
        invariant Valid(decls, acked') && acked <= acked'
        invariant old(ingestor.store.frontier.nonce) <= ingestor.store.frontier.nonce
        invariant old(ingestor.store.device.d.bytes) <= ingestor.store.device.d.bytes
        invariant acked == old(ingestor.store.frontier.nonce) ==> acked' == ingestor.store.frontier.nonce
        invariant tracked ==> CaughtUp(chain)
        decreases finalized - cursor
      {
        var from, to := cursor + 1, PageEnd(finalized, cursor, page);
        var logs := Request(feed, from, to);
        if logs.None? { return Err(Rpc), acked'; }
        var dispatched;
        dispatched, acked' := DispatchPage(vh, logs.value, sources, to, tracked, decls, chain, acked');
        if dispatched.Err? { return Err(dispatched.error), acked'; }
        var saved := SetCursor(to);
        if saved.Err? { return Err(CursorFile), acked'; }
      }
      if tracked { DeclaredByGrows(chain, finalized, cursor); }
      r := Ok(());
    }

    /**
     * Compare the store with the contract's leaf count and root at the finalized block, unless the node lags behind
     * the cursor; `answer` is `None` when a call fails.
     */
    method CheckRoot(finalized: nat, answer: Option<(nat, Hash)>, ghost decls: seq<seq<Chunk>>, ghost acked: nat)
      returns (r: Result<(), FollowerError>, alarmed: bool)
      requires Valid(decls, acked)
      ensures r == if finalized >= cursor && answer.None? then Err(Rpc) else Ok(())
      ensures alarmed ==> finalized >= cursor && answer.Some?
      ensures finalized >= cursor && answer.Some? ==>
        var f := ingestor.store.frontier;
        (alarmed <==> answer.value != (f.leafCount, Root(f.leafCount, f.peaks)))
    {
      if finalized < cursor { return Ok(()), false; }
      if answer.None? { return Err(Rpc), false; }
      var mmr := ingestor.store.MmrAt(decls);
      var peaks := mmr.PeakListing();
      r, alarmed := Ok(()), answer.value != (mmr.leafCount, Root(mmr.leafCount, peaks));
    }
  }

  /**
   * Poll after poll, whatever each one ends in: the store never leaves the chain, never shrinks, and under
   * complete pages from deployment everything at or below the cursor stays committed. In a process that opened
   * a settled disk, where nothing past `acked` is held, it is even acknowledged.
   */
  method Follow(follower: Follower, vh: BlobHash, finals: seq<nat>, feed: LogFeed, sources: SourceFeed,
                ghost decls: seq<seq<Chunk>>, ghost chain: seq<DeclaredEvent>, ghost acked: nat)
    returns (results: seq<Result<(), FollowerError>>, ghost acked': nat)
    requires follower.Valid(decls, acked) && Chain(vh, decls, chain, follower.floor) && Authentic(chain, feed)
    requires forall f :: f in finals ==> f + follower.logPage <= U64_LIMIT
    modifies follower, follower.ingestor.store`frontier, follower.ingestor.store.device
    ensures |results| == |finals| && follower.Valid(decls, acked') && acked <= acked'
    ensures follower.ingestor.store.frontier == FrontierAt(decls, follower.ingestor.store.frontier.nonce)
    ensures old(follower.ingestor.store.frontier.nonce) <= follower.ingestor.store.frontier.nonce
    ensures old(follower.ingestor.store.device.d.bytes) <= follower.ingestor.store.device.d.bytes
    ensures Complete(chain, feed) && old(follower.CaughtUp(chain)) ==> follower.CaughtUp(chain)
    ensures Complete(chain, feed) && old(follower.CaughtUp(chain)) ==>
      forall i :: 0 <= i < |finals| && results[i].Ok? ==>
        DeclaredBy(chain, finals[i]) <= follower.ingestor.store.frontier.nonce
    ensures (Complete(chain, feed) && old(follower.CaughtUp(chain)) &&
             acked == old(follower.ingestor.store.frontier.nonce)) ==>
      DeclaredBy(chain, follower.cursor) <= acked'
  {
    hide Genuine, Recoverable, Chain, Authentic, Complete;
    results, acked' := [], acked;
    for i := 0 to |finals|
      invariant |results| == i && follower.Valid(decls, acked') && acked <= acked'
      invariant old(follower.ingestor.store.frontier.nonce) <= follower.ingestor.store.frontier.nonce
      invariant old(follower.ingestor.store.device.d.bytes) <= follower.ingestor.store.device.d.bytes
      invariant Complete(chain, feed) && old(follower.CaughtUp(chain)) ==> follower.CaughtUp(chain)
      invariant acked == old(follower.ingestor.store.frontier.nonce) ==>
        acked' == follower.ingestor.store.frontier.nonce
      invariant Complete(chain, feed) && old(follower.CaughtUp(chain)) ==>
        forall j :: 0 <= j < i && results[j].Ok? ==>
          DeclaredBy(chain, finals[j]) <= follower.ingestor.store.frontier.nonce
    {
      var r;
      assert finals[i] in finals;
      r, acked' := follower.ScanDeclared(vh, finals[i], feed, sources, decls, chain, acked');
      results := results + [r];
    }
  }

  /** A file a power cut may leave in place of the frontier, of a disk that then opens. */
  ghost predicate MayReopen(d: Disk, s: File) {
    s in d.shadows + {d.visible} && (s == Absent ==> d.stable == 0)
  }

  /** Such a file is what some cut leaves. */
  lemma SomeCutShows(decls: seq<seq<Chunk>>, d: Disk, acked: nat, s: File) returns (d': Disk)
    requires Feed(decls) && Recoverable(decls, d, acked) && MayReopen(d, s)
    ensures PowerCut(d, d') && d'.visible == s && OpenOutcome(d').Ok?
  {
    hide Faithful, OpenOutcome;
    d' := d.(visible := s, shadows := {}, bytes := if s == Absent then [] else d.bytes);
    PowerCutKeeps(decls, d, d', acked);
    OpenRecovers(decls, d', acked);
  }

  lemma CutMayReopen(decls: seq<seq<Chunk>>, d: Disk, d': Disk, acked: nat)
    requires Feed(decls) && Recoverable(decls, d, acked) && PowerCut(d, d') && OpenOutcome(d').Ok?
    ensures MayReopen(d, d'.visible) && OpenOutcome(d').value.nonce == NonceOf(d'.visible)
  {
    hide Recoverable, OpenOutcome;
    PowerCutKeeps(decls, d, d', acked);
    OpenRecovers(decls, d', acked);
  }

  /**
   * A cursor survives every power cut, whatever the frontier reads now, exactly when no file the cut may bring
   * back is behind it. A missing frontier file counts only over an empty chunk file, where it opens at all.
   */
  lemma CursorSafeExactly(decls: seq<seq<Chunk>>, chain: seq<DeclaredEvent>, d: Disk, acked: nat, cursor: nat)
    requires Feed(decls) && Recoverable(decls, d, acked)
    ensures (forall d' :: PowerCut(d, d') && OpenOutcome(d').Ok? ==>
              DeclaredBy(chain, cursor) <= OpenOutcome(d').value.nonce) <==>
            (forall s :: MayReopen(d, s) ==> DeclaredBy(chain, cursor) <= NonceOf(s))
  {
    hide Recoverable, OpenOutcome, PowerCut, MayReopen;
    if forall d' :: PowerCut(d, d') && OpenOutcome(d').Ok? ==>
         DeclaredBy(chain, cursor) <= OpenOutcome(d').value.nonce {
      forall s | MayReopen(d, s) ensures DeclaredBy(chain, cursor) <= NonceOf(s) {
        var d' := SomeCutShows(decls, d, acked, s);
        PowerCutKeeps(decls, d, d', acked);
        OpenRecovers(decls, d', acked);
      }
    }
    forall d' | PowerCut(d, d') && OpenOutcome(d').Ok?
      ensures MayReopen(d, d'.visible) && OpenOutcome(d').value.nonce == NonceOf(d'.visible)
    {
      CutMayReopen(decls, d, d', acked);
    }
  }

  /**
   * What survives a restart, by a power cut or not: a cursor whose declarations are all acknowledged is still
   * caught up when the store is opened again, whatever earlier cursor the file comes back with.
   */
  lemma CursorSurvives(decls: seq<seq<Chunk>>, chain: seq<DeclaredEvent>, d: Disk, d': Disk, acked: nat,
                       cursor: nat, saved: nat)
    requires Feed(decls) && Recoverable(decls, d, acked) && (d' == d || PowerCut(d, d')) && OpenOutcome(d').Ok?
    requires forall i, j :: 0 <= i <= j < |chain| ==> chain[i].block <= chain[j].block
    requires DeclaredBy(chain, cursor) <= acked && saved <= cursor
    ensures DeclaredBy(chain, saved) <= OpenOutcome(d').value.nonce
  {
    hide Recoverable, OpenOutcome;
    if d' != d { PowerCutKeeps(decls, d, d', acked); }
    OpenRecovers(decls, d', acked);
    DeclaredByGrows(chain, saved, cursor);
  }

  /**
   * Being caught up with the frontier is not enough: a process that opened an unsettled disk can be, and lose
   * it to a power cut. The next declaration then shows the gap.
   */
  lemma CaughtUpCanBeLost(decls: seq<seq<Chunk>>, chain: seq<DeclaredEvent>, cursor: nat) returns (d: Disk, d': Disk)
    requires Feed(decls) && |decls| >= 3 && DeclaredBy(chain, cursor) == 2
    ensures OpenOutcome(d).Ok? && InStep(decls, d, OpenOutcome(d).value, 1)
    ensures DeclaredBy(chain, cursor) <= OpenOutcome(d).value.nonce
    ensures PowerCut(d, d') && OpenOutcome(d').Ok? && DeclaredBy(chain, cursor) > OpenOutcome(d').value.nonce
  {
    d, d' := UnsyncedRenameCanReturn(decls);
  }
}
