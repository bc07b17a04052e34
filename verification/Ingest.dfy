/**
 * From a declared event to a committed declaration. Blob sources are untrusted: they may withhold, mislabel
 * or corrupt. What is committed is nevertheless exactly what the chain merged, and if every wanted blob is
 * offered by somebody, nothing but the local disk can stop it.
 */
module Ingest {
  import opened Data
  import opened Bits
  import opened Decomposition
  import opened Forest
  import opened Packing
  import opened Disk
  import opened Store
  import M = Mmr

  ghost predicate CollisionFree(vh: BlobHash) {
    forall a: Blob, b: Blob :: vh(a).Some? && vh(a) == vh(b) ==> a == b
  }

  // ---- Acquisition ----

  /** One source's answer: candidate blobs, or `None` for a failed request. */
  type Offer = Option<seq<Blob>>

  ghost predicate OfferedBy(vh: BlobHash, offer: Offer, w: Hash) {
    offer.Some? && exists c :: c in offer.value && vh(c) == Some(w)
  }

  ghost predicate Offered(vh: BlobHash, offers: seq<Offer>, w: Hash) {
    exists i :: 0 <= i < |offers| && OfferedBy(vh, offers[i], w)
  }

  function Missing(wanted: seq<Hash>, have: map<Hash, Blob>): (missing: seq<Hash>)
    ensures forall w :: w in missing <==> w in wanted && w !in have
  {
    if wanted == [] then []
    else if wanted[0] in have then Missing(wanted[1..], have)
    else [wanted[0]] + Missing(wanted[1..], have)
  }

  /** Admit from one answer every candidate whose own hash is missing. */
  method Admit(vh: BlobHash, candidates: seq<Blob>, missing: seq<Hash>, have: map<Hash, Blob>)
    returns (more: map<Hash, Blob>)
    ensures forall w :: w in have ==> w in more
    ensures forall w :: w in more && w !in missing ==> w in have && more[w] == have[w]
    ensures forall w :: w in more && w !in have ==> w in missing && OfferedBy(vh, Some(candidates), w)
    ensures forall w :: w in more && w in missing ==> (w in have && more[w] == have[w]) || vh(more[w]) == Some(w)
    ensures forall w :: w in missing && OfferedBy(vh, Some(candidates), w) ==> w in more
  {
    more := have;
    for j := 0 to |candidates|
      invariant forall w :: w in have ==> w in more
      invariant forall w :: w in more && w !in missing ==> w in have && more[w] == have[w]
      invariant forall w :: w in more && w !in have ==> w in missing && OfferedBy(vh, Some(candidates), w)
      invariant forall w :: w in more && w in missing ==> (w in have && more[w] == have[w]) || vh(more[w]) == Some(w)
      invariant forall l :: 0 <= l < j && vh(candidates[l]).Some? && vh(candidates[l]).value in missing ==>
        vh(candidates[l]).value in more
    {
      var hash := vh(candidates[j]);
      if hash.Some? && hash.value in missing {
        more := more[hash.value := candidates[j]];
      }
    }
  }

  /** What the walk has gathered from the first `i` sources. */
  ghost predicate Gathered(vh: BlobHash, offers: seq<Offer>, i: nat, wanted: seq<Hash>, have: map<Hash, Blob>)
    requires i <= |offers|
  {
    (forall w :: w in have ==> vh(have[w]) == Some(w) && w in wanted && Offered(vh, offers, w)) &&
    (forall w, k :: w in wanted && 0 <= k < i && OfferedBy(vh, offers[k], w) ==> w in have)
  }

  lemma GatherMore(vh: BlobHash, offers: seq<Offer>, i: nat, wanted: seq<Hash>,
                   have: map<Hash, Blob>, more: map<Hash, Blob>)
    requires i < |offers| && Gathered(vh, offers, i, wanted, have)
    requires forall w :: w in have ==> w in more
    requires forall w :: w in more ==> (w in have && more[w] == have[w]) || vh(more[w]) == Some(w)
    requires forall w :: w in more && w !in have ==> w in wanted && OfferedBy(vh, offers[i], w)
    requires forall w :: w in wanted && w !in have && OfferedBy(vh, offers[i], w) ==> w in more
    ensures Gathered(vh, offers, i + 1, wanted, more)
  {
    hide OfferedBy;
  }

  lemma NoOffer(vh: BlobHash, offer: Offer)
    requires offer.None?
    ensures forall w :: !OfferedBy(vh, offer, w)
  {
  }

  lemma {:induction false} MissingLength(wanted: seq<Hash>, have: map<Hash, Blob>)
    ensures |Missing(wanted, have)| <= |wanted|
  {
    if wanted != [] { MissingLength(wanted[1..], have); }
  }

  /**
   * Walk the sources in order, admitting a candidate only under the hash recomputed from its own bytes.
   * Success means every wanted blob, each under its hash; failure means some wanted hash was offered by
   * nobody, however the sources mislabelled, repeated or reordered.
   */
  method Acquire(vh: BlobHash, offers: seq<Offer>, wanted: seq<Hash>)
    returns (r: Result<map<Hash, Blob>, nat>)
    ensures r.Ok? <==> forall w :: w in wanted ==> Offered(vh, offers, w)
    ensures r.Ok? ==> forall w :: w in wanted ==> w in r.value
    ensures r.Ok? ==> forall w :: w in r.value ==> vh(r.value[w]) == Some(w) && w in wanted
    ensures r.Err? ==> 0 < r.error <= |wanted|
  {
    hide OfferedBy;
    var have: map<Hash, Blob> := map[];
    var i := 0;
    while i < |offers| && Missing(wanted, have) != []
      invariant i <= |offers| && Gathered(vh, offers, i, wanted, have)
    {
      if offers[i].Some? {
        var more := Admit(vh, offers[i].value, Missing(wanted, have), have);
        assert offers[i] == Some(offers[i].value);
        GatherMore(vh, offers, i, wanted, have, more);
        have := more;
      } else {
        NoOffer(vh, offers[i]);
        GatherMore(vh, offers, i, wanted, have, have);
      }
      i := i + 1;
    }
    var missing := Missing(wanted, have);
    MissingLength(wanted, have);
    if missing != [] {
      assert missing[0] in missing;
      return Err(|missing|);
    }
    r := Ok(have);
  }

  // ---- Verification ----

  datatype DeclaredEvent = DeclaredEvent(
    nonce: nat, newLeafCount: U64, versionedHashes: seq<Hash>, subtreePeaks: seq<Hash>, block: nat)

  datatype IngestError =
    | NonceGap(expected: nat, got: nat)
    | BlobsUnavailable(missing: nat)
    | ProtocolContradiction
    | StoreFailed(cause: StoreError)

  ghost predicate CommitsTo(roots: seq<Hash>, n0: nat, chunks: seq<Chunk>) {
    chunks != [] && n0 + |chunks| < U64_LIMIT && Span(Decompose(n0, |chunks|)) == |chunks| &&
    roots == RootsOf(chunks, 0, Decompose(n0, |chunks|))
  }

  /** The event the contract emits for appending `chunks` after `n0` leaves. */
  ghost predicate Declares(vh: BlobHash, e: DeclaredEvent, n0: nat, chunks: seq<Chunk>) {
    chunks != [] && n0 + |chunks| == e.newLeafCount &&
    PackedUnder(vh, e.versionedHashes, chunks) &&
    CommitsTo(e.subtreePeaks, n0, chunks)
  }

  ghost predicate AllOffered(vh: BlobHash, offers: seq<Offer>, e: DeclaredEvent) {
    forall w :: w in e.versionedHashes ==> Offered(vh, offers, w)
  }

  /** The blobs of an event in declared order; a repeated hash is served by one blob. */
  function InOrder(have: map<Hash, Blob>, hashes: seq<Hash>): (blobs: seq<Blob>)
    requires forall w :: w in hashes ==> w in have
    ensures |blobs| == |hashes| && forall i :: 0 <= i < |hashes| ==> blobs[i] == have[hashes[i]]
  {
    if hashes == [] then [] else [have[hashes[0]]] + InOrder(have, hashes[1..])
  }

  /**
   * Everything that is checked before anything is written. Whatever passes is what the event declares, by its
   * blob hashes and by its subtree roots; an honest event with all its blobs offered passes when versioned
   * hashes do not collide.
   */
  method CheckEvent(vh: BlobHash, offers: seq<Offer>, n0: U64, e: DeclaredEvent, ghost chunks: seq<Chunk>)
    returns (r: Result<seq<Chunk>, IngestError>)
    ensures r.Ok? ==> Declares(vh, e, n0, r.value)
    ensures r.Err? ==> r.error.BlobsUnavailable? || r.error.ProtocolContradiction?
    ensures r.Err? && r.error.BlobsUnavailable? <==> n0 < e.newLeafCount && !AllOffered(vh, offers, e)
    ensures CollisionFree(vh) && Declares(vh, e, n0, chunks) && AllOffered(vh, offers, e) ==> r.Ok?
    ensures r.Ok? && Declares(vh, e, n0, chunks) ==> r.value == chunks
  {
    hide Pack, CanonicalBlobs, Decompose, RootsOf, Span;
    if e.newLeafCount <= n0 { return Err(ProtocolContradiction); }
    var m := e.newLeafCount - n0;
    var acquired := Acquire(vh, offers, e.versionedHashes);
    if acquired.Err? { return Err(BlobsUnavailable(acquired.error)); }
    var ordered := InOrder(acquired.value, e.versionedHashes);
    if CollisionFree(vh) && Declares(vh, e, n0, chunks) {
      assert ordered == Pack(chunks);
    }
    var unpacked := ChunksFromBlobs(ordered, m);
    if unpacked.Err? { return Err(ProtocolContradiction); }
    var recomputed := M.UpdateSubtreeRoots(n0, unpacked.value);
    if Declares(vh, e, n0, chunks) {
      M.UpdateRootsDetermineChunks(n0, unpacked.value, chunks);
    }
    if recomputed != e.subtreePeaks { return Err(ProtocolContradiction); }
    r := Ok(unpacked.value);
  }

  // ---- Ingestion ----

  /** The event is the one the chain emitted for its nonce. */
  ghost predicate Genuine(vh: BlobHash, decls: seq<seq<Chunk>>, e: DeclaredEvent) {
    e.nonce < |decls| && Declares(vh, e, |DataAt(decls, e.nonce)|, decls[e.nonce])
  }

  lemma GenuineExtends(vh: BlobHash, decls: seq<seq<Chunk>>, e: DeclaredEvent)
    requires Genuine(vh, decls, e)
    ensures |DataAt(decls, e.nonce)| < e.newLeafCount
    ensures CommitsTo(e.subtreePeaks, |DataAt(decls, e.nonce)|, decls[e.nonce])
  {
    hide Pack, CommitsTo;
  }

  class Ingestor {
    const store: Store

    constructor (store: Store)
      ensures this.store == store
    {
      this.store := store;
    }

    /**
     * Ingest one event: a redelivery is ignored, a gap halts, and the owed declaration is committed exactly
     * or not at all. With all blobs offered and no hash collision only the disk can fail it.
     */
    method IngestEvent(vh: BlobHash, offers: seq<Offer>, e: DeclaredEvent,
                       ghost decls: seq<seq<Chunk>>, ghost acked: nat)
      returns (r: Result<bool, IngestError>)
      requires store.Valid(decls, acked) && Genuine(vh, decls, e)
      modifies store`frontier, store.device
      ensures e.nonce < old(store.frontier.nonce) <==> r == Ok(false)
      ensures r.Err? && r.error.NonceGap? <==> e.nonce > old(store.frontier.nonce)
      ensures r.Err? && r.error.NonceGap? ==> r.error == NonceGap(old(store.frontier.nonce), e.nonce)
      ensures e.nonce != old(store.frontier.nonce) ==> store.device.d == old(store.device.d)
      ensures r == Ok(true) ==> store.frontier == FrontierAt(decls, e.nonce + 1) && store.Valid(decls, e.nonce + 1)
      ensures r != Ok(true) ==> store.frontier == old(store.frontier) && store.Valid(decls, acked)
      ensures e.nonce == old(store.frontier.nonce) ==>
        (r.Err? && r.error.BlobsUnavailable? <==> !AllOffered(vh, offers, e))
      ensures CollisionFree(vh) ==> !(r.Err? && r.error.ProtocolContradiction?)
      ensures r.Err? && r.error.StoreFailed? ==> r.error.cause == Io
      ensures old(store.device.d.bytes) <= store.device.d.bytes
    {
      hide Flat, Concat, Recoverable, PeakList, PeakHeights, Decompose, Rehydrate, CarryAll, RootsOf;
      hide AllOffered, Declares, Pack, CommitsTo, EndsAs;
      GenuineExtends(vh, decls, e);
      var expected := store.frontier.nonce;
      if e.nonce < expected { return Ok(false); }
      if e.nonce > expected { return Err(NonceGap(expected, e.nonce)); }
      ghost var data := DataAt(decls, expected);
      DataLength(decls, expected);
      var checked := CheckEvent(vh, offers, store.frontier.leafCount, e, decls[expected]);
      if checked.Err? { return Err(checked.error); }
      ghost var ending;
      var committed;
      committed, ending := CommitVerified(checked.value, e.subtreePeaks, decls, acked);
      r := if committed.Ok? then Ok(true) else Err(StoreFailed(Io));
    }

    /** Merge verified chunks into the stored state and commit the result. */
    method CommitVerified(chunks: seq<Chunk>, roots: seq<Hash>, ghost decls: seq<seq<Chunk>>, ghost acked: nat)
      returns (r: Result<(), StoreError>, ghost ending: Ending)
      requires store.Valid(decls, acked) && store.frontier.nonce < |decls|
      requires chunks == decls[store.frontier.nonce] && CommitsTo(roots, store.frontier.leafCount, chunks)
      modifies store`frontier, store.device
      ensures r.Ok? ==> store.frontier == FrontierAt(decls, old(store.frontier.nonce) + 1)
      ensures r.Ok? ==> store.Valid(decls, old(store.frontier.nonce) + 1)
      ensures r.Err? ==> r == Err(Io) && store.frontier == old(store.frontier) && store.Valid(decls, acked)
      ensures old(store.device.d.bytes) <= store.device.d.bytes
      ensures r.Ok? ==> store.device.d.visible == Whole(store.frontier) && store.device.d.shadows == {}
      ensures EndsAs(decls, old(store.device.d), old(store.frontier), store.device.d, ending)
    {
      hide Flat, Concat, Recoverable, PeakList, PeakHeights, Decompose, Rehydrate, CarryAll, RootsOf, EndsAs;
      var k := store.frontier.nonce;
      ghost var data := DataAt(decls, k);
      DataLength(decls, k + 1);
      DataGrows(decls, k, k + 1);
      var mmr := store.MmrAt(decls);
      M.RehydrateData(data, []);
      assert data + [] == data;
      M.StoredUpdate(data, chunks);
      var applied := mmr.ApplyUpdate(roots, |chunks|);
      assert applied.Ok?;
      r, ending := store.CommitDeclaration(k + 1, chunks, mmr, decls, acked);
    }
  }
}
