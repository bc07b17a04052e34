/**
 * Chunks to blobs and back. Four components read the same packing: the publisher that packs, the daemon
 * that unpacks, the equivalence circuit that asserts the canonical form, and the carrier whose static and
 * live checks split the same condition between them.
 */
module Packing {
  import opened Data

  const ELEMENTS: nat := 4096
  const ELEMENT_BYTES: nat := 32
  const BLOB_BYTES: nat := 131072

  /** One field element as stored. */
  type Element = e: seq<Byte> | |e| == ELEMENT_BYTES witness seq(ELEMENT_BYTES, _ => 0)

  type Blob = b: seq<Byte> | |b| == BLOB_BYTES witness seq(BLOB_BYTES, _ => 0)

  function Zero(): Element {
    seq(ELEMENT_BYTES, i => 0)
  }

  /** `ceil(m / 4096)`. */
  function BlobCount(m: nat): nat {
    (m + (ELEMENTS - 1)) / ELEMENTS
  }

  /** The element that carries local chunk `u`; zero past the data. */
  function ElementOf(chunks: seq<Chunk>, u: nat): Element {
    if u < |chunks| then [0] + chunks[u] else Zero()
  }

  /** The 4096 elements of one blob. */
  function ElementsFromChunks(slice: seq<Chunk>): (elements: seq<Element>)
    ensures |elements| == ELEMENTS
  {
    seq(ELEMENTS, i requires 0 <= i < ELEMENTS => ElementOf(slice, i))
  }

  /** Elements back to back. */
  function Raw(elements: seq<Element>): Blob
    requires |elements| == ELEMENTS
  {
    seq(BLOB_BYTES, k requires 0 <= k < BLOB_BYTES => elements[k / ELEMENT_BYTES][k % ELEMENT_BYTES])
  }

  /** Pack an update into canonical blobs, 4096 chunks at a time. */
  function Pack(chunks: seq<Chunk>): seq<Blob>
    decreases |chunks|
  {
    if chunks == [] then []
    else
      var take := if |chunks| < ELEMENTS then |chunks| else ELEMENTS;
      [Raw(ElementsFromChunks(chunks[..take]))] + Pack(chunks[take..])
  }

  /** The versioned hash of a blob; `None` when the bytes are no blob at all. */
  type BlobHash = Blob -> Option<Hash>

  /** The hashes are those of the packing of the chunks, blob by blob. */
  predicate PackedUnder(vh: BlobHash, hashes: seq<Hash>, chunks: seq<Chunk>) {
    |hashes| == |Pack(chunks)| && forall i :: 0 <= i < |hashes| ==> vh(Pack(chunks)[i]) == Some(hashes[i])
  }

  function ElementIn(blob: Blob, e: nat): Element
    requires e < ELEMENTS
  {
    blob[e * ELEMENT_BYTES..e * ELEMENT_BYTES + ELEMENT_BYTES]
  }

  /** Element `u` of a blob list, counted across blobs. */
  function ElementAt(blobs: seq<Blob>, u: nat): Element
    requires u < |blobs| * ELEMENTS
  {
    ElementIn(blobs[u / ELEMENTS], u % ELEMENTS)
  }

  /** Enough blobs and no more, every high byte zero, every element past the data zero. */
  ghost predicate CanonicalBlobs(blobs: seq<Blob>, m: nat)
  {
    |blobs| == BlobCount(m) &&
    forall u :: 0 <= u < |blobs| * ELEMENTS ==>
      ElementAt(blobs, u)[0] == 0 && (u >= m ==> ElementAt(blobs, u) == Zero())
  }

  // ---- What packing puts where ----

  lemma {:induction false} PackLength(chunks: seq<Chunk>)
    ensures |Pack(chunks)| == BlobCount(|chunks|)
    decreases |chunks|
  {
    if chunks != [] {
      PackLength(chunks[if |chunks| < ELEMENTS then |chunks| else ELEMENTS..]);
    }
  }

  lemma RawElement(elements: seq<Element>, e: nat)
    requires |elements| == ELEMENTS && e < ELEMENTS
    ensures ElementIn(Raw(elements), e) == elements[e]
  {
    forall k | 0 <= k < ELEMENT_BYTES ensures ElementIn(Raw(elements), e)[k] == elements[e][k] {
      assert (e * ELEMENT_BYTES + k) / ELEMENT_BYTES == e && (e * ELEMENT_BYTES + k) % ELEMENT_BYTES == k;
    }
  }

  lemma ElementAtCons(first: Blob, rest: seq<Blob>, u: nat)
    requires u < (1 + |rest|) * ELEMENTS
    ensures u < ELEMENTS ==> ElementAt([first] + rest, u) == ElementIn(first, u)
    ensures u >= ELEMENTS ==> ElementAt([first] + rest, u) == ElementAt(rest, u - ELEMENTS)
  {
    if u >= ELEMENTS {
      assert u / ELEMENTS == (u - ELEMENTS) / ELEMENTS + 1 && u % ELEMENTS == (u - ELEMENTS) % ELEMENTS;
    }
  }

  /** Local chunk `u` sits in blob `u / 4096`, element `u % 4096`; the rest is zero. */
  lemma {:induction false} PackElement(chunks: seq<Chunk>, u: nat)
    requires u < |Pack(chunks)| * ELEMENTS
    ensures ElementAt(Pack(chunks), u) == ElementOf(chunks, u)
    decreases |chunks|
  {
    var take := if |chunks| < ELEMENTS then |chunks| else ELEMENTS;
    var slice, rest := chunks[..take], chunks[take..];
    var head := ElementsFromChunks(slice);
    ElementAtCons(Raw(head), Pack(rest), u);
    if u >= ELEMENTS {
      PackElement(rest, u - ELEMENTS);
      assert ElementOf(rest, u - ELEMENTS) == ElementOf(chunks, u);
    } else {
      RawElement(head, u);
      assert ElementOf(slice, u) == ElementOf(chunks, u);
    }
  }

  /** Blob lists are their elements. */
  lemma SameElements(a: seq<Blob>, b: seq<Blob>)
    requires |a| == |b|
    requires forall u :: 0 <= u < |a| * ELEMENTS ==> ElementAt(a, u) == ElementAt(b, u)
    ensures a == b
  {
    forall j | 0 <= j < |a| ensures a[j] == b[j] {
      forall k | 0 <= k < BLOB_BYTES ensures a[j][k] == b[j][k] {
        var e := k / ELEMENT_BYTES;
        var u := j * ELEMENTS + e;
        assert u / ELEMENTS == j && u % ELEMENTS == e;
        assert ElementAt(a, u)[k % ELEMENT_BYTES] == ElementAt(b, u)[k % ELEMENT_BYTES];
      }
    }
  }

  /** Packing always yields the canonical form. */
  lemma PackIsCanonical(chunks: seq<Chunk>)
    ensures CanonicalBlobs(Pack(chunks), |chunks|)
  {
    PackLength(chunks);
    forall u | 0 <= u < |Pack(chunks)| * ELEMENTS
      ensures ElementAt(Pack(chunks), u) == ElementOf(chunks, u)
    {
      PackElement(chunks, u);
    }
  }

  /** Blobs whose elements carry the chunks are the packing of the chunks. */
  lemma PackedIfElements(blobs: seq<Blob>, chunks: seq<Chunk>)
    requires |blobs| == BlobCount(|chunks|)
    requires forall u :: 0 <= u < |blobs| * ELEMENTS ==> ElementAt(blobs, u) == ElementOf(chunks, u)
    ensures Pack(chunks) == blobs
  {
    PackLength(chunks);
    forall u | 0 <= u < |blobs| * ELEMENTS ensures ElementAt(Pack(chunks), u) == ElementAt(blobs, u) {
      PackElement(chunks, u);
    }
    SameElements(Pack(chunks), blobs);
  }

  /** Packing loses nothing: same blobs and same count, same chunks. */
  lemma PackInjective(a: seq<Chunk>, b: seq<Chunk>)
    requires |a| == |b| && Pack(a) == Pack(b)
    ensures a == b
  {
    PackLength(a);
    forall u | 0 <= u < |a| ensures a[u] == b[u] {
      PackElement(a, u);
      PackElement(b, u);
      assert ElementOf(a, u)[1..] == a[u] && ElementOf(b, u)[1..] == b[u];
    }
  }

  // ---- The daemon's unpacking ----

  datatype VerifyError =
    | BlobCountMismatch
    | NonCanonicalElement(index: nat)
    | NonZeroPadding(index: nat)

  /**
   * Unpack `m` chunks, refusing anything but the canonical form. Success and packing are inverse: the
   * result packs back to the blobs, and whatever packs to the blobs is the result.
   */
  method ChunksFromBlobs(blobs: seq<Blob>, m: nat) returns (r: Result<seq<Chunk>, VerifyError>)
    ensures r.Ok? <==> CanonicalBlobs(blobs, m)
    ensures r.Ok? ==> |r.value| == m && Pack(r.value) == blobs
    ensures forall c: seq<Chunk> :: |c| == m && Pack(c) == blobs ==> r == Ok(c)
  {
    forall c: seq<Chunk> | |c| == m && Pack(c) == blobs ensures CanonicalBlobs(blobs, m) { PackIsCanonical(c); }
    if |blobs| != BlobCount(m) { return Err(BlobCountMismatch); }
    var chunks: seq<Chunk> := [];
    for b := 0 to |blobs|
      invariant |chunks| == if b * ELEMENTS < m then b * ELEMENTS else m
      invariant forall u :: 0 <= u < b * ELEMENTS ==> ElementAt(blobs, u) == ElementOf(chunks, u)
      invariant forall u :: 0 <= u < b * ELEMENTS ==> u >= m ==> ElementAt(blobs, u) == Zero()
    {
      for e := 0 to ELEMENTS
        invariant |chunks| == if b * ELEMENTS + e < m then b * ELEMENTS + e else m
        invariant forall u :: 0 <= u < b * ELEMENTS + e ==> ElementAt(blobs, u) == ElementOf(chunks, u)
        invariant forall u :: 0 <= u < b * ELEMENTS + e ==> u >= m ==> ElementAt(blobs, u) == Zero()
      {
        var u := b * ELEMENTS + e;
        assert u / ELEMENTS == b && u % ELEMENTS == e;
        var element: Element := ElementIn(blobs[b], e);
        assert element == ElementAt(blobs, u);
        if u < m {
          if element[0] != 0 { return Err(NonCanonicalElement(u)); }
          assert element == [0] + element[1..];
          chunks := chunks + [element[1..]];
        } else if element != Zero() {
          return Err(NonZeroPadding(u));
        }
      }
    }
    PackedIfElements(blobs, chunks);
    PackIsCanonical(chunks);
    forall c: seq<Chunk> | |c| == m && Pack(c) == blobs ensures c == chunks { PackInjective(c, chunks); }
    r := Ok(chunks);
  }

  // ---- The circuit's assertions ----

  /**
   * The canonical-form part of the equivalence guest. `None` is a panic: no witness, hence no proof. A
   * proof exists exactly for a nonempty update whose blobs are the packing of some chunks, and it speaks
   * about those chunks.
   */
  method EquivalenceChunks(priorLeafCount: nat, newLeafCount: nat, versionedHashes: nat, blobs: seq<seq<Byte>>)
    returns (r: Option<seq<Chunk>>)
    ensures r.Some? <==>
      newLeafCount > priorLeafCount && versionedHashes == BlobCount(newLeafCount - priorLeafCount) &&
      (forall j :: 0 <= j < |blobs| ==> |blobs[j]| == BLOB_BYTES) &&
      CanonicalBlobs(blobs, newLeafCount - priorLeafCount)
    ensures r.Some? ==> |r.value| == newLeafCount - priorLeafCount && Pack(r.value) == blobs
  {
    if newLeafCount <= priorLeafCount { return None; }
    var m: nat := newLeafCount - priorLeafCount;
    if |blobs| != BlobCount(m) || versionedHashes != BlobCount(m) { return None; }
    for j := 0 to |blobs|
      invariant forall i :: 0 <= i < j ==> |blobs[i]| == BLOB_BYTES
    {
      if |blobs[j]| != BLOB_BYTES { return None; }
    }
    var unpacked := ChunksFromBlobs(blobs, m);
    r := match unpacked case Ok(chunks) => Some(chunks) case Err(_) => None;
  }

  // ---- The carrier's two halves ----

  datatype CarrierError =
    | NoBlobs
    | WrongBlobLength(index: nat)
    | NonCanonical(index: nat, element: nat)
    | DoesNotExtend
    | CarrierBlobCountMismatch
    | NonZeroTail(tail: nat)

  /** Static validation: shape and high bytes of every element, no chain state. */
  method ValidateBlobs(blobs: seq<seq<Byte>>) returns (r: Result<(), CarrierError>)
    ensures r.Ok? <==>
      blobs != [] && (forall j :: 0 <= j < |blobs| ==> |blobs[j]| == BLOB_BYTES) &&
      forall j, e :: 0 <= j < |blobs| && 0 <= e < ELEMENTS ==> blobs[j][e * ELEMENT_BYTES] == 0
  {
    if blobs == [] { return Err(NoBlobs); }
    for j := 0 to |blobs|
      invariant forall i :: 0 <= i < j ==> |blobs[i]| == BLOB_BYTES
      invariant forall i, e :: 0 <= i < j && 0 <= e < ELEMENTS ==> blobs[i][e * ELEMENT_BYTES] == 0
    {
      if |blobs[j]| != BLOB_BYTES { return Err(WrongBlobLength(j)); }
      for e := 0 to ELEMENTS
        invariant forall d :: 0 <= d < e ==> blobs[j][d * ELEMENT_BYTES] == 0
      {
        if blobs[j][e * ELEMENT_BYTES] != 0 { return Err(NonCanonical(j, e)); }
      }
    }
    r := Ok(());
  }

  /** The final blob is zero past the declared chunks. */
  ghost predicate ZeroTail(last: Blob, m: nat)
  {
    m % ELEMENTS != 0 ==> forall e :: m % ELEMENTS <= e < ELEMENTS ==> ElementIn(last, e) == Zero()
  }

  /** Live preflight: the update extends the chain, the blob count is right, the tail is zero. */
  method PreflightBlobs(blobs: seq<Blob>, current: nat, newLeafCount: nat) returns (r: Result<(), CarrierError>)
    ensures r.Ok? <==>
      newLeafCount > current && |blobs| == BlobCount(newLeafCount - current) &&
      ZeroTail(blobs[|blobs| - 1], newLeafCount - current)
  {
    var m: nat := if newLeafCount > current then newLeafCount - current else 0;
    if m == 0 { return Err(DoesNotExtend); }
    if |blobs| != BlobCount(m) { return Err(CarrierBlobCountMismatch); }
    var tailStart := m % ELEMENTS;
    if tailStart != 0 {
      var last := blobs[|blobs| - 1];
      for e := tailStart to ELEMENTS
        invariant forall d :: tailStart <= d < e ==> ElementIn(last, d) == Zero()
      {
        if ElementIn(last, e) != Zero() { return Err(NonZeroTail(e)); }
      }
    }
    r := Ok(());
  }

  /** The carrier's static and live checks together accept exactly the canonical blobs. */
  lemma CarrierAcceptsCanonical(blobs: seq<Blob>, m: nat)
    requires m >= 1
    ensures CanonicalBlobs(blobs, m) <==>
      (forall j, e :: 0 <= j < |blobs| && 0 <= e < ELEMENTS ==> blobs[j][e * ELEMENT_BYTES] == 0)
      && |blobs| == BlobCount(m) && ZeroTail(blobs[|blobs| - 1], m)
  {
    if CanonicalBlobs(blobs, m) {
      forall j, e | 0 <= j < |blobs| && 0 <= e < ELEMENTS ensures blobs[j][e * ELEMENT_BYTES] == 0 {
        var u := j * ELEMENTS + e;
        assert u / ELEMENTS == j && u % ELEMENTS == e && ElementAt(blobs, u)[0] == 0;
      }
      var last := blobs[|blobs| - 1];
      forall e | m % ELEMENTS <= e < ELEMENTS && m % ELEMENTS != 0 ensures ElementIn(last, e) == Zero() {
        var u := (|blobs| - 1) * ELEMENTS + e;
        assert u / ELEMENTS == |blobs| - 1 && u % ELEMENTS == e && u >= m;
        assert ElementAt(blobs, u) == Zero();
      }
    }
    if |blobs| == BlobCount(m) && ZeroTail(blobs[|blobs| - 1], m)
      && forall j, e :: 0 <= j < |blobs| && 0 <= e < ELEMENTS ==> blobs[j][e * ELEMENT_BYTES] == 0
    {
      forall u | 0 <= u < |blobs| * ELEMENTS
        ensures ElementAt(blobs, u)[0] == 0 && (u >= m ==> ElementAt(blobs, u) == Zero())
      {
        assert blobs[u / ELEMENTS][u % ELEMENTS * ELEMENT_BYTES] == 0;
        if u >= m { assert u / ELEMENTS == |blobs| - 1 && u % ELEMENTS >= m % ELEMENTS; }
      }
    }
  }
}
