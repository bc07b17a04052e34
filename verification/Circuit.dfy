/**
 * The custody guest program: what a custody proof attests. Its acceptance is possession: a witness exists
 * for pinned public values exactly as the true chunks at the drawn positions with their true paths.
 */
module Circuit {
  import opened Data
  import opened Bits
  import opened Forest
  import opened Inclusion
  import opened InstanceSpec

  /** The committed public values. */
  datatype PublicValues = PublicValues(pid: nat, seed: Hash, root: Hash, leafCount: U64, k: nat)

  /** The witness that holds the data: the true peaks, chunks and paths. */
  ghost predicate TrueWitness(p: Params, cs: seq<Chunk>, v: PublicValues, peaks: seq<Hash>, samples: seq<ChunkProof>)
    requires 0 < v.leafCount <= |cs|
  {
    peaks == PeakList(cs, 0, v.leafCount) && |samples| == v.k &&
    forall j :: 0 <= j < |samples| ==>
      var i := p.draw(v.seed, v.pid, j) % v.leafCount;
      samples[j] == ChunkProof(cs[i], ProofPath(cs, i, v.leafCount))
  }

  predicate SamplesVerify(p: Params, v: PublicValues, peaks: seq<Hash>, samples: seq<ChunkProof>)
    requires v.leafCount > 0
  {
    forall j :: 0 <= j < |samples| ==>
      Verifies(samples[j].chunk, CustodyIndex(p, v.seed, v.pid, j, v.leafCount), samples[j].path, v.leafCount, peaks)
  }

  /** The guest accepts: a nonempty snapshot, its root, every drawn position answered. */
  predicate Accepts(p: Params, v: PublicValues, peaks: seq<Hash>, samples: seq<ChunkProof>) {
    v.leafCount > 0 && Root(v.leafCount, peaks) == v.root && |samples| == v.k && SamplesVerify(p, v, peaks, samples)
  }

  lemma ExactSamples(p: Params, v: PublicValues, cs: seq<Chunk>, samples: seq<ChunkProof>)
    requires 0 < v.leafCount <= |cs| && |samples| == v.k
    ensures var peaks := PeakList(cs, 0, v.leafCount);
      SamplesVerify(p, v, peaks, samples) <==> TrueWitness(p, cs, v, peaks, samples)
  {
    hide Verifies, ProofPath, PeakList;
    var n := v.leafCount;
    forall j | 0 <= j < |samples|
      ensures var i := CustodyIndex(p, v.seed, v.pid, j, n);
        Verifies(samples[j].chunk, i, samples[j].path, n, PeakList(cs, 0, n)) <==>
        samples[j] == ChunkProof(cs[i], ProofPath(cs, i, n))
    {
      VerifiesExactly(cs, CustodyIndex(p, v.seed, v.pid, j, n), n, samples[j].chunk, samples[j].path);
    }
  }

  /** Against public values that pin a true state, exactly the true witness is accepted, whatever the data. */
  lemma AcceptsExactly(p: Params, v: PublicValues, peaks: seq<Hash>, samples: seq<ChunkProof>, cs: seq<Chunk>)
    requires 0 < v.leafCount <= |cs| && v.root == Root(v.leafCount, PeakList(cs, 0, v.leafCount))
    ensures Accepts(p, v, peaks, samples) <==> TrueWitness(p, cs, v, peaks, samples)
  {
    hide PeakList, SamplesVerify, ProofPath;
    if |samples| == v.k { ExactSamples(p, v, cs, samples); }
  }

  /**
   * Check every sample; `None` is a failed assertion, hence no proof. Against public values that pin a true
   * state, exactly the true witness passes, whatever the data.
   */
  method Custody(p: Params, v: PublicValues, peaks: seq<Hash>, samples: seq<ChunkProof>)
    returns (r: Option<PublicValues>)
    ensures r == if Accepts(p, v, peaks, samples) then Some(v) else None
    ensures forall cs: seq<Chunk> ::
      0 < v.leafCount <= |cs| && v.root == Root(v.leafCount, PeakList(cs, 0, v.leafCount)) ==>
        (r.Some? <==> TrueWitness(p, cs, v, peaks, samples))
  {
    hide Verifies, ProofPath, PeakList, TrueWitness;
    forall cs: seq<Chunk> | 0 < v.leafCount <= |cs| && v.root == Root(v.leafCount, PeakList(cs, 0, v.leafCount))
      ensures Accepts(p, v, peaks, samples) <==> TrueWitness(p, cs, v, peaks, samples)
    {
      AcceptsExactly(p, v, peaks, samples, cs);
    }
    var n := v.leafCount;
    if n == 0 { return None; }
    if Root(n, peaks) != v.root { return None; }
    if |samples| != v.k { return None; }
    for j := 0 to |samples|
      invariant forall l :: 0 <= l < j ==>
        Verifies(samples[l].chunk, CustodyIndex(p, v.seed, v.pid, l, n), samples[l].path, n, peaks)
    {
      var ok := Verify(samples[j].chunk, CustodyIndex(p, v.seed, v.pid, j, n), samples[j].path, n, peaks);
      if !ok { return None; }
    }
    r := Some(v);
  }
}
