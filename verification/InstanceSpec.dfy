/**
 * What every entry point of the instance contract does to its storage, as a function from the storage
 * before to the storage after or the error that reverts it. A push is a parameter: any payout may fail.
 */
module InstanceSpec {
  import opened Data
  import opened Bits
  import opened Decomposition
  import opened Forest
  import opened Inclusion
  import opened Packing
  import opened PayoutSink

  const RESPONSE_GAS_PER_CHUNK: nat := 38_680
  const RESPONSE_BASE_GAS: nat := 21_000
  const BOND_MULTIPLIER: nat := 3
  const MAX_OPEN: nat := 0xffff_ffff

  /**
   * Constructor parameters, and two functions of the outside world: `draw` is the keccak of the custody domain
   * as an integer, `blobHash` the versioned hash of a blob.
   */
  datatype Params = Params(
    stakeWei: nat, responseWindow: U64, unbondingDelay: U64, custodyPeriod: U64, lapseGrace: U64,
    maxSample: nat, custodyK: nat, bountyBps: nat, dormancyMinChunks: U64, paymaster: Address,
    draw: (Hash, nat, nat) -> nat, blobHash: BlobHash)

  datatype Status = Active | Unbonding | Exited | Slashed

  /** The provider record. A provider absent from the mapping has status NONE. */
  datatype Provider = Provider(
    operator: Address, withdrawal: Address, status: Status, anchor: U64,
    lastProvenPlusOne: nat, lastDegraded: bool,
    commitPeriodPlusOne: nat, commitSeed: Hash, commitRoot: Hash, commitLeafCount: nat,
    unbondingAt: U64, exitRoot: Hash, exitLeafCount: nat, openChallenges: nat)

  /** A challenge record; the index list stands for its collision-free hash. */
  datatype Challenge = Challenge(
    providerId: nat, challenger: Address, bond: nat, openedAt: U64,
    pinnedRoot: Hash, pinnedLeafCount: nat, indices: seq<nat>, resolved: bool)

  datatype ChunkProof = ChunkProof(chunk: Chunk, path: seq<Hash>)

  /**
   * Contract storage and balance, plus four facts about the world it lives in: the time of the last block, the
   * ETH forced in from outside, the chunks its peaks commit to, and what each address has been sent.
   */
  datatype State = State(
    balance: nat, claimable: map<Address, nat>, totalClaimable: nat,
    leafCount: nat, peaks: seq<Hash>, declarationNonce: nat,
    checkpointTime: U64, checkpointLeafCount: nat,
    nextProviderId: nat, providers: map<nat, Provider>,
    nextChallengeId: nat, challenges: map<nat, Challenge>,
    clock: U64, forced: nat, dataset: seq<Chunk>, received: map<Address, nat>)

  type Outcome = Result<State, Error>

  const NO_HASH: Hash := Word(0)

  function Initial(now: U64): State {
    State(0, map[], 0, 0, [], 0, now, 0, 1, map[], 0, map[], now, 0, [], map[])
  }

  // ---- Shared pieces ----

  function SinkOf(s: State): Sink {
    Sink(s.balance, s.claimable, s.totalClaimable, s.received)
  }

  function WithSink(s: State, k: Sink): State {
    s.(balance := k.balance, claimable := k.claimable, totalClaimable := k.totalClaimable, received := k.received)
  }

  function Payout(s: State, to: Address, amount: nat, push: bool): State {
    WithSink(s, Push(SinkOf(s), to, amount, push))
  }

  function CurrentRoot(s: State): Hash {
    Root(s.leafCount, s.peaks)
  }

  function GetProvider(s: State, pid: nat): Result<Provider, Error> {
    if pid in s.providers then Ok(s.providers[pid]) else Err(UnknownProvider)
  }

  function SetProvider(s: State, pid: nat, pr: Provider): State {
    s.(providers := s.providers[pid := pr])
  }

  function Bounty(p: Params): nat {
    p.stakeWei * p.bountyBps / 10_000
  }

  /** Mark slashed and hand the remainder to the paymaster, which always accepts it. */
  function SlashProvider(p: Params, s: State, pid: nat): Outcome
    requires pid in s.providers
  {
    if Bounty(p) > p.stakeWei || p.stakeWei - Bounty(p) > s.balance then Err(Panic) else
    Ok(SetProvider(s, pid, s.providers[pid].(status := Slashed)).(
         balance := s.balance - (p.stakeWei - Bounty(p)),
         received := Credit(s.received, p.paymaster, p.stakeWei - Bounty(p))))
  }

  /** Whole custody periods since the provider staked. */
  function Period(p: Params, anchor: U64, now: U64): nat
    requires p.custodyPeriod > 0 && anchor <= now
  {
    (now - anchor) / p.custodyPeriod
  }

  function EligibleAt(p: Params, pr: Provider): nat {
    pr.anchor + (pr.lastProvenPlusOne + 2) * p.custodyPeriod
  }

  function ClearCommit(pr: Provider): Provider {
    pr.(commitPeriodPlusOne := 0, commitSeed := NO_HASH, commitRoot := NO_HASH, commitLeafCount := 0)
  }

  /** The sampled chunk position for an ordinal. */
  function CustodyIndex(p: Params, seed: Hash, pid: nat, j: nat, n: nat): nat
    requires n > 0
  {
    p.draw(seed, pid, j) % n
  }

  // ---- Publication ----

  /** The signed update; `carried` are the hashes of the transaction's blobs, `openings` which openings verify. */
  datatype Declaration = Declaration(
    nonce: nat, deadline: U64, carrierAllowed: bool, signed: bool, versionedHashes: seq<Hash>, roots: seq<Hash>,
    newLeafCount: U64, carried: seq<Hash>, openings: seq<bool>)

  /** The hash of the transaction's blob `j`, zero past the last. */
  function BlobHashAt(d: Declaration, j: nat): Hash {
    if j < |d.carried| then d.carried[j] else NO_HASH
  }

  /**
   * Declare an update. The equivalence proof is read as its statement: the signed blobs are the packing of the
   * published chunks, and the signed subtree roots are the roots of those chunks under the decomposition.
   */
  function Declare(p: Params, s: State, now: U64, d: Declaration, chunks: seq<Chunk>): Outcome
    requires s.leafCount < U64_LIMIT && |s.peaks| == |PeakHeights(s.leafCount)|
  {
    if now > d.deadline then Err(IntentExpired) else
    :- Need(d.nonce == s.declarationNonce, WrongNonce);
    :- Need(d.carrierAllowed, NotDesignatedCarrier);
    :- Need(d.signed, BadSignature);
    :- Need(d.newLeafCount > s.leafCount, EmptyUpdate);
    var m: nat := d.newLeafCount - s.leafCount;
    :- Need(|d.versionedHashes| == BlobCount(m) && |d.openings| == BlobCount(m), Error.BlobCountMismatch);
    :- Need(forall j :: 0 <= j < |d.versionedHashes| ==> BlobHashAt(d, j) == d.versionedHashes[j], BlobHashMismatch);
    :- Need(BlobHashAt(d, BlobCount(m)) == NO_HASH, UnexpectedExtraBlob);
    :- Need(|d.roots| == |Decompose(s.leafCount, m)|, SubtreeCountMismatch);
    :- Need(forall j :: 0 <= j < |d.openings| ==> d.openings[j], PointEvaluationFailed);
    :- Need(PackedUnder(p.blobHash, d.versionedHashes, chunks), InvalidEquivalenceProof);
    DecomposeSpan(s.leafCount, m);
    :- Need(|chunks| == m && d.roots == RootsOf(chunks, 0, Decompose(s.leafCount, m)), InvalidEquivalenceProof);
    var merged := CarryAll(Rehydrate(PeakHeights(s.leafCount), s.peaks), Decompose(s.leafCount, m), d.roots);
    :- Need(d.newLeafCount >= s.checkpointLeafCount, Panic);
    var active := d.newLeafCount - s.checkpointLeafCount >= p.dormancyMinChunks;
    Ok(s.(peaks := Canonical(merged, 64), leafCount := d.newLeafCount, declarationNonce := d.nonce + 1,
          checkpointTime := if active then now else s.checkpointTime,
          checkpointLeafCount := if active then d.newLeafCount else s.checkpointLeafCount,
          dataset := s.dataset + chunks))
  }

  // ---- Provider lifecycle ----

  function Stake(p: Params, s: State, now: U64, value: nat, operator: Address, withdrawal: Address): Outcome {
    if value != p.stakeWei then Err(WrongStakeAmount) else
    :- Need(operator != 0 && withdrawal != 0, ZeroAddress);
    var pr := Provider(operator, withdrawal, Active, now, 0, false, 0, NO_HASH, NO_HASH, 0, 0, NO_HASH, 0, 0);
    Ok(SetProvider(s, s.nextProviderId, pr).(nextProviderId := s.nextProviderId + 1, balance := s.balance + value))
  }

  function InitiateUnbonding(s: State, now: U64, sender: Address, pid: nat): Outcome {
    var pr :- GetProvider(s, pid);
    :- Need(sender == pr.operator, NotOperator);
    :- Need(pr.status.Active?, NotActive);
    Ok(SetProvider(s, pid, ClearCommit(pr).(
         status := Unbonding, unbondingAt := now, exitRoot := CurrentRoot(s), exitLeafCount := s.leafCount)))
  }

  function Withdraw(p: Params, s: State, now: U64, pid: nat, push: bool): Outcome {
    var pr :- GetProvider(s, pid);
    :- Need(pr.status.Unbonding?, NotUnbonding);
    :- Need(pr.unbondingAt + p.unbondingDelay < U64_LIMIT, Panic);
    :- Need(now >= pr.unbondingAt + p.unbondingDelay, UnbondingDelayActive);
    :- Need(pr.openChallenges == 0, OpenChallengesRemain);
    Ok(Payout(SetProvider(s, pid, pr.(status := Exited)), pr.withdrawal, p.stakeWei, push))
  }

  // ---- Custody ----

  function BeginProof(p: Params, s: State, now: U64, sender: Address, pid: nat, seed: Hash): Outcome {
    var pr :- GetProvider(s, pid);
    :- Need(sender == pr.operator, NotOperator);
    :- Need(pr.status.Active?, NotActive);
    :- Need(p.custodyPeriod > 0 && pr.anchor <= now, Panic);
    var period := Period(p, pr.anchor, now);
    :- Need(pr.commitPeriodPlusOne != period + 1, AlreadyCommitted);
    Ok(SetProvider(s, pid, pr.(
         commitPeriodPlusOne := period + 1, commitSeed := seed,
         commitRoot := CurrentRoot(s), commitLeafCount := s.leafCount)))
  }

  /** The guards both proof paths share; the result is the current, committed period. */
  function SubmitGuards(p: Params, pr: Provider, now: U64, sender: Address): Result<nat, Error> {
    if sender != pr.operator then Err(NotOperator) else
    :- Need(pr.status.Active?, NotActive);
    :- Need(pr.commitPeriodPlusOne != 0, NoCommit);
    :- Need(p.custodyPeriod > 0 && pr.anchor <= now, Panic);
    :- Need(pr.commitPeriodPlusOne - 1 == Period(p, pr.anchor, now), CommitFromEarlierPeriod);
    Ok(Period(p, pr.anchor, now))
  }

  function AcceptProof(s: State, pid: nat, pr: Provider, period: nat, degraded: bool): State {
    SetProvider(s, pid, ClearCommit(pr).(lastProvenPlusOne := period + 1, lastDegraded := degraded))
  }

  function SubmitProof(p: Params, s: State, now: U64, sender: Address, pid: nat, verified: bool): Outcome {
    var pr :- GetProvider(s, pid);
    var period :- SubmitGuards(p, pr, now, sender);
    :- Need(verified, InvalidCustodyProof);
    Ok(AcceptProof(s, pid, pr, period, false))
  }

  predicate RevealsVerify(p: Params, pr: Provider, pid: nat, n: nat, peaks: seq<Hash>, samples: seq<ChunkProof>)
    requires samples != [] ==> n > 0
  {
    forall j :: 0 <= j < |samples| ==>
      Verifies(samples[j].chunk, CustodyIndex(p, pr.commitSeed, pid, j, n), samples[j].path, n, peaks)
  }

  function SubmitProofEscape(p: Params, s: State, now: U64, sender: Address, pid: nat, n: nat,
                             peaks: seq<Hash>, samples: seq<ChunkProof>): Outcome {
    var pr :- GetProvider(s, pid);
    var period :- SubmitGuards(p, pr, now, sender);
    :- Need(n == pr.commitLeafCount && Root(n, peaks) == pr.commitRoot, PinMismatch);
    :- Need(|samples| == if n == 0 then 0 else p.maxSample, ProofCountMismatch);
    :- Need(RevealsVerify(p, pr, pid, n, peaks, samples), InvalidInclusionProof);
    Ok(AcceptProof(s, pid, pr, period, true))
  }

  datatype CustodyStatus = NoStatus | Current | Stale | LapseEligible | Lapsable

  function CustodyStatusOf(p: Params, s: State, now: U64, pid: nat): CustodyStatus
    requires p.custodyPeriod > 0
    requires pid in s.providers ==> s.providers[pid].anchor <= now
  {
    if pid !in s.providers || !s.providers[pid].status.Active? then NoStatus
    else
      var pr := s.providers[pid];
      var period := Period(p, pr.anchor, now);
      if period + 1 <= pr.lastProvenPlusOne + 1 then Current
      else if period + 1 == pr.lastProvenPlusOne + 2 then Stale
      else if now < EligibleAt(p, pr) + p.lapseGrace then LapseEligible
      else Lapsable
  }

  function Lapse(p: Params, s: State, now: U64, sender: Address, pid: nat, push: bool): Outcome {
    var pr :- GetProvider(s, pid);
    :- Need(pr.status.Active?, NotActive);
    :- Need(now >= EligibleAt(p, pr), NotLapsable);
    :- Need(now >= EligibleAt(p, pr) + p.lapseGrace, NotLapsable);
    var s' :- SlashProvider(p, s, pid);
    Ok(Payout(s', sender, Bounty(p), push))
  }

  // ---- Challenges ----

  /** The state a provider is answerable for: the current one, or the exit snapshot inside the window. */
  function Pin(p: Params, s: State, now: U64, pr: Provider): Result<(Hash, nat), Error> {
    if pr.status.Active? then Ok((CurrentRoot(s), s.leafCount))
    else if pr.status.Unbonding? then
      :- Need(pr.unbondingAt + p.unbondingDelay < U64_LIMIT, Panic);
      :- Need(now < pr.unbondingAt + p.unbondingDelay, ChallengeWindowClosed);
      Ok((pr.exitRoot, pr.exitLeafCount))
    else Err(ChallengeWindowClosed)
  }

  function RequiredBond(indices: nat, basefee: nat): nat {
    BOND_MULTIPLIER * (indices * RESPONSE_GAS_PER_CHUNK + RESPONSE_BASE_GAS) * basefee
  }

  function OpenChallenge(p: Params, s: State, now: U64, sender: Address, value: nat, basefee: nat, pid: nat,
                         indices: seq<nat>): Outcome {
    var pr :- GetProvider(s, pid);
    var pin :- Pin(p, s, now, pr);
    :- Need(indices != [], NoIndices);
    :- Need(|indices| <= p.maxSample, TooManyIndices);
    :- Need(forall j :: 0 <= j < |indices| ==> indices[j] < pin.1, IndexOutOfRange);
    :- Need(value >= RequiredBond(|indices|, basefee), BondTooSmall);
    :- Need(pr.openChallenges < MAX_OPEN && now + p.responseWindow < U64_LIMIT, Panic);
    var c := Challenge(pid, sender, value, now, pin.0, pin.1, indices, false);
    Ok(SetProvider(s, pid, pr.(openChallenges := pr.openChallenges + 1)).(
         nextChallengeId := s.nextChallengeId + 1, challenges := s.challenges[s.nextChallengeId := c],
         balance := s.balance + value))
  }

  /** Close a record and drop it from its provider's count. */
  function Resolve(s: State, id: nat): State
    requires id in s.challenges && s.challenges[id].providerId in s.providers
    requires s.providers[s.challenges[id].providerId].openChallenges > 0
  {
    var c := s.challenges[id];
    var pr := s.providers[c.providerId];
    SetProvider(s, c.providerId, pr.(openChallenges := pr.openChallenges - 1)).(
      challenges := s.challenges[id := c.(resolved := true)])
  }

  predicate ProofsVerify(indices: seq<nat>, n: nat, peaks: seq<Hash>, proofs: seq<ChunkProof>)
    requires |indices| == |proofs|
  {
    forall j :: 0 <= j < |proofs| ==> Verifies(proofs[j].chunk, indices[j], proofs[j].path, n, peaks)
  }

  function Respond(p: Params, s: State, now: U64, sender: Address, id: nat, indices: seq<nat>, n: nat,
                   peaks: seq<Hash>, proofs: seq<ChunkProof>, push: bool): Outcome {
    if id !in s.challenges then Err(UnknownChallenge) else
    var c := s.challenges[id];
    var pr :- GetProvider(s, c.providerId);
    :- Need(sender == pr.operator, NotOperator);
    :- Need(c.openedAt + p.responseWindow < U64_LIMIT, Panic);
    :- Need(now < c.openedAt + p.responseWindow, ResponseWindowClosed);
    :- Need(!c.resolved, AlreadyResolved);
    :- Need(!pr.status.Slashed?, ProviderSlashed);
    :- Need(|proofs| == |c.indices|, ProofCountMismatch);
    :- Need(indices == c.indices, IndicesMismatch);
    :- Need(n == c.pinnedLeafCount && Root(n, peaks) == c.pinnedRoot, PinMismatch);
    :- Need(ProofsVerify(indices, n, peaks, proofs), InvalidInclusionProof);
    :- Need(pr.openChallenges > 0, Panic);
    Ok(Payout(Resolve(s, id), pr.operator, c.bond, push))
  }

  function ResolveTimeout(p: Params, s: State, now: U64, id: nat, push: bool): Outcome {
    if id !in s.challenges then Err(UnknownChallenge) else
    var c := s.challenges[id];
    :- Need(!c.resolved, AlreadyResolved);
    :- Need(c.openedAt + p.responseWindow < U64_LIMIT, Panic);
    :- Need(now >= c.openedAt + p.responseWindow, ResponseWindowStillOpen);
    var pr :- GetProvider(s, c.providerId);
    :- Need(pr.openChallenges > 0, Panic);
    var closed := Resolve(s, id);
    if !pr.status.Slashed? then
      var slashed :- SlashProvider(p, closed, c.providerId);
      Ok(Payout(slashed, c.challenger, Bounty(p) + c.bond, push))
    else Ok(Payout(closed, c.challenger, c.bond, push))
  }

  // ---- Payout sink ----

  function Claim(s: State, sender: Address, push: bool): Outcome {
    var k :- Pull(SinkOf(s), sender, push);
    Ok(WithSink(s, k))
  }

  // ---- Runs ----

  datatype Action =
    | ADeclare(d: Declaration, chunks: seq<Chunk>)
    | AStake(value: nat, operator: Address, withdrawal: Address)
    | AUnbond(sender: Address, pid: nat)
    | AWithdraw(pid: nat, push: bool)
    | ABegin(sender: Address, pid: nat, seed: Hash)
    | AProof(sender: Address, pid: nat, verified: bool)
    | AEscape(sender: Address, pid: nat, n: nat, peaks: seq<Hash>, samples: seq<ChunkProof>)
    | ALapse(sender: Address, pid: nat, push: bool)
    | AChallenge(sender: Address, value: nat, basefee: nat, pid: nat, indices: seq<nat>)
    | ARespond(sender: Address, id: nat, indices: seq<nat>, n: nat, peaks: seq<Hash>,
               proofs: seq<ChunkProof>, push: bool)
    | ATimeout(id: nat, push: bool)
    | AClaim(sender: Address, push: bool)
    | AForce(amount: nat)

  /** What makes `Declare` callable: a machine-word leaf count with one peak per set bit. */
  predicate Stored(s: State) {
    s.leafCount < U64_LIMIT && |s.peaks| == |PeakHeights(s.leafCount)|
  }

  function Execute(p: Params, s: State, now: U64, a: Action): Outcome
    requires Stored(s)
  {
    match a
    case ADeclare(d, chunks) => Declare(p, s, now, d, chunks)
    case AStake(value, operator, withdrawal) => Stake(p, s, now, value, operator, withdrawal)
    case AUnbond(sender, pid) => InitiateUnbonding(s, now, sender, pid)
    case AWithdraw(pid, push) => Withdraw(p, s, now, pid, push)
    case ABegin(sender, pid, seed) => BeginProof(p, s, now, sender, pid, seed)
    case AProof(sender, pid, verified) => SubmitProof(p, s, now, sender, pid, verified)
    case AEscape(sender, pid, n, peaks, samples) => SubmitProofEscape(p, s, now, sender, pid, n, peaks, samples)
    case ALapse(sender, pid, push) => Lapse(p, s, now, sender, pid, push)
    case AChallenge(sender, value, basefee, pid, indices) =>
      OpenChallenge(p, s, now, sender, value, basefee, pid, indices)
    case ARespond(sender, id, indices, n, peaks, proofs, push) =>
      Respond(p, s, now, sender, id, indices, n, peaks, proofs, push)
    case ATimeout(id, push) => ResolveTimeout(p, s, now, id, push)
    case AClaim(sender, push) => Claim(s, sender, push)
    case AForce(amount) => Ok(s.(balance := s.balance + amount, forced := s.forced + amount))
  }

  /** A transaction in a block: a revert changes nothing but the time. */
  function Transact(p: Params, s: State, now: U64, a: Action): State
    requires Stored(s)
  {
    match Execute(p, s, now, a)
    case Ok(s') => s'.(clock := now)
    case Err(_) => s.(clock := now)
  }
}
