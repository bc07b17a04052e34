/**
 * Who may do what, and when. In every state the instance can reach, a call is accepted exactly when its caller
 * is entitled to it, in terms of the records, the clock and the published chunks alone: what checked arithmetic
 * and pinned hashes add to the guards is nothing more and nothing less than that.
 */
module Rights {
  import opened Data
  import opened Bits
  import opened Decomposition
  import opened Forest
  import opened Inclusion
  import opened Packing
  import opened Sums
  import opened PayoutSink
  import opened InstanceSpec
  import opened Solvency
  import opened Lifecycle

  /** The provider, if its record is in this status. */
  predicate Holds(s: State, pid: nat, status: Status) {
    pid in s.providers && s.providers[pid].status == status
  }

  /** The operator of an ACTIVE provider, in a committed period. */
  predicate MayProve(p: Params, s: State, now: U64, sender: Address, pid: nat) {
    Holds(s, pid, Active) && sender == s.providers[pid].operator && p.custodyPeriod > 0 &&
    s.providers[pid].anchor <= now &&
    s.providers[pid].commitPeriodPlusOne == (now - s.providers[pid].anchor) / p.custodyPeriod + 1
  }

  /** The chunk at a position of the first `n` published chunks, with its path among them. */
  ghost function TrueAnswer(data: seq<Chunk>, i: nat, n: nat): ChunkProof
    requires i < n <= |data|
  {
    ChunkProof(data[i], ProofPath(data, i, n))
  }

  /** Exactly the chunks at the positions drawn from a seed. */
  ghost predicate Reveals(p: Params, data: seq<Chunk>, n: nat, seed: Hash, pid: nat, samples: seq<ChunkProof>) {
    n <= |data| && |samples| == (if n == 0 then 0 else p.maxSample) &&
    forall j :: 0 <= j < |samples| ==> samples[j] == TrueAnswer(data, p.draw(seed, pid, j) % n, n)
  }

  /** Exactly the chunks at the challenged positions. */
  ghost predicate Answers(data: seq<Chunk>, n: nat, indices: seq<nat>, proofs: seq<ChunkProof>) {
    n <= |data| && |proofs| == |indices| &&
    forall j :: 0 <= j < |proofs| ==> indices[j] < n && proofs[j] == TrueAnswer(data, indices[j], n)
  }

  /** The transaction carries the signed blobs in order and no other, and every opening verifies. */
  predicate CarriesSigned(d: Declaration) {
    |d.openings| == |d.versionedHashes| && (forall j :: 0 <= j < |d.openings| ==> d.openings[j]) &&
    (forall j :: 0 <= j < |d.versionedHashes| ==> BlobHashAt(d, j) == d.versionedHashes[j]) &&
    BlobHashAt(d, |d.versionedHashes|) == NO_HASH
  }

  /** With nonzero blob hashes that is equality. */
  lemma CarriesExactly(d: Declaration)
    requires NO_HASH !in d.carried && NO_HASH !in d.versionedHashes && CarriesSigned(d)
    ensures d.carried == d.versionedHashes
  {
    assert forall j :: 0 <= j < |d.carried| ==> d.carried[j] in d.carried;
    var n := |d.versionedHashes|;
    assert BlobHashAt(d, n) == NO_HASH && |d.carried| <= n;
    forall j | 0 <= j < |d.versionedHashes| ensures j < |d.carried| && d.carried[j] == d.versionedHashes[j] {
      assert d.versionedHashes[j] in d.versionedHashes && BlobHashAt(d, j) == d.versionedHashes[j];
    }
    assert n > 0 ==> d.versionedHashes[n - 1] in d.versionedHashes && n - 1 < |d.carried|;
  }

  /** Whether the caller is entitled to the call, by records, clock and published chunks. */
  ghost predicate Entitled(p: Params, s: State, now: U64, a: Action) {
    match a
    case ADeclare(d, chunks) =>
      now <= d.deadline && d.nonce == s.declarationNonce && d.carrierAllowed && d.signed &&
      chunks != [] && d.newLeafCount == |s.dataset| + |chunks| &&
      CarriesSigned(d) && PackedUnder(p.blobHash, d.versionedHashes, chunks) &&
      Span(Decompose(|s.dataset|, |chunks|)) == |chunks| &&
      d.roots == RootsOf(chunks, 0, Decompose(|s.dataset|, |chunks|))
    case AStake(value, operator, withdrawal) => value == p.stakeWei && operator != 0 && withdrawal != 0
    case AUnbond(sender, pid) => Holds(s, pid, Active) && sender == s.providers[pid].operator
    case AWithdraw(pid, push) =>
      Holds(s, pid, Unbonding) && now >= s.providers[pid].unbondingAt + p.unbondingDelay &&
      forall id :: id in s.challenges && s.challenges[id].providerId == pid ==> s.challenges[id].resolved
    case ABegin(sender, pid, seed) =>
      Holds(s, pid, Active) && sender == s.providers[pid].operator && p.custodyPeriod > 0 &&
      !MayProve(p, s, now, sender, pid)
    case AProof(sender, pid, verified) => MayProve(p, s, now, sender, pid) && verified
    case AEscape(sender, pid, n, peaks, samples) =>
      MayProve(p, s, now, sender, pid) && n == s.providers[pid].commitLeafCount <= |s.dataset| &&
      peaks == PeakList(s.dataset, 0, n) && Reveals(p, s.dataset, n, s.providers[pid].commitSeed, pid, samples)
    case ALapse(sender, pid, push) =>
      Holds(s, pid, Active) && p.stakeWei * p.bountyBps / 10_000 <= p.stakeWei &&
      now >= s.providers[pid].anchor + (s.providers[pid].lastProvenPlusOne + 2) * p.custodyPeriod + p.lapseGrace
    case AChallenge(sender, value, basefee, pid, indices) =>
      (Holds(s, pid, Active) ||
       (Holds(s, pid, Unbonding) && now < s.providers[pid].unbondingAt + p.unbondingDelay < U64_LIMIT)) &&
      0 < |indices| <= p.maxSample &&
      (forall j :: 0 <= j < |indices| ==>
        indices[j] < if Holds(s, pid, Active) then |s.dataset| else s.providers[pid].exitLeafCount) &&
      value >= 3 * (|indices| * 38_680 + 21_000) * basefee &&
      s.providers[pid].openChallenges < 0xffff_ffff && now + p.responseWindow < U64_LIMIT
    case ARespond(sender, id, indices, n, peaks, proofs, push) =>
      id in s.challenges && !s.challenges[id].resolved && now < s.challenges[id].openedAt + p.responseWindow &&
      s.challenges[id].providerId in s.providers && sender == s.providers[s.challenges[id].providerId].operator &&
      !s.providers[s.challenges[id].providerId].status.Slashed? &&
      indices == s.challenges[id].indices && n == s.challenges[id].pinnedLeafCount <= |s.dataset| &&
      peaks == PeakList(s.dataset, 0, n) && Answers(s.dataset, n, indices, proofs) && |proofs| > 0
    case ATimeout(id, push) =>
      id in s.challenges && !s.challenges[id].resolved && now >= s.challenges[id].openedAt + p.responseWindow &&
      s.challenges[id].providerId in s.providers &&
      (s.providers[s.challenges[id].providerId].status.Slashed? || p.stakeWei * p.bountyBps / 10_000 <= p.stakeWei)
    case AClaim(sender, push) => push && Entry(s.claimable, sender) > 0
    case AForce(amount) => true
  }

  lemma StakeRight(p: Params, s: State, now: U64, value: nat, operator: Address, withdrawal: Address)
    ensures Stake(p, s, now, value, operator, withdrawal).Ok? <==>
      Entitled(p, s, now, AStake(value, operator, withdrawal))
  {
  }

  lemma UnbondRight(p: Params, s: State, now: U64, sender: Address, pid: nat)
    ensures InitiateUnbonding(s, now, sender, pid).Ok? <==>
      Entitled(p, s, now, AUnbond(sender, pid))
  {
  }

  lemma ClaimRight(p: Params, s: State, now: U64, sender: Address, push: bool)
    requires Inv(p, s)
    ensures Claim(s, sender, push).Ok? <==>
      Entitled(p, s, now, AClaim(sender, push))
  {
    PullIsFunded(SinkOf(s), sender);
  }

  lemma BeginRight(p: Params, s: State, now: U64, sender: Address, pid: nat, seed: Hash)
    requires Inv(p, s) && s.clock <= now
    ensures BeginProof(p, s, now, sender, pid, seed).Ok? <==>
      Entitled(p, s, now, ABegin(sender, pid, seed))
  {
    if pid in s.providers { assert ProviderKept(p, s, s.providers[pid]); }
  }

  lemma ProofRight(p: Params, s: State, now: U64, sender: Address, pid: nat, verified: bool)
    requires Inv(p, s) && s.clock <= now
    ensures SubmitProof(p, s, now, sender, pid, verified).Ok? <==>
      Entitled(p, s, now, AProof(sender, pid, verified))
  {
  }

  /** Against the true peaks the reveals that verify are the true ones. */
  lemma RevealsExactly(p: Params, data: seq<Chunk>, pr: Provider, pid: nat, n: nat, samples: seq<ChunkProof>)
    requires n <= |data|
    ensures |samples| == (if n == 0 then 0 else p.maxSample) ==>
      (RevealsVerify(p, pr, pid, n, PeakList(data, 0, n), samples) <==>
       Reveals(p, data, n, pr.commitSeed, pid, samples))
  {
    hide Verifies, ProofPath, PeakList;
    forall j | 0 <= j < |samples| && n > 0
      ensures Verifies(samples[j].chunk, CustodyIndex(p, pr.commitSeed, pid, j, n), samples[j].path, n,
                       PeakList(data, 0, n)) <==>
        samples[j] == TrueAnswer(data, p.draw(pr.commitSeed, pid, j) % n, n)
    {
      VerifiesExactly(data, CustodyIndex(p, pr.commitSeed, pid, j, n), n, samples[j].chunk, samples[j].path);
    }
  }

  lemma RevealsLength(p: Params, data: seq<Chunk>, n: nat, seed: Hash, pid: nat, samples: seq<ChunkProof>)
    ensures Reveals(p, data, n, seed, pid, samples) ==> |samples| == if n == 0 then 0 else p.maxSample
  {
  }

  /** What a live commit pins. */
  lemma CommitPin(p: Params, s: State, pid: nat)
    requires Inv(p, s) && pid in s.providers
    ensures s.providers[pid].anchor <= s.clock
    ensures var pr := s.providers[pid];
      pr.commitPeriodPlusOne != 0 ==>
        pr.commitLeafCount <= |s.dataset| &&
        pr.commitRoot == Root(pr.commitLeafCount, PeakList(s.dataset, 0, pr.commitLeafCount))
  {
    assert ProviderKept(p, s, s.providers[pid]);
  }

  /** An escape is accepted exactly when it reveals the true chunk at every position drawn from the commit's seed. */
  lemma EscapeRight(p: Params, s: State, now: U64, sender: Address, pid: nat, n: nat,
                    peaks: seq<Hash>, samples: seq<ChunkProof>)
    requires Inv(p, s) && s.clock <= now
    ensures SubmitProofEscape(p, s, now, sender, pid, n, peaks, samples).Ok? <==>
      Entitled(p, s, now, AEscape(sender, pid, n, peaks, samples))
  {
    hide Inv, PeakList, RevealsVerify, Reveals, Answers, CarriesSigned, PackedUnder, Decompose, RootsOf, Span;
    if pid in s.providers && n == s.providers[pid].commitLeafCount {
      CommitPin(p, s, pid);
      if n <= |s.dataset| { RevealsExactly(p, s.dataset, s.providers[pid], pid, n, samples); }
      RevealsLength(p, s.dataset, n, s.providers[pid].commitSeed, pid, samples);
    }
  }

  lemma AnswersExactly(data: seq<Chunk>, n: nat, indices: seq<nat>, proofs: seq<ChunkProof>)
    requires n <= |data| && |proofs| == |indices| && forall j :: 0 <= j < |indices| ==> indices[j] < n
    ensures ProofsVerify(indices, n, PeakList(data, 0, n), proofs) <==> Answers(data, n, indices, proofs)
  {
    hide Verifies, ProofPath, PeakList;
    forall j | 0 <= j < |proofs|
      ensures Verifies(proofs[j].chunk, indices[j], proofs[j].path, n, PeakList(data, 0, n)) <==>
        proofs[j] == TrueAnswer(data, indices[j], n)
    {
      VerifiesExactly(data, indices[j], n, proofs[j].chunk, proofs[j].path);
    }
  }

  /** What a challenge record pins. */
  lemma ChallengePin(p: Params, s: State, id: nat)
    requires Inv(p, s) && id in s.challenges
    ensures s.challenges[id].openedAt + p.responseWindow < U64_LIMIT && s.challenges[id].indices != []
    ensures var c := s.challenges[id];
      c.pinnedLeafCount <= |s.dataset| &&
      c.pinnedRoot == Root(c.pinnedLeafCount, PeakList(s.dataset, 0, c.pinnedLeafCount)) &&
      (forall j :: 0 <= j < |c.indices| ==> c.indices[j] < c.pinnedLeafCount) &&
      c.providerId in s.providers && (!c.resolved ==> s.providers[c.providerId].openChallenges > 0)
  {
    assert ChallengeKept(p, s, s.challenges[id]);
    if !s.challenges[id].resolved { OpenIsCounted(p, s, 0, id); }
  }

  lemma AnswersLength(data: seq<Chunk>, n: nat, indices: seq<nat>, proofs: seq<ChunkProof>)
    ensures Answers(data, n, indices, proofs) ==> |proofs| == |indices|
  {
  }

  /** A response is accepted exactly when it reveals the true chunk at every challenged position of the pinned state. */
  lemma RespondRight(p: Params, s: State, now: U64, sender: Address, id: nat, indices: seq<nat>, n: nat,
                     peaks: seq<Hash>, proofs: seq<ChunkProof>, push: bool)
    requires Inv(p, s) && s.clock <= now
    ensures Respond(p, s, now, sender, id, indices, n, peaks, proofs, push).Ok? <==>
      Entitled(p, s, now, ARespond(sender, id, indices, n, peaks, proofs, push))
  {
    hide Inv, PeakList, ProofsVerify, Reveals, Answers, CarriesSigned, PackedUnder, Decompose, RootsOf, Span, Resolve;
    hide Payout;
    if id in s.challenges {
      ChallengePin(p, s, id);
      var c := s.challenges[id];
      if n == c.pinnedLeafCount && indices == c.indices && |proofs| == |indices| {
        AnswersExactly(s.dataset, n, indices, proofs);
      }
      AnswersLength(s.dataset, n, indices, proofs);
    }
  }

  /** Of several reasons to refuse a response the first of this order is reported. */
  lemma RespondRefusal(p: Params, s: State, now: U64, sender: Address, id: nat, indices: seq<nat>, n: nat,
                       peaks: seq<Hash>, proofs: seq<ChunkProof>, push: bool)
    requires Inv(p, s) && id in s.challenges
    ensures s.challenges[id].providerId in s.providers
    ensures var r, c := Respond(p, s, now, sender, id, indices, n, peaks, proofs, push), s.challenges[id];
      var pr := s.providers[c.providerId];
      && (r == Err(NotOperator) <==> sender != pr.operator)
      && (r == Err(ResponseWindowClosed) <==> sender == pr.operator && now >= c.openedAt + p.responseWindow)
      && (r == Err(AlreadyResolved) <==>
            sender == pr.operator && now < c.openedAt + p.responseWindow && c.resolved)
      && (r == Err(ProviderSlashed) <==>
            sender == pr.operator && now < c.openedAt + p.responseWindow && !c.resolved && pr.status.Slashed?)
  {
    hide ProofsVerify;
    assert ChallengeKept(p, s, s.challenges[id]);
  }

  lemma ChallengeRight(p: Params, s: State, now: U64, sender: Address, value: nat, basefee: nat, pid: nat,
                       indices: seq<nat>)
    requires Inv(p, s) && s.clock <= now
    ensures OpenChallenge(p, s, now, sender, value, basefee, pid, indices).Ok? <==>
      Entitled(p, s, now, AChallenge(sender, value, basefee, pid, indices))
  {
  }

  lemma SlashAfterResolve(p: Params, s: State, id: nat)
    requires Inv(p, s) && id in s.challenges && !s.challenges[id].resolved
    requires s.challenges[id].providerId in s.providers
    requires s.providers[s.challenges[id].providerId].openChallenges > 0
    requires !s.providers[s.challenges[id].providerId].status.Slashed?
    ensures var r := SlashProvider(p, Resolve(s, id), s.challenges[id].providerId);
      (r.Ok? <==> p.stakeWei * p.bountyBps / 10_000 <= p.stakeWei) && (r.Err? ==> r.error == Panic)
  {
    OpenIsCounted(p, s, 0, id);
    ResolveMove(p, s, 0, id);
    hide Money, Kept;
    SlashIsFunded(p, Resolve(s, id), s.challenges[id].bond, s.challenges[id].providerId);
  }

  /** A timeout is due at the end of the window; only a bounty above the stake can stop the first one. */
  lemma TimeoutRight(p: Params, s: State, now: U64, id: nat, push: bool)
    requires Inv(p, s) && s.clock <= now
    ensures ResolveTimeout(p, s, now, id, push).Ok? <==>
      Entitled(p, s, now, ATimeout(id, push))
  {
    hide Inv, PeakList, ProofsVerify, Reveals, Answers, CarriesSigned, PackedUnder, Decompose, RootsOf, Span, Resolve;
    hide Payout, SlashProvider, Bounty;
    if id in s.challenges && !s.challenges[id].resolved {
      ChallengePin(p, s, id);
      if !s.providers[s.challenges[id].providerId].status.Slashed? { SlashAfterResolve(p, s, id); }
    }
  }

  lemma {:induction false} TotalNone(f: nat -> nat, n: nat)
    requires forall i: nat :: i < n ==> f(i) == 0
    ensures Total(f, n) == 0
  {
    if n > 0 { TotalNone(f, n - 1); }
  }

  /** A provider's count is zero exactly when all its records are resolved. */
  lemma NoneOpen(p: Params, s: State, pid: nat)
    requires Inv(p, s) && pid in s.providers
    ensures s.providers[pid].openChallenges == 0 <==>
      forall id :: id in s.challenges && s.challenges[id].providerId == pid ==> s.challenges[id].resolved
  {
    assert Counted(s, pid);
    var f := (i: nat) => OpenOf(s.challenges, pid, i);
    if id :| id in s.challenges && s.challenges[id].providerId == pid && !s.challenges[id].resolved {
      TotalAtLeast(f, s.nextChallengeId, id);
    } else {
      TotalNone(f, s.nextChallengeId);
    }
  }

  lemma WithdrawRight(p: Params, s: State, now: U64, pid: nat, push: bool)
    requires Inv(p, s) && s.clock <= now
    ensures Withdraw(p, s, now, pid, push).Ok? <==>
      Entitled(p, s, now, AWithdraw(pid, push))
  {
    if pid in s.providers { NoneOpen(p, s, pid); }
    hide Inv, Payout;
  }

  lemma LapseRight(p: Params, s: State, now: U64, sender: Address, pid: nat, push: bool)
    requires Inv(p, s) && s.clock <= now
    ensures Lapse(p, s, now, sender, pid, push).Ok? <==>
      Entitled(p, s, now, ALapse(sender, pid, push))
  {
    if Holds(s, pid, Active) { SlashIsFunded(p, s, 0, pid); }
    hide Inv, Payout;
  }

  lemma PackedLength(vh: BlobHash, hashes: seq<Hash>, chunks: seq<Chunk>)
    requires PackedUnder(vh, hashes, chunks)
    ensures |hashes| == BlobCount(|chunks|)
  {
    PackIsCanonical(chunks);
  }

  lemma TreeIsData(p: Params, s: State)
    requires Inv(p, s)
    ensures s.leafCount == |s.dataset| < U64_LIMIT && s.checkpointLeafCount <= s.leafCount
  {
  }

  lemma DeclareRight(p: Params, s: State, now: U64, d: Declaration, chunks: seq<Chunk>)
    requires Inv(p, s) && Stored(s)
    ensures Declare(p, s, now, d, chunks).Ok? <==>
      Entitled(p, s, now, ADeclare(d, chunks))
  {
    hide Inv, CarryAll, Rehydrate, Canonical, RootsOf, Decompose, Span, PeakHeights, PackedUnder, BlobCount;
    TreeIsData(p, s);
    if s.leafCount + |chunks| == d.newLeafCount { DecomposeSpan(s.leafCount, |chunks|); }
    if PackedUnder(p.blobHash, d.versionedHashes, chunks) { PackedLength(p.blobHash, d.versionedHashes, chunks); }
  }

  /** In every state of every run a call is accepted exactly when its caller is entitled to it. */
  lemma AcceptedExactly(p: Params, s: State, now: U64, a: Action)
    requires Inv(p, s) && Stored(s) && s.clock <= now
    ensures Execute(p, s, now, a).Ok? <==> Entitled(p, s, now, a)
  {
    hide Inv, Withdraw, Lapse, Respond, ResolveTimeout, Declare, Stake, InitiateUnbonding, BeginProof, SubmitProof;
    hide SubmitProofEscape, OpenChallenge, Claim, Holds, MayProve, Reveals, Answers, CarriesSigned, PackedUnder;
    match a
    case ADeclare(d, chunks) => DeclareRight(p, s, now, d, chunks);
    case AStake(value, operator, withdrawal) => StakeRight(p, s, now, value, operator, withdrawal);
    case AUnbond(sender, pid) => UnbondRight(p, s, now, sender, pid);
    case AWithdraw(pid, push) => WithdrawRight(p, s, now, pid, push);
    case ABegin(sender, pid, seed) => BeginRight(p, s, now, sender, pid, seed);
    case AProof(sender, pid, verified) => ProofRight(p, s, now, sender, pid, verified);
    case AEscape(sender, pid, n, peaks, samples) => EscapeRight(p, s, now, sender, pid, n, peaks, samples);
    case ALapse(sender, pid, push) => LapseRight(p, s, now, sender, pid, push);
    case AChallenge(sender, value, basefee, pid, indices) =>
      ChallengeRight(p, s, now, sender, value, basefee, pid, indices);
    case ARespond(sender, id, indices, n, peaks, proofs, push) =>
      RespondRight(p, s, now, sender, id, indices, n, peaks, proofs, push);
    case ATimeout(id, push) => TimeoutRight(p, s, now, id, push);
    case AClaim(sender, push) => ClaimRight(p, s, now, sender, push);
    case AForce(amount) =>
  }

  // ---- Refusals ----

  ghost predicate DeclareFault(p: Params, s: State, now: U64, d: Declaration, chunks: seq<Chunk>, e: Error) {
    match e
    case IntentExpired => now > d.deadline
    case WrongNonce => d.nonce != s.declarationNonce
    case NotDesignatedCarrier => !d.carrierAllowed
    case BadSignature => !d.signed
    case EmptyUpdate => d.newLeafCount <= |s.dataset|
    case BlobCountMismatch =>
      d.newLeafCount > |s.dataset| &&
      !(|d.versionedHashes| == |d.openings| == BlobCount(d.newLeafCount - |s.dataset|))
    case BlobHashMismatch => exists j :: 0 <= j < |d.versionedHashes| && BlobHashAt(d, j) != d.versionedHashes[j]
    case UnexpectedExtraBlob => |d.carried| > |d.versionedHashes|
    case SubtreeCountMismatch =>
      d.newLeafCount > |s.dataset| && |d.roots| != |Decompose(|s.dataset|, d.newLeafCount - |s.dataset|)|
    case PointEvaluationFailed => false in d.openings
    case InvalidEquivalenceProof =>
      !(chunks != [] && d.newLeafCount == |s.dataset| + |chunks| &&
        PackedUnder(p.blobHash, d.versionedHashes, chunks) && Span(Decompose(|s.dataset|, |chunks|)) == |chunks| &&
        d.roots == RootsOf(chunks, 0, Decompose(|s.dataset|, |chunks|)))
    case _ => false
  }

  predicate StakeFault(p: Params, value: nat, operator: Address, withdrawal: Address, e: Error) {
    match e
    case WrongStakeAmount => value != p.stakeWei
    case ZeroAddress => operator == 0 || withdrawal == 0
    case _ => false
  }

  /** What every call of an operator can be refused for. */
  predicate OperatorFault(s: State, sender: Address, pid: nat, e: Error) {
    match e
    case UnknownProvider => pid !in s.providers
    case NotOperator => pid in s.providers && sender != s.providers[pid].operator
    case NotActive => pid in s.providers && !Holds(s, pid, Active)
    case _ => false
  }

  ghost predicate WithdrawFault(p: Params, s: State, now: U64, pid: nat, e: Error) {
    match e
    case UnknownProvider => pid !in s.providers
    case NotUnbonding => pid in s.providers && !Holds(s, pid, Unbonding)
    case UnbondingDelayActive => Holds(s, pid, Unbonding) && now < s.providers[pid].unbondingAt + p.unbondingDelay
    case OpenChallengesRemain =>
      exists id :: id in s.challenges && s.challenges[id].providerId == pid && !s.challenges[id].resolved
    case Panic => Holds(s, pid, Unbonding) && s.providers[pid].unbondingAt + p.unbondingDelay >= U64_LIMIT
    case _ => false
  }

  predicate BeginFault(p: Params, s: State, now: U64, sender: Address, pid: nat, e: Error) {
    OperatorFault(s, sender, pid, e) ||
    (e == AlreadyCommitted && MayProve(p, s, now, sender, pid)) || (e == Panic && p.custodyPeriod == 0)
  }

  /** What both proof paths can be refused for. */
  predicate ProveFault(p: Params, s: State, now: U64, sender: Address, pid: nat, e: Error) {
    OperatorFault(s, sender, pid, e) || (e == Panic && p.custodyPeriod == 0) ||
    (pid in s.providers && e == NoCommit && s.providers[pid].commitPeriodPlusOne == 0) ||
    (pid in s.providers && e == CommitFromEarlierPeriod && p.custodyPeriod > 0 && s.providers[pid].anchor <= now &&
     s.providers[pid].commitPeriodPlusOne < (now - s.providers[pid].anchor) / p.custodyPeriod + 1)
  }

  /** The true leaf count and peaks of a pinned state. */
  ghost predicate Pinned(s: State, pin: nat, n: nat, peaks: seq<Hash>) {
    n == pin <= |s.dataset| && peaks == PeakList(s.dataset, 0, n)
  }

  ghost predicate EscapeFault(p: Params, s: State, now: U64, sender: Address, pid: nat, n: nat,
                              peaks: seq<Hash>, samples: seq<ChunkProof>, e: Error) {
    ProveFault(p, s, now, sender, pid, e) ||
    (pid in s.providers &&
     match e
     case PinMismatch => !Pinned(s, s.providers[pid].commitLeafCount, n, peaks)
     case ProofCountMismatch => |samples| != if s.providers[pid].commitLeafCount == 0 then 0 else p.maxSample
     case InvalidInclusionProof => !Reveals(p, s.dataset, n, s.providers[pid].commitSeed, pid, samples)
     case _ => false)
  }

  predicate LapseFault(p: Params, s: State, now: U64, pid: nat, e: Error) {
    match e
    case UnknownProvider => pid !in s.providers
    case NotActive => pid in s.providers && !Holds(s, pid, Active)
    case NotLapsable =>
      pid in s.providers &&
      now < s.providers[pid].anchor + (s.providers[pid].lastProvenPlusOne + 2) * p.custodyPeriod + p.lapseGrace
    case Panic => p.stakeWei * p.bountyBps / 10_000 > p.stakeWei
    case _ => false
  }

  ghost predicate ChallengeFault(p: Params, s: State, now: U64, value: nat, basefee: nat, pid: nat,
                                 indices: seq<nat>, e: Error) {
    if pid !in s.providers then e == UnknownProvider else
    var pr := s.providers[pid];
    match e
    case ChallengeWindowClosed =>
      !pr.status.Active? && (pr.status.Unbonding? ==> now >= pr.unbondingAt + p.unbondingDelay)
    case NoIndices => indices == []
    case TooManyIndices => |indices| > p.maxSample
    case IndexOutOfRange =>
      exists i :: i in indices && i >= if pr.status.Active? then |s.dataset| else pr.exitLeafCount
    case BondTooSmall => value < 3 * (|indices| * 38_680 + 21_000) * basefee
    case Panic =>
      now + p.responseWindow >= U64_LIMIT || pr.openChallenges >= 0xffff_ffff ||
      (pr.status.Unbonding? && pr.unbondingAt + p.unbondingDelay >= U64_LIMIT)
    case _ => false
  }

  ghost predicate RespondFault(p: Params, s: State, now: U64, sender: Address, id: nat, indices: seq<nat>, n: nat,
                               peaks: seq<Hash>, proofs: seq<ChunkProof>, e: Error) {
    if id !in s.challenges then e == UnknownChallenge else
    var c := s.challenges[id];
    c.providerId in s.providers &&
    match e
    case NotOperator => sender != s.providers[c.providerId].operator
    case ResponseWindowClosed => now >= c.openedAt + p.responseWindow
    case AlreadyResolved => c.resolved
    case ProviderSlashed => Holds(s, c.providerId, Slashed)
    case ProofCountMismatch => |proofs| != |c.indices|
    case IndicesMismatch => indices != c.indices
    case PinMismatch => !Pinned(s, c.pinnedLeafCount, n, peaks)
    case InvalidInclusionProof => !Answers(s.dataset, n, c.indices, proofs)
    case _ => false
  }

  predicate TimeoutFault(p: Params, s: State, now: U64, id: nat, e: Error) {
    if id !in s.challenges then e == UnknownChallenge else
    match e
    case AlreadyResolved => s.challenges[id].resolved
    case ResponseWindowStillOpen => now < s.challenges[id].openedAt + p.responseWindow
    case Panic => p.stakeWei * p.bountyBps / 10_000 > p.stakeWei
    case _ => false
  }

  predicate ClaimFault(s: State, sender: Address, push: bool, e: Error) {
    match e
    case NothingClaimable => Entry(s.claimable, sender) == 0
    case PayoutFailed => !push
    case _ => false
  }

  /**
   * What each error says of the state and the call. Checked arithmetic stops a call only for configuration,
   * clock and counter limits.
   */
  ghost predicate Fault(p: Params, s: State, now: U64, a: Action, e: Error) {
    match a
    case ADeclare(d, chunks) => DeclareFault(p, s, now, d, chunks, e)
    case AStake(value, operator, withdrawal) => StakeFault(p, value, operator, withdrawal, e)
    case AUnbond(sender, pid) => OperatorFault(s, sender, pid, e)
    case AWithdraw(pid, push) => WithdrawFault(p, s, now, pid, e)
    case ABegin(sender, pid, seed) => BeginFault(p, s, now, sender, pid, e)
    case AProof(sender, pid, verified) =>
      ProveFault(p, s, now, sender, pid, e) || (e == InvalidCustodyProof && !verified)
    case AEscape(sender, pid, n, peaks, samples) => EscapeFault(p, s, now, sender, pid, n, peaks, samples, e)
    case ALapse(sender, pid, push) => LapseFault(p, s, now, pid, e)
    case AChallenge(sender, value, basefee, pid, indices) => ChallengeFault(p, s, now, value, basefee, pid, indices, e)
    case ARespond(sender, id, indices, n, peaks, proofs, push) =>
      RespondFault(p, s, now, sender, id, indices, n, peaks, proofs, e)
    case ATimeout(id, push) => TimeoutFault(p, s, now, id, e)
    case AClaim(sender, push) => ClaimFault(s, sender, push, e)
    case AForce(amount) => false
  }

  lemma DeclareRefusal(p: Params, s: State, now: U64, d: Declaration, chunks: seq<Chunk>)
    requires Inv(p, s) && Stored(s)
    ensures var r := Declare(p, s, now, d, chunks);
      r.Err? ==> DeclareFault(p, s, now, d, chunks, r.error)
  {
    hide Inv, CarryAll, Rehydrate, Canonical, RootsOf, Decompose, Span, PeakHeights, PackedUnder, BlobCount;
    TreeIsData(p, s);
    if s.leafCount + |chunks| == d.newLeafCount && chunks != [] { DecomposeSpan(s.leafCount, |chunks|); }
  }

  lemma StakeRefusal(p: Params, s: State, now: U64, value: nat, operator: Address, withdrawal: Address)
    ensures var r := Stake(p, s, now, value, operator, withdrawal);
      r.Err? ==> StakeFault(p, value, operator, withdrawal, r.error)
  {
  }

  lemma UnbondRefusal(p: Params, s: State, now: U64, sender: Address, pid: nat)
    ensures var r := InitiateUnbonding(s, now, sender, pid);
      r.Err? ==> OperatorFault(s, sender, pid, r.error)
  {
  }

  lemma WithdrawRefusal(p: Params, s: State, now: U64, pid: nat, push: bool)
    requires Inv(p, s)
    ensures var r := Withdraw(p, s, now, pid, push);
      r.Err? ==> WithdrawFault(p, s, now, pid, r.error)
  {
    if pid in s.providers { NoneOpen(p, s, pid); }
    hide Inv, Payout;
  }

  lemma BeginRefusal(p: Params, s: State, now: U64, sender: Address, pid: nat, seed: Hash)
    requires Inv(p, s) && s.clock <= now
    ensures var r := BeginProof(p, s, now, sender, pid, seed);
      r.Err? ==> BeginFault(p, s, now, sender, pid, r.error)
  {
    if pid in s.providers { CommitPin(p, s, pid); }
    hide Inv;
  }

  /** A commit is never of a later period than the current one. */
  lemma CommitIsPast(p: Params, s: State, now: U64, pid: nat)
    requires Inv(p, s) && s.clock <= now && pid in s.providers && s.providers[pid].status.Active? && p.custodyPeriod > 0
    ensures s.providers[pid].anchor <= now
    ensures s.providers[pid].commitPeriodPlusOne <= (now - s.providers[pid].anchor) / p.custodyPeriod + 1
  {
    var pr := s.providers[pid];
    assert ProviderKept(p, s, pr);
    DivMono(s.clock - pr.anchor, now - pr.anchor, p.custodyPeriod);
  }

  lemma GuardsHold(p: Params, pr: Provider, now: U64, sender: Address)
    ensures SubmitGuards(p, pr, now, sender).Ok? ==> pr.commitPeriodPlusOne != 0
  {
  }

  lemma GuardsRefuse(p: Params, s: State, now: U64, sender: Address, pid: nat)
    requires Inv(p, s) && s.clock <= now && pid in s.providers
    ensures var r := SubmitGuards(p, s.providers[pid], now, sender);
      r.Err? ==> ProveFault(p, s, now, sender, pid, r.error)
  {
    hide Inv;
    CommitPin(p, s, pid);
    if SubmitGuards(p, s.providers[pid], now, sender) == Err(CommitFromEarlierPeriod) { CommitIsPast(p, s, now, pid); }
  }

  lemma ProofRefusal(p: Params, s: State, now: U64, sender: Address, pid: nat, verified: bool)
    requires Inv(p, s) && s.clock <= now
    ensures var r := SubmitProof(p, s, now, sender, pid, verified);
      r.Err? ==> ProveFault(p, s, now, sender, pid, r.error) || (r.error == InvalidCustodyProof && !verified)
  {
    if pid in s.providers { GuardsRefuse(p, s, now, sender, pid); }
    hide Inv, SubmitGuards;
  }

  lemma EscapeRefusal(p: Params, s: State, now: U64, sender: Address, pid: nat, n: nat,
                      peaks: seq<Hash>, samples: seq<ChunkProof>)
    requires Inv(p, s) && s.clock <= now
    ensures var r := SubmitProofEscape(p, s, now, sender, pid, n, peaks, samples);
      r.Err? ==> EscapeFault(p, s, now, sender, pid, n, peaks, samples, r.error)
  {
    hide Inv, PeakList, RevealsVerify, Reveals, SubmitGuards;
    if pid in s.providers {
      GuardsRefuse(p, s, now, sender, pid);
      GuardsHold(p, s.providers[pid], now, sender);
      hide ProveFault;
      CommitPin(p, s, pid);
      if n == s.providers[pid].commitLeafCount <= |s.dataset| {
        RevealsExactly(p, s.dataset, s.providers[pid], pid, n, samples);
      }
    }
  }

  lemma LapseRefusal(p: Params, s: State, now: U64, sender: Address, pid: nat, push: bool)
    requires Inv(p, s)
    ensures var r := Lapse(p, s, now, sender, pid, push);
      r.Err? ==> LapseFault(p, s, now, pid, r.error)
  {
    if Holds(s, pid, Active) { SlashIsFunded(p, s, 0, pid); }
    hide Inv, Payout;
  }

  lemma ChallengeRefusal(p: Params, s: State, now: U64, sender: Address, value: nat, basefee: nat, pid: nat,
                         indices: seq<nat>)
    requires Inv(p, s)
    ensures var r := OpenChallenge(p, s, now, sender, value, basefee, pid, indices);
      r.Err? ==> ChallengeFault(p, s, now, value, basefee, pid, indices, r.error)
  {
    TreeIsData(p, s);
    hide Inv;
    if OpenChallenge(p, s, now, sender, value, basefee, pid, indices) == Err(IndexOutOfRange) {
      var j :| 0 <= j < |indices| && indices[j] >= Pin(p, s, now, s.providers[pid]).value.1;
      assert indices[j] in indices;
    }
  }

  /** What is wrong with a response that is refused for its pin or its proofs. */
  lemma ProofsAreFalse(p: Params, s: State, now: U64, sender: Address, id: nat, indices: seq<nat>, n: nat,
                       peaks: seq<Hash>, proofs: seq<ChunkProof>, push: bool)
    requires Inv(p, s) && id in s.challenges
    ensures var r, c := Respond(p, s, now, sender, id, indices, n, peaks, proofs, push), s.challenges[id];
      && (r == Err(PinMismatch) ==> !Pinned(s, c.pinnedLeafCount, n, peaks))
      && (r == Err(InvalidInclusionProof) ==> !Answers(s.dataset, n, c.indices, proofs))
      && r != Err(Panic) && c.providerId in s.providers
  {
    hide Inv, PeakList, ProofsVerify, Answers, Resolve, Payout;
    ChallengePin(p, s, id);
    var c := s.challenges[id];
    if n == c.pinnedLeafCount && indices == c.indices && |proofs| == |indices| {
      AnswersExactly(s.dataset, n, indices, proofs);
    }
  }

  lemma RespondRefused(p: Params, s: State, now: U64, sender: Address, id: nat, indices: seq<nat>, n: nat,
                     peaks: seq<Hash>, proofs: seq<ChunkProof>, push: bool)
    requires Inv(p, s)
    ensures var r := Respond(p, s, now, sender, id, indices, n, peaks, proofs, push);
      r.Err? ==> RespondFault(p, s, now, sender, id, indices, n, peaks, proofs, r.error)
  {
    hide Inv, ProofsVerify, Answers, Pinned, Resolve, Payout;
    if id in s.challenges { ProofsAreFalse(p, s, now, sender, id, indices, n, peaks, proofs, push); }
  }

  lemma TimeoutRefusal(p: Params, s: State, now: U64, id: nat, push: bool)
    requires Inv(p, s)
    ensures var r := ResolveTimeout(p, s, now, id, push);
      r.Err? ==> TimeoutFault(p, s, now, id, r.error)
  {
    hide Inv, Resolve, Payout, SlashProvider, Bounty;
    if id in s.challenges {
      ChallengePin(p, s, id);
      if !s.challenges[id].resolved && !s.providers[s.challenges[id].providerId].status.Slashed? {
        SlashAfterResolve(p, s, id);
      }
    }
  }

  lemma ClaimRefusal(p: Params, s: State, now: U64, sender: Address, push: bool)
    requires Inv(p, s)
    ensures var r := Claim(s, sender, push);
      r.Err? ==> ClaimFault(s, sender, push, r.error)
  {
    PullIsFunded(SinkOf(s), sender);
    if sender in s.claimable { SumRemove(s.claimable, sender); }
  }

  /** In every state of every run, a refusal names something that is really wrong with the call. */
  lemma RefusalIsTrue(p: Params, s: State, now: U64, a: Action)
    requires Inv(p, s) && Stored(s) && s.clock <= now
    ensures var r := Execute(p, s, now, a);
      r.Err? ==> Fault(p, s, now, a, r.error)
  {
    hide Inv, Withdraw, Lapse, Respond, ResolveTimeout, Declare, Stake, InitiateUnbonding, BeginProof, SubmitProof;
    hide SubmitProofEscape, OpenChallenge, Claim, DeclareFault, StakeFault, OperatorFault, WithdrawFault, BeginFault;
    hide ProveFault, EscapeFault, LapseFault, ChallengeFault, RespondFault, TimeoutFault, ClaimFault;
    match a
    case ADeclare(d, chunks) => DeclareRefusal(p, s, now, d, chunks);
    case AStake(value, operator, withdrawal) => StakeRefusal(p, s, now, value, operator, withdrawal);
    case AUnbond(sender, pid) => UnbondRefusal(p, s, now, sender, pid);
    case AWithdraw(pid, push) => WithdrawRefusal(p, s, now, pid, push);
    case ABegin(sender, pid, seed) => BeginRefusal(p, s, now, sender, pid, seed);
    case AProof(sender, pid, verified) => ProofRefusal(p, s, now, sender, pid, verified);
    case AEscape(sender, pid, n, peaks, samples) => EscapeRefusal(p, s, now, sender, pid, n, peaks, samples);
    case ALapse(sender, pid, push) => LapseRefusal(p, s, now, sender, pid, push);
    case AChallenge(sender, value, basefee, pid, indices) =>
      ChallengeRefusal(p, s, now, sender, value, basefee, pid, indices);
    case ARespond(sender, id, indices, n, peaks, proofs, push) =>
      RespondRefused(p, s, now, sender, id, indices, n, peaks, proofs, push);
    case ATimeout(id, push) => TimeoutRefusal(p, s, now, id, push);
    case AClaim(sender, push) => ClaimRefusal(p, s, now, sender, push);
    case AForce(amount) =>
  }
}
