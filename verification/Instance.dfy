/**
 * The instance contract as it is written: storage fields updated in place by each entry point, guards in
 * source order, payouts last. Every entry point is proved to do exactly what its specification says, so
 * that all the facts about runs hold of it.
 */
module Instance {
  import opened Data
  import opened Bits
  import opened Decomposition
  import opened Forest
  import opened Inclusion
  import opened Mmr
  import opened Packing
  import opened PayoutSink
  import opened InstanceSpec
  import opened Lifecycle

  /** The error an entry point reverts with, if it does. */
  function Failure(o: Outcome): Option<Error> {
    match o case Ok(_) => None case Err(e) => Some(e)
  }

  /** A revert changes nothing but the time. */
  function Landed(s: State, now: U64, o: Outcome): State {
    match o case Ok(s') => s'.(clock := now) case Err(_) => s.(clock := now)
  }

  lemma ClaimTransacts(p: Params, s: State, now: U64, sender: Address, push: bool)
    requires Stored(s)
    ensures Execute(p, s, now, AClaim(sender, push)) == InstanceSpec.Claim(s, sender, push)
    ensures Transact(p, s, now, AClaim(sender, push)) == Landed(s, now, InstanceSpec.Claim(s, sender, push))
  {
  }

  lemma LapseTransacts(p: Params, s: State, now: U64, sender: Address, pid: nat, push: bool)
    requires Stored(s)
    ensures Execute(p, s, now, ALapse(sender, pid, push)) == InstanceSpec.Lapse(p, s, now, sender, pid, push)
    ensures Transact(p, s, now, ALapse(sender, pid, push))
      == Landed(s, now, InstanceSpec.Lapse(p, s, now, sender, pid, push))
  {
    hide InstanceSpec.Lapse;
  }

  lemma StakeTransacts(p: Params, s: State, now: U64, value: nat, operator: Address, withdrawal: Address)
    requires Stored(s)
    ensures Execute(p, s, now, AStake(value, operator, withdrawal))
      == InstanceSpec.Stake(p, s, now, value, operator, withdrawal)
    ensures Transact(p, s, now, AStake(value, operator, withdrawal))
      == Landed(s, now, InstanceSpec.Stake(p, s, now, value, operator, withdrawal))
  {
    hide InstanceSpec.Stake;
  }

  class BlobsitterInstance {
    const p: Params
    var balance: nat
    var claimable: map<Address, nat>
    var totalClaimable: nat
    var leafCount: U64
    var peaks: seq<Hash>
    var declarationNonce: nat
    var checkpointTime: U64
    var checkpointLeafCount: nat
    var nextProviderId: nat
    var providers: map<nat, Provider>
    var nextChallengeId: nat
    var challenges: map<nat, Challenge>
    ghost var clock: U64
    ghost var forced: nat
    ghost var dataset: seq<Chunk>
    ghost var received: map<Address, nat>

    ghost function St(): State
      reads this
    {
      State(balance, claimable, totalClaimable, leafCount, peaks, declarationNonce, checkpointTime,
            checkpointLeafCount, nextProviderId, providers, nextChallengeId, challenges, clock, forced, dataset,
            received)
    }

    ghost predicate Valid()
      reads this
    {
      Inv(p, St()) && Stored(St())
    }

    constructor (p: Params, now: U64)
      ensures Valid() && St() == Initial(now) && this.p == p
    {
      this.p := p;
      balance, claimable, totalClaimable := 0, map[], 0;
      leafCount, peaks, declarationNonce := 0, [], 0;
      checkpointTime, checkpointLeafCount := now, 0;
      nextProviderId, providers, nextChallengeId, challenges := 1, map[], 0, map[];
      clock, forced, dataset, received := now, 0, [], map[];
      new;
      InitialKeeps(p, now);
      InvIsStored(p, St());
    }

    /** Push, and on any failure park. */
    method Pay(to: Address, amount: nat, push: bool)
      modifies this
      ensures St() == Payout(old(St()), to, amount, push)
    {
      if push && amount <= balance {
        balance := balance - amount;
        received := Credit(received, to, amount);
      } else {
        claimable := claimable[to := (if to in claimable then claimable[to] else 0) + amount];
        totalClaimable := totalClaimable + amount;
      }
    }

    /** Mark slashed and send the remainder to the paymaster; reverts if the bounty exceeds the stake. */
    method Slash(pid: nat) returns (r: Option<Error>)
      requires pid in providers
      modifies this
      ensures r == Failure(SlashProvider(p, old(St()), pid))
      ensures r.None? ==> St() == SlashProvider(p, old(St()), pid).value
      ensures r.Some? ==> St() == old(St())
    {
      var bounty := p.stakeWei * p.bountyBps / 10_000;
      if bounty > p.stakeWei || p.stakeWei - bounty > balance { return Some(Panic); }
      providers := providers[pid := providers[pid].(status := Slashed)];
      balance := balance - (p.stakeWei - bounty);
      received := Credit(received, p.paymaster, p.stakeWei - bounty);
      r := None;
    }

    /** Checks 1 to 4 of a declaration. */
    method CheckDeclaration(now: U64, d: Declaration, chunks: seq<Chunk>) returns (r: Option<Error>)
      requires Valid()
      ensures r == Failure(InstanceSpec.Declare(p, St(), now, d, chunks))
    {
      hide Inv, CarryAll, Rehydrate, Canonical, RootsOf, Decompose, Span, BlobCount, PeakHeights, PeakList;
      hide PackedUnder;
      if now > d.deadline { return Some(IntentExpired); }
      if d.nonce != declarationNonce { return Some(WrongNonce); }
      if !d.carrierAllowed { return Some(NotDesignatedCarrier); }
      if !d.signed { return Some(BadSignature); }
      if d.newLeafCount <= leafCount { return Some(EmptyUpdate); }
      var m: U64 := d.newLeafCount - leafCount;
      var blobCount := BlobCount(m);
      if |d.versionedHashes| != blobCount || |d.openings| != blobCount { return Some(Error.BlobCountMismatch); }
      for j := 0 to blobCount
        invariant forall i :: 0 <= i < j ==> BlobHashAt(d, i) == d.versionedHashes[i]
      {
        if BlobHashAt(d, j) != d.versionedHashes[j] { return Some(BlobHashMismatch); }
      }
      if BlobHashAt(d, blobCount) != NO_HASH { return Some(UnexpectedExtraBlob); }
      var heights := DecomposeLoop(leafCount, m);
      if |d.roots| != |heights| { return Some(Error.SubtreeCountMismatch); }
      for j := 0 to blobCount
        invariant forall i :: 0 <= i < j ==> d.openings[i]
      {
        if !d.openings[j] { return Some(PointEvaluationFailed); }
      }
      if !PackedUnder(p.blobHash, d.versionedHashes, chunks) { return Some(InvalidEquivalenceProof); }
      if |chunks| != m { return Some(InvalidEquivalenceProof); }
      var attested := UpdateSubtreeRoots(leafCount, chunks);
      if d.roots != attested { return Some(InvalidEquivalenceProof); }
      if d.newLeafCount < checkpointLeafCount { return Some(Panic); }
      r := None;
    }

    /** The effects of an accepted declaration: merge, then checkpoint if enough was appended. */
    method MergeDeclaration(now: U64, d: Declaration, ghost chunks: seq<Chunk>)
      requires Valid() && InstanceSpec.Declare(p, St(), now, d, chunks).Ok?
      modifies this
      ensures St() == InstanceSpec.Declare(p, old(St()), now, d, chunks).value
    {
      hide Inv, CarryAll, Rehydrate, Canonical, RootsOf, Decompose, Span, BlobCount, PeakHeights, PeakList;
      hide PeakMap, Pow2, BinaryCounter, FloorLog2;
      var newPeaks, n1 := TableApplyUpdate(peaks, leafCount, d.roots, d.newLeafCount - leafCount);
      RecordUpdate(now, newPeaks, n1, d.nonce + 1, chunks);
    }

    method StoreTree(newPeaks: seq<Hash>, n1: U64, nonce: nat, ghost chunks: seq<Chunk>)
      modifies this
      ensures var s := old(St());
        St() == s.(peaks := newPeaks, leafCount := n1, declarationNonce := nonce, dataset := s.dataset + chunks)
    {
      peaks, leafCount, declarationNonce := newPeaks, n1, nonce;
      dataset := dataset + chunks;
    }

    method Checkpoint(now: U64, n1: U64)
      modifies this
      ensures St() == old(St()).(checkpointTime := now, checkpointLeafCount := n1)
    {
      checkpointTime, checkpointLeafCount := now, n1;
    }

    /** Store the merged tree and the next nonce; restart the dormancy clock if enough was appended. */
    method RecordUpdate(now: U64, newPeaks: seq<Hash>, n1: U64, nonce: nat, ghost chunks: seq<Chunk>)
      requires n1 >= checkpointLeafCount
      modifies this
      ensures var s := old(St()); var active := n1 - s.checkpointLeafCount >= p.dormancyMinChunks;
        St() == s.(peaks := newPeaks, leafCount := n1, declarationNonce := nonce,
                   checkpointTime := if active then now else s.checkpointTime,
                   checkpointLeafCount := if active then n1 else s.checkpointLeafCount,
                   dataset := s.dataset + chunks)
    {
      StoreTree(newPeaks, n1, nonce, chunks);
      if n1 - checkpointLeafCount >= p.dormancyMinChunks { Checkpoint(now, n1); }
    }

    method Declare(now: U64, d: Declaration, chunks: seq<Chunk>) returns (r: Option<Error>)
      requires Valid() && clock <= now
      modifies this
      ensures Valid() && St() == Transact(p, old(St()), now, ADeclare(d, chunks))
      ensures r == Failure(Execute(p, old(St()), now, ADeclare(d, chunks)))
    {
      hide Inv, InstanceSpec.Declare;
      TransactValid(p, St(), now, ADeclare(d, chunks));
      r := CheckDeclaration(now, d, chunks);
      if r.None? { MergeDeclaration(now, d, chunks); }
      clock := now;
    }

    method Stake(now: U64, value: nat, operator: Address, withdrawal: Address) returns (r: Option<Error>)
      requires Valid() && clock <= now
      modifies this
      ensures Valid() && St() == Transact(p, old(St()), now, AStake(value, operator, withdrawal))
      ensures r == Failure(Execute(p, old(St()), now, AStake(value, operator, withdrawal)))
    {
      hide Inv, Stored, Execute, Transact;
      TransactValid(p, St(), now, AStake(value, operator, withdrawal));
      StakeTransacts(p, St(), now, value, operator, withdrawal);
      clock := now;
      if value != p.stakeWei { return Some(WrongStakeAmount); }
      if operator == 0 || withdrawal == 0 { return Some(ZeroAddress); }
      var pr := Provider(operator, withdrawal, Active, now, 0, false, 0, NO_HASH, NO_HASH, 0, 0, NO_HASH, 0, 0);
      providers := providers[nextProviderId := pr];
      nextProviderId, balance := nextProviderId + 1, balance + value;
      r := None;
    }

    method InitiateUnbonding(now: U64, sender: Address, pid: nat) returns (r: Option<Error>)
      requires Valid() && clock <= now
      modifies this
      ensures Valid() && St() == Transact(p, old(St()), now, AUnbond(sender, pid))
      ensures r == Failure(Execute(p, old(St()), now, AUnbond(sender, pid)))
    {
      hide Inv, Stored, Period, Verifies, RequiredBond;
      TransactValid(p, St(), now, AUnbond(sender, pid));
      clock := now;
      if pid !in providers { return Some(UnknownProvider); }
      var pr := providers[pid];
      if sender != pr.operator { return Some(NotOperator); }
      if !pr.status.Active? { return Some(NotActive); }
      pr := pr.(status := Unbonding, unbondingAt := now,
                exitRoot := Root(leafCount, peaks), exitLeafCount := leafCount);
      pr := pr.(commitPeriodPlusOne := 0, commitSeed := NO_HASH, commitRoot := NO_HASH, commitLeafCount := 0);
      providers := providers[pid := pr];
      r := None;
    }

    method Withdraw(now: U64, pid: nat, push: bool) returns (r: Option<Error>)
      requires Valid() && clock <= now
      modifies this
      ensures Valid() && St() == Transact(p, old(St()), now, AWithdraw(pid, push))
      ensures r == Failure(Execute(p, old(St()), now, AWithdraw(pid, push)))
    {
      hide Inv, Stored;
      TransactValid(p, St(), now, AWithdraw(pid, push));
      clock := now;
      if pid !in providers { return Some(UnknownProvider); }
      var pr := providers[pid];
      if !pr.status.Unbonding? { return Some(NotUnbonding); }
      var until := pr.unbondingAt + p.unbondingDelay;
      if until >= U64_LIMIT { return Some(Panic); }
      if now < until { return Some(UnbondingDelayActive); }
      if pr.openChallenges != 0 { return Some(OpenChallengesRemain); }
      providers := providers[pid := pr.(status := Exited)];
      Pay(pr.withdrawal, p.stakeWei, push);
      r := None;
    }

    method BeginProof(now: U64, sender: Address, pid: nat, prevrandao: Hash) returns (r: Option<Error>)
      requires Valid() && clock <= now
      modifies this
      ensures Valid() && St() == Transact(p, old(St()), now, ABegin(sender, pid, prevrandao))
      ensures r == Failure(Execute(p, old(St()), now, ABegin(sender, pid, prevrandao)))
    {
      hide Inv, Stored, Period, Verifies, RequiredBond;
      TransactValid(p, St(), now, ABegin(sender, pid, prevrandao));
      clock := now;
      if pid !in providers { return Some(UnknownProvider); }
      var pr := providers[pid];
      if sender != pr.operator { return Some(NotOperator); }
      if !pr.status.Active? { return Some(NotActive); }
      if p.custodyPeriod == 0 || now < pr.anchor { return Some(Panic); }
      var period := Period(p, pr.anchor, now);
      if pr.commitPeriodPlusOne != 0 && pr.commitPeriodPlusOne - 1 == period { return Some(AlreadyCommitted); }
      providers := providers[pid := pr.(commitPeriodPlusOne := period + 1, commitSeed := prevrandao,
                                        commitRoot := Root(leafCount, peaks), commitLeafCount := leafCount)];
      r := None;
    }

    /** The guards both proof paths share. */
    method SubmitChecks(pr: Provider, now: U64, sender: Address) returns (r: Option<Error>, period: nat)
      ensures match SubmitGuards(p, pr, now, sender)
              case Ok(current) => r.None? && period == current
              case Err(e) => r == Some(e)
    {
      period := 0;
      if sender != pr.operator { return Some(NotOperator), 0; }
      if !pr.status.Active? { return Some(NotActive), 0; }
      if pr.commitPeriodPlusOne == 0 { return Some(NoCommit), 0; }
      if p.custodyPeriod == 0 || now < pr.anchor { return Some(Panic), 0; }
      var committed := pr.commitPeriodPlusOne - 1;
      var current := Period(p, pr.anchor, now);
      if committed != current { return Some(CommitFromEarlierPeriod), 0; }
      r, period := None, current;
    }

    /** Mark the period proven and void the commit. */
    method Accept(pid: nat, pr: Provider, period: nat, degraded: bool)
      modifies this
      ensures St() == AcceptProof(old(St()), pid, pr, period, degraded)
    {
      providers := providers[pid := pr.(lastProvenPlusOne := period + 1, lastDegraded := degraded,
                                        commitPeriodPlusOne := 0, commitSeed := NO_HASH,
                                        commitRoot := NO_HASH, commitLeafCount := 0)];
    }

    method SubmitProof(now: U64, sender: Address, pid: nat, verified: bool) returns (r: Option<Error>)
      requires Valid() && clock <= now
      modifies this
      ensures Valid() && St() == Transact(p, old(St()), now, AProof(sender, pid, verified))
      ensures r == Failure(Execute(p, old(St()), now, AProof(sender, pid, verified)))
    {
      hide Inv, Stored, Period, Verifies, RequiredBond;
      TransactValid(p, St(), now, AProof(sender, pid, verified));
      clock := now;
      if pid !in providers { return Some(UnknownProvider); }
      var period: nat;
      r, period := SubmitChecks(providers[pid], now, sender);
      if r.Some? { return; }
      if !verified { return Some(InvalidCustodyProof); }
      Accept(pid, providers[pid], period, false);
    }

    method SubmitProofEscape(now: U64, sender: Address, pid: nat, n: U64,
                             pinnedPeaks: seq<Hash>, samples: seq<ChunkProof>)
      returns (r: Option<Error>)
      requires Valid() && clock <= now
      modifies this
      ensures Valid() && St() == Transact(p, old(St()), now, AEscape(sender, pid, n, pinnedPeaks, samples))
      ensures r == Failure(Execute(p, old(St()), now, AEscape(sender, pid, n, pinnedPeaks, samples)))
    {
      hide Inv, Stored, Period, Verifies, RequiredBond;
      TransactValid(p, St(), now, AEscape(sender, pid, n, pinnedPeaks, samples));
      clock := now;
      if pid !in providers { return Some(UnknownProvider); }
      var pr := providers[pid];
      var period: nat;
      r, period := SubmitChecks(pr, now, sender);
      if r.Some? { return; }
      if n != pr.commitLeafCount || Root(n, pinnedPeaks) != pr.commitRoot { return Some(PinMismatch); }
      var required := if n == 0 then 0 else p.maxSample;
      if |samples| != required { return Some(ProofCountMismatch); }
      var ok := CheckSamples(pr, pid, n, pinnedPeaks, samples);
      if !ok { return Some(InvalidInclusionProof); }
      Accept(pid, pr, period, true);
    }

    /** Verify every sample at its drawn position. */
    method CheckSamples(pr: Provider, pid: nat, n: U64, pinnedPeaks: seq<Hash>, samples: seq<ChunkProof>)
      returns (ok: bool)
      requires samples != [] ==> n > 0
      ensures ok <==> RevealsVerify(p, pr, pid, n, pinnedPeaks, samples)
    {
      for j := 0 to |samples|
        invariant forall i :: 0 <= i < j ==>
          Verifies(samples[i].chunk, CustodyIndex(p, pr.commitSeed, pid, i, n), samples[i].path, n, pinnedPeaks)
      {
        var index: U64 := CustodyIndex(p, pr.commitSeed, pid, j, n);
        var good := Verify(samples[j].chunk, index, samples[j].path, n, pinnedPeaks);
        if !good { return false; }
      }
      ok := true;
    }

    method Lapse(now: U64, sender: Address, pid: nat, push: bool) returns (r: Option<Error>)
      requires Valid() && clock <= now
      modifies this
      ensures Valid() && St() == Transact(p, old(St()), now, ALapse(sender, pid, push))
      ensures r == Failure(Execute(p, old(St()), now, ALapse(sender, pid, push)))
    {
      hide Inv, Stored, Execute, Transact;
      TransactValid(p, St(), now, ALapse(sender, pid, push));
      LapseTransacts(p, St(), now, sender, pid, push);
      clock := now;
      if pid !in providers { return Some(UnknownProvider); }
      var pr := providers[pid];
      if !pr.status.Active? { return Some(NotActive); }
      var eligibleAt := pr.anchor + (pr.lastProvenPlusOne + 2) * p.custodyPeriod;
      var lapsableAt := eligibleAt + p.lapseGrace;
      if now < eligibleAt { return Some(NotLapsable); }
      if now < lapsableAt { return Some(NotLapsable); }
      r := Slash(pid);
      if r.Some? { return; }
      Pay(sender, p.stakeWei * p.bountyBps / 10_000, push);
    }

    /** The guards of a challenge, in source order, and the state it pins. */
    method ChallengeChecks(now: U64, ghost sender: Address, value: nat, basefee: nat, pid: nat, indices: seq<nat>)
      returns (r: Option<Error>, pinnedRoot: Hash, pinnedLeafCount: nat)
      ensures r == Failure(InstanceSpec.OpenChallenge(p, St(), now, sender, value, basefee, pid, indices))
      ensures r.None? ==> pid in providers && Pin(p, St(), now, providers[pid]) == Ok((pinnedRoot, pinnedLeafCount))
    {
      hide RequiredBond;
      pinnedRoot, pinnedLeafCount := NO_HASH, 0;
      if pid !in providers { r := Some(UnknownProvider); return; }
      var pr := providers[pid];
      if pr.status.Active? {
        pinnedRoot, pinnedLeafCount := Root(leafCount, peaks), leafCount;
      } else if pr.status.Unbonding? {
        if pr.unbondingAt + p.unbondingDelay >= U64_LIMIT { r := Some(Panic); return; }
        if now >= pr.unbondingAt + p.unbondingDelay { r := Some(ChallengeWindowClosed); return; }
        pinnedRoot, pinnedLeafCount := pr.exitRoot, pr.exitLeafCount;
      } else {
        r := Some(ChallengeWindowClosed);
        return;
      }
      if indices == [] { r := Some(NoIndices); return; }
      if |indices| > p.maxSample { r := Some(TooManyIndices); return; }
      for j := 0 to |indices|
        invariant forall i :: 0 <= i < j ==> indices[i] < pinnedLeafCount
      {
        if indices[j] >= pinnedLeafCount { r := Some(IndexOutOfRange); return; }
      }
      if value < RequiredBond(|indices|, basefee) { r := Some(BondTooSmall); return; }
      if pr.openChallenges >= MAX_OPEN || now + p.responseWindow >= U64_LIMIT { r := Some(Panic); return; }
      r := None;
    }

    /** Store a record with its bond and count it against its provider. */
    method OpenRecord(pid: nat, c: Challenge)
      requires pid in providers
      modifies this
      ensures var s := old(St()); var pr := s.providers[pid];
        St() == SetProvider(s, pid, pr.(openChallenges := pr.openChallenges + 1)).(
          nextChallengeId := s.nextChallengeId + 1, challenges := s.challenges[s.nextChallengeId := c],
          balance := s.balance + c.bond)
    {
      var pr := providers[pid];
      challenges := challenges[nextChallengeId := c];
      nextChallengeId, balance := nextChallengeId + 1, balance + c.bond;
      providers := providers[pid := pr.(openChallenges := pr.openChallenges + 1)];
    }

    method OpenChallenge(now: U64, sender: Address, value: nat, basefee: nat, pid: nat, indices: seq<nat>)
      returns (r: Option<Error>)
      requires Valid() && clock <= now
      modifies this
      ensures Valid() && St() == Transact(p, old(St()), now, AChallenge(sender, value, basefee, pid, indices))
      ensures r == Failure(Execute(p, old(St()), now, AChallenge(sender, value, basefee, pid, indices)))
    {
      hide Inv, Stored, RequiredBond, Pin;
      TransactValid(p, St(), now, AChallenge(sender, value, basefee, pid, indices));
      var root, count;
      r, root, count := ChallengeChecks(now, sender, value, basefee, pid, indices);
      if r.None? {
        OpenRecord(pid, Challenge(pid, sender, value, now, root, count, indices, false));
      }
      clock := now;
    }

    /** Verify every proof at its challenged index. */
    method CheckProofs(indices: seq<nat>, n: U64, pinnedPeaks: seq<Hash>, proofs: seq<ChunkProof>) returns (ok: bool)
      requires |indices| == |proofs|
      ensures ok <==> ProofsVerify(indices, n, pinnedPeaks, proofs)
    {
      for j := 0 to |proofs|
        invariant forall i :: 0 <= i < j ==> Verifies(proofs[i].chunk, indices[i], proofs[i].path, n, pinnedPeaks)
      {
        if indices[j] >= n { return false; }
        var good := Verify(proofs[j].chunk, indices[j], proofs[j].path, n, pinnedPeaks);
        if !good { return false; }
      }
      ok := true;
    }

    /** The guards of a response, in source order. */
    method RespondChecks(now: U64, sender: Address, id: nat, indices: seq<nat>, n: U64, pinnedPeaks: seq<Hash>,
                         proofs: seq<ChunkProof>, ghost push: bool) returns (r: Option<Error>)
      ensures r == Failure(InstanceSpec.Respond(p, St(), now, sender, id, indices, n, pinnedPeaks, proofs, push))
      ensures r.None? ==> id in challenges && challenges[id].providerId in providers
      ensures r.None? ==> providers[challenges[id].providerId].openChallenges > 0
    {
      hide Verifies, ProofsVerify;
      if id !in challenges { return Some(UnknownChallenge); }
      var c := challenges[id];
      if c.providerId !in providers { return Some(UnknownProvider); }
      var pr := providers[c.providerId];
      if sender != pr.operator { return Some(NotOperator); }
      var deadline := c.openedAt + p.responseWindow;
      if deadline >= U64_LIMIT { return Some(Panic); }
      if now >= deadline { return Some(ResponseWindowClosed); }
      if c.resolved { return Some(AlreadyResolved); }
      if pr.status.Slashed? { return Some(ProviderSlashed); }
      if |proofs| != |c.indices| { return Some(ProofCountMismatch); }
      if indices != c.indices { return Some(IndicesMismatch); }
      if n != c.pinnedLeafCount || Root(n, pinnedPeaks) != c.pinnedRoot { return Some(PinMismatch); }
      var ok := CheckProofs(indices, n, pinnedPeaks, proofs);
      if !ok { return Some(InvalidInclusionProof); }
      if pr.openChallenges == 0 { return Some(Panic); }
      r := None;
    }

    method Respond(now: U64, sender: Address, id: nat, indices: seq<nat>, n: U64, pinnedPeaks: seq<Hash>,
                   proofs: seq<ChunkProof>, push: bool) returns (r: Option<Error>)
      requires Valid() && clock <= now
      modifies this
      ensures Valid()
      ensures var a := ARespond(sender, id, indices, n, pinnedPeaks, proofs, push);
        St() == Transact(p, old(St()), now, a) && r == Failure(Execute(p, old(St()), now, a))
    {
      hide Inv, Stored, Verifies, ProofsVerify, Payout, Resolve;
      TransactValid(p, St(), now, ARespond(sender, id, indices, n, pinnedPeaks, proofs, push));
      r := RespondChecks(now, sender, id, indices, n, pinnedPeaks, proofs, push);
      if r.None? {
        var c := challenges[id];
        var operator := providers[c.providerId].operator;
        CloseRecord(id);
        Pay(operator, c.bond, push);
      }
      clock := now;
    }

    /** The guards of a timeout, in source order. */
    method TimeoutChecks(now: U64, id: nat, ghost push: bool) returns (r: Option<Error>)
      ensures r.Some? ==> r == Failure(InstanceSpec.ResolveTimeout(p, St(), now, id, push))
      ensures r.None? ==> id in challenges && !challenges[id].resolved && challenges[id].providerId in providers
      ensures r.None? ==> providers[challenges[id].providerId].openChallenges > 0
      ensures r.None? ==> challenges[id].openedAt + p.responseWindow <= now
    {
      if id !in challenges { return Some(UnknownChallenge); }
      var c := challenges[id];
      if c.resolved { return Some(AlreadyResolved); }
      var deadline := c.openedAt + p.responseWindow;
      if deadline >= U64_LIMIT { return Some(Panic); }
      if now < deadline { return Some(ResponseWindowStillOpen); }
      if c.providerId !in providers { return Some(UnknownProvider); }
      if providers[c.providerId].openChallenges == 0 { return Some(Panic); }
      r := None;
    }

    /** Close a record and drop it from its provider's count. */
    method CloseRecord(id: nat)
      requires id in challenges && challenges[id].providerId in providers
      requires providers[challenges[id].providerId].openChallenges > 0
      modifies this
      ensures St() == Resolve(old(St()), id)
    {
      var c := challenges[id];
      var pr := providers[c.providerId];
      challenges := challenges[id := c.(resolved := true)];
      providers := providers[c.providerId := pr.(openChallenges := pr.openChallenges - 1)];
    }

    /** Slash unless already slashed, then pay the challenger; a failed slash reverts the whole transaction. */
    method TimeoutEffects(id: nat, push: bool) returns (r: Option<Error>)
      requires id in challenges && challenges[id].providerId in providers
      requires providers[challenges[id].providerId].openChallenges > 0
      modifies this
      ensures var s := old(St()); var c := s.challenges[id]; var closed := Resolve(s, id);
        if s.providers[c.providerId].status.Slashed? then
          r.None? && St() == Payout(closed, c.challenger, c.bond, push)
        else
          r == Failure(SlashProvider(p, closed, c.providerId)) &&
          St() == if r.Some? then s
                  else Payout(SlashProvider(p, closed, c.providerId).value, c.challenger, Bounty(p) + c.bond, push)
    {
      hide SlashProvider, Payout, Bounty;
      var c := challenges[id];
      var before, recordsBefore := challenges, providers;
      var alreadySlashed := providers[c.providerId].status.Slashed?;
      CloseRecord(id);
      if alreadySlashed {
        Pay(c.challenger, c.bond, push);
        return None;
      }
      r := Slash(c.providerId);
      if r.Some? {
        challenges, providers := before, recordsBefore;
      } else {
        Pay(c.challenger, Bounty(p) + c.bond, push);
      }
    }

    method ResolveTimeout(now: U64, id: nat, push: bool) returns (r: Option<Error>)
      requires Valid() && clock <= now
      modifies this
      ensures Valid() && St() == Transact(p, old(St()), now, ATimeout(id, push))
      ensures r == Failure(Execute(p, old(St()), now, ATimeout(id, push)))
    {
      hide Inv, Stored, SlashProvider, Payout, Bounty, Resolve;
      TransactValid(p, St(), now, ATimeout(id, push));
      r := TimeoutChecks(now, id, push);
      if r.None? { r := TimeoutEffects(id, push); }
      clock := now;
    }

    /** Send an address its parked amount. */
    method Drain(to: Address, amount: nat)
      requires amount <= totalClaimable && amount <= balance
      modifies this
      ensures var s := old(St());
        St() == s.(balance := s.balance - amount, claimable := s.claimable[to := 0],
                   totalClaimable := s.totalClaimable - amount, received := Credit(s.received, to, amount))
    {
      claimable := claimable[to := 0];
      totalClaimable := totalClaimable - amount;
      balance := balance - amount;
      received := Credit(received, to, amount);
    }

    method Claim(now: U64, sender: Address, push: bool) returns (r: Option<Error>)
      requires Valid() && clock <= now
      modifies this
      ensures Valid() && St() == Transact(p, old(St()), now, AClaim(sender, push))
      ensures r == Failure(Execute(p, old(St()), now, AClaim(sender, push)))
    {
      hide Inv, Stored, Execute, Transact;
      TransactValid(p, St(), now, AClaim(sender, push));
      ClaimTransacts(p, St(), now, sender, push);
      clock := now;
      var amount := if sender in claimable then claimable[sender] else 0;
      if amount == 0 { return Some(NothingClaimable); }
      if amount > totalClaimable { return Some(Panic); }
      // A failed transfer reverts the writes of the drain with it.
      if !push || amount > balance { return Some(PayoutFailed); }
      Drain(sender, amount);
      r := None;
    }

    /** The derived health, computed on demand. */
    method CustodyStatus(now: U64, pid: nat) returns (status: CustodyStatus)
      requires Valid() && clock <= now && p.custodyPeriod > 0
      ensures pid in providers ==> providers[pid].anchor <= now
      ensures status == CustodyStatusOf(p, St(), now, pid)
    {
      if pid !in providers { return NoStatus; }
      var pr := providers[pid];
      assert ProviderKept(p, St(), pr);
      if !pr.status.Active? { return NoStatus; }
      var period := Period(p, pr.anchor, now);
      if period + 1 <= pr.lastProvenPlusOne + 1 { return Current; }
      if period + 1 == pr.lastProvenPlusOne + 2 { return Stale; }
      var lapsableAt := pr.anchor + (pr.lastProvenPlusOne + 2) * p.custodyPeriod + p.lapseGrace;
      status := if now < lapsableAt then LapseEligible else Lapsable;
    }
  }
}
