/**
 * What every transaction keeps: the stored peaks commit to the published data, every pin a challenge or a
 * commit carries is a true past state, records only move forward, and custody periods never run ahead of
 * time.
 */
module Lifecycle {
  import opened Data
  import opened Bits
  import opened Decomposition
  import opened Forest
  import opened Inclusion
  import opened Mmr
  import opened PayoutSink
  import opened InstanceSpec
  import opened Solvency

  // ---- The invariant ----

  /** A one-word pin that commits to a prefix of the published data. */
  ghost predicate TruePin(data: seq<Chunk>, root: Hash, n: nat) {
    n <= |data| && root == Root(n, PeakList(data, 0, n))
  }

  /** The stored peaks commit to exactly the published data. */
  ghost predicate Committed(s: State) {
    s.leafCount == |s.dataset| < U64_LIMIT && s.peaks == PeakList(s.dataset, 0, |s.dataset|) &&
    s.checkpointLeafCount <= s.leafCount && s.checkpointTime <= s.clock
  }

  ghost predicate ProviderKept(p: Params, s: State, pr: Provider) {
    pr.anchor <= s.clock &&
    (p.custodyPeriod > 0 ==>
      pr.lastProvenPlusOne <= Period(p, pr.anchor, s.clock) + 1 &&
      pr.commitPeriodPlusOne <= Period(p, pr.anchor, s.clock) + 1) &&
    (pr.commitPeriodPlusOne != 0 ==> TruePin(s.dataset, pr.commitRoot, pr.commitLeafCount)) &&
    (pr.status.Unbonding? ==> pr.unbondingAt <= s.clock && TruePin(s.dataset, pr.exitRoot, pr.exitLeafCount))
  }

  ghost predicate ChallengeKept(p: Params, s: State, c: Challenge) {
    c.openedAt <= s.clock && c.openedAt + p.responseWindow < U64_LIMIT &&
    TruePin(s.dataset, c.pinnedRoot, c.pinnedLeafCount) &&
    c.indices != [] && (forall j :: 0 <= j < |c.indices| ==> c.indices[j] < c.pinnedLeafCount) &&
    (!c.resolved && c.providerId in s.providers && s.providers[c.providerId].status.Unbonding? ==>
      c.pinnedLeafCount <= s.providers[c.providerId].exitLeafCount &&
      c.openedAt <= s.providers[c.providerId].unbondingAt + p.unbondingDelay)
  }

  ghost predicate Kept(p: Params, s: State) {
    Committed(s) &&
    (forall pid :: pid in s.providers ==> ProviderKept(p, s, s.providers[pid])) &&
    (forall id :: id in s.challenges ==> ChallengeKept(p, s, s.challenges[id]))
  }

  ghost predicate Inv(p: Params, s: State) {
    Money(p, s, 0) && Kept(p, s)
  }

  lemma InvIsStored(p: Params, s: State)
    requires Inv(p, s)
    ensures Stored(s)
  {
    PeakListLength(s.dataset, 0, s.leafCount);
  }

  // ---- Records only move forward ----

  predicate Reaches(a: Status, b: Status) {
    a == b || a.Active? || (a.Unbonding? && (b.Exited? || b.Slashed?))
  }

  ghost predicate ProviderEvolves(a: Provider, b: Provider) {
    b.operator == a.operator && b.withdrawal == a.withdrawal && b.anchor == a.anchor &&
    Reaches(a.status, b.status) && a.lastProvenPlusOne <= b.lastProvenPlusOne &&
    (!a.status.Active? ==>
      b.unbondingAt == a.unbondingAt && b.exitRoot == a.exitRoot && b.exitLeafCount == a.exitLeafCount &&
      b.lastProvenPlusOne == a.lastProvenPlusOne)
  }

  ghost predicate ChallengeEvolves(a: Challenge, b: Challenge) {
    b == a || b == a.(resolved := true)
  }

  /** Nothing is forgotten, identities never change, statuses only advance, data and proofs only grow. */
  ghost predicate Evolves(s: State, s': State) {
    s.dataset <= s'.dataset && s.clock <= s'.clock && s.leafCount <= s'.leafCount &&
    (forall pid :: pid in s.providers ==>
      pid in s'.providers && ProviderEvolves(s.providers[pid], s'.providers[pid])) &&
    (forall id :: id in s.challenges ==> id in s'.challenges && ChallengeEvolves(s.challenges[id], s'.challenges[id]))
  }

  lemma EvolvesTransitive(a: State, b: State, c: State)
    requires Evolves(a, b) && Evolves(b, c)
    ensures Evolves(a, c)
  {
    forall pid | pid in a.providers ensures pid in c.providers && ProviderEvolves(a.providers[pid], c.providers[pid]) {
      assert ProviderEvolves(a.providers[pid], b.providers[pid]) && ProviderEvolves(b.providers[pid], c.providers[pid]);
    }
    forall id | id in a.challenges ensures id in c.challenges && ChallengeEvolves(a.challenges[id], c.challenges[id]) {
      assert ChallengeEvolves(a.challenges[id], b.challenges[id]);
      assert ChallengeEvolves(b.challenges[id], c.challenges[id]);
    }
  }

  // ---- Period arithmetic ----

  lemma DivMono(a: nat, b: nat, d: nat)
    requires d > 0 && a <= b
    ensures a / d <= b / d
  {
    if a / d > b / d { MulMono(b / d + 1, a / d, d); }
  }

  lemma PeriodGrows(p: Params, anchor: U64, t: U64, t': U64)
    requires p.custodyPeriod > 0 && anchor <= t <= t'
    ensures Period(p, anchor, t) <= Period(p, anchor, t')
  {
    DivMono(t - anchor, t' - anchor, p.custodyPeriod);
  }

  /** `k` whole periods have passed exactly when the index is at least `k`. */
  lemma PeriodReached(p: Params, anchor: U64, now: U64, k: nat)
    requires p.custodyPeriod > 0 && anchor <= now
    ensures Period(p, anchor, now) >= k <==> now >= anchor + k * p.custodyPeriod
  {
    var x, d := now - anchor, p.custodyPeriod;
    if x / d >= k { MulMono(k, x / d, d); } else { MulMono(x / d + 1, k, d); }
  }

  // ---- The elementary moves ----

  /** Everything an entry point must keep, seen at the time of its block. */
  ghost predicate Keeps(p: Params, s: State, now: U64, t: State) {
    Kept(p, t.(clock := now)) && Evolves(s, t.(clock := now))
  }

  /** Time passing breaks nothing. */
  lemma TimePasses(p: Params, s: State, now: U64)
    requires Kept(p, s) && s.clock <= now
    ensures Keeps(p, s, now, s)
  {
    hide Period;
    var t := s.(clock := now);
    forall pid | pid in t.providers ensures ProviderKept(p, t, t.providers[pid]) {
      assert ProviderKept(p, s, s.providers[pid]);
      if p.custodyPeriod > 0 { PeriodGrows(p, s.providers[pid].anchor, s.clock, now); }
    }
    forall id | id in t.challenges ensures ChallengeKept(p, t, t.challenges[id]) {
      assert ChallengeKept(p, s, s.challenges[id]);
    }
  }

  /** Money fields are not looked at. */
  lemma MoneyAside(p: Params, s: State, now: U64, t: State, t': State)
    requires Keeps(p, s, now, t)
    requires t'.providers == t.providers && t'.challenges == t.challenges && t'.dataset == t.dataset
    requires t'.leafCount == t.leafCount && t'.peaks == t.peaks
    requires t'.checkpointTime == t.checkpointTime && t'.checkpointLeafCount == t.checkpointLeafCount
    ensures Keeps(p, s, now, t')
  {
    hide Period;
    var u, u' := t.(clock := now), t'.(clock := now);
    forall pid | pid in u'.providers ensures ProviderKept(p, u', u'.providers[pid]) {
      assert ProviderKept(p, u, u.providers[pid]);
    }
    forall id | id in u'.challenges ensures ChallengeKept(p, u', u'.challenges[id]) {
      assert ChallengeKept(p, u, u.challenges[id]);
    }
  }

  /** A pin fits inside the dataset it is taken from. */
  lemma PinWithin(dataset: seq<Chunk>, root: Hash, leafCount: nat)
    requires TruePin(dataset, root, leafCount)
    ensures leafCount <= |dataset|
  {
  }

  /** Replacing a provider record by a later version of itself. */
  lemma ReplaceProvider(p: Params, s: State, now: U64, t: State, pid: nat, pr: Provider)
    requires Keeps(p, s, now, t) && pid in t.providers
    requires ProviderEvolves(t.providers[pid], pr) && ProviderKept(p, t.(clock := now), pr)
    requires pr.status.Unbonding? && t.providers[pid].status.Active? ==>
      pr.unbondingAt == now && pr.exitLeafCount == t.leafCount
    ensures Keeps(p, s, now, SetProvider(t, pid, pr))
  {
    hide Period, TruePin;
    var u, u' := t.(clock := now), SetProvider(t, pid, pr).(clock := now);
    forall q | q in u'.providers ensures ProviderKept(p, u', u'.providers[q]) {
      if q != pid { assert ProviderKept(p, u, u.providers[q]); }
    }
    forall id | id in u'.challenges ensures ChallengeKept(p, u', u'.challenges[id]) {
      assert ChallengeKept(p, u, u.challenges[id]);
      PinWithin(u.dataset, u.challenges[id].pinnedRoot, u.challenges[id].pinnedLeafCount);
    }
    forall q | q in s.providers ensures q in u'.providers && ProviderEvolves(s.providers[q], u'.providers[q]) {
      assert ProviderEvolves(s.providers[q], u.providers[q]);
    }
  }

  lemma AddProvider(p: Params, s: State, now: U64, t: State, pid: nat, pr: Provider)
    requires Keeps(p, s, now, t) && pid !in t.providers && pr.status.Active?
    requires ProviderKept(p, t.(clock := now), pr)
    ensures Keeps(p, s, now, SetProvider(t, pid, pr))
  {
    hide Period, TruePin;
    var u, u' := t.(clock := now), SetProvider(t, pid, pr).(clock := now);
    forall q | q in u'.providers ensures ProviderKept(p, u', u'.providers[q]) {
      if q != pid { assert ProviderKept(p, u, u.providers[q]); }
    }
    forall id | id in u'.challenges ensures ChallengeKept(p, u', u'.challenges[id]) {
      assert ChallengeKept(p, u, u.challenges[id]);
    }
  }

  lemma CloseChallenge(p: Params, s: State, now: U64, t: State, id: nat)
    requires Keeps(p, s, now, t) && id in t.challenges
    ensures Keeps(p, s, now, t.(challenges := t.challenges[id := t.challenges[id].(resolved := true)]))
  {
    hide Period, TruePin;
    var c := t.challenges[id].(resolved := true);
    var u := t.(clock := now);
    var u' := u.(challenges := t.challenges[id := c]);
    forall pid | pid in u'.providers ensures ProviderKept(p, u', u'.providers[pid]) {
      assert ProviderKept(p, u, u.providers[pid]);
    }
    forall i | i in u'.challenges ensures ChallengeKept(p, u', u'.challenges[i]) {
      assert ChallengeKept(p, u, u.challenges[i]);
    }
    forall i | i in s.challenges ensures i in u'.challenges && ChallengeEvolves(s.challenges[i], u'.challenges[i]) {
      assert ChallengeEvolves(s.challenges[i], u.challenges[i]);
    }
  }

  lemma AddChallenge(p: Params, s: State, now: U64, t: State, id: nat, c: Challenge)
    requires Keeps(p, s, now, t) && id !in t.challenges && ChallengeKept(p, t.(clock := now), c)
    ensures Keeps(p, s, now, t.(challenges := t.challenges[id := c]))
  {
    hide Period, TruePin;
    var u, u' := t.(clock := now), t.(challenges := t.challenges[id := c]).(clock := now);
    forall pid | pid in u'.providers ensures ProviderKept(p, u', u'.providers[pid]) {
      assert ProviderKept(p, u, u.providers[pid]);
    }
    forall i | i in u'.challenges ensures ChallengeKept(p, u', u'.challenges[i]) {
      if i != id { assert ChallengeKept(p, u, u.challenges[i]); }
    }
  }

  lemma PinStable(data: seq<Chunk>, more: seq<Chunk>, root: Hash, n: nat)
    requires TruePin(data, root, n)
    ensures TruePin(data + more, root, n)
  {
    PeakListStable(data, more, 0, n);
  }

  lemma KeptProvider(p: Params, s: State, now: U64, t: State, pid: nat)
    requires Keeps(p, s, now, t) && pid in t.providers
    ensures ProviderKept(p, t.(clock := now), t.providers[pid])
  {
  }

  // ---- Entry points ----

  /** The merge keeps the stored peaks a commitment to the longer data, and every old pin stays true. */
  lemma DeclareKeeps(p: Params, s: State, now: U64, d: Declaration, chunks: seq<Chunk>)
    requires Kept(p, s) && Stored(s) && s.clock <= now && Declare(p, s, now, d, chunks).Ok?
    ensures Keeps(p, s, now, Declare(p, s, now, d, chunks).value)
  {
    hide CarryAll, Rehydrate, Decompose, PeakHeights, PeakList, PeakMap, Canonical, RootsOf, Span;
    TimePasses(p, s, now);
    var u, u' := s.(clock := now), Declare(p, s, now, d, chunks).value.(clock := now);
    StoredUpdate(s.dataset, chunks);
    CanonicalOfData(s.dataset + chunks);
    forall pid | pid in u'.providers ensures ProviderKept(p, u', u'.providers[pid]) {
      var pr := u.providers[pid];
      assert ProviderKept(p, u, pr);
      if TruePin(s.dataset, pr.commitRoot, pr.commitLeafCount) {
        PinStable(s.dataset, chunks, pr.commitRoot, pr.commitLeafCount);
      }
      if TruePin(s.dataset, pr.exitRoot, pr.exitLeafCount) {
        PinStable(s.dataset, chunks, pr.exitRoot, pr.exitLeafCount);
      }
    }
    forall id | id in u'.challenges ensures ChallengeKept(p, u', u'.challenges[id]) {
      assert ChallengeKept(p, u, u.challenges[id]);
      PinStable(s.dataset, chunks, u.challenges[id].pinnedRoot, u.challenges[id].pinnedLeafCount);
    }
  }

  lemma StakeKeeps(p: Params, s: State, now: U64, value: nat, operator: Address, withdrawal: Address)
    requires Inv(p, s) && s.clock <= now && Stake(p, s, now, value, operator, withdrawal).Ok?
    ensures Keeps(p, s, now, Stake(p, s, now, value, operator, withdrawal).value)
  {
    hide Keeps;
    var s' := Stake(p, s, now, value, operator, withdrawal).value;
    TimePasses(p, s, now);
    AddProvider(p, s, now, s, s.nextProviderId, s'.providers[s.nextProviderId]);
    MoneyAside(p, s, now, SetProvider(s, s.nextProviderId, s'.providers[s.nextProviderId]), s');
  }

  lemma UnbondKeeps(p: Params, s: State, now: U64, sender: Address, pid: nat)
    requires Kept(p, s) && s.clock <= now && InitiateUnbonding(s, now, sender, pid).Ok?
    ensures Keeps(p, s, now, InitiateUnbonding(s, now, sender, pid).value)
  {
    hide Keeps, Period;
    TimePasses(p, s, now);
    KeptProvider(p, s, now, s, pid);
    ReplaceProvider(p, s, now, s, pid, InitiateUnbonding(s, now, sender, pid).value.providers[pid]);
  }

  lemma WithdrawKeeps(p: Params, s: State, now: U64, pid: nat, push: bool)
    requires Kept(p, s) && s.clock <= now && Withdraw(p, s, now, pid, push).Ok?
    ensures Keeps(p, s, now, Withdraw(p, s, now, pid, push).value)
  {
    hide Keeps, Period;
    var pr := s.providers[pid].(status := Exited);
    TimePasses(p, s, now);
    KeptProvider(p, s, now, s, pid);
    ReplaceProvider(p, s, now, s, pid, pr);
    MoneyAside(p, s, now, SetProvider(s, pid, pr), Withdraw(p, s, now, pid, push).value);
  }

  lemma BeginKeeps(p: Params, s: State, now: U64, sender: Address, pid: nat, seed: Hash)
    requires Kept(p, s) && s.clock <= now && BeginProof(p, s, now, sender, pid, seed).Ok?
    ensures Keeps(p, s, now, BeginProof(p, s, now, sender, pid, seed).value)
  {
    hide Keeps, Period;
    TimePasses(p, s, now);
    KeptProvider(p, s, now, s, pid);
    ReplaceProvider(p, s, now, s, pid, BeginProof(p, s, now, sender, pid, seed).value.providers[pid]);
  }

  lemma AcceptKeeps(p: Params, s: State, now: U64, sender: Address, pid: nat, degraded: bool)
    requires Kept(p, s) && s.clock <= now && pid in s.providers
    requires SubmitGuards(p, s.providers[pid], now, sender).Ok?
    ensures Keeps(p, s, now, AcceptProof(s, pid, s.providers[pid], Period(p, s.providers[pid].anchor, now), degraded))
  {
    hide Keeps, Period;
    TimePasses(p, s, now);
    var pr := s.providers[pid];
    assert ProviderKept(p, s, pr);
    KeptProvider(p, s, now, s, pid);
    PeriodGrows(p, pr.anchor, s.clock, now);
    ReplaceProvider(p, s, now, s, pid, AcceptProof(s, pid, pr, Period(p, pr.anchor, now), degraded).providers[pid]);
  }

  lemma SlashKeeps(p: Params, s: State, now: U64, t: State, pid: nat)
    requires Keeps(p, s, now, t) && pid in t.providers && Staked(t.providers[pid]) && SlashProvider(p, t, pid).Ok?
    ensures Keeps(p, s, now, SlashProvider(p, t, pid).value)
  {
    hide Keeps, Period;
    var pr := t.providers[pid].(status := Slashed);
    KeptProvider(p, s, now, t, pid);
    ReplaceProvider(p, s, now, t, pid, pr);
    MoneyAside(p, s, now, SetProvider(t, pid, pr), SlashProvider(p, t, pid).value);
  }

  lemma LapseKeeps(p: Params, s: State, now: U64, sender: Address, pid: nat, push: bool)
    requires Kept(p, s) && s.clock <= now && Lapse(p, s, now, sender, pid, push).Ok?
    ensures Keeps(p, s, now, Lapse(p, s, now, sender, pid, push).value)
  {
    hide Keeps, Period;
    TimePasses(p, s, now);
    SlashKeeps(p, s, now, s, pid);
    MoneyAside(p, s, now, SlashProvider(p, s, pid).value, Lapse(p, s, now, sender, pid, push).value);
  }

  /** A new challenge pins a true state: the current one, or the exit snapshot inside the window. */
  lemma NewChallengeKept(p: Params, s: State, now: U64, pid: nat, indices: seq<nat>, c: Challenge)
    requires Kept(p, s) && s.clock <= now && pid in s.providers && Pin(p, s, now, s.providers[pid]).Ok?
    requires indices != [] && (forall j :: 0 <= j < |indices| ==> indices[j] < Pin(p, s, now, s.providers[pid]).value.1)
    requires now + p.responseWindow < U64_LIMIT
    requires c.providerId == pid && c.openedAt == now && c.indices == indices && !c.resolved
    requires (c.pinnedRoot, c.pinnedLeafCount) == Pin(p, s, now, s.providers[pid]).value
    ensures ChallengeKept(p, s.(clock := now), c)
  {
    hide Period;
    assert ProviderKept(p, s, s.providers[pid]);
  }

  lemma RecordChallenge(p: Params, s: State, now: U64, c: Challenge, s': State)
    requires Inv(p, s) && s.clock <= now && c.providerId in s.providers && ChallengeKept(p, s.(clock := now), c)
    requires s'.providers == s.providers[c.providerId := s.providers[c.providerId].(
               openChallenges := s.providers[c.providerId].openChallenges + 1)]
    requires s'.challenges == s.challenges[s.nextChallengeId := c] && s'.dataset == s.dataset
    requires s'.leafCount == s.leafCount && s'.peaks == s.peaks
    requires s'.checkpointTime == s.checkpointTime && s'.checkpointLeafCount == s.checkpointLeafCount
    ensures Keeps(p, s, now, s')
  {
    hide Keeps, Period;
    var pr := s.providers[c.providerId];
    TimePasses(p, s, now);
    KeptProvider(p, s, now, s, c.providerId);
    AddChallenge(p, s, now, s, s.nextChallengeId, c);
    var t := s.(challenges := s.challenges[s.nextChallengeId := c]);
    ReplaceProvider(p, s, now, t, c.providerId, pr.(openChallenges := pr.openChallenges + 1));
    MoneyAside(p, s, now, SetProvider(t, c.providerId, pr.(openChallenges := pr.openChallenges + 1)), s');
  }

  lemma ChallengeKeeps(p: Params, s: State, now: U64, sender: Address, value: nat, basefee: nat,
                       pid: nat, indices: seq<nat>)
    requires Inv(p, s) && s.clock <= now && OpenChallenge(p, s, now, sender, value, basefee, pid, indices).Ok?
    ensures Keeps(p, s, now, OpenChallenge(p, s, now, sender, value, basefee, pid, indices).value)
  {
    var pin := Pin(p, s, now, s.providers[pid]).value;
    var c := Challenge(pid, sender, value, now, pin.0, pin.1, indices, false);
    NewChallengeKept(p, s, now, pid, indices, c);
    RecordChallenge(p, s, now, c, OpenChallenge(p, s, now, sender, value, basefee, pid, indices).value);
  }

  lemma ResolveKeeps(p: Params, s: State, now: U64, id: nat)
    requires Kept(p, s) && s.clock <= now && id in s.challenges && s.challenges[id].providerId in s.providers
    requires s.providers[s.challenges[id].providerId].openChallenges > 0
    ensures Keeps(p, s, now, Resolve(s, id))
  {
    hide Keeps, Period;
    var pid := s.challenges[id].providerId;
    var pr := s.providers[pid];
    TimePasses(p, s, now);
    KeptProvider(p, s, now, s, pid);
    ReplaceProvider(p, s, now, s, pid, pr.(openChallenges := pr.openChallenges - 1));
    CloseChallenge(p, s, now, SetProvider(s, pid, pr.(openChallenges := pr.openChallenges - 1)), id);
  }

  lemma RespondKeeps(p: Params, s: State, now: U64, sender: Address, id: nat, indices: seq<nat>, n: nat,
                     peaks: seq<Hash>, proofs: seq<ChunkProof>, push: bool)
    requires Kept(p, s) && s.clock <= now && Respond(p, s, now, sender, id, indices, n, peaks, proofs, push).Ok?
    ensures Keeps(p, s, now, Respond(p, s, now, sender, id, indices, n, peaks, proofs, push).value)
  {
    hide Keeps, Period;
    ResolveKeeps(p, s, now, id);
    MoneyAside(p, s, now, Resolve(s, id), Respond(p, s, now, sender, id, indices, n, peaks, proofs, push).value);
  }

  /** What a timeout does, in terms of the moves. */
  lemma TimeoutShape(p: Params, s: State, now: U64, id: nat, push: bool) returns (before: State)
    requires ResolveTimeout(p, s, now, id, push).Ok?
    ensures id in s.challenges && !s.challenges[id].resolved && s.challenges[id].providerId in s.providers
    ensures s.providers[s.challenges[id].providerId].openChallenges > 0
    ensures s.providers[s.challenges[id].providerId].status.Slashed? ==> before == Resolve(s, id)
    ensures !s.providers[s.challenges[id].providerId].status.Slashed? ==>
      SlashProvider(p, Resolve(s, id), s.challenges[id].providerId) == Ok(before)
    ensures exists amount ::
      ResolveTimeout(p, s, now, id, push).value == Payout(before, s.challenges[id].challenger, amount, push)
  {
    var c := s.challenges[id];
    if s.providers[c.providerId].status.Slashed? {
      before := Resolve(s, id);
      assert ResolveTimeout(p, s, now, id, push).value == Payout(before, c.challenger, c.bond, push);
    } else {
      before := SlashProvider(p, Resolve(s, id), c.providerId).value;
      assert ResolveTimeout(p, s, now, id, push).value == Payout(before, c.challenger, Bounty(p) + c.bond, push);
    }
  }

  lemma TimeoutSlashKeeps(p: Params, s: State, now: U64, id: nat)
    requires Inv(p, s) && s.clock <= now && id in s.challenges && !s.challenges[id].resolved
    requires s.challenges[id].providerId in s.providers && !s.providers[s.challenges[id].providerId].status.Slashed?
    requires s.providers[s.challenges[id].providerId].openChallenges > 0
    requires SlashProvider(p, Resolve(s, id), s.challenges[id].providerId).Ok?
    ensures Keeps(p, s, now, SlashProvider(p, Resolve(s, id), s.challenges[id].providerId).value)
  {
    hide Keeps, Period;
    OpenIsCounted(p, s, 0, id);
    ResolveKeeps(p, s, now, id);
    SlashKeeps(p, s, now, Resolve(s, id), s.challenges[id].providerId);
  }

  lemma TimeoutKeeps(p: Params, s: State, now: U64, id: nat, push: bool)
    requires Inv(p, s) && s.clock <= now && ResolveTimeout(p, s, now, id, push).Ok?
    ensures Keeps(p, s, now, ResolveTimeout(p, s, now, id, push).value)
  {
    hide Keeps, Period;
    var before := TimeoutShape(p, s, now, id, push);
    var s' := ResolveTimeout(p, s, now, id, push).value;
    if s.providers[s.challenges[id].providerId].status.Slashed? {
      ResolveKeeps(p, s, now, id);
    } else {
      TimeoutSlashKeeps(p, s, now, id);
    }
    MoneyAside(p, s, now, before, s');
  }

  lemma EntryPointsKeep(p: Params, s: State, now: U64, a: Action)
    requires Inv(p, s) && Stored(s) && s.clock <= now && Execute(p, s, now, a).Ok?
    ensures Keeps(p, s, now, Execute(p, s, now, a).value)
  {
    hide Keeps, Kept, Money;
    match a
    case ADeclare(d, chunks) => DeclareKeeps(p, s, now, d, chunks);
    case AStake(value, operator, withdrawal) => StakeKeeps(p, s, now, value, operator, withdrawal);
    case AUnbond(sender, pid) => UnbondKeeps(p, s, now, sender, pid);
    case AWithdraw(pid, push) => WithdrawKeeps(p, s, now, pid, push);
    case ABegin(sender, pid, seed) => BeginKeeps(p, s, now, sender, pid, seed);
    case AProof(sender, pid, _) => AcceptKeeps(p, s, now, sender, pid, false);
    case AEscape(sender, pid, _, _, _) => AcceptKeeps(p, s, now, sender, pid, true);
    case ALapse(sender, pid, push) => LapseKeeps(p, s, now, sender, pid, push);
    case AChallenge(sender, value, basefee, pid, indices) =>
      ChallengeKeeps(p, s, now, sender, value, basefee, pid, indices);
    case ARespond(sender, id, indices, n, peaks, proofs, push) =>
      RespondKeeps(p, s, now, sender, id, indices, n, peaks, proofs, push);
    case ATimeout(id, push) => TimeoutKeeps(p, s, now, id, push);
    case AClaim(sender, push) => TimePasses(p, s, now); MoneyAside(p, s, now, s, Claim(s, sender, push).value);
    case AForce(amount) => TimePasses(p, s, now); MoneyAside(p, s, now, s, Execute(p, s, now, a).value);
  }

  /** Every transaction, successful or reverted, keeps the invariant and only moves the records forward. */
  lemma TransactKeeps(p: Params, s: State, now: U64, a: Action)
    requires Inv(p, s) && s.clock <= now
    ensures Stored(s)
    ensures Inv(p, Transact(p, s, now, a)) && Evolves(s, Transact(p, s, now, a))
  {
    InvIsStored(p, s);
    TransactBalances(p, s, now, a);
    if Execute(p, s, now, a).Ok? { EntryPointsKeep(p, s, now, a); } else { TimePasses(p, s, now); }
  }

  /** The invariant and the storage shape after every transaction. */
  lemma TransactValid(p: Params, s: State, now: U64, a: Action)
    requires Inv(p, s) && Stored(s) && s.clock <= now
    ensures Inv(p, Transact(p, s, now, a)) && Stored(Transact(p, s, now, a))
  {
    hide Kept, Money;
    TransactKeeps(p, s, now, a);
    InvIsStored(p, Transact(p, s, now, a));
  }

  lemma InitialKeeps(p: Params, now: U64)
    ensures Inv(p, Initial(now))
  {
    InitialBalances(p, now);
  }

}
