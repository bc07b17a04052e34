/**
 * The instance over whole runs: any sequence of transactions at non-decreasing times, any of which may
 * revert, with every push succeeding or failing at will.
 */
module Runs {
  import opened Data
  import opened Bits
  import opened Decomposition
  import opened Forest
  import opened Inclusion
  import opened Sums
  import opened PayoutSink
  import opened InstanceSpec
  import opened Solvency
  import opened Lifecycle

  datatype Tx = Tx(now: U64, action: Action)

  ghost predicate Step(p: Params, s: State, tx: Tx, s': State) {
    s.clock <= tx.now && Stored(s) && s' == Transact(p, s, tx.now, tx.action)
  }

  /** `states[i + 1]` is what `txs[i]` makes of `states[i]`, from deployment on. */
  ghost predicate IsRun(p: Params, states: seq<State>, txs: seq<Tx>) {
    |states| == |txs| + 1 && states[0] == Initial(states[0].clock) &&
    forall i :: 0 <= i < |txs| ==> Step(p, states[i], txs[i], states[i + 1])
  }

  lemma StepAt(p: Params, states: seq<State>, txs: seq<Tx>, i: nat)
    requires IsRun(p, states, txs) && i < |txs|
    ensures i + 1 < |states| && Step(p, states[i], txs[i], states[i + 1])
  {
  }

  lemma {:induction false} RunKeeps(p: Params, states: seq<State>, txs: seq<Tx>, i: nat)
    requires IsRun(p, states, txs) && i < |states|
    ensures Inv(p, states[i])
  {
    if i == 0 {
      InitialKeeps(p, states[0].clock);
    } else {
      RunKeeps(p, states, txs, i - 1);
      assert Step(p, states[i - 1], txs[i - 1], states[i - 1 + 1]);
      TransactKeeps(p, states[i - 1], txs[i - 1].now, txs[i - 1].action);
    }
  }

  lemma RunLength(p: Params, states: seq<State>, txs: seq<Tx>)
    requires IsRun(p, states, txs)
    ensures |states| == |txs| + 1
  {
  }

  lemma EvolvesItself(s: State)
    ensures Evolves(s, s)
  {
  }

  lemma StepEvolves(p: Params, states: seq<State>, txs: seq<Tx>, m: nat)
    requires IsRun(p, states, txs) && m < |txs|
    ensures m + 1 < |states| && Evolves(states[m], states[m + 1])
  {
    hide Inv, Transact, Evolves;
    RunKeeps(p, states, txs, m);
    assert Step(p, states[m], txs[m], states[m + 1]);
    TransactKeeps(p, states[m], txs[m].now, txs[m].action);
  }

  lemma {:induction false} RunEvolves(p: Params, states: seq<State>, txs: seq<Tx>, i: nat, j: nat)
    requires IsRun(p, states, txs) && i <= j < |states|
    ensures Evolves(states[i], states[j])
    decreases j - i
  {
    hide *;
    RunLength(p, states, txs);
    if i == j {
      EvolvesItself(states[i]);
    } else {
      StepEvolves(p, states, txs, j - 1);
      RunEvolves(p, states, txs, i, j - 1);
      EvolvesTransitive(states[i], states[j - 1], states[j]);
    }
  }

  // ---- What an entry point leaves alone ----

  /** The calls that may write the commit of provider `pid`. */
  predicate WritesCommit(a: Action, pid: nat) {
    (a.ABegin? || a.AProof? || a.AEscape? || a.AUnbond?) && a.pid == pid
  }

  /**
   * Only a declaration moves the tree and its checkpoint, only a stake adds a provider record, three calls touch
   * challenge records, four touch a commit.
   */
  ghost predicate Framed(s: State, a: Action, s': State) {
    (!a.ADeclare? ==>
      s'.leafCount == s.leafCount && s'.checkpointTime == s.checkpointTime &&
      s'.checkpointLeafCount == s.checkpointLeafCount) &&
    (!a.ADeclare? ==> s'.dataset == s.dataset && s'.peaks == s.peaks && s'.declarationNonce == s.declarationNonce) &&
    (!a.AStake? ==> s'.providers.Keys == s.providers.Keys) &&
    (!(a.AChallenge? || a.ARespond? || a.ATimeout?) ==> s'.challenges == s.challenges) &&
    forall pid :: pid in s.providers && pid in s'.providers && !WritesCommit(a, pid) ==>
      s'.providers[pid].commitPeriodPlusOne == s.providers[pid].commitPeriodPlusOne
  }

  lemma CustodyFrames(p: Params, s: State, now: U64, a: Action)
    requires Stored(s) && (a.ABegin? || a.AProof? || a.AEscape? || a.AUnbond?) && Execute(p, s, now, a).Ok?
    ensures Framed(s, a, Execute(p, s, now, a).value)
  {
    hide Period, RevealsVerify;
  }

  lemma ChallengeFrames(p: Params, s: State, now: U64, a: Action)
    requires Stored(s) && (a.AChallenge? || a.ARespond?) && Execute(p, s, now, a).Ok?
    ensures Framed(s, a, Execute(p, s, now, a).value)
  {
    hide RequiredBond, Verifies;
  }

  lemma SlashFrames(p: Params, s: State, now: U64, a: Action)
    requires Stored(s) && (a.AWithdraw? || a.ALapse?) && Execute(p, s, now, a).Ok?
    ensures Framed(s, a, Execute(p, s, now, a).value)
  {
    hide EligibleAt, Bounty;
  }

  lemma TimeoutFrames(p: Params, s: State, now: U64, id: nat, push: bool)
    requires Stored(s) && ResolveTimeout(p, s, now, id, push).Ok?
    ensures Framed(s, ATimeout(id, push), ResolveTimeout(p, s, now, id, push).value)
  {
    hide ResolveTimeout, Bounty;
    var before := TimeoutShape(p, s, now, id, push);
  }

  lemma OtherFrames(p: Params, s: State, now: U64, a: Action)
    requires Stored(s) && (a.ADeclare? || a.AStake? || a.AClaim? || a.AForce?) && Execute(p, s, now, a).Ok?
    requires s.nextProviderId !in s.providers
    ensures Framed(s, a, Execute(p, s, now, a).value)
  {
    hide Decompose, CarryAll, Rehydrate, Canonical, RootsOf, PeakHeights;
  }

  lemma NextIdIsFree(p: Params, s: State)
    requires Inv(p, s)
    ensures s.nextProviderId !in s.providers
  {
  }

  lemma Frames(p: Params, s: State, now: U64, a: Action)
    requires Inv(p, s) && Stored(s) && Execute(p, s, now, a).Ok?
    ensures Framed(s, a, Execute(p, s, now, a).value)
  {
    hide Inv, Withdraw, InitiateUnbonding, BeginProof, SubmitProof, SubmitProofEscape, Lapse, OpenChallenge, Respond;
    hide ResolveTimeout, Declare, Stake, Claim, Framed;
    NextIdIsFree(p, s);
    if a.ABegin? || a.AProof? || a.AEscape? || a.AUnbond? { CustodyFrames(p, s, now, a); }
    else if a.AChallenge? || a.ARespond? { ChallengeFrames(p, s, now, a); }
    else if a.AWithdraw? || a.ALapse? { SlashFrames(p, s, now, a); }
    else if a.ATimeout? { TimeoutFrames(p, s, now, a.id, a.push); }
    else { OtherFrames(p, s, now, a); }
  }

  // ---- Money ----

  /**
   * At every point of every run the balance is exactly: the stake of each bonded provider, the bond of
   * each open challenge, every parked payout, and the ETH forced in.
   */
  lemma AlwaysSolvent(p: Params, states: seq<State>, txs: seq<Tx>, i: nat)
    requires IsRun(p, states, txs) && i < |states|
    ensures var s := states[i];
      s.balance == p.stakeWei * StakedCount(s.providers, s.nextProviderId)
                   + BondsHeld(s.challenges, s.nextChallengeId) + SumValues(s.claimable) + s.forced
      && s.totalClaimable == SumValues(s.claimable)
    ensures forall pid :: pid in states[i].providers ==>
      states[i].providers[pid].openChallenges == OpenCount(states[i].challenges, states[i].nextChallengeId, pid)
  {
    RunKeeps(p, states, txs, i);
    var s := states[i];
    HeldIsCount(p, s.providers, s.nextProviderId);
    forall pid | pid in s.providers
      ensures s.providers[pid].openChallenges == OpenCount(s.challenges, s.nextChallengeId, pid)
    {
      assert Counted(s, pid);
    }
  }

  predicate HasStake(s: State, pid: nat) {
    pid in s.providers && Staked(s.providers[pid])
  }

  /** How often a provider's stake has been released by the first `n` transactions. */
  ghost function Releases(states: seq<State>, pid: nat, n: nat): nat
    requires n < |states|
  {
    if n == 0 then 0
    else Releases(states, pid, n - 1) + if HasStake(states[n - 1], pid) && !HasStake(states[n], pid) then 1 else 0
  }

  /** Only staking creates a record, and it creates it active. */
  lemma NewRecordIsActive(p: Params, s: State, now: U64, a: Action, pid: nat)
    requires Inv(p, s) && Stored(s) && pid !in s.providers && pid in Transact(p, s, now, a).providers
    ensures a.AStake? && Transact(p, s, now, a).providers[pid].status.Active?
  {
    if a.AStake? {
      hide Withdraw, Lapse, OpenChallenge, Respond, ResolveTimeout;
    } else {
      hide Execute;
      if Execute(p, s, now, a).Ok? { Frames(p, s, now, a); }
    }
  }

  /** A released stake never comes back, and a new record holds one. */
  lemma StakeStep(p: Params, s: State, tx: Tx, s': State, pid: nat)
    requires Inv(p, s) && Step(p, s, tx, s')
    ensures pid in s.providers ==> pid in s'.providers && (Staked(s'.providers[pid]) ==> Staked(s.providers[pid]))
    ensures pid !in s.providers && pid in s'.providers ==> Staked(s'.providers[pid])
  {
    hide Money, Kept, Transact;
    TransactKeeps(p, s, tx.now, tx.action);
    if pid in s.providers {
      assert ProviderEvolves(s.providers[pid], s'.providers[pid]);
    } else if pid in s'.providers {
      NewRecordIsActive(p, s, tx.now, tx.action, pid);
    }
  }

  /** Each stake leaves exactly once: at the transition to EXITED or SLASHED, from which nothing returns. */
  lemma {:induction false} StakeLeavesOnce(p: Params, states: seq<State>, txs: seq<Tx>, pid: nat, i: nat)
    requires IsRun(p, states, txs) && i < |states|
    ensures Releases(states, pid, i) == if pid in states[i].providers && !Staked(states[i].providers[pid]) then 1 else 0
  {
    if i == 0 {
      assert states[0].providers == map[];
    } else {
      hide Inv, Step, IsRun, Initial;
      StakeLeavesOnce(p, states, txs, pid, i - 1);
      RunKeeps(p, states, txs, i - 1);
      StepAt(p, states, txs, i - 1);
      StakeStep(p, states[i - 1], txs[i - 1], states[i], pid);
    }
  }

  /** A provider that has exited stays exited: it can never be slashed. */
  lemma ExitedIsFinal(p: Params, states: seq<State>, txs: seq<Tx>, pid: nat, i: nat, j: nat)
    requires IsRun(p, states, txs) && i <= j < |states|
    requires pid in states[i].providers
    requires states[i].providers[pid].status.Exited? || states[i].providers[pid].status.Slashed?
    ensures pid in states[j].providers && states[j].providers[pid].status == states[i].providers[pid].status
  {
    RunEvolves(p, states, txs, i, j);
    assert ProviderEvolves(states[i].providers[pid], states[j].providers[pid]);
  }

  // ---- Custody history ----

  ghost predicate Succeeds(p: Params, states: seq<State>, txs: seq<Tx>, i: nat)
    requires IsRun(p, states, txs) && i < |txs|
  {
    assert Step(p, states[i], txs[i], states[i + 1]);
    Execute(p, states[i], txs[i].now, txs[i].action).Ok?
  }

  ghost predicate Begins(p: Params, states: seq<State>, txs: seq<Tx>, i: nat, pid: nat)
    requires IsRun(p, states, txs) && i < |txs|
  {
    txs[i].action.ABegin? && txs[i].action.pid == pid && Succeeds(p, states, txs, i)
  }

  ghost predicate Proves(p: Params, states: seq<State>, txs: seq<Tx>, i: nat, pid: nat)
    requires IsRun(p, states, txs) && i < |txs|
  {
    (txs[i].action.AProof? || txs[i].action.AEscape?) && txs[i].action.pid == pid && Succeeds(p, states, txs, i)
  }

  /** The custody period a transaction about a provider falls in. */
  ghost function PeriodOf(p: Params, s: State, now: U64, pid: nat): nat
    requires p.custodyPeriod > 0
  {
    if pid in s.providers && s.providers[pid].anchor <= now then Period(p, s.providers[pid].anchor, now) else 0
  }

  /** Inside a committed period a second commit is refused, and an unbonding ends the obligation. */
  lemma CommitKept(p: Params, s: State, now: U64, a: Action, pid: nat)
    requires Stored(s) && pid in s.providers && (a.ABegin? || a.AUnbond?) && a.pid == pid && Execute(p, s, now, a).Ok?
    requires p.custodyPeriod > 0 && s.providers[pid].anchor <= now
    requires s.providers[pid].commitPeriodPlusOne == Period(p, s.providers[pid].anchor, now) + 1
    ensures pid in Execute(p, s, now, a).value.providers
    ensures !Execute(p, s, now, a).value.providers[pid].status.Active?
  {
    hide Period;
  }

  /** A commit survives every transaction but an accepted proof, an unbonding, or the next period's commit. */
  lemma CommitSurvives(p: Params, s: State, now: U64, a: Action, pid: nat, period: nat)
    requires Inv(p, s) && Stored(s) && p.custodyPeriod > 0
    requires pid in s.providers && pid in Transact(p, s, now, a).providers
    requires s.providers[pid].commitPeriodPlusOne == period + 1
    requires s.providers[pid].anchor <= now && Period(p, s.providers[pid].anchor, now) == period
    requires !((a.AProof? || a.AEscape?) && a.pid == pid && Execute(p, s, now, a).Ok?)
    ensures var pr := Transact(p, s, now, a).providers[pid];
      pr.status.Active? ==> pr.commitPeriodPlusOne == period + 1
  {
    hide Execute, Period, Inv;
    if Execute(p, s, now, a).Ok? {
      Frames(p, s, now, a);
      if (a.ABegin? || a.AUnbond?) && a.pid == pid { CommitKept(p, s, now, a, pid); }
    }
  }

  /** A provider ACTIVE later was ACTIVE before, with the same anchor. */
  lemma StillActive(p: Params, states: seq<State>, txs: seq<Tx>, m: nat, j: nat, pid: nat)
    requires IsRun(p, states, txs) && m <= j < |states| && pid in states[m].providers
    ensures pid in states[j].providers && states[j].providers[pid].anchor == states[m].providers[pid].anchor
    ensures states[j].providers[pid].status.Active? ==> states[m].providers[pid].status.Active?
    ensures states[m].clock <= states[j].clock
  {
    hide Step, IsRun;
    RunEvolves(p, states, txs, m, j);
    assert ProviderEvolves(states[m].providers[pid], states[j].providers[pid]);
  }

  /** What a successful `beginProof` shows about the state it ran in. */
  lemma BeginShows(p: Params, states: seq<State>, txs: seq<Tx>, j: nat, pid: nat)
    requires IsRun(p, states, txs) && j < |txs| && Begins(p, states, txs, j, pid)
    ensures p.custodyPeriod > 0 && pid in states[j].providers && states[j].providers[pid].status.Active?
    ensures states[j].clock <= txs[j].now && states[j].providers[pid].anchor <= txs[j].now
    ensures states[j].providers[pid].commitPeriodPlusOne != PeriodOf(p, states[j], txs[j].now, pid) + 1
    ensures pid in states[j + 1].providers && states[j + 1].providers[pid].anchor == states[j].providers[pid].anchor
    ensures states[j + 1].providers[pid].status.Active?
    ensures states[j + 1].providers[pid].commitPeriodPlusOne == PeriodOf(p, states[j], txs[j].now, pid) + 1
    ensures states[j + 1].clock == txs[j].now
  {
    hide Period;
    assert Step(p, states[j], txs[j], states[j + 1]);
  }

  lemma NotProved(p: Params, states: seq<State>, txs: seq<Tx>, m: nat, pid: nat)
    requires IsRun(p, states, txs) && m < |txs| && Stored(states[m]) && !Proves(p, states, txs, m, pid)
    ensures var a := txs[m].action;
      !((a.AProof? || a.AEscape?) && a.pid == pid && Execute(p, states[m], txs[m].now, a).Ok?)
  {
    hide Execute;
  }

  lemma TransactClock(p: Params, s: State, now: U64, a: Action)
    requires Stored(s)
    ensures Transact(p, s, now, a).clock == now
  {
    hide Execute;
  }

  lemma {:induction false} FindProof(p: Params, states: seq<State>, txs: seq<Tx>, m: nat, j: nat, pid: nat, period: nat)
    returns (k: nat)
    requires IsRun(p, states, txs) && m <= j < |txs| && p.custodyPeriod > 0
    requires Begins(p, states, txs, j, pid) && PeriodOf(p, states[j], txs[j].now, pid) == period
    requires pid in states[m].providers && states[m].providers[pid].commitPeriodPlusOne == period + 1
    requires states[m].providers[pid].anchor <= states[m].clock
    requires Period(p, states[m].providers[pid].anchor, states[m].clock) == period
    ensures m <= k < j && Proves(p, states, txs, k, pid) && PeriodOf(p, states[k], txs[k].now, pid) == period
    decreases j - m
  {
    hide Transact, Period, Begins, Succeeds, Inv;
    BeginShows(p, states, txs, j, pid);
    assert m < j;
    var pr, now := states[m].providers[pid], txs[m].now;
    assert Step(p, states[m], txs[m], states[m + 1]);
    RunKeeps(p, states, txs, m);
    TransactClock(p, states[m], now, txs[m].action);
    StillActive(p, states, txs, m, m + 1, pid);
    StillActive(p, states, txs, m + 1, j, pid);
    PeriodGrows(p, pr.anchor, states[m].clock, now);
    PeriodGrows(p, pr.anchor, now, txs[j].now);
    if Proves(p, states, txs, m, pid) {
      k := m;
    } else {
      NotProved(p, states, txs, m, pid);
      CommitSurvives(p, states[m], now, txs[m].action, pid, period);
      k := FindProof(p, states, txs, m + 1, j, pid, period);
    }
  }

  /**
   * The true form of the binding commit: two successful `beginProof`s of one provider in one period have
   * an accepted proof for that period between them.
   */
  lemma BeginsAreSeparatedByAProof(p: Params, states: seq<State>, txs: seq<Tx>, i: nat, j: nat, pid: nat)
    returns (k: nat)
    requires IsRun(p, states, txs) && i < j < |txs| && p.custodyPeriod > 0
    requires Begins(p, states, txs, i, pid) && Begins(p, states, txs, j, pid)
    requires PeriodOf(p, states[i], txs[i].now, pid) == PeriodOf(p, states[j], txs[j].now, pid)
    ensures i < k < j && Proves(p, states, txs, k, pid)
    ensures PeriodOf(p, states[k], txs[k].now, pid) == PeriodOf(p, states[i], txs[i].now, pid)
  {
    BeginShows(p, states, txs, i, pid);
    k := FindProof(p, states, txs, i + 1, j, pid, PeriodOf(p, states[i], txs[i].now, pid));
  }

  // ---- When a period is committed again ----

  /** A proof or an unbonding leaves no commit. */
  lemma CommitCleared(p: Params, s: State, now: U64, a: Action)
    requires Stored(s) && (a.AProof? || a.AEscape? || a.AUnbond?) && Execute(p, s, now, a).Ok?
    ensures a.pid in s.providers && a.pid in Execute(p, s, now, a).value.providers
    ensures Execute(p, s, now, a).value.providers[a.pid].commitPeriodPlusOne == 0
  {
    hide Period, RevealsVerify;
  }

  /** A void commit stays void through everything but this provider's own commit. */
  lemma VoidSurvives(p: Params, s: State, now: U64, a: Action, pid: nat)
    requires Inv(p, s) && Stored(s) && pid in s.providers && pid in Transact(p, s, now, a).providers
    requires s.providers[pid].commitPeriodPlusOne == 0
    requires !(a.ABegin? && a.pid == pid && Execute(p, s, now, a).Ok?)
    ensures Transact(p, s, now, a).providers[pid].commitPeriodPlusOne == 0
  {
    hide Execute, Inv;
    if Execute(p, s, now, a).Ok? {
      Frames(p, s, now, a);
      if WritesCommit(a, pid) { CommitCleared(p, s, now, a); }
    }
  }

  lemma {:induction false} VoidUntilBegin(p: Params, states: seq<State>, txs: seq<Tx>, m: nat, j: nat, pid: nat)
    requires IsRun(p, states, txs) && m <= j < |states|
    requires pid in states[m].providers && states[m].providers[pid].commitPeriodPlusOne == 0
    requires forall k :: m <= k < j ==> !Begins(p, states, txs, k, pid)
    ensures pid in states[j].providers && states[j].providers[pid].commitPeriodPlusOne == 0
    decreases j - m
  {
    hide Execute, Transact, Inv;
    if m < j {
      VoidUntilBegin(p, states, txs, m, j - 1, pid);
      StillActive(p, states, txs, j - 1, j, pid);
      assert Step(p, states[j - 1], txs[j - 1], states[j - 1 + 1]);
      assert !Begins(p, states, txs, j - 1, pid);
      RunKeeps(p, states, txs, j - 1);
      VoidSurvives(p, states[j - 1], txs[j - 1].now, txs[j - 1].action, pid);
    }
  }

  /** An accepted proof leaves no commit behind. */
  lemma ProofVoids(p: Params, states: seq<State>, txs: seq<Tx>, k: nat, pid: nat)
    requires IsRun(p, states, txs) && k < |txs| && Proves(p, states, txs, k, pid)
    ensures pid in states[k + 1].providers && states[k + 1].providers[pid].commitPeriodPlusOne == 0
  {
    hide Execute;
    assert Step(p, states[k], txs[k], states[k + 1]);
    CommitCleared(p, states[k], txs[k].now, txs[k].action);
  }

  /** A provider without a commit may commit, at any time it is ACTIVE. */
  lemma VoidBegins(p: Params, s: State, now: U64, pid: nat, seed: Hash)
    requires Inv(p, s) && s.clock <= now && p.custodyPeriod > 0
    requires pid in s.providers && s.providers[pid].status.Active? && s.providers[pid].commitPeriodPlusOne == 0
    ensures BeginProof(p, s, now, s.providers[pid].operator, pid, seed).Ok?
  {
    assert ProviderKept(p, s, s.providers[pid]);
  }

  /**
   * After a commit, the operator's next `beginProof` of the same period is accepted exactly when a proof of
   * that period was accepted in between.
   */
  lemma BeginsAgainExactlyAfterAProof(p: Params, states: seq<State>, txs: seq<Tx>, i: nat, j: nat, pid: nat)
    requires IsRun(p, states, txs) && i < j < |txs| && p.custodyPeriod > 0 && Begins(p, states, txs, i, pid)
    requires forall m :: i < m < j ==> !Begins(p, states, txs, m, pid)
    requires pid in states[j].providers && states[j].providers[pid].status.Active?
    requires txs[j].action.ABegin? && txs[j].action.pid == pid
    requires txs[j].action.sender == states[j].providers[pid].operator
    requires PeriodOf(p, states[i], txs[i].now, pid) == PeriodOf(p, states[j], txs[j].now, pid)
    ensures Begins(p, states, txs, j, pid) <==> exists k ::
      i < k < j && Proves(p, states, txs, k, pid) &&
      PeriodOf(p, states[k], txs[k].now, pid) == PeriodOf(p, states[i], txs[i].now, pid)
  {
    hide Inv, PeriodOf, Transact;
    if Begins(p, states, txs, j, pid) {
      var k := BeginsAreSeparatedByAProof(p, states, txs, i, j, pid);
    }
    if k :| i < k < j && Proves(p, states, txs, k, pid) {
      ProofVoids(p, states, txs, k, pid);
      VoidUntilBegin(p, states, txs, k + 1, j, pid);
      RunKeeps(p, states, txs, j);
      assert Step(p, states[j], txs[j], states[j + 1]);
      VoidBegins(p, states[j], txs[j].now, pid, txs[j].action.seed);
    }
  }

  /** Two commits in one period: stake, commit, prove and commit again in the deployment block. */
  lemma TwoCommitsInOnePeriod(p: Params, now: U64, operator: Address, seed: Hash)
    returns (states: seq<State>, txs: seq<Tx>)
    requires p.custodyPeriod > 0 && operator != 0
    ensures IsRun(p, states, txs) && |txs| == 4
    ensures Begins(p, states, txs, 1, 1) && Begins(p, states, txs, 3, 1)
    ensures PeriodOf(p, states[1], txs[1].now, 1) == PeriodOf(p, states[3], txs[3].now, 1)
  {
    hide Declare, InitiateUnbonding, Withdraw, SubmitProofEscape, Lapse, OpenChallenge, Respond, ResolveTimeout, Claim;
    assert PeakHeights(0) == [];
    hide PeakHeights;
    var a0 := AStake(p.stakeWei, operator, operator);
    var begin, prove := ABegin(operator, 1, seed), AProof(operator, 1, true);
    var s0 := Initial(now);
    var s1 := Transact(p, s0, now, a0);
    var s2 := Transact(p, s1, now, begin);
    var s3 := Transact(p, s2, now, prove);
    var s4 := Transact(p, s3, now, begin);
    states, txs := [s0, s1, s2, s3, s4], [Tx(now, a0), Tx(now, begin), Tx(now, prove), Tx(now, begin)];
  }

  /** The last proven period covers every proof accepted so far. */
  lemma {:induction false} ProofsAreRemembered(p: Params, states: seq<State>, txs: seq<Tx>, i: nat, k: nat, pid: nat)
    requires IsRun(p, states, txs) && k < i < |states| && p.custodyPeriod > 0
    requires Proves(p, states, txs, k, pid)
    ensures pid in states[i].providers
    ensures PeriodOf(p, states[k], txs[k].now, pid) < states[i].providers[pid].lastProvenPlusOne
  {
    assert Step(p, states[k], txs[k], states[k + 1]);
    RunEvolves(p, states, txs, k + 1, i);
    assert ProviderEvolves(states[k + 1].providers[pid], states[i].providers[pid]);
  }

  /**
   * A lapse is never premature: when it succeeds there are two consecutive whole periods, `q` and `q + 1`,
   * that completed at least the grace window ago, and no proof was ever accepted for either of them or any
   * later period.
   */
  lemma LapseIsEarned(p: Params, states: seq<State>, txs: seq<Tx>, i: nat, pid: nat) returns (q: nat)
    requires IsRun(p, states, txs) && i < |txs| && p.custodyPeriod > 0
    requires txs[i].action.ALapse? && txs[i].action.pid == pid && Succeeds(p, states, txs, i)
    ensures pid in states[i].providers
    ensures txs[i].now >= states[i].providers[pid].anchor + (q + 2) * p.custodyPeriod + p.lapseGrace
    ensures forall k :: 0 <= k < i && Proves(p, states, txs, k, pid) ==> PeriodOf(p, states[k], txs[k].now, pid) < q
  {
    q := states[i].providers[pid].lastProvenPlusOne;
    forall k | 0 <= k < i && Proves(p, states, txs, k, pid) ensures PeriodOf(p, states[k], txs[k].now, pid) < q {
      ProofsAreRemembered(p, states, txs, i, k, pid);
    }
  }

  /** The derived status and the guards of `lapse` agree at every instant. */
  lemma LapsableExactlyWhenLapseRuns(p: Params, s: State, now: U64, sender: Address, pid: nat, push: bool)
    requires Inv(p, s) && s.clock <= now && p.custodyPeriod > 0 && Bounty(p) <= p.stakeWei
    requires pid in s.providers ==> s.providers[pid].anchor <= now
    ensures CustodyStatusOf(p, s, now, pid).Lapsable? <==> Lapse(p, s, now, sender, pid, push).Ok?
    ensures CustodyStatusOf(p, s, now, pid).LapseEligible? <==>
      pid in s.providers && s.providers[pid].status.Active? &&
      EligibleAt(p, s.providers[pid]) <= now < EligibleAt(p, s.providers[pid]) + p.lapseGrace
  {
    if pid in s.providers && s.providers[pid].status.Active? {
      var pr := s.providers[pid];
      PeriodReached(p, pr.anchor, now, pr.lastProvenPlusOne + 2);
      SlashIsFunded(p, s, 0, pid);
    }
  }

  /** The derived health of an ACTIVE provider, by whole periods since the end of its last proven one. */
  lemma StatusByTime(p: Params, s: State, now: U64, pid: nat)
    requires p.custodyPeriod > 0 && pid in s.providers && s.providers[pid].status.Active?
    requires s.providers[pid].anchor <= now
    ensures var pr, status := s.providers[pid], CustodyStatusOf(p, s, now, pid);
      var provenUntil := pr.anchor + pr.lastProvenPlusOne * p.custodyPeriod;
      && (status.Current? <==> now < provenUntil + p.custodyPeriod)
      && (status.Stale? <==> provenUntil + p.custodyPeriod <= now < provenUntil + 2 * p.custodyPeriod)
      && (status.LapseEligible? <==>
            provenUntil + 2 * p.custodyPeriod <= now < provenUntil + 2 * p.custodyPeriod + p.lapseGrace)
      && (status.Lapsable? <==> now >= provenUntil + 2 * p.custodyPeriod + p.lapseGrace)
  {
    var pr := s.providers[pid];
    var d: nat := p.custodyPeriod;
    PeriodReached(p, pr.anchor, now, pr.lastProvenPlusOne + 1);
    PeriodReached(p, pr.anchor, now, pr.lastProvenPlusOne + 2);
    assert (pr.lastProvenPlusOne + 1) * d == pr.lastProvenPlusOne * d + d;
    assert (pr.lastProvenPlusOne + 2) * d == pr.lastProvenPlusOne * d + 2 * d;
    hide Period;
  }

  // ---- Exit ----

  /** The instant past which an unbonding provider can owe nothing. */
  function LastDue(unbondingAt: nat, unbondingDelay: nat, responseWindow: nat): nat {
    unbondingAt + unbondingDelay + responseWindow
  }

  /** The daemon's retention deadline: the same sum in 64 bits. */
  function RetentionDeadline(unbondingAt: U64, unbondingDelay: U64, responseWindow: U64): U64 {
    Wrap64(unbondingAt + unbondingDelay + responseWindow)
  }

  /** What an exiting provider can be asked for is bounded in content and in time. */
  lemma ExitIsBounded(p: Params, states: seq<State>, txs: seq<Tx>, i: nat, id: nat)
    requires IsRun(p, states, txs) && i < |states| && id in states[i].challenges && !states[i].challenges[id].resolved
    ensures states[i].challenges[id].providerId in states[i].providers
    ensures var c := states[i].challenges[id];
      var pr := states[i].providers[c.providerId];
      pr.status.Unbonding? ==>
        c.pinnedLeafCount <= pr.exitLeafCount &&
        c.openedAt + p.responseWindow <= LastDue(pr.unbondingAt, p.unbondingDelay, p.responseWindow)
    ensures var pr := states[i].providers[states[i].challenges[id].providerId];
      RetentionDeadline(pr.unbondingAt, p.unbondingDelay, p.responseWindow)
        == LastDue(pr.unbondingAt, p.unbondingDelay, p.responseWindow) <==>
      LastDue(pr.unbondingAt, p.unbondingDelay, p.responseWindow) < U64_LIMIT
  {
    RunKeeps(p, states, txs, i);
    assert ChallengeKept(p, states[i], states[i].challenges[id]);
  }

  lemma {:induction false} SomePositive(f: nat -> nat, n: nat) returns (i: nat)
    requires Total(f, n) > 0
    ensures i < n && f(i) > 0
  {
    if f(n - 1) > 0 { i := n - 1; } else { i := SomePositive(f, n - 1); }
  }

  /** A provider with a positive count has a record to count. */
  lemma OpenRecord(p: Params, s: State, pid: nat) returns (id: nat)
    requires Inv(p, s) && pid in s.providers && s.providers[pid].openChallenges > 0
    ensures id in s.challenges && s.challenges[id].providerId == pid && !s.challenges[id].resolved
  {
    assert Counted(s, pid);
    id := SomePositive((i: nat) => OpenOf(s.challenges, pid, i), s.nextChallengeId);
  }

  /** Any open challenge past its own window can be timed out, unless a bounty above the stake reverts the slash. */
  lemma DueIsResolvable(p: Params, s: State, now: U64, id: nat, push: bool)
    requires Inv(p, s) && s.clock <= now && id in s.challenges && !s.challenges[id].resolved
    requires now >= s.challenges[id].openedAt + p.responseWindow
    ensures s.challenges[id].providerId in s.providers
    ensures ResolveTimeout(p, s, now, id, push).Ok? <==>
      s.providers[s.challenges[id].providerId].status.Slashed? || Bounty(p) <= p.stakeWei
  {
    hide StakeHeld, BondsHeld, Bounty, Payout, ChallengeKept, ProviderKept, Counted;
    var c := s.challenges[id];
    OpenIsCounted(p, s, 0, id);
    if !s.providers[c.providerId].status.Slashed? {
      ResolveMove(p, s, 0, id);
      SlashIsFunded(p, Resolve(s, id), c.bond, c.providerId);
    }
  }

  /**
   * Past the retention deadline an unbonding provider is never stuck: the stake can be withdrawn, or there
   * is a challenge left, and any that is left can be timed out, which slashes.
   */
  lemma ExitIsLive(p: Params, s: State, now: U64, pid: nat, push: bool) returns (id: nat)
    requires Inv(p, s) && s.clock <= now && pid in s.providers && s.providers[pid].status.Unbonding?
    requires now >= LastDue(s.providers[pid].unbondingAt, p.unbondingDelay, p.responseWindow)
    ensures s.providers[pid].openChallenges == 0 ==> Withdraw(p, s, now, pid, push).Ok?
    ensures s.providers[pid].openChallenges > 0 ==>
      id in s.challenges && s.challenges[id].providerId == pid && !s.challenges[id].resolved
    ensures forall i :: i in s.challenges && s.challenges[i].providerId == pid && !s.challenges[i].resolved ==>
      (ResolveTimeout(p, s, now, i, push).Ok? <==> Bounty(p) <= p.stakeWei)
  {
    hide ResolveTimeout, Bounty;
    forall i | i in s.challenges && s.challenges[i].providerId == pid && !s.challenges[i].resolved
      ensures ResolveTimeout(p, s, now, i, push).Ok? <==> Bounty(p) <= p.stakeWei
    {
      assert ChallengeKept(p, s, s.challenges[i]);
      DueIsResolvable(p, s, now, i, push);
    }
    id := 0;
    if s.providers[pid].openChallenges > 0 { id := OpenRecord(p, s, pid); }
  }

  // ---- Possession ----

  /** An accepted response reveals the true chunk at every challenged position of the pinned state. */
  lemma ResponseRevealsData(p: Params, s: State, now: U64, sender: Address, id: nat, indices: seq<nat>, n: nat,
                            peaks: seq<Hash>, proofs: seq<ChunkProof>, push: bool)
    requires Inv(p, s) && Respond(p, s, now, sender, id, indices, n, peaks, proofs, push).Ok?
    ensures id in s.challenges && |proofs| == |s.challenges[id].indices| > 0 && n <= |s.dataset|
    ensures forall j :: 0 <= j < |proofs| ==>
      var i := s.challenges[id].indices[j];
      i < n && proofs[j].chunk == s.dataset[i] && proofs[j].path == ProofPath(s.dataset, i, n)
  {
    hide Verifies, ProofPath, PeakList;
    var c := s.challenges[id];
    assert ChallengeKept(p, s, c);
    forall j | 0 <= j < |proofs|
      ensures c.indices[j] < n && proofs[j].chunk == s.dataset[c.indices[j]] &&
        proofs[j].path == ProofPath(s.dataset, c.indices[j], n)
    {
      PinnedProofIsTrue(s.dataset, c.pinnedLeafCount, n, peaks, c.indices[j], proofs[j].chunk, proofs[j].path);
    }
  }

  /** The honest answer is always accepted inside the window, however far the data has grown since. */
  lemma HonestResponseIsAccepted(p: Params, s: State, now: U64, id: nat, proofs: seq<ChunkProof>, push: bool)
    requires Inv(p, s) && s.clock <= now && id in s.challenges && !s.challenges[id].resolved
    requires now < s.challenges[id].openedAt + p.responseWindow
    requires s.challenges[id].providerId in s.providers && !s.providers[s.challenges[id].providerId].status.Slashed?
    requires s.challenges[id].pinnedLeafCount <= |s.dataset| && |proofs| == |s.challenges[id].indices|
    requires forall j :: 0 <= j < |proofs| ==> s.challenges[id].indices[j] < s.challenges[id].pinnedLeafCount
    requires forall j :: 0 <= j < |proofs| ==>
      proofs[j] == ChunkProof(s.dataset[s.challenges[id].indices[j]],
                              ProofPath(s.dataset, s.challenges[id].indices[j], s.challenges[id].pinnedLeafCount))
    ensures var c := s.challenges[id];
      Respond(p, s, now, s.providers[c.providerId].operator, id, c.indices, c.pinnedLeafCount,
              PeakList(s.dataset, 0, c.pinnedLeafCount), proofs, push).Ok?
  {
    hide Verifies, ProofPath, PeakList;
    var c := s.challenges[id];
    assert ChallengeKept(p, s, c);
    OpenIsCounted(p, s, 0, id);
    forall j | 0 <= j < |proofs|
      ensures Verifies(proofs[j].chunk, c.indices[j], proofs[j].path, c.pinnedLeafCount,
                       PeakList(s.dataset, 0, c.pinnedLeafCount))
    {
      VerifiesExactly(s.dataset, c.indices[j], c.pinnedLeafCount, proofs[j].chunk, proofs[j].path);
    }
  }

  /** An accepted escape reveals the true chunk at every contract-drawn position of the committed snapshot. */
  lemma EscapeRevealsData(p: Params, s: State, now: U64, sender: Address, pid: nat, n: nat,
                          peaks: seq<Hash>, samples: seq<ChunkProof>)
    requires Inv(p, s) && SubmitProofEscape(p, s, now, sender, pid, n, peaks, samples).Ok?
    ensures pid in s.providers && n == s.providers[pid].commitLeafCount <= |s.dataset|
    ensures |samples| == if n == 0 then 0 else p.maxSample
    ensures forall j :: 0 <= j < |samples| ==>
      samples[j].chunk == s.dataset[p.draw(s.providers[pid].commitSeed, pid, j) % n]
  {
    hide Verifies, ProofPath, PeakList;
    var pr := s.providers[pid];
    assert ProviderKept(p, s, pr);
    forall j | 0 <= j < |samples| ensures samples[j].chunk == s.dataset[p.draw(pr.commitSeed, pid, j) % n] {
      PinnedProofIsTrue(s.dataset, pr.commitLeafCount, n, peaks, CustodyIndex(p, pr.commitSeed, pid, j, n),
                        samples[j].chunk, samples[j].path);
    }
  }

  // ---- Dormancy ----

  /** The instance's side of the reclaim gate. */
  predicate Dormant(s: State, now: U64, dormancyWindow: U64) {
    now > s.checkpointTime + dormancyWindow
  }

  /** A declaration sets the checkpoint to itself or leaves fewer than the minimum since the last one. */
  lemma CheckpointStep(p: Params, s: State, now: U64, a: Action)
    requires Inv(p, s) && Stored(s) && p.dormancyMinChunks >= 1
    requires s.leafCount - s.checkpointLeafCount < p.dormancyMinChunks
    ensures var s' := Transact(p, s, now, a);
      s'.leafCount - s'.checkpointLeafCount < p.dormancyMinChunks &&
      (s'.checkpointTime != s.checkpointTime || s'.checkpointLeafCount != s.checkpointLeafCount ==>
        s'.checkpointTime == now)
  {
    if a.ADeclare? {
      hide Decompose, CarryAll, Rehydrate, Canonical, RootsOf, PeakHeights, Stake, InitiateUnbonding, Withdraw;
      hide BeginProof, SubmitProof, SubmitProofEscape, Lapse, OpenChallenge, Respond, ResolveTimeout, Claim;
    } else {
      hide Execute;
      if Execute(p, s, now, a).Ok? { Frames(p, s, now, a); }
    }
  }

  lemma QuietStep(p: Params, s: State, tx: Tx, s': State)
    requires Inv(p, s) && Step(p, s, tx, s') && p.dormancyMinChunks >= 1
    requires s.leafCount - s.checkpointLeafCount < p.dormancyMinChunks
    ensures s'.leafCount - s'.checkpointLeafCount < p.dormancyMinChunks && s.leafCount <= s'.leafCount
    ensures (s'.checkpointTime == s.checkpointTime && s'.checkpointLeafCount == s.checkpointLeafCount)
         || s'.checkpointTime == s'.clock
    ensures s.checkpointLeafCount <= s.leafCount && s.clock <= s'.clock
  {
    hide Money, ProviderKept, ChallengeKept, Execute;
    CheckpointStep(p, s, tx.now, tx.action);
    TransactKeeps(p, s, tx.now, tx.action);
  }

  lemma {:induction false} CheckpointBounds(p: Params, states: seq<State>, txs: seq<Tx>, i: nat, j: nat)
    requires IsRun(p, states, txs) && i <= j < |states| && p.dormancyMinChunks >= 1
    ensures states[j].leafCount - states[j].checkpointLeafCount < p.dormancyMinChunks
    ensures states[i].clock <= states[j].clock
    ensures states[i].clock > states[j].checkpointTime ==> states[i].leafCount >= states[j].checkpointLeafCount
    decreases j
  {
    hide Inv, Step;
    if j > 0 {
      RunKeeps(p, states, txs, j - 1);
      assert Step(p, states[j - 1], txs[j - 1], states[j - 1 + 1]);
      CheckpointBounds(p, states, txs, if i < j then i else j - 1, j - 1);
      QuietStep(p, states[j - 1], txs[j - 1], states[j]);
    }
  }

  lemma CheckpointPast(p: Params, s: State)
    requires Inv(p, s)
    ensures s.checkpointLeafCount <= s.leafCount
  {
  }

  /** What the checkpoint does not cover was there before `i`, or a transaction since `i` set the checkpoint. */
  lemma {:induction false} CheckpointOrigin(p: Params, states: seq<State>, txs: seq<Tx>, i: nat, j: nat)
    requires IsRun(p, states, txs) && i <= j < |states| && p.dormancyMinChunks >= 1
    ensures states[i].leafCount >= states[j].checkpointLeafCount
         || exists t :: i <= t < j && states[j].checkpointTime == txs[t].now
    decreases j
  {
    hide Inv, Transact;
    CheckpointBounds(p, states, txs, j, j);
    if i == j {
      RunKeeps(p, states, txs, j);
      CheckpointPast(p, states[j]);
    } else {
      RunKeeps(p, states, txs, j - 1);
      assert Step(p, states[j - 1], txs[j - 1], states[j - 1 + 1]);
      CheckpointBounds(p, states, txs, j - 1, j - 1);
      QuietStep(p, states[j - 1], txs[j - 1], states[j]);
      TransactClock(p, states[j - 1], txs[j - 1].now, txs[j - 1].action);
      CheckpointOrigin(p, states, txs, i, j - 1);
    }
  }

  /**
   * The reclaim gate opens only after a quiet window: whenever it is open, the transactions of the last
   * window, the first of them included, have appended fewer than the minimum number of chunks.
   */
  lemma GateOpensOnlyWhenQuiet(p: Params, states: seq<State>, txs: seq<Tx>, i: nat, j: nat,
                               now: U64, dormancyWindow: U64)
    requires IsRun(p, states, txs) && i <= j < |states| && p.dormancyMinChunks >= 1
    requires Dormant(states[j], now, dormancyWindow)
    requires forall t :: i <= t < j ==> txs[t].now + dormancyWindow >= now
    ensures states[j].leafCount - states[i].leafCount < p.dormancyMinChunks
  {
    hide Inv, Step;
    CheckpointBounds(p, states, txs, i, j);
    CheckpointOrigin(p, states, txs, i, j);
  }

  /** With a minimum of zero the claim fails at once: the gate opens with zero chunks appended, and 0 < 0 is false. */
  lemma QuietNeedsAPositiveMinimum(p: Params, deployed: U64, dormancyWindow: U64)
    requires p.dormancyMinChunks == 0 && deployed + dormancyWindow + 1 < U64_LIMIT
    ensures IsRun(p, [Initial(deployed)], [])
    ensures Dormant(Initial(deployed), deployed + dormancyWindow + 1, dormancyWindow)
    ensures !(Initial(deployed).leafCount - Initial(deployed).leafCount < p.dormancyMinChunks)
  {
  }
}
