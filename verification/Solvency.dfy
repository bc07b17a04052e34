/**
 * Conservation of ETH in the instance: over every transaction, with pushes succeeding or failing at will,
 * the balance is exactly the stakes of bonded providers, the bonds of open challenges, the parked payouts
 * and whatever was forced in; and every provider's counter is the number of its open challenges.
 */
module Solvency {
  import opened Data
  import opened Bits
  import opened Sums
  import opened PayoutSink
  import opened InstanceSpec

  predicate Staked(pr: Provider) {
    pr.status.Active? || pr.status.Unbonding?
  }

  function StakeOf(p: Params, ps: map<nat, Provider>, i: nat): nat {
    if i in ps && Staked(ps[i]) then p.stakeWei else 0
  }

  function BondOf(cs: map<nat, Challenge>, i: nat): nat {
    if i in cs && !cs[i].resolved then cs[i].bond else 0
  }

  function OpenOf(cs: map<nat, Challenge>, pid: nat, i: nat): nat {
    if i in cs && !cs[i].resolved && cs[i].providerId == pid then 1 else 0
  }

  /** ETH held as stake. */
  function StakeHeld(p: Params, ps: map<nat, Provider>, n: nat): nat {
    Total((i: nat) => StakeOf(p, ps, i), n)
  }

  /** ETH held as bonds of open challenges. */
  function BondsHeld(cs: map<nat, Challenge>, n: nat): nat {
    Total((i: nat) => BondOf(cs, i), n)
  }

  /** Open challenges against one provider. */
  function OpenCount(cs: map<nat, Challenge>, n: nat, pid: nat): nat {
    Total((i: nat) => OpenOf(cs, pid, i), n)
  }

  /** Bonded providers. */
  function StakedCount(ps: map<nat, Provider>, n: nat): nat {
    Total((i: nat) => if i in ps && Staked(ps[i]) then 1 else 0, n)
  }

  ghost predicate Counted(s: State, pid: nat)
    requires pid in s.providers
  {
    s.providers[pid].openChallenges == OpenCount(s.challenges, s.nextChallengeId, pid)
    && (s.providers[pid].status.Exited? ==> s.providers[pid].openChallenges == 0)
  }

  ghost predicate Numbered(s: State) {
    (forall pid :: pid in s.providers ==> pid < s.nextProviderId) &&
    (forall id :: id in s.challenges ==> id < s.nextChallengeId && s.challenges[id].providerId in s.providers)
  }

  /** The books balance, with `due` still to be paid out by the transaction in progress. */
  ghost predicate Money(p: Params, s: State, due: nat) {
    Numbered(s) && (forall pid :: pid in s.providers ==> Counted(s, pid)) &&
    s.totalClaimable == SumValues(s.claimable) &&
    s.balance == StakeHeld(p, s.providers, s.nextProviderId) + BondsHeld(s.challenges, s.nextChallengeId)
                 + s.totalClaimable + s.forced + due
  }

  // ---- The elementary moves ----

  /** Replacing a provider record releases the stake it no longer holds. */
  lemma StatusMove(p: Params, s: State, due: nat, pid: nat, pr: Provider)
    requires Money(p, s, due) && pid in s.providers
    requires pr.openChallenges == s.providers[pid].openChallenges
    requires pr.status.Exited? ==> pr.openChallenges == 0
    requires Staked(pr) ==> Staked(s.providers[pid])
    ensures Money(p, SetProvider(s, pid, pr),
                  due + StakeOf(p, s.providers, pid) - if Staked(pr) then p.stakeWei else 0)
  {
    var s' := SetProvider(s, pid, pr);
    var f, g := (i: nat) => StakeOf(p, s.providers, i), (i: nat) => StakeOf(p, s'.providers, i);
    TotalChange(f, g, s.nextProviderId, pid);
    forall q | q in s'.providers ensures Counted(s', q) {
      if q != pid { assert Counted(s, q); } else { assert Counted(s, pid); }
    }
  }

  /** Replacing a record that keeps its stake and its count moves no money. */
  lemma RecordMove(p: Params, s: State, due: nat, pid: nat, pr: Provider)
    requires Money(p, s, due) && pid in s.providers
    requires pr.openChallenges == s.providers[pid].openChallenges && Staked(pr) && Staked(s.providers[pid])
    ensures Money(p, SetProvider(s, pid, pr), due)
  {
    StatusMove(p, s, due, pid, pr);
  }

  lemma PayoutMove(p: Params, s: State, due: nat, to: Address, amount: nat, push: bool)
    requires Money(p, s, due) && amount <= due
    ensures Money(p, Payout(s, to, amount, push), due - amount)
  {
    var s' := Payout(s, to, amount, push);
    PushSpends(SinkOf(s), to, amount, push);
    forall q | q in s'.providers ensures Counted(s', q) { assert Counted(s, q); }
  }

  lemma {:induction false} TotalZero(n: nat)
    ensures Total((i: nat) => 0, n) == 0
  {
    if n > 0 { TotalZero(n - 1); }
  }

  lemma StakeAdded(p: Params, ps: map<nat, Provider>, n: nat, pr: Provider)
    requires (forall pid :: pid in ps ==> pid < n) && Staked(pr)
    ensures StakeHeld(p, ps[n := pr], n + 1) == StakeHeld(p, ps, n) + p.stakeWei
  {
    TotalSame((i: nat) => StakeOf(p, ps, i), (i: nat) => StakeOf(p, ps[n := pr], i), n);
  }

  /** Nothing is open against an id not yet given out. */
  lemma NoneAgainst(s: State)
    requires Numbered(s)
    ensures OpenCount(s.challenges, s.nextChallengeId, s.nextProviderId) == 0
  {
    var none := (i: nat) => 0;
    TotalSame((i: nat) => OpenOf(s.challenges, s.nextProviderId, i), none, s.nextChallengeId);
    TotalZero(s.nextChallengeId);
  }

  lemma NewProviderMove(p: Params, s: State, pr: Provider)
    requires Money(p, s, 0) && pr.status.Active? && pr.openChallenges == 0
    ensures Money(p, SetProvider(s, s.nextProviderId, pr).(
                       nextProviderId := s.nextProviderId + 1, balance := s.balance + p.stakeWei), 0)
  {
    hide StakeHeld, BondsHeld, OpenCount, SumValues;
    var pid := s.nextProviderId;
    var s' := SetProvider(s, pid, pr).(nextProviderId := pid + 1, balance := s.balance + p.stakeWei);
    StakeAdded(p, s.providers, pid, pr);
    NoneAgainst(s);
    forall q | q in s'.providers ensures Counted(s', q) { if q != pid { assert Counted(s, q); } }
  }

  /** The state with one more record, counted and paid for. */
  function Recorded(s: State, c: Challenge): State
    requires c.providerId in s.providers
  {
    var pr := s.providers[c.providerId];
    SetProvider(s, c.providerId, pr.(openChallenges := pr.openChallenges + 1)).(
      nextChallengeId := s.nextChallengeId + 1, challenges := s.challenges[s.nextChallengeId := c],
      balance := s.balance + c.bond)
  }

  lemma RecordedCounts(s: State, c: Challenge, q: nat)
    requires Numbered(s) && c.providerId in s.providers && !c.resolved && !s.providers[c.providerId].status.Exited?
    requires q in s.providers && Counted(s, q)
    ensures q in Recorded(s, c).providers && Counted(Recorded(s, c), q)
  {
    var s' := Recorded(s, c);
    TotalSame((i: nat) => OpenOf(s.challenges, q, i), (i: nat) => OpenOf(s'.challenges, q, i), s.nextChallengeId);
  }

  lemma NewChallengeMove(p: Params, s: State, c: Challenge)
    requires Money(p, s, 0) && c.providerId in s.providers && !c.resolved
    requires !s.providers[c.providerId].status.Exited?
    ensures Money(p, Recorded(s, c), 0)
  {
    hide OpenCount;
    var s' := Recorded(s, c);
    TotalSame((i: nat) => BondOf(s.challenges, i), (i: nat) => BondOf(s'.challenges, i), s.nextChallengeId);
    TotalSame((i: nat) => StakeOf(p, s.providers, i), (i: nat) => StakeOf(p, s'.providers, i), s.nextProviderId);
    forall q | q in s'.providers ensures Counted(s', q) { RecordedCounts(s, c, q); }
  }

  /** An open challenge is counted, so its provider exists, has a positive count and has not exited. */
  lemma OpenIsCounted(p: Params, s: State, due: nat, id: nat)
    requires Money(p, s, due) && id in s.challenges && !s.challenges[id].resolved
    ensures s.challenges[id].providerId in s.providers
    ensures s.providers[s.challenges[id].providerId].openChallenges > 0
    ensures !s.providers[s.challenges[id].providerId].status.Exited?
  {
    var pid := s.challenges[id].providerId;
    assert Counted(s, pid);
    TotalAtLeast((i: nat) => OpenOf(s.challenges, pid, i), s.nextChallengeId, id);
  }

  lemma ResolveMove(p: Params, s: State, due: nat, id: nat)
    requires Money(p, s, due) && id in s.challenges && !s.challenges[id].resolved
    requires s.challenges[id].providerId in s.providers
    requires s.providers[s.challenges[id].providerId].openChallenges > 0
    ensures Money(p, Resolve(s, id), due + s.challenges[id].bond)
  {
    var s' := Resolve(s, id);
    OpenIsCounted(p, s, due, id);
    TotalChange((i: nat) => BondOf(s.challenges, i), (i: nat) => BondOf(s'.challenges, i), s.nextChallengeId, id);
    TotalSame((i: nat) => StakeOf(p, s.providers, i), (i: nat) => StakeOf(p, s'.providers, i), s.nextProviderId);
    forall q | q in s'.providers ensures Counted(s', q) {
      assert Counted(s, q);
      TotalChange((i: nat) => OpenOf(s.challenges, q, i), (i: nat) => OpenOf(s'.challenges, q, i),
                  s.nextChallengeId, id);
    }
  }

  /** Slashing releases the stake, sends the remainder to the paymaster and leaves the bounty due. */
  lemma SlashMove(p: Params, s: State, due: nat, pid: nat)
    requires Money(p, s, due) && pid in s.providers && Staked(s.providers[pid])
    requires SlashProvider(p, s, pid).Ok?
    ensures Money(p, SlashProvider(p, s, pid).value, due + Bounty(p))
  {
    var slashed := SetProvider(s, pid, s.providers[pid].(status := Slashed));
    StatusMove(p, s, due, pid, s.providers[pid].(status := Slashed));
    var s' := SlashProvider(p, s, pid).value;
    forall q | q in s'.providers ensures Counted(s', q) { assert Counted(slashed, q); }
  }

  /** States with the same records and ledger balance together. */
  lemma SameBooks(p: Params, s: State, s': State, due: nat)
    requires Money(p, s, due)
    requires s'.providers == s.providers && s'.nextProviderId == s.nextProviderId
    requires s'.challenges == s.challenges && s'.nextChallengeId == s.nextChallengeId
    requires s'.claimable == s.claimable && s'.totalClaimable == s.totalClaimable
    requires s'.balance + s.forced == s.balance + s'.forced
    ensures Money(p, s', due)
  {
    forall q | q in s'.providers ensures Counted(s', q) { assert Counted(s, q); }
  }

  // ---- Every transaction ----

  lemma WithdrawBalances(p: Params, s: State, now: U64, pid: nat, push: bool)
    requires Money(p, s, 0) && Withdraw(p, s, now, pid, push).Ok?
    ensures Money(p, Withdraw(p, s, now, pid, push).value, 0)
  {
    var pr := s.providers[pid];
    StatusMove(p, s, 0, pid, pr.(status := Exited));
    PayoutMove(p, SetProvider(s, pid, pr.(status := Exited)), p.stakeWei, pr.withdrawal, p.stakeWei, push);
  }

  lemma LapseBalances(p: Params, s: State, now: U64, sender: Address, pid: nat, push: bool)
    requires Money(p, s, 0) && Lapse(p, s, now, sender, pid, push).Ok?
    ensures Money(p, Lapse(p, s, now, sender, pid, push).value, 0)
  {
    SlashMove(p, s, 0, pid);
    PayoutMove(p, SlashProvider(p, s, pid).value, Bounty(p), sender, Bounty(p), push);
  }

  lemma RespondBalances(p: Params, s: State, now: U64, sender: Address, id: nat, indices: seq<nat>, n: nat,
                        peaks: seq<Hash>, proofs: seq<ChunkProof>, push: bool)
    requires Money(p, s, 0) && Respond(p, s, now, sender, id, indices, n, peaks, proofs, push).Ok?
    ensures Money(p, Respond(p, s, now, sender, id, indices, n, peaks, proofs, push).value, 0)
  {
    var c := s.challenges[id];
    ResolveMove(p, s, 0, id);
    PayoutMove(p, Resolve(s, id), c.bond, s.providers[c.providerId].operator, c.bond, push);
  }

  /** A timeout against a provider already slashed only refunds the bond. */
  lemma RefundBalances(p: Params, s: State, now: U64, id: nat, push: bool)
    requires Money(p, s, 0) && ResolveTimeout(p, s, now, id, push).Ok?
    requires s.providers[s.challenges[id].providerId].status.Slashed?
    ensures Money(p, ResolveTimeout(p, s, now, id, push).value, 0)
  {
    var c := s.challenges[id];
    ResolveMove(p, s, 0, id);
    PayoutMove(p, Resolve(s, id), c.bond, c.challenger, c.bond, push);
  }

  /** The first timeout slashes, pays the bounty and refunds the bond. */
  lemma TimeoutBalances(p: Params, s: State, now: U64, id: nat, push: bool)
    requires Money(p, s, 0) && ResolveTimeout(p, s, now, id, push).Ok?
    requires !s.providers[s.challenges[id].providerId].status.Slashed?
    ensures Money(p, ResolveTimeout(p, s, now, id, push).value, 0)
  {
    hide Money, Payout, Bounty;
    var c := s.challenges[id];
    var closed := Resolve(s, id);
    OpenIsCounted(p, s, 0, id);
    ResolveMove(p, s, 0, id);
    SlashMove(p, closed, c.bond, c.providerId);
    var slashed := SlashProvider(p, closed, c.providerId).value;
    PayoutMove(p, slashed, Bounty(p) + c.bond, c.challenger, Bounty(p) + c.bond, push);
  }

  lemma ClaimBalances(p: Params, s: State, sender: Address, push: bool)
    requires Money(p, s, 0) && Claim(s, sender, push).Ok?
    ensures Money(p, Claim(s, sender, push).value, 0)
  {
    var s' := Claim(s, sender, push).value;
    PullKeeps(SinkOf(s), sender, push);
    forall q | q in s'.providers ensures Counted(s', q) { assert Counted(s, q); }
  }

  lemma CustodyBalances(p: Params, s: State, now: U64, a: Action)
    requires Stored(s) && Money(p, s, 0) && Execute(p, s, now, a).Ok?
    requires a.AUnbond? || a.ABegin? || a.AProof? || a.AEscape?
    ensures Money(p, Execute(p, s, now, a).value, 0)
  {
    RecordMove(p, s, 0, a.pid, Execute(p, s, now, a).value.providers[a.pid]);
  }

  lemma StakeBalances(p: Params, s: State, now: U64, value: nat, operator: Address, withdrawal: Address)
    requires Money(p, s, 0) && Stake(p, s, now, value, operator, withdrawal).Ok?
    ensures Money(p, Stake(p, s, now, value, operator, withdrawal).value, 0)
  {
    NewProviderMove(p, s, Stake(p, s, now, value, operator, withdrawal).value.providers[s.nextProviderId]);
  }

  lemma ChallengeBalances(p: Params, s: State, now: U64, sender: Address, value: nat, basefee: nat,
                          pid: nat, indices: seq<nat>)
    requires Money(p, s, 0) && OpenChallenge(p, s, now, sender, value, basefee, pid, indices).Ok?
    ensures Money(p, OpenChallenge(p, s, now, sender, value, basefee, pid, indices).value, 0)
  {
    hide Money, RequiredBond;
    var pr := s.providers[pid];
    assert !pr.status.Exited?;
    var pin := Pin(p, s, now, pr).value;
    NewChallengeMove(p, s, Challenge(pid, sender, value, now, pin.0, pin.1, indices, false));
  }

  /** The books balance after every successful entry point. */
  lemma EntryPointsBalance(p: Params, s: State, now: U64, a: Action)
    requires Stored(s) && Money(p, s, 0) && Execute(p, s, now, a).Ok?
    ensures Money(p, Execute(p, s, now, a).value, 0)
  {
    match a
    case AWithdraw(pid, push) => WithdrawBalances(p, s, now, pid, push);
    case ALapse(sender, pid, push) => LapseBalances(p, s, now, sender, pid, push);
    case ARespond(sender, id, indices, n, peaks, proofs, push) =>
      RespondBalances(p, s, now, sender, id, indices, n, peaks, proofs, push);
    case ATimeout(id, push) =>
      if s.providers[s.challenges[id].providerId].status.Slashed? { RefundBalances(p, s, now, id, push); }
      else { TimeoutBalances(p, s, now, id, push); }
    case AClaim(sender, push) => ClaimBalances(p, s, sender, push);
    case AStake(value, operator, withdrawal) => StakeBalances(p, s, now, value, operator, withdrawal);
    case AChallenge(sender, value, basefee, pid, indices) =>
      ChallengeBalances(p, s, now, sender, value, basefee, pid, indices);
    case ADeclare(_, _) => SameBooks(p, s, Execute(p, s, now, a).value, 0);
    case AForce(_) => SameBooks(p, s, Execute(p, s, now, a).value, 0);
    case AUnbond(_, _) => CustodyBalances(p, s, now, a);
    case ABegin(_, _, _) => CustodyBalances(p, s, now, a);
    case AProof(_, _, _) => CustodyBalances(p, s, now, a);
    case AEscape(_, _, _, _, _) => CustodyBalances(p, s, now, a);
  }

  /** The books balance after every transaction, successful or reverted. */
  lemma TransactBalances(p: Params, s: State, now: U64, a: Action)
    requires Stored(s) && Money(p, s, 0)
    ensures Money(p, Transact(p, s, now, a), 0)
  {
    if Execute(p, s, now, a).Ok? {
      EntryPointsBalance(p, s, now, a);
      SameBooks(p, Execute(p, s, now, a).value, Transact(p, s, now, a), 0);
    } else {
      SameBooks(p, s, Transact(p, s, now, a), 0);
    }
  }

  lemma InitialBalances(p: Params, now: U64)
    ensures Money(p, Initial(now), 0)
  {
  }

  /** Held stake is the stake amount times the number of bonded providers. */
  lemma {:induction false} HeldIsCount(p: Params, ps: map<nat, Provider>, n: nat)
    ensures StakeHeld(p, ps, n) == p.stakeWei * StakedCount(ps, n)
  {
    if n > 0 {
      HeldIsCount(p, ps, n - 1);
      var k := StakedCount(ps, n - 1);
      assert p.stakeWei * (k + 1) == p.stakeWei * k + p.stakeWei;
    }
  }

  /** No payout the contract owes ever fails for want of funds. */
  lemma SlashIsFunded(p: Params, s: State, due: nat, pid: nat)
    requires Money(p, s, due) && pid in s.providers && Staked(s.providers[pid])
    ensures SlashProvider(p, s, pid).Ok? <==> Bounty(p) <= p.stakeWei
  {
    TotalAtLeast((i: nat) => StakeOf(p, s.providers, i), s.nextProviderId, pid);
  }
}
