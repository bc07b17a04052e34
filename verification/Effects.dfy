/**
 * What each entry point of the instance does, seen from outside: exactly when a call is accepted, who ends up
 * with how much, and what happens to which record. Pins are stated as the published chunks they stand for.
 */
module Effects {
  import opened Data
  import opened Bits
  import opened Decomposition
  import opened Forest
  import opened Inclusion
  import opened Packing
  import opened Sums
  import opened PayoutSink
  import opened InstanceSpec
  import opened Solvency
  import opened Lifecycle

  // ---- Who gets paid ----

  /** Everything an address has been sent or can claim. */
  function Wealth(s: State, who: Address): nat {
    Entry(s.received, who) + Entry(s.claimable, who)
  }

  function If(condition: bool, amount: nat): nat {
    if condition then amount else 0
  }

  /** What a successful call owes to an address. */
  function Owed(p: Params, s: State, a: Action, who: Address): int {
    var bounty := p.stakeWei * p.bountyBps / 10_000;
    match a
    case AWithdraw(pid, _) => If(pid in s.providers && s.providers[pid].withdrawal == who, p.stakeWei)
    case ALapse(sender, _, _) =>
      If(who == sender, bounty) + if who == p.paymaster then p.stakeWei - bounty else 0
    case ARespond(sender, id, _, _, _, _, _) =>
      if id !in s.challenges || s.challenges[id].providerId !in s.providers then 0
      else If(who == s.providers[s.challenges[id].providerId].operator, s.challenges[id].bond)
    case ATimeout(id, _) =>
      if id !in s.challenges || s.challenges[id].providerId !in s.providers then 0
      else
        var c := s.challenges[id];
        var first := !s.providers[c.providerId].status.Slashed?;
        If(who == c.challenger, c.bond + If(first, bounty)) +
        if first && who == p.paymaster then p.stakeWei - bounty else 0
    case _ => 0
  }

  lemma PushCredits(k: Sink, to: Address, amount: nat, push: bool, who: Address)
    ensures var k' := Push(k, to, amount, push);
      Entry(k'.received, who) + Entry(k'.claimable, who)
        == Entry(k.received, who) + Entry(k.claimable, who) + If(who == to, amount)
  {
  }

  /** A payout credits its recipient and nobody else; it is sent when the recipient takes it, parked otherwise. */
  lemma PayoutCredits(s: State, to: Address, amount: nat, push: bool, who: Address)
    ensures Wealth(Payout(s, to, amount, push), who) == Wealth(s, who) + If(who == to, amount)
    ensures var s' := Payout(s, to, amount, push);
      if push && amount <= s.balance then s'.claimable == s.claimable && s'.balance == s.balance - amount
      else s'.received == s.received && s'.balance == s.balance
  {
  }

  lemma SlashCredits(p: Params, s: State, pid: nat, who: Address)
    requires pid in s.providers && SlashProvider(p, s, pid).Ok?
    ensures var bounty := p.stakeWei * p.bountyBps / 10_000;
      Wealth(SlashProvider(p, s, pid).value, who)
        == Wealth(s, who) + if who == p.paymaster then p.stakeWei - bounty else 0
  {
  }

  lemma ResolveCredits(s: State, id: nat, who: Address)
    requires id in s.challenges && s.challenges[id].providerId in s.providers
    requires s.providers[s.challenges[id].providerId].openChallenges > 0
    ensures Wealth(Resolve(s, id), who) == Wealth(s, who)
  {
  }

  lemma TimeoutCredits(p: Params, s: State, now: U64, id: nat, push: bool, who: Address)
    requires ResolveTimeout(p, s, now, id, push).Ok?
    ensures Wealth(ResolveTimeout(p, s, now, id, push).value, who)
      == Wealth(s, who) + Owed(p, s, ATimeout(id, push), who)
  {
    hide Payout, SlashProvider, Wealth;
    var c := s.challenges[id];
    var closed := Resolve(s, id);
    assert Wealth(closed, who) == Wealth(s, who) by { ResolveCredits(s, id, who); }
    if s.providers[c.providerId].status.Slashed? {
      PayoutCredits(closed, c.challenger, c.bond, push, who);
    } else {
      SlashCredits(p, closed, c.providerId, who);
      PayoutCredits(SlashProvider(p, closed, c.providerId).value, c.challenger, Bounty(p) + c.bond, push, who);
    }
  }

  lemma SameWealth(s: State, s': State, who: Address)
    requires s'.received == s.received && s'.claimable == s.claimable
    ensures Wealth(s', who) == Wealth(s, who)
  {
  }

  lemma WithdrawCredits(p: Params, s: State, now: U64, pid: nat, push: bool, who: Address)
    requires Withdraw(p, s, now, pid, push).Ok?
    ensures Wealth(Withdraw(p, s, now, pid, push).value, who) == Wealth(s, who) + Owed(p, s, AWithdraw(pid, push), who)
  {
    hide Wealth, Payout;
    var pr := s.providers[pid];
    SameWealth(s, SetProvider(s, pid, pr.(status := Exited)), who);
    PayoutCredits(SetProvider(s, pid, pr.(status := Exited)), pr.withdrawal, p.stakeWei, push, who);
  }

  lemma LapseCredits(p: Params, s: State, now: U64, sender: Address, pid: nat, push: bool, who: Address)
    requires Lapse(p, s, now, sender, pid, push).Ok?
    ensures Wealth(Lapse(p, s, now, sender, pid, push).value, who)
      == Wealth(s, who) + Owed(p, s, ALapse(sender, pid, push), who)
  {
    hide Wealth, Payout, SlashProvider;
    SlashCredits(p, s, pid, who);
    PayoutCredits(SlashProvider(p, s, pid).value, sender, Bounty(p), push, who);
  }

  lemma RespondCredits(p: Params, s: State, now: U64, sender: Address, id: nat, indices: seq<nat>, n: nat,
                       peaks: seq<Hash>, proofs: seq<ChunkProof>, push: bool, who: Address)
    requires Respond(p, s, now, sender, id, indices, n, peaks, proofs, push).Ok?
    ensures Wealth(Respond(p, s, now, sender, id, indices, n, peaks, proofs, push).value, who)
      == Wealth(s, who) + Owed(p, s, ARespond(sender, id, indices, n, peaks, proofs, push), who)
  {
    hide Wealth, Payout, ProofsVerify;
    var c := s.challenges[id];
    ResolveCredits(s, id, who);
    PayoutCredits(Resolve(s, id), s.providers[c.providerId].operator, c.bond, push, who);
  }

  lemma OthersCreditNothing(p: Params, s: State, now: U64, a: Action)
    requires Stored(s) && Execute(p, s, now, a).Ok?
    requires !(a.AWithdraw? || a.ALapse? || a.ARespond? || a.ATimeout? || a.AClaim?)
    ensures var s' := Execute(p, s, now, a).value; s'.received == s.received && s'.claimable == s.claimable
  {
    hide Verifies, RequiredBond, Decompose, CarryAll, Rehydrate, Canonical, RootsOf, PackedUnder;
  }

  /**
   * Every successful call gives each address exactly what it is owed: a stake goes back to the withdrawal
   * address, a bounty and the rest of a slashed stake to the caller or challenger and the paymaster, an answered
   * bond to the operator, an unanswered one to the challenger. A claim moves what was already owed.
   */
  lemma PaysExactly(p: Params, s: State, now: U64, a: Action, who: Address)
    requires Stored(s) && Execute(p, s, now, a).Ok?
    ensures Wealth(Execute(p, s, now, a).value, who) == Wealth(s, who) + Owed(p, s, a, who)
  {
    if !a.AClaim? {
      hide Withdraw, Lapse, Respond, ResolveTimeout, Wealth, Declare, Stake, InitiateUnbonding, BeginProof, SubmitProof;
      hide SubmitProofEscape, OpenChallenge;
      if a.AWithdraw? {
        WithdrawCredits(p, s, now, a.pid, a.push, who);
      } else if a.ALapse? {
        LapseCredits(p, s, now, a.sender, a.pid, a.push, who);
      } else if a.ARespond? {
        RespondCredits(p, s, now, a.sender, a.id, a.indices, a.n, a.peaks, a.proofs, a.push, who);
      } else if a.ATimeout? {
        TimeoutCredits(p, s, now, a.id, a.push, who);
      } else {
        OthersCreditNothing(p, s, now, a);
        SameWealth(s, Execute(p, s, now, a).value, who);
      }
    }
  }

  /** Whether the recipient of a call takes what it is sent. */
  predicate Takes(a: Action) {
    match a
    case AWithdraw(_, push) => push
    case ALapse(_, _, push) => push
    case ARespond(_, _, _, _, _, _, push) => push
    case ATimeout(_, push) => push
    case AClaim(_, push) => push
    case _ => true
  }

  /** A payout that is due is funded: taken, it is sent; refused, it is parked. */
  lemma PayoutIsFunded(p: Params, s: State, due: nat, to: Address, amount: nat, push: bool)
    requires Money(p, s, due) && amount <= due
    ensures var s' := Payout(s, to, amount, push);
      if push then s'.claimable == s.claimable else s'.received == s.received
  {
  }

  lemma WithdrawSends(p: Params, s: State, now: U64, pid: nat, push: bool)
    requires Money(p, s, 0) && Withdraw(p, s, now, pid, push).Ok?
    ensures var s' := Withdraw(p, s, now, pid, push).value;
      if push then s'.claimable == s.claimable else s'.received == s.received
  {
    hide Money, Payout;
    var exited := SetProvider(s, pid, s.providers[pid].(status := Exited));
    StatusMove(p, s, 0, pid, s.providers[pid].(status := Exited));
    PayoutIsFunded(p, exited, p.stakeWei, s.providers[pid].withdrawal, p.stakeWei, push);
  }

  /** A slash sends the paymaster its part and nothing else. */
  lemma SlashSends(p: Params, s: State, pid: nat)
    requires pid in s.providers && SlashProvider(p, s, pid).Ok?
    ensures SlashProvider(p, s, pid).value.claimable == s.claimable
    ensures forall who :: who != p.paymaster ==>
      Entry(SlashProvider(p, s, pid).value.received, who) == Entry(s.received, who)
  {
  }

  /** Sent if taken, parked if refused; what goes to the paymaster is always sent. */
  ghost predicate SendsOrParks(p: Params, s: State, s': State, taken: bool) {
    if taken then s'.claimable == s.claimable
    else forall who :: who != p.paymaster ==> Entry(s'.received, who) == Entry(s.received, who)
  }

  lemma LapseSends(p: Params, s: State, now: U64, sender: Address, pid: nat, push: bool)
    requires Money(p, s, 0) && Lapse(p, s, now, sender, pid, push).Ok?
    ensures SendsOrParks(p, s, Lapse(p, s, now, sender, pid, push).value, push)
  {
    hide Money, Payout, SlashProvider;
    SlashMove(p, s, 0, pid);
    SlashSends(p, s, pid);
    PayoutIsFunded(p, SlashProvider(p, s, pid).value, Bounty(p), sender, Bounty(p), push);
  }

  lemma RespondSends(p: Params, s: State, now: U64, sender: Address, id: nat, indices: seq<nat>, n: nat,
                     peaks: seq<Hash>, proofs: seq<ChunkProof>, push: bool)
    requires Money(p, s, 0) && Respond(p, s, now, sender, id, indices, n, peaks, proofs, push).Ok?
    ensures SendsOrParks(p, s, Respond(p, s, now, sender, id, indices, n, peaks, proofs, push).value, push)
  {
    hide Money, Payout, ProofsVerify;
    var c := s.challenges[id];
    ResolveMove(p, s, 0, id);
    PayoutIsFunded(p, Resolve(s, id), c.bond, s.providers[c.providerId].operator, c.bond, push);
  }

  lemma TimeoutSends(p: Params, s: State, now: U64, id: nat, push: bool)
    requires Money(p, s, 0) && ResolveTimeout(p, s, now, id, push).Ok?
    ensures SendsOrParks(p, s, ResolveTimeout(p, s, now, id, push).value, push)
  {
    hide Money, Payout, SlashProvider, Bounty;
    var c := s.challenges[id];
    var closed := Resolve(s, id);
    ResolveMove(p, s, 0, id);
    if s.providers[c.providerId].status.Slashed? {
      PayoutIsFunded(p, closed, c.bond, c.challenger, c.bond, push);
    } else {
      OpenIsCounted(p, s, 0, id);
      SlashMove(p, closed, c.bond, c.providerId);
      SlashSends(p, closed, c.providerId);
      var slashed := SlashProvider(p, closed, c.providerId).value;
      PayoutIsFunded(p, slashed, Bounty(p) + c.bond, c.challenger, Bounty(p) + c.bond, push);
    }
  }

  /** A claim is sent, and empties the caller's entry and no other. */
  lemma ClaimSends(p: Params, s: State, sender: Address, push: bool, who: Address)
    requires Claim(s, sender, push).Ok?
    ensures push && Entry(Claim(s, sender, push).value.claimable, who) == If(who != sender, Entry(s.claimable, who))
  {
  }

  /** A payout taken is sent, one refused is parked, in every entry point that pays. */
  lemma SentOrParked(p: Params, s: State, now: U64, a: Action)
    requires Stored(s) && Money(p, s, 0) && Execute(p, s, now, a).Ok? && !a.AClaim?
    ensures SendsOrParks(p, s, Execute(p, s, now, a).value, Takes(a))
  {
    hide Money, Withdraw, Lapse, Respond, ResolveTimeout, Declare, Stake, InitiateUnbonding, BeginProof, SubmitProof;
    hide SubmitProofEscape, OpenChallenge;
    if a.AWithdraw? {
      WithdrawSends(p, s, now, a.pid, a.push);
    } else if a.ALapse? {
      LapseSends(p, s, now, a.sender, a.pid, a.push);
    } else if a.ARespond? {
      RespondSends(p, s, now, a.sender, a.id, a.indices, a.n, a.peaks, a.proofs, a.push);
    } else if a.ATimeout? {
      TimeoutSends(p, s, now, a.id, a.push);
    } else {
      OthersCreditNothing(p, s, now, a);
    }
  }

  // ---- What happens to which record ----

  /** The one word that commits to published chunks. */
  function DataRoot(data: seq<Chunk>): Hash {
    Root(|data|, PeakList(data, 0, |data|))
  }

  function Voided(pr: Provider): Provider {
    pr.(commitPeriodPlusOne := 0, commitSeed := NO_HASH, commitRoot := NO_HASH, commitLeafCount := 0)
  }

  predicate Against(s: State, id: nat, pid: nat) {
    id in s.challenges && s.challenges[id].providerId == pid
  }

  function OneLess(pr: Provider): Provider {
    pr.(openChallenges := if pr.openChallenges > 0 then pr.openChallenges - 1 else 0)
  }

  /** A provider's record after a successful call. */
  function RecordAfter(p: Params, s: State, now: U64, a: Action, pid: nat): Provider
    requires pid in s.providers
  {
    var pr := s.providers[pid];
    var period := if p.custodyPeriod > 0 && pr.anchor <= now then (now - pr.anchor) / p.custodyPeriod else 0;
    match a
    case AUnbond(_, q) =>
      if q != pid then pr
      else Voided(pr).(status := Unbonding, unbondingAt := now, exitRoot := DataRoot(s.dataset),
                       exitLeafCount := |s.dataset|)
    case AWithdraw(q, _) => if q != pid then pr else pr.(status := Exited)
    case ABegin(_, q, seed) =>
      if q != pid then pr
      else pr.(commitPeriodPlusOne := period + 1, commitSeed := seed, commitRoot := DataRoot(s.dataset),
               commitLeafCount := |s.dataset|)
    case AProof(_, q, _) =>
      if q != pid then pr else Voided(pr).(lastProvenPlusOne := period + 1, lastDegraded := false)
    case AEscape(_, q, _, _, _) =>
      if q != pid then pr else Voided(pr).(lastProvenPlusOne := period + 1, lastDegraded := true)
    case ALapse(_, q, _) => if q != pid then pr else pr.(status := Slashed)
    case AChallenge(_, _, _, q, _) => if q != pid then pr else pr.(openChallenges := pr.openChallenges + 1)
    case ARespond(_, id, _, _, _, _, _) => if !Against(s, id, pid) then pr else OneLess(pr)
    case ATimeout(id, _) => if !Against(s, id, pid) then pr else OneLess(pr).(status := Slashed)
    case _ => pr
  }

  /** A fresh record: ACTIVE, nothing proven, nothing committed. */
  function Fresh(now: U64, operator: Address, withdrawal: Address): Provider {
    Provider(operator, withdrawal, Active, now, 0, false, 0, NO_HASH, NO_HASH, 0, 0, NO_HASH, 0, 0)
  }

  /** What a call does to the provider records: the one it concerns, as stated, and no other. */
  ghost predicate RecordsMoved(p: Params, s: State, now: U64, a: Action, s': State) {
    (forall pid :: pid in s.providers ==> pid in s'.providers && s'.providers[pid] == RecordAfter(p, s, now, a, pid)) &&
    (forall pid :: pid in s'.providers && pid !in s.providers ==>
      a.AStake? && pid == s.nextProviderId && s'.providers[pid] == Fresh(now, a.operator, a.withdrawal)) &&
    (a.AStake? ==> s.nextProviderId in s'.providers && s'.balance == s.balance + p.stakeWei)
  }

  /** The provider a call concerns, if there is one. */
  function Concerned(s: State, a: Action): Option<nat> {
    match a
    case AUnbond(_, pid) => Some(pid)
    case AWithdraw(pid, _) => Some(pid)
    case ABegin(_, pid, _) => Some(pid)
    case AProof(_, pid, _) => Some(pid)
    case AEscape(_, pid, _, _, _) => Some(pid)
    case ALapse(_, pid, _) => Some(pid)
    case AChallenge(_, _, _, pid, _) => Some(pid)
    case ARespond(_, id, _, _, _, _, _) => if id in s.challenges then Some(s.challenges[id].providerId) else None
    case ATimeout(id, _) => if id in s.challenges then Some(s.challenges[id].providerId) else None
    case _ => None
  }

  lemma OneRecordMoved(p: Params, s: State, now: U64, a: Action, pid: nat, s': State)
    requires pid in s.providers && Concerned(s, a) == Some(pid)
    requires s'.providers == s.providers[pid := RecordAfter(p, s, now, a, pid)]
    ensures RecordsMoved(p, s, now, a, s')
  {
  }

  lemma NoRecordMoved(p: Params, s: State, now: U64, a: Action, s': State)
    requires a.ADeclare? || a.AClaim? || a.AForce?
    requires s'.providers == s.providers
    ensures RecordsMoved(p, s, now, a, s')
  {
  }

  function Closed(s: State, id: nat): map<nat, Challenge> {
    if id in s.challenges then s.challenges[id := s.challenges[id].(resolved := true)] else s.challenges
  }

  /** The challenge records after a successful call. */
  function ChallengesAfter(s: State, now: U64, a: Action): map<nat, Challenge> {
    match a
    case AChallenge(sender, value, _, pid, indices) =>
      if pid !in s.providers then s.challenges
      else
        var pr := s.providers[pid];
        s.challenges[s.nextChallengeId :=
          if pr.status.Active? then Challenge(pid, sender, value, now, DataRoot(s.dataset), |s.dataset|, indices, false)
          else Challenge(pid, sender, value, now, pr.exitRoot, pr.exitLeafCount, indices, false)]
    case ARespond(_, id, _, _, _, _, _) => Closed(s, id)
    case ATimeout(id, _) => Closed(s, id)
    case _ => s.challenges
  }

  /** Challenge records are left alone. */
  predicate SameChallenges(s: State, s': State) {
    s'.challenges == s.challenges && s'.nextChallengeId == s.nextChallengeId
  }

  lemma BeginRecord(p: Params, s: State, now: U64, sender: Address, pid: nat, seed: Hash)
    requires BeginProof(p, s, now, sender, pid, seed).Ok?
    requires s.leafCount == |s.dataset| && s.peaks == PeakList(s.dataset, 0, |s.dataset|)
    ensures pid in s.providers && BeginProof(p, s, now, sender, pid, seed).value.providers
      == s.providers[pid := RecordAfter(p, s, now, ABegin(sender, pid, seed), pid)]
    ensures SameChallenges(s, BeginProof(p, s, now, sender, pid, seed).value)
  {
    hide PeakList;
  }

  lemma UnbondRecord(p: Params, s: State, now: U64, sender: Address, pid: nat)
    requires InitiateUnbonding(s, now, sender, pid).Ok?
    requires s.leafCount == |s.dataset| && s.peaks == PeakList(s.dataset, 0, |s.dataset|)
    ensures pid in s.providers && InitiateUnbonding(s, now, sender, pid).value.providers
      == s.providers[pid := RecordAfter(p, s, now, AUnbond(sender, pid), pid)]
    ensures SameChallenges(s, InitiateUnbonding(s, now, sender, pid).value)
  {
    hide PeakList;
  }

  lemma ProofRecord(p: Params, s: State, now: U64, sender: Address, pid: nat, verified: bool)
    requires SubmitProof(p, s, now, sender, pid, verified).Ok?
    ensures pid in s.providers && SubmitProof(p, s, now, sender, pid, verified).value.providers
      == s.providers[pid := RecordAfter(p, s, now, AProof(sender, pid, verified), pid)]
    ensures SameChallenges(s, SubmitProof(p, s, now, sender, pid, verified).value)
  {
  }

  lemma EscapeRecord(p: Params, s: State, now: U64, sender: Address, pid: nat, n: nat, peaks: seq<Hash>,
                     samples: seq<ChunkProof>)
    requires SubmitProofEscape(p, s, now, sender, pid, n, peaks, samples).Ok?
    ensures pid in s.providers && SubmitProofEscape(p, s, now, sender, pid, n, peaks, samples).value.providers
      == s.providers[pid := RecordAfter(p, s, now, AEscape(sender, pid, n, peaks, samples), pid)]
    ensures SameChallenges(s, SubmitProofEscape(p, s, now, sender, pid, n, peaks, samples).value)
  {
    hide RevealsVerify;
  }

  lemma WithdrawRecord(p: Params, s: State, now: U64, pid: nat, push: bool)
    requires Withdraw(p, s, now, pid, push).Ok?
    ensures pid in s.providers && Withdraw(p, s, now, pid, push).value.providers
      == s.providers[pid := RecordAfter(p, s, now, AWithdraw(pid, push), pid)]
    ensures SameChallenges(s, Withdraw(p, s, now, pid, push).value)
  {
  }

  lemma LapseRecord(p: Params, s: State, now: U64, sender: Address, pid: nat, push: bool)
    requires Lapse(p, s, now, sender, pid, push).Ok?
    ensures pid in s.providers && Lapse(p, s, now, sender, pid, push).value.providers
      == s.providers[pid := RecordAfter(p, s, now, ALapse(sender, pid, push), pid)]
    ensures SameChallenges(s, Lapse(p, s, now, sender, pid, push).value)
  {
    hide EligibleAt, Bounty;
  }

  lemma ChallengeRecord(p: Params, s: State, now: U64, sender: Address, value: nat, basefee: nat, pid: nat,
                        indices: seq<nat>)
    requires OpenChallenge(p, s, now, sender, value, basefee, pid, indices).Ok?
    requires s.leafCount == |s.dataset| && s.peaks == PeakList(s.dataset, 0, |s.dataset|)
    ensures var s', a := OpenChallenge(p, s, now, sender, value, basefee, pid, indices).value,
                         AChallenge(sender, value, basefee, pid, indices);
      pid in s.providers && s'.providers == s.providers[pid := RecordAfter(p, s, now, a, pid)] &&
      s'.challenges == ChallengesAfter(s, now, a) && s'.nextChallengeId == s.nextChallengeId + 1 &&
      s'.balance == s.balance + value
  {
    hide RequiredBond, PeakList;
  }

  lemma RespondRecord(p: Params, s: State, now: U64, sender: Address, id: nat, indices: seq<nat>, n: nat,
                      peaks: seq<Hash>, proofs: seq<ChunkProof>, push: bool)
    requires Respond(p, s, now, sender, id, indices, n, peaks, proofs, push).Ok?
    ensures var s', a := Respond(p, s, now, sender, id, indices, n, peaks, proofs, push).value,
                         ARespond(sender, id, indices, n, peaks, proofs, push);
      id in s.challenges && s.challenges[id].providerId in s.providers &&
      (var pid := s.challenges[id].providerId; s'.providers == s.providers[pid := RecordAfter(p, s, now, a, pid)]) &&
      s'.challenges == ChallengesAfter(s, now, a) && s'.nextChallengeId == s.nextChallengeId
  {
    hide ProofsVerify;
  }

  lemma TimeoutRecord(p: Params, s: State, now: U64, id: nat, push: bool)
    requires ResolveTimeout(p, s, now, id, push).Ok?
    ensures var s', a := ResolveTimeout(p, s, now, id, push).value, ATimeout(id, push);
      id in s.challenges && s.challenges[id].providerId in s.providers &&
      (var pid := s.challenges[id].providerId; s'.providers == s.providers[pid := RecordAfter(p, s, now, a, pid)]) &&
      s'.challenges == ChallengesAfter(s, now, a) && s'.nextChallengeId == s.nextChallengeId
  {
    hide ResolveTimeout, Bounty;
    var before := TimeoutShape(p, s, now, id, push);
  }

  /** The calls that are about no record. */
  lemma DeclareAside(p: Params, s: State, now: U64, d: Declaration, chunks: seq<Chunk>)
    requires Stored(s) && Declare(p, s, now, d, chunks).Ok?
    ensures var s' := Declare(p, s, now, d, chunks).value;
      s'.providers == s.providers && SameChallenges(s, s')
  {
    hide Decompose, CarryAll, Rehydrate, Canonical, RootsOf, PeakHeights, PackedUnder;
  }

  lemma StakeRecord(p: Params, s: State, now: U64, value: nat, operator: Address, withdrawal: Address)
    requires Stake(p, s, now, value, operator, withdrawal).Ok? && s.nextProviderId !in s.providers
    ensures var s' := Stake(p, s, now, value, operator, withdrawal).value;
      RecordsMoved(p, s, now, AStake(value, operator, withdrawal), s') && SameChallenges(s, s')
  {
  }

  lemma ClaimAside(s: State, sender: Address, push: bool)
    requires Claim(s, sender, push).Ok?
    ensures var s' := Claim(s, sender, push).value; s'.providers == s.providers && SameChallenges(s, s')
  {
  }

  /**
   * What an accepted declaration does to the tree: its chunks are appended, the nonce moves by one, and the
   * dormancy checkpoint moves to it exactly when the minimum has accumulated since the last one.
   */
  lemma DeclareMoves(p: Params, s: State, now: U64, d: Declaration, chunks: seq<Chunk>)
    requires Inv(p, s) && Stored(s) && Declare(p, s, now, d, chunks).Ok?
    ensures var s', data := Declare(p, s, now, d, chunks).value, s.dataset + chunks;
      && s'.dataset == data && s'.leafCount == |data| && s'.declarationNonce == s.declarationNonce + 1
      && (s'.checkpointTime, s'.checkpointLeafCount) ==
           (if |data| - s.checkpointLeafCount >= p.dormancyMinChunks then (now, |data|)
            else (s.checkpointTime, s.checkpointLeafCount))
  {
    assert s.leafCount == |s.dataset|;
    hide Inv, Decompose, CarryAll, Rehydrate, Canonical, RootsOf, PeakHeights, PackedUnder;
  }

  lemma TreeIsData(p: Params, s: State)
    requires Inv(p, s)
    ensures s.leafCount == |s.dataset| && s.peaks == PeakList(s.dataset, 0, |s.dataset|)
    ensures s.nextProviderId !in s.providers && s.nextChallengeId !in s.challenges
  {
  }

  /** Every successful call changes the records it concerns as stated, and no other. */
  lemma RecordsMove(p: Params, s: State, now: U64, a: Action)
    requires Inv(p, s) && Stored(s) && Execute(p, s, now, a).Ok?
    ensures var s' := Execute(p, s, now, a).value;
      RecordsMoved(p, s, now, a, s') && s'.challenges == ChallengesAfter(s, now, a) &&
      s'.nextChallengeId == s.nextChallengeId + (if a.AChallenge? then 1 else 0) &&
      (a.AChallenge? ==> s'.balance == s.balance + a.value)
  {
    TreeIsData(p, s);
    hide Inv, Withdraw, Lapse, Respond, ResolveTimeout, Declare, Stake, InitiateUnbonding, BeginProof, SubmitProof;
    hide SubmitProofEscape, OpenChallenge, Claim, RecordsMoved, RecordAfter, PeakList, Closed, Period;
    var s' := Execute(p, s, now, a).value;
    if a.AStake? {
      StakeRecord(p, s, now, a.value, a.operator, a.withdrawal);
    } else if a.ADeclare? || a.AClaim? || a.AForce? {
      if a.ADeclare? { DeclareAside(p, s, now, a.d, a.chunks); }
      if a.AClaim? { ClaimAside(s, a.sender, a.push); }
      NoRecordMoved(p, s, now, a, s');
    } else {
      if a.AUnbond? { UnbondRecord(p, s, now, a.sender, a.pid); }
      if a.AWithdraw? { WithdrawRecord(p, s, now, a.pid, a.push); }
      if a.ABegin? { BeginRecord(p, s, now, a.sender, a.pid, a.seed); }
      if a.AProof? { ProofRecord(p, s, now, a.sender, a.pid, a.verified); }
      if a.AEscape? { EscapeRecord(p, s, now, a.sender, a.pid, a.n, a.peaks, a.samples); }
      if a.ALapse? { LapseRecord(p, s, now, a.sender, a.pid, a.push); }
      if a.AChallenge? { ChallengeRecord(p, s, now, a.sender, a.value, a.basefee, a.pid, a.indices); }
      if a.ARespond? { RespondRecord(p, s, now, a.sender, a.id, a.indices, a.n, a.peaks, a.proofs, a.push); }
      if a.ATimeout? { TimeoutRecord(p, s, now, a.id, a.push); }
      OneRecordMoved(p, s, now, a, Concerned(s, a).value, s');
    }
  }
}
