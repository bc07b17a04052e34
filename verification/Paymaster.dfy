/**
 * The funding sidecar: a token bucket that bounds how fast reimbursements can drain it, and a donation
 * ledger swept pro rata once the dataset is dormant.
 */
module Paymaster {
  import opened Data
  import opened Bits
  import opened Sums
  import opened PayoutSink

  const DAY: nat := 86_400

  datatype Params = Params(instance: Address, ratePerDay: nat, cap: nat, dormancyWindow: U64)

  datatype State = State(
    sink: Sink, contributions: map<Address, nat>, outstanding: nat,
    storedLevel: nat, lastUpdate: U64, clock: U64)

  type Outcome = Result<State, Error>

  /** The bucket starts full. */
  function Initial(p: Params, now: U64): State {
    State(Sink(0, map[], 0, map[]), map[], 0, p.cap, now, now)
  }

  /** The stored level plus what accrued since, floored, and never above the cap. */
  function BucketLevel(p: Params, s: State, now: U64): nat
    requires s.lastUpdate <= now
  {
    var refilled := s.storedLevel + p.ratePerDay * (now - s.lastUpdate) / DAY;
    if refilled > p.cap then p.cap else refilled
  }

  function Donate(s: State, donor: Address, value: nat): State {
    s.(sink := s.sink.(balance := s.sink.balance + value),
       contributions := s.contributions[donor := Entry(s.contributions, donor) + value],
       outstanding := s.outstanding + value)
  }

  /** Whether a reimbursement of this amount would be paid now: all or nothing. */
  predicate Covers(p: Params, s: State, now: U64, amount: nat)
    requires s.lastUpdate <= now
  {
    amount <= BucketLevel(p, s, now) && amount <= Available(s.sink)
  }

  function Reimburse(p: Params, s: State, now: U64, caller: Address, carrier: Address, amount: nat, push: bool): Outcome
    requires s.lastUpdate <= now
  {
    if caller != p.instance then Err(OnlyInstance)
    else
      var level := BucketLevel(p, s, now);
      if !Covers(p, s, now, amount) then Ok(s.(lastUpdate := now, storedLevel := level))
      else Ok(s.(lastUpdate := now, storedLevel := level - amount, sink := Push(s.sink, carrier, amount, push)))
  }

  function AbsorbSlash(p: Params, s: State, caller: Address, value: nat): Outcome {
    if caller != p.instance then Err(OnlyInstance)
    else Ok(s.(sink := s.sink.(balance := s.sink.balance + value)))
  }

  /** A donor's pro-rata share of what is available at the call. */
  function Share(s: State, weight: nat): nat
    requires s.outstanding > 0 && Available(s.sink) >= 0
  {
    Available(s.sink) * weight / s.outstanding
  }

  function Reclaim(p: Params, s: State, now: U64, donor: Address, activityTime: U64, push: bool): Outcome {
    if activityTime + p.dormancyWindow >= U64_LIMIT then Err(Panic)
    else if now <= activityTime + p.dormancyWindow then Err(NotDormant)
    else
      var weight := Entry(s.contributions, donor);
      if weight == 0 then Err(NothingToReclaim)
      else if weight > s.outstanding || Available(s.sink) < 0 then Err(Panic)
      else
        Ok(s.(outstanding := s.outstanding - weight, contributions := s.contributions[donor := 0],
              sink := Push(s.sink, donor, Share(s, weight), push)))
  }

  function ClaimParked(s: State, who: Address, push: bool): Outcome {
    var k :- Pull(s.sink, who, push);
    Ok(s.(sink := k))
  }

  datatype Action =
    | PDonate(donor: Address, value: nat)
    | PReimburse(caller: Address, carrier: Address, amount: nat, push: bool)
    | PAbsorb(caller: Address, value: nat)
    | PReclaim(donor: Address, activityTime: U64, push: bool)
    | PClaim(who: Address, push: bool)
    | PForce(amount: nat)

  function Execute(p: Params, s: State, now: U64, a: Action): Outcome
    requires s.lastUpdate <= now
  {
    match a
    case PDonate(donor, value) => Ok(Donate(s, donor, value))
    case PReimburse(caller, carrier, amount, push) => Reimburse(p, s, now, caller, carrier, amount, push)
    case PAbsorb(caller, value) => AbsorbSlash(p, s, caller, value)
    case PReclaim(donor, activityTime, push) => Reclaim(p, s, now, donor, activityTime, push)
    case PClaim(who, push) => ClaimParked(s, who, push)
    case PForce(amount) => Ok(s.(sink := s.sink.(balance := s.sink.balance + amount)))
  }

  function Transact(p: Params, s: State, now: U64, a: Action): State
    requires s.lastUpdate <= now
  {
    match Execute(p, s, now, a)
    case Ok(s') => s'.(clock := now)
    case Err(_) => s.(clock := now)
  }

  /** The ledgers add up, parked payouts are covered, the bucket is within its cap. */
  ghost predicate Inv(p: Params, s: State) {
    s.outstanding == SumValues(s.contributions) && Summed(s.sink) && Available(s.sink) >= 0 &&
    s.storedLevel <= p.cap && s.lastUpdate <= s.clock
  }

  lemma DivAtMost(b: nat, w: nat, o: nat)
    requires 0 < o && w <= o
    ensures b * w / o <= b
    ensures w == o ==> b * w / o == b
  {
    var q := b * w / o;
    DivExact(b * w, o);
    MulMono(w, o, b);
    assert b * w == w * b && b * o == o * b;
    if q > b { MulMono(b + 1, q, o); }
    if w == o && q < b { MulMono(q + 1, b, o); }
  }

  lemma ShareAtMost(s: State, weight: nat)
    requires s.outstanding > 0 && Available(s.sink) >= 0 && weight <= s.outstanding
    ensures Share(s, weight) * s.outstanding <= Available(s.sink) * weight
    ensures Share(s, weight) <= Available(s.sink)
    ensures weight == s.outstanding ==> Share(s, weight) == Available(s.sink)
  {
    DivExact(Available(s.sink) * weight, s.outstanding);
    DivAtMost(Available(s.sink), weight, s.outstanding);
  }

  /** Every transaction keeps the ledgers, the coverage and the cap. */
  lemma TransactKeeps(p: Params, s: State, now: U64, a: Action)
    requires Inv(p, s) && s.clock <= now
    ensures Inv(p, Transact(p, s, now, a))
  {
    match a
    case PDonate(donor, value) => SumUpdate(s.contributions, donor, Entry(s.contributions, donor) + value);
    case PReimburse(_, carrier, amount, push) => PushSpends(s.sink, carrier, amount, push);
    case PReclaim(donor, _, push) =>
      if Execute(p, s, now, a).Ok? {
        var weight := s.contributions[donor];
        SumUpdate(s.contributions, donor, 0);
        ShareAtMost(s, weight);
        PushSpends(s.sink, donor, Share(s, weight), push);
      }
    case PClaim(who, push) => if Execute(p, s, now, a).Ok? { PullKeeps(s.sink, who, push); }
    case PAbsorb(_, _) =>
    case PForce(_) =>
  }

  /** A donor's weight never exceeds the ledger, so a dormant reclaim by a donor never panics. */
  lemma ReclaimSucceeds(p: Params, s: State, now: U64, donor: Address, activityTime: U64, push: bool)
    requires Inv(p, s)
    ensures Reclaim(p, s, now, donor, activityTime, push).Ok? <==>
      now > activityTime + p.dormancyWindow && Entry(s.contributions, donor) > 0
    ensures var r := Reclaim(p, s, now, donor, activityTime, push);
      (r == Err(NotDormant) <==> now <= activityTime + p.dormancyWindow < U64_LIMIT) &&
      (r == Err(NothingToReclaim) <==> now > activityTime + p.dormancyWindow && Entry(s.contributions, donor) == 0)
  {
    if donor in s.contributions { SumRemove(s.contributions, donor); }
  }

  // ---- Runs ----

  datatype Tx = Tx(now: U64, action: Action)

  ghost predicate Step(p: Params, s: State, tx: Tx, s': State) {
    s.clock <= tx.now && s.lastUpdate <= tx.now && s' == Transact(p, s, tx.now, tx.action)
  }

  ghost predicate IsRun(p: Params, states: seq<State>, txs: seq<Tx>) {
    |states| == |txs| + 1 && states[0] == Initial(p, states[0].clock) &&
    forall i :: 0 <= i < |txs| ==> Step(p, states[i], txs[i], states[i + 1])
  }

  lemma {:induction false} RunKeeps(p: Params, states: seq<State>, txs: seq<Tx>, i: nat)
    requires IsRun(p, states, txs) && i < |states|
    ensures Inv(p, states[i])
  {
    if i > 0 {
      RunKeeps(p, states, txs, i - 1);
      assert Step(p, states[i - 1], txs[i - 1], states[i - 1 + 1]);
      TransactKeeps(p, states[i - 1], txs[i - 1].now, txs[i - 1].action);
    }
  }

  // ---- The drain bound ----

  /** What a reimbursement takes out of the money not spoken for, by the states around it. */
  function PaidBy(s: State, tx: Tx, s': State): int {
    if tx.action.PReimburse? then Available(s.sink) - Available(s'.sink) else 0
  }

  /** Total taken by the reimbursements among transactions `[i, j)`. */
  ghost function Paid(states: seq<State>, txs: seq<Tx>, i: nat, j: nat): int
    requires i <= j <= |txs| && |states| == |txs| + 1
  {
    if i == j then 0 else Paid(states, txs, i, j - 1) + PaidBy(states[j - 1], txs[j - 1], states[j])
  }

  /** Refill forgets fractions, never invents them: below the cap the level is the exact refill, floored. */
  lemma LevelBound(p: Params, s: State, now: U64)
    requires s.lastUpdate <= now
    ensures BucketLevel(p, s, now) <= p.cap
    ensures 86_400 * BucketLevel(p, s, now) <= 86_400 * s.storedLevel + p.ratePerDay * (now - s.lastUpdate)
    ensures BucketLevel(p, s, now) == p.cap ||
      86_400 * s.storedLevel + p.ratePerDay * (now - s.lastUpdate) < 86_400 * (BucketLevel(p, s, now) + 1)
  {
  }

  /** Everything an address has been sent or can claim. */
  function Wealth(s: State, who: Address): nat {
    Entry(s.sink.received, who) + Entry(s.sink.claimable, who)
  }

  /** A payout is sent if it is taken and parked otherwise. */
  predicate SentOrParked(s: State, s': State, taken: bool) {
    if taken then s'.sink.claimable == s.sink.claimable else s'.sink.received == s.sink.received
  }

  /** A payout within what is available goes to its recipient, in full, and to nobody else. */
  lemma PushPays(k: Sink, to: Address, amount: nat, taken: bool)
    requires Summed(k) && amount <= Available(k)
    ensures var k' := Push(k, to, amount, taken);
      (if taken then k'.claimable == k.claimable else k'.received == k.received) &&
      forall who :: Entry(k'.received, who) + Entry(k'.claimable, who)
        == Entry(k.received, who) + Entry(k.claimable, who) + if who == to then amount else 0
  {
  }

  /** The level depends on the bucket alone, and right after an update it is what was stored. */
  lemma LevelOfBucket(p: Params, s: State, s': State, now: U64)
    requires s.lastUpdate <= now && s'.lastUpdate <= now
    ensures s'.storedLevel == s.storedLevel && s'.lastUpdate == s.lastUpdate ==>
      BucketLevel(p, s', now) == BucketLevel(p, s, now)
    ensures s'.lastUpdate == now && s'.storedLevel <= p.cap ==> BucketLevel(p, s', now) == s'.storedLevel
    ensures BucketLevel(p, s, now) <= p.cap
  {
    assert p.ratePerDay * 0 == 0;
  }

  /**
   * A reimbursement takes exactly the amount, for the carrier and nobody else, out of the balance and out of the
   * bucket, when the instance asks and both cover it in full; otherwise it takes nothing.
   */
  lemma ReimbursesExactly(p: Params, s: State, tx: Tx, s': State)
    requires Inv(p, s) && Step(p, s, tx, s') && tx.action.PReimburse?
    ensures var a, level := tx.action, BucketLevel(p, s, tx.now);
      var due := if a.caller == p.instance && a.amount <= level && a.amount <= Available(s.sink) then a.amount else 0;
      && PaidBy(s, tx, s') == due
      && (forall who :: Wealth(s', who) == Wealth(s, who) + if who == a.carrier then due else 0)
      && SentOrParked(s, s', a.push)
      && s'.lastUpdate <= tx.now && BucketLevel(p, s', tx.now) == level - due
      && s'.contributions == s.contributions && s'.outstanding == s.outstanding
  {
    hide BucketLevel, Push;
    var a := tx.action;
    LevelOfBucket(p, s, s', tx.now);
    if a.caller == p.instance && Covers(p, s, tx.now, a.amount) {
      PushSpends(s.sink, a.carrier, a.amount, a.push);
      PushPays(s.sink, a.carrier, a.amount, a.push);
    }
  }

  lemma RateSplit(rate: nat, a: int, b: int, c: int)
    ensures rate * (b - a) + rate * (c - b) == rate * (c - a)
  {
  }

  lemma RateMono(rate: nat, a: int, b: int)
    requires a <= b
    ensures rate * a <= rate * b
  {
  }

  /** The bucket's account at a state, after `paid` since the window opened at `from`. */
  ghost predicate Account(p: Params, s: State, paid: int, from: U64) {
    if s.lastUpdate < from then paid == 0
    else DAY * (paid + s.storedLevel) <= DAY * p.cap + p.ratePerDay * (s.lastUpdate - from)
  }

  /** Paying from the bucket keeps the account. */
  lemma AccountStep(p: Params, s: State, tx: Tx, s': State, paid: int, from: U64)
    requires Inv(p, s) && Step(p, s, tx, s') && Account(p, s, paid, from) && from <= tx.now
    ensures Account(p, s', paid + PaidBy(s, tx, s'), from)
  {
    if tx.action.PReimburse? { ReimbursesExactly(p, s, tx, s'); }
    if tx.action.PReimburse? && tx.action.caller == p.instance {
      LevelBound(p, s, tx.now);
      if s.lastUpdate >= from { RateSplit(p.ratePerDay, from, s.lastUpdate, tx.now); }
      RateMono(p.ratePerDay, 0, tx.now - from);
    }
  }

  lemma {:induction false} TimesGrow(p: Params, states: seq<State>, txs: seq<Tx>, i: nat, j: nat)
    requires IsRun(p, states, txs) && i <= j < |txs|
    ensures txs[i].now <= txs[j].now
    decreases j - i
  {
    if i < j {
      TimesGrow(p, states, txs, i, j - 1);
      assert Step(p, states[j - 1], txs[j - 1], states[j - 1 + 1]) && Step(p, states[j], txs[j], states[j + 1]);
    }
  }

  /** What was paid plus what is still in the bucket never exceeds the cap plus the refill since the window opened. */
  lemma {:induction false} BucketPotential(p: Params, states: seq<State>, txs: seq<Tx>, i: nat, j: nat, from: U64)
    requires IsRun(p, states, txs) && i <= j <= |txs|
    requires i < |txs| ==> from <= txs[i].now
    ensures Account(p, states[j], Paid(states, txs, i, j), from)
    decreases j
  {
    if i == j {
      RunKeeps(p, states, txs, j);
      if states[j].lastUpdate >= from { RateMono(p.ratePerDay, 0, states[j].lastUpdate - from); }
    } else {
      hide Account, Step;
      assert Step(p, states[j - 1], txs[j - 1], states[j - 1 + 1]);
      TimesGrow(p, states, txs, i, j - 1);
      BucketPotential(p, states, txs, i, j - 1, from);
      RunKeeps(p, states, txs, j - 1);
      AccountStep(p, states[j - 1], txs[j - 1], states[j], Paid(states, txs, i, j - 1), from);
    }
  }

  lemma {:induction false} LastUpdateInPast(p: Params, states: seq<State>, txs: seq<Tx>, j: nat)
    requires IsRun(p, states, txs) && 0 < j <= |txs|
    ensures states[j].lastUpdate <= txs[j - 1].now
  {
    assert Step(p, states[j - 1], txs[j - 1], states[j - 1 + 1]);
  }

  /**
   * Over any window, opening at any instant and lasting `w` seconds, reimbursements take at most the cap plus the
   * refill of the window out of the available balance, despite flooring.
   */
  lemma DrainIsBounded(p: Params, states: seq<State>, txs: seq<Tx>, i: nat, j: nat, from: U64, w: nat)
    requires IsRun(p, states, txs) && i <= j <= |txs|
    requires i < j ==> from <= txs[i].now && txs[j - 1].now <= from + w
    ensures 86_400 * Paid(states, txs, i, j) <= 86_400 * p.cap + p.ratePerDay * w
  {
    if i < j {
      BucketPotential(p, states, txs, i, j, from);
      LastUpdateInPast(p, states, txs, j);
      RateMono(p.ratePerDay, states[j].lastUpdate - from, w);
    }
    RateMono(p.ratePerDay, 0, w);
  }

  // ---- The sweep ----

  /** What can happen in a dormant sweep: anything but a donation and a paid reimbursement. */
  predicate Sweeping(s: State, tx: Tx, s': State) {
    !tx.action.PDonate? && PaidBy(s, tx, s') == 0
  }

  /** Outside a successful reclaim a sweep leaves the ledger alone and takes nothing. */
  lemma SameLedger(p: Params, s: State, tx: Tx, s': State)
    requires Inv(p, s) && Step(p, s, tx, s') && Sweeping(s, tx, s')
    requires tx.action.PReclaim? ==> Execute(p, s, tx.now, tx.action).Err?
    ensures s'.outstanding == s.outstanding && Available(s'.sink) >= Available(s.sink)
  {
    if tx.action.PClaim? && Execute(p, s, tx.now, tx.action).Ok? { PullKeeps(s.sink, tx.action.who, tx.action.push); }
    if tx.action.PReimburse? { ReimbursesExactly(p, s, tx, s'); }
  }

  /** Taking no more than a pro-rata share leaves the others' value no lower. */
  lemma TakingAShare(b: nat, o: nat, a: nat, w: nat)
    requires a * o <= b * w && a <= b && w <= o
    ensures (b - a) * o >= b * (o - w)
  {
    assert (b - a) * o == b * o - a * o;
    assert b * (o - w) == b * o - b * w;
  }

  /** One step of a sweep never lowers the value of a unit of weight. */
  lemma SweepStep(p: Params, s: State, tx: Tx, s': State)
    requires Inv(p, s) && Step(p, s, tx, s') && Sweeping(s, tx, s')
    ensures Available(s'.sink) >= 0 && s'.outstanding <= s.outstanding
    ensures Available(s'.sink) * s.outstanding >= Available(s.sink) * s'.outstanding
  {
    TransactKeeps(p, s, tx.now, tx.action);
    if tx.action.PReclaim? && Execute(p, s, tx.now, tx.action).Ok? {
      var w := s.contributions[tx.action.donor];
      ShareAtMost(s, w);
      PushSpends(s.sink, tx.action.donor, Share(s, w), tx.action.push);
      TakingAShare(Available(s.sink), s.outstanding, Share(s, w), w);
    } else {
      SameLedger(p, s, tx, s');
      MulMono(Available(s.sink), Available(s'.sink), s.outstanding);
    }
  }

  lemma MulStrict(x: nat, y: nat, d: nat)
    requires x < y && d > 0
    ensures x * d < y * d
  {
  }

  /** `b1/o1 >= b0/o0` and `b2/o2 >= b1/o1` give `b2/o2 >= b0/o0`, with zero denominators allowed at the end. */
  lemma RatioTransitive(b0: nat, o0: nat, b1: nat, o1: nat, b2: nat, o2: nat)
    requires b1 * o0 >= b0 * o1 && b2 * o1 >= b1 * o2 && o2 <= o1
    ensures b2 * o0 >= b0 * o2
  {
    if o1 > 0 {
      MulMono(b0 * o1, b1 * o0, o2);
      MulMono(b1 * o2, b2 * o1, o0);
      assert b0 * o1 * o2 == (b0 * o2) * o1 && b1 * o0 * o2 == (b1 * o2) * o0;
      assert b2 * o1 * o0 == (b2 * o0) * o1;
      if b2 * o0 < b0 * o2 { MulStrict(b2 * o0, b0 * o2, o1); }
    }
  }

  /** The value of a unit of weight never falls over a sweep. */
  lemma {:induction false} SweepKeepsValue(p: Params, states: seq<State>, txs: seq<Tx>, i: nat, j: nat)
    requires IsRun(p, states, txs) && i <= j < |states|
    requires forall k :: i <= k < j ==> Sweeping(states[k], txs[k], states[k + 1])
    ensures Available(states[i].sink) >= 0 && Available(states[j].sink) >= 0
    ensures Available(states[j].sink) * states[i].outstanding >= Available(states[i].sink) * states[j].outstanding
    decreases j - i
  {
    RunKeeps(p, states, txs, i);
    if i < j {
      RunKeeps(p, states, txs, j - 1);
      SweepKeepsValue(p, states, txs, i, j - 1);
      assert Step(p, states[j - 1], txs[j - 1], states[j - 1 + 1]);
      SweepStep(p, states[j - 1], txs[j - 1], states[j]);
      RatioTransitive(Available(states[i].sink), states[i].outstanding, Available(states[j - 1].sink),
                      states[j - 1].outstanding, Available(states[j].sink), states[j].outstanding);
    }
  }

  /** During a sweep a donor's weight stays, until it is reclaimed. */
  lemma {:induction false} WeightStays(p: Params, states: seq<State>, txs: seq<Tx>, i: nat, j: nat, donor: Address)
    requires IsRun(p, states, txs) && i <= j < |states|
    requires forall k :: i <= k < j ==> Sweeping(states[k], txs[k], states[k + 1])
    ensures Entry(states[j].contributions, donor) in {Entry(states[i].contributions, donor), 0}
    decreases j - i
  {
    if i < j {
      WeightStays(p, states, txs, i, j - 1, donor);
      assert Step(p, states[j - 1], txs[j - 1], states[j - 1 + 1]);
    }
  }

  lemma Swap(a: nat, b: nat, c: nat)
    ensures a * b * c == a * c * b && a * b * c == a * (b * c) && b * c == c * b
  {
    assert b * c == c * b;
    assert a * (b * c) == a * b * c && a * (c * b) == a * c * b;
  }

  lemma ShareMono(b0: nat, o0: nat, b1: nat, o1: nat, w: nat)
    requires o0 > 0 && o1 > 0 && b1 * o0 >= b0 * o1
    ensures b1 * w / o1 >= b0 * w / o0
  {
    var f, g := b0 * w / o0, b1 * w / o1;
    DivExact(b0 * w, o0);
    DivExact(b1 * w, o1);
    MulMono(f * o0, b0 * w, o1);
    Swap(b0, w, o1);
    MulMono(b0 * o1, b1 * o0, w);
    Swap(b1, o0, w);
    MulStrict(b1 * w, (g + 1) * o1, o0);
    Swap(f, o0, o1);
    Swap(g + 1, o1, o0);
    if g < f { MulMono(g + 1, f, o0 * o1); }
  }

  lemma {:induction false} OutstandingFalls(p: Params, states: seq<State>, txs: seq<Tx>, i: nat, j: nat)
    requires IsRun(p, states, txs) && i <= j < |states|
    requires forall k :: i <= k < j ==> Sweeping(states[k], txs[k], states[k + 1])
    ensures states[j].outstanding <= states[i].outstanding
    decreases j - i
  {
    if i < j {
      OutstandingFalls(p, states, txs, i, j - 1);
      RunKeeps(p, states, txs, j - 1);
      assert Step(p, states[j - 1], txs[j - 1], states[j - 1 + 1]);
      SweepStep(p, states[j - 1], txs[j - 1], states[j]);
    }
  }

  /** In whatever order donors sweep, no share falls below the floor of the opening pro-rata share. */
  lemma ShareNeverFalls(p: Params, states: seq<State>, txs: seq<Tx>, i: nat, j: nat, donor: Address)
    requires IsRun(p, states, txs) && i <= j < |states|
    requires forall k :: i <= k < j ==> Sweeping(states[k], txs[k], states[k + 1])
    requires Entry(states[j].contributions, donor) > 0
    ensures states[j].outstanding > 0 && states[i].outstanding > 0
    ensures Available(states[i].sink) >= 0 && Available(states[j].sink) >= 0
    ensures Entry(states[j].contributions, donor) == Entry(states[i].contributions, donor)
    ensures Share(states[j], Entry(states[j].contributions, donor))
         >= Share(states[i], Entry(states[i].contributions, donor))
  {
    WeightStays(p, states, txs, i, j, donor);
    var w := states[j].contributions[donor];
    RunKeeps(p, states, txs, j);
    SumRemove(states[j].contributions, donor);
    SweepKeepsValue(p, states, txs, i, j);
    OutstandingFalls(p, states, txs, i, j);
    ShareMono(Available(states[i].sink), states[i].outstanding, Available(states[j].sink), states[j].outstanding, w);
  }

  /**
   * An accepted reclaim pays the floor of the donor's share of what is available, to the donor and nobody else,
   * and takes exactly that out of it; the donor's weight, and no other, is gone.
   */
  lemma ReclaimsExactly(p: Params, s: State, tx: Tx, s': State)
    requires Inv(p, s) && Step(p, s, tx, s') && tx.action.PReclaim? && Execute(p, s, tx.now, tx.action).Ok?
    ensures s.outstanding > 0 && Available(s.sink) >= 0
    ensures var a, w := tx.action, Entry(s.contributions, tx.action.donor);
      var share := Available(s.sink) * w / s.outstanding;
      && Available(s.sink) - Available(s'.sink) == share
      && (forall who :: Wealth(s', who) == Wealth(s, who) + if who == a.donor then share else 0)
      && SentOrParked(s, s', a.push)
      && (forall who ::
            Entry(s'.contributions, who) == if who == a.donor then 0 else Entry(s.contributions, who))
      && s'.outstanding == s.outstanding - w
  {
    var a, w := tx.action, Entry(s.contributions, tx.action.donor);
    ShareAtMost(s, w);
    PushSpends(s.sink, a.donor, Share(s, w), a.push);
    PushPays(s.sink, a.donor, Share(s, w), a.push);
    hide Push;
  }

  lemma ReclaimWeight(p: Params, s: State, now: U64, a: Action)
    requires s.lastUpdate <= now && a.PReclaim? && Execute(p, s, now, a).Ok?
    ensures Entry(s.contributions, a.donor) > 0
  {
  }

  /**
   * Inside a sweep, in whatever order donors reclaim, each is paid at least the floor of the share it had when the
   * sweep began, and exactly the floor of its share when it reclaims.
   */
  lemma SweepIsFair(p: Params, states: seq<State>, txs: seq<Tx>, i: nat, j: nat)
    requires IsRun(p, states, txs) && i <= j < |txs|
    requires forall k :: i <= k < j ==> Sweeping(states[k], txs[k], states[k + 1])
    requires txs[j].action.PReclaim? && states[j].lastUpdate <= txs[j].now
    requires Execute(p, states[j], txs[j].now, txs[j].action).Ok?
    ensures states[i].outstanding > 0 && states[j].outstanding > 0
    ensures Available(states[i].sink) >= 0 && Available(states[j].sink) >= 0
    ensures var donor := txs[j].action.donor;
      var w := Entry(states[i].contributions, donor);
      var paid := Available(states[j].sink) - Available(states[j + 1].sink);
      && w > 0 && paid == Available(states[j].sink) * w / states[j].outstanding
      && paid >= Available(states[i].sink) * w / states[i].outstanding
      && (forall who :: Wealth(states[j + 1], who) == Wealth(states[j], who) + if who == donor then paid else 0)
      && SentOrParked(states[j], states[j + 1], txs[j].action.push)
  {
    hide Step, Execute, Wealth, SentOrParked;
    assert Step(p, states[j], txs[j], states[j + 1]);
    RunKeeps(p, states, txs, j);
    ReclaimsExactly(p, states[j], txs[j], states[j + 1]);
    ReclaimWeight(p, states[j], txs[j].now, txs[j].action);
    ShareNeverFalls(p, states, txs, i, j, txs[j].action.donor);
  }

  /** The reclaim that empties the ledger leaves exactly nothing available. */
  lemma LastReclaimSweepsAll(p: Params, s: State, now: U64, donor: Address, activityTime: U64, push: bool)
    requires Inv(p, s) && Reclaim(p, s, now, donor, activityTime, push).Ok?
    requires Reclaim(p, s, now, donor, activityTime, push).value.outstanding == 0
    ensures Available(Reclaim(p, s, now, donor, activityTime, push).value.sink) == 0
  {
    var w := s.contributions[donor];
    ShareAtMost(s, w);
    PushSpends(s.sink, donor, Share(s, w), push);
  }

  /** Every other call: what comes in, what is credited for it, and what a claim moves. */
  lemma OthersExactly(p: Params, s: State, tx: Tx, s': State)
    requires Inv(p, s) && Step(p, s, tx, s') && !tx.action.PReimburse?
    requires tx.action.PReclaim? ==> Execute(p, s, tx.now, tx.action).Err?
    ensures var a := tx.action;
      && Available(s'.sink) == Available(s.sink) +
           (match a
            case PDonate(_, value) => value
            case PAbsorb(caller, value) => if caller == p.instance then value else 0
            case PForce(amount) => amount
            case _ => 0)
      && (forall who :: Entry(s'.contributions, who)
            == Entry(s.contributions, who) + if a.PDonate? && who == a.donor then a.value else 0)
      && s'.outstanding == s.outstanding + (if a.PDonate? then a.value else 0)
      && (forall who :: Wealth(s', who) == Wealth(s, who))
      && (forall who :: Entry(s'.sink.claimable, who)
            == if a.PClaim? && a.push && who == a.who then 0 else Entry(s.sink.claimable, who))
      && s'.storedLevel == s.storedLevel && s'.lastUpdate == s.lastUpdate
  {
    if tx.action.PClaim? {
      PullIsFunded(s.sink, tx.action.who);
      if Execute(p, s, tx.now, tx.action).Ok? { PullKeeps(s.sink, tx.action.who, tx.action.push); }
    }
  }

  // ---- The contract as written ----

  class BlobsitterPaymaster {
    const p: Params
    var balance: nat
    var claimable: map<Address, nat>
    var totalClaimable: nat
    var contributions: map<Address, nat>
    var outstanding: nat
    var storedBucketLevel: nat
    var lastBucketUpdate: U64
    ghost var clock: U64
    ghost var received: map<Address, nat>

    ghost function St(): State
      reads this
    {
      State(Sink(balance, claimable, totalClaimable, received), contributions, outstanding,
            storedBucketLevel, lastBucketUpdate, clock)
    }

    ghost predicate Valid()
      reads this
    {
      Inv(p, St())
    }

    constructor (p: Params, now: U64)
      ensures Valid() && St() == Initial(p, now) && this.p == p
    {
      this.p := p;
      balance, claimable, totalClaimable, received := 0, map[], 0, map[];
      contributions, outstanding := map[], 0;
      storedBucketLevel, lastBucketUpdate, clock := p.cap, now, now;
    }

    method Pay(to: Address, amount: nat, push: bool)
      modifies this
      ensures St() == old(St()).(sink := Push(old(St()).sink, to, amount, push))
    {
      if push && amount <= balance {
        balance := balance - amount;
        received := Credit(received, to, amount);
      } else {
        claimable := claimable[to := (if to in claimable then claimable[to] else 0) + amount];
        totalClaimable := totalClaimable + amount;
      }
    }

    method Donate(now: U64, donor: Address, value: nat)
      requires Valid() && clock <= now
      modifies this
      ensures Valid() && St() == Transact(p, old(St()), now, PDonate(donor, value))
    {
      TransactKeeps(p, St(), now, PDonate(donor, value));
      clock, balance := now, balance + value;
      contributions := contributions[donor := (if donor in contributions then contributions[donor] else 0) + value];
      outstanding := outstanding + value;
    }

    method Level(now: U64) returns (level: nat)
      requires Valid() && clock <= now
      ensures level == BucketLevel(p, St(), now) && level <= p.cap
    {
      var refilled := storedBucketLevel + p.ratePerDay * (now - lastBucketUpdate) / DAY;
      level := if refilled > p.cap then p.cap else refilled;
    }

    method Reimburse(now: U64, caller: Address, carrier: Address, amount: nat, push: bool) returns (r: Option<Error>)
      requires Valid() && clock <= now
      modifies this
      ensures Valid() && St() == Transact(p, old(St()), now, PReimburse(caller, carrier, amount, push))
      ensures r == if caller == p.instance then None else Some(OnlyInstance)
    {
      TransactKeeps(p, St(), now, PReimburse(caller, carrier, amount, push));
      if caller != p.instance { clock := now; return Some(OnlyInstance); }
      var level := Level(now);
      clock, lastBucketUpdate := now, now;
      r := None;
      if amount > level || amount > balance - totalClaimable {
        storedBucketLevel := level;
        return;
      }
      storedBucketLevel := level - amount;
      Pay(carrier, amount, push);
    }

    method AbsorbSlash(now: U64, caller: Address, value: nat) returns (r: Option<Error>)
      requires Valid() && clock <= now
      modifies this
      ensures Valid() && St() == Transact(p, old(St()), now, PAbsorb(caller, value))
      ensures r == if caller == p.instance then None else Some(OnlyInstance)
    {
      TransactKeeps(p, St(), now, PAbsorb(caller, value));
      clock := now;
      if caller != p.instance { return Some(OnlyInstance); }
      balance := balance + value;
      r := None;
    }

    method Reclaim(now: U64, donor: Address, activityTime: U64, push: bool) returns (r: Option<Error>)
      requires Valid() && clock <= now
      modifies this
      ensures Valid() && St() == Transact(p, old(St()), now, PReclaim(donor, activityTime, push))
      ensures r.None? <==> now > activityTime + p.dormancyWindow && Entry(old(contributions), donor) > 0
    {
      TransactKeeps(p, St(), now, PReclaim(donor, activityTime, push));
      ReclaimSucceeds(p, St(), now, donor, activityTime, push);
      clock := now;
      if activityTime + p.dormancyWindow >= U64_LIMIT { return Some(Panic); }
      if now <= activityTime + p.dormancyWindow { return Some(NotDormant); }
      var weight := if donor in contributions then contributions[donor] else 0;
      if weight == 0 { return Some(NothingToReclaim); }
      var amount := (balance - totalClaimable) * weight / outstanding;
      outstanding := outstanding - weight;
      contributions := contributions[donor := 0];
      Pay(donor, amount, push);
      r := None;
    }

    method Claim(now: U64, who: Address, push: bool) returns (r: Option<Error>)
      requires Valid() && clock <= now
      modifies this
      ensures Valid() && St() == Transact(p, old(St()), now, PClaim(who, push))
      ensures r.None? <==> push && Entry(old(claimable), who) > 0
    {
      TransactKeeps(p, St(), now, PClaim(who, push));
      PullIsFunded(St().sink, who);
      clock := now;
      var amount := if who in claimable then claimable[who] else 0;
      if amount == 0 { return Some(NothingClaimable); }
      if !push { return Some(PayoutFailed); }
      claimable := claimable[who := 0];
      totalClaimable := totalClaimable - amount;
      balance := balance - amount;
      received := Credit(received, who, amount);
      r := None;
    }
  }
}
