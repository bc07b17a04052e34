/**
 * The daemon's custody loop against the contract: the derived status, the pure planner, and the driver
 * that executes plans. Every plan is one the contract accepts, and no plan or finished proof ever
 * displaces a job still running.
 */
module Custody {
  import opened Data
  import opened Bits
  import opened Forest
  import opened Inclusion
  import opened PayoutSink
  import opened InstanceSpec
  import opened Lifecycle

  datatype Commit = Commit(period: nat, seed: Hash, root: Hash, leafCount: nat)

  /** The custody slice of the on-chain record. */
  datatype ProviderView = ProviderView(active: bool, anchor: U64, lastProvenPlusOne: nat, commit: Option<Commit>)

  /** Decoding the record, plus-one convention included. */
  function ViewOf(pr: Provider): ProviderView {
    ProviderView(pr.status.Active?, pr.anchor, pr.lastProvenPlusOne,
                 if pr.commitPeriodPlusOne != 0
                 then Some(Commit(pr.commitPeriodPlusOne - 1, pr.commitSeed, pr.commitRoot, pr.commitLeafCount))
                 else None)
  }

  datatype CustodyParams = CustodyParams(custodyPeriod: U64, lapseGrace: U64, escapeThreshold: nat)

  datatype DerivedStatus = DCurrent | DStale | DLapseEligible | DLapsable

  function SaturatingSub(a: nat, b: nat): nat {
    if a >= b then a - b else 0
  }

  /** Fresh from `(now, anchor, lastProven)`; a lagging clock reads as period zero. The sum is a 64-bit one. */
  function DeriveStatus(now: U64, anchor: U64, lastProvenPlusOne: nat, c: CustodyParams): DerivedStatus
    requires c.custodyPeriod > 0
  {
    var period := SaturatingSub(now, anchor) / c.custodyPeriod;
    if period <= lastProvenPlusOne then DCurrent
    else if period == lastProvenPlusOne + 1 then DStale
    else if now < Wrap64(anchor + (lastProvenPlusOne + 2) * c.custodyPeriod + c.lapseGrace) then DLapseEligible
    else DLapsable
  }

  datatype InFlight = InFlight(begin: bool, proving: bool, submitting: bool)

  datatype Plan =
    | Idle
    | Begin(beginBy: nat)
    | Prove(commit: Commit, proveBy: nat)
    | Escape(commit: Commit, escapeBy: nat)

  /** One tick's decision. */
  function PlanFor(now: U64, view: ProviderView, c: CustodyParams, busy: InFlight,
                   proverAvailable: bool, proverFailed: bool): Plan
    requires c.custodyPeriod > 0
  {
    if !view.active then Idle
    else
      var period := SaturatingSub(now, view.anchor) / c.custodyPeriod;
      var periodEnd := Wrap64(view.anchor + (period + 1) * c.custodyPeriod);
      if view.commit.Some? && view.commit.value.period == period then
        if busy.submitting then Idle
        else
          var mustEscape := view.commit.value.leafCount == 0 || !proverAvailable || proverFailed
                            || SaturatingSub(periodEnd, now) < c.escapeThreshold;
          if mustEscape then Escape(view.commit.value, periodEnd)
          else if busy.proving then Idle
          else Prove(view.commit.value, periodEnd)
      else if busy.begin || busy.submitting || view.lastProvenPlusOne > period then Idle
      else Begin(periodEnd)
  }

  /** The daemon plans with the contract's own parameters. */
  predicate SameParams(p: Params, c: CustodyParams) {
    c.custodyPeriod == p.custodyPeriod > 0 && c.lapseGrace == p.lapseGrace
  }

  // ---- The daemon's status is the contract's ----

  predicate SameStatus(theirs: CustodyStatus, mine: DerivedStatus) {
    match mine
    case DCurrent => theirs == Current
    case DStale => theirs == Stale
    case DLapseEligible => theirs == LapseEligible
    case DLapsable => theirs == Lapsable
  }

  /**
   * The two read the same status exactly when fewer than two periods are missed or the end of the grace fits
   * in 64 bits; the contract computes it in 256.
   */
  lemma StatusAgrees(p: Params, c: CustodyParams, s: State, now: U64, pid: nat)
    requires SameParams(p, c) && pid in s.providers && s.providers[pid].status.Active? && s.providers[pid].anchor <= now
    ensures var pr := s.providers[pid];
      SameStatus(CustodyStatusOf(p, s, now, pid), DeriveStatus(now, pr.anchor, pr.lastProvenPlusOne, c)) <==>
      Period(p, pr.anchor, now) < pr.lastProvenPlusOne + 2 || EligibleAt(p, pr) + p.lapseGrace < U64_LIMIT
  {
    var pr := s.providers[pid];
    PeriodReached(p, pr.anchor, now, pr.lastProvenPlusOne + 2);
  }

  /** Past that bound they differ: two missed one-second periods under the longest grace. */
  lemma HugeGraceMisreads(p: Params, c: CustodyParams, operator: Address)
    requires SameParams(p, c) && p.custodyPeriod == 1 && p.lapseGrace == U64_LIMIT - 1 && operator != 0
    ensures Stake(p, Initial(0), 0, p.stakeWei, operator, operator).Ok?
    ensures var s := Stake(p, Initial(0), 0, p.stakeWei, operator, operator).value;
      1 in s.providers && s.providers[1].anchor == 0 &&
      CustodyStatusOf(p, s, 2, 1) == LapseEligible &&
      DeriveStatus(2, 0, s.providers[1].lastProvenPlusOne, c) == DLapsable
  {
  }

  // ---- Every plan is acceptable ----

  /** The answer the escape hatch reveals: the true chunks and paths at the drawn positions. */
  ghost predicate HonestSamples(p: Params, s: State, pid: nat, commit: Commit, samples: seq<ChunkProof>) {
    commit.leafCount <= |s.dataset| &&
    |samples| == (if commit.leafCount == 0 then 0 else p.maxSample) &&
    forall j :: 0 <= j < |samples| ==>
      var i := CustodyIndex(p, commit.seed, pid, j, commit.leafCount);
      samples[j] == ChunkProof(s.dataset[i], ProofPath(s.dataset, i, commit.leafCount))
  }

  /** A plan read off the record at time `now` passes the contract's guards at that time. */
  lemma PlanMeetsContract(p: Params, c: CustodyParams, s: State, now: U64, pid: nat,
                          busy: InFlight, available: bool, failed: bool)
    requires Inv(p, s) && s.clock <= now && SameParams(p, c) && pid in s.providers
    ensures var pr := s.providers[pid];
      match PlanFor(now, ViewOf(pr), c, busy, available, failed)
      case Idle => true
      case Begin(_) => forall seed :: BeginProof(p, s, now, pr.operator, pid, seed).Ok?
      case Prove(commit, _) =>
        commit.leafCount > 0 && ViewOf(pr).commit == Some(commit) && SubmitProof(p, s, now, pr.operator, pid, true).Ok?
      case Escape(commit, _) =>
        ViewOf(pr).commit == Some(commit) && SubmitGuards(p, pr, now, pr.operator).Ok?
  {
    assert ProviderKept(p, s, s.providers[pid]);
  }

  /** Inside the committed period an escape with the true data is accepted, empty snapshots included. */
  lemma HonestEscapePasses(p: Params, s: State, now: U64, pid: nat, commit: Commit, samples: seq<ChunkProof>)
    requires Inv(p, s) && pid in s.providers && ViewOf(s.providers[pid]).commit == Some(commit)
    requires SubmitGuards(p, s.providers[pid], now, s.providers[pid].operator).Ok?
    requires HonestSamples(p, s, pid, commit, samples)
    ensures SubmitProofEscape(p, s, now, s.providers[pid].operator, pid, commit.leafCount,
                              PeakList(s.dataset, 0, commit.leafCount), samples).Ok?
  {
    hide Verifies, ProofPath, PeakList, Period;
    var pr := s.providers[pid];
    var n, seed := pr.commitLeafCount, pr.commitSeed;
    assert ProviderKept(p, s, pr);
    forall j | 0 <= j < |samples|
      ensures Verifies(samples[j].chunk, CustodyIndex(p, seed, pid, j, n), samples[j].path, n,
                       PeakList(s.dataset, 0, n))
    {
      VerifiesExactly(s.dataset, CustodyIndex(p, seed, pid, j, n), n, samples[j].chunk, samples[j].path);
    }
  }

  /** So a planned escape goes through. */
  lemma HonestEscapeIsAccepted(p: Params, c: CustodyParams, s: State, now: U64, pid: nat, busy: InFlight,
                               available: bool, failed: bool, samples: seq<ChunkProof>)
    requires Inv(p, s) && s.clock <= now && SameParams(p, c) && pid in s.providers
    requires PlanFor(now, ViewOf(s.providers[pid]), c, busy, available, failed).Escape?
    requires var commit := PlanFor(now, ViewOf(s.providers[pid]), c, busy, available, failed).commit;
      HonestSamples(p, s, pid, commit, samples)
    ensures var commit := PlanFor(now, ViewOf(s.providers[pid]), c, busy, available, failed).commit;
      SubmitProofEscape(p, s, now, s.providers[pid].operator, pid, commit.leafCount,
                        PeakList(s.dataset, 0, commit.leafCount), samples).Ok?
  {
    hide Inv, HonestSamples, SubmitProofEscape;
    PlanMeetsContract(p, c, s, now, pid, busy, available, failed);
    var commit := PlanFor(now, ViewOf(s.providers[pid]), c, busy, available, failed).commit;
    HonestEscapePasses(p, s, now, pid, commit, samples);
  }

  /** The planner's choice in terms of the contract's period index. */
  lemma PlanByPeriod(p: Params, c: CustodyParams, pr: Provider, now: U64, busy: InFlight, available: bool, failed: bool)
    requires SameParams(p, c) && pr.status.Active? && pr.anchor <= now
    ensures var plan := PlanFor(now, ViewOf(pr), c, busy, available, failed);
      if pr.commitPeriodPlusOne == Period(p, pr.anchor, now) + 1 then
        (busy.submitting ==> plan.Idle?) && (!busy.submitting && !busy.proving ==> plan.Prove? || plan.Escape?)
      else if pr.lastProvenPlusOne > Period(p, pr.anchor, now) || busy.begin || busy.submitting then plan.Idle?
      else plan.Begin?
  {
  }

  /** Seconds to the end of the contract's period `period`, read in 64 bits as the daemon does. */
  function Remaining(p: Params, anchor: U64, now: U64, period: nat): nat {
    var end := anchor + (period + 1) * p.custodyPeriod;
    if end < U64_LIMIT then SaturatingSub(end, now) else SaturatingSub(end - U64_LIMIT, now)
  }

  /** A period ends after now, less than a whole word later; an end that wraps reads as past already. */
  lemma EndIsNear(p: Params, anchor: U64, now: U64, period: nat)
    requires p.custodyPeriod > 0 && period == SaturatingSub(now, anchor) / p.custodyPeriod
    ensures var end := anchor + (period + 1) * p.custodyPeriod;
      now < end && Wrap64(end) == (if end < U64_LIMIT then end else end - U64_LIMIT) &&
      (anchor <= now && end >= U64_LIMIT ==> Remaining(p, anchor, now, period) == 0)
  {
    var x, d := SaturatingSub(now, anchor), p.custodyPeriod;
    var end := anchor + (period + 1) * d;
    assert (period + 1) * d == period * d + d;
    DivExact(x, d);
    assert (x / d + 1) * d == x / d * d + d;
    assert end <= (if now >= anchor then now else anchor) + d;
  }

  /**
   * The whole of a decision, from the record and the clock. With this period committed and nothing submitting it
   * is an escape exactly when the snapshot is empty, no prover is available, the prover has failed on this period,
   * or fewer than the threshold of seconds remain of the contract's period; else it starts a prover unless one
   * runs. A clock behind the anchor reads as period zero.
   */
  lemma PlanExactly(p: Params, c: CustodyParams, pr: Provider, now: U64, busy: InFlight, available: bool, failed: bool)
    requires SameParams(p, c)
    ensures var plan, period := PlanFor(now, ViewOf(pr), c, busy, available, failed),
                                (if now < pr.anchor then 0 else (now - pr.anchor) / p.custodyPeriod);
      var end := pr.anchor + (period + 1) * p.custodyPeriod;
      if !pr.status.Active? then plan == Idle
      else if pr.commitPeriodPlusOne == period + 1 then
        var commit := Commit(period, pr.commitSeed, pr.commitRoot, pr.commitLeafCount);
        if busy.submitting then plan == Idle
        else if pr.commitLeafCount == 0 || !available || failed ||
                Remaining(p, pr.anchor, now, period) < c.escapeThreshold then
          plan.Escape? && plan.commit == commit && (end < U64_LIMIT ==> plan.escapeBy == end)
        else if busy.proving then plan == Idle
        else plan.Prove? && plan.commit == commit && (end < U64_LIMIT ==> plan.proveBy == end)
      else if pr.lastProvenPlusOne > period || busy.begin || busy.submitting then plan == Idle
      else plan.Begin? && (end < U64_LIMIT ==> plan.beginBy == end)
  {
    var period := SaturatingSub(now, pr.anchor) / c.custodyPeriod;
    EndIsNear(p, pr.anchor, now, period);
    hide Wrap64;
  }

  // ---- Plans, executed ----

  const IDLE: InFlight := InFlight(false, false, false)

  /** The transaction a plan sends: the operator's begin, a verified proof, or an escape with these samples. */
  function Sent(plan: Plan, s: State, pid: nat, seed: Hash, samples: seq<ChunkProof>): Action
    requires pid in s.providers && !plan.Idle?
    requires plan.Escape? ==> plan.commit.leafCount <= |s.dataset|
  {
    var operator := s.providers[pid].operator;
    match plan
    case Begin(_) => ABegin(operator, pid, seed)
    case Prove(_, _) => AProof(operator, pid, true)
    case Escape(commit, _) =>
      AEscape(operator, pid, commit.leafCount, PeakList(s.dataset, 0, commit.leafCount), samples)
  }

  /** CURRENT, and nothing to do, at one instant and whatever is in flight. */
  predicate QuietAt(p: Params, c: CustodyParams, s: State, pid: nat, t: U64,
                    busy: InFlight, available: bool, failed: bool)
    requires SameParams(p, c) && pid in s.providers && s.providers[pid].anchor <= t
  {
    CustodyStatusOf(p, s, t, pid) == Current &&
    PlanFor(t, ViewOf(s.providers[pid]), c, busy, available, failed) == Idle
  }

  /** Quiet from `t` to the end of the period. */
  ghost predicate QuietFrom(p: Params, c: CustodyParams, s: State, pid: nat, t: U64)
    requires SameParams(p, c)
  {
    pid in s.providers && s.providers[pid].anchor <= t &&
    forall t': U64, busy, available, failed ::
      t <= t' && Period(p, s.providers[pid].anchor, t') == Period(p, s.providers[pid].anchor, t) ==>
        QuietAt(p, c, s, pid, t', busy, available, failed)
  }

  /** A provider whose commit is void and whose current period is proven has nothing to do in it. */
  lemma ProvenIsQuiet(p: Params, c: CustodyParams, s: State, pid: nat, t: U64)
    requires SameParams(p, c) && pid in s.providers && s.providers[pid].status.Active? && s.providers[pid].anchor <= t
    requires s.providers[pid].commitPeriodPlusOne == 0
    requires s.providers[pid].lastProvenPlusOne == Period(p, s.providers[pid].anchor, t) + 1
    ensures QuietFrom(p, c, s, pid, t)
  {
    hide Period, PlanFor;
    var pr := s.providers[pid];
    forall t': U64, busy, available, failed | t <= t' && Period(p, pr.anchor, t') == Period(p, pr.anchor, t)
      ensures QuietAt(p, c, s, pid, t', busy, available, failed)
    {
      PlanByPeriod(p, c, pr, t', busy, available, failed);
    }
  }

  /** An accepted proof, by either path, records the period and voids the commit. */
  lemma ProofLands(p: Params, s: State, now: U64, a: Action, pid: nat)
    requires Stored(s) && (a.AProof? || a.AEscape?) && a.pid == pid && Execute(p, s, now, a).Ok?
    ensures p.custodyPeriod > 0 && pid in s.providers && s.providers[pid].anchor <= now
    ensures var s' := Transact(p, s, now, a);
      pid in s'.providers && s'.providers[pid].status.Active? && s'.providers[pid].anchor == s.providers[pid].anchor &&
      s'.providers[pid].commitPeriodPlusOne == 0 &&
      s'.providers[pid].lastProvenPlusOne == Period(p, s.providers[pid].anchor, now) + 1
  {
    hide Period, RevealsVerify;
  }

  // ---- Landing after other transactions ----

  /** Any later state by time `t` that still holds this record: whatever anybody else did in between. */
  ghost predicate LaterWithRecord(p: Params, s: State, s': State, pid: nat, t: U64) {
    Inv(p, s') && Stored(s') && Evolves(s, s') && s'.clock <= t &&
    pid in s.providers && pid in s'.providers && s'.providers[pid] == s.providers[pid]
  }

  lemma AnchorInPast(p: Params, s: State, pid: nat)
    requires Inv(p, s) && pid in s.providers
    ensures s.providers[pid].anchor <= s.clock
  {
    assert ProviderKept(p, s, s.providers[pid]);
  }

  /** Declarations in between change neither the samples read before them nor the pinned peaks. */
  lemma HonestLater(p: Params, s: State, s': State, pid: nat, commit: Commit, samples: seq<ChunkProof>)
    requires s.dataset <= s'.dataset && HonestSamples(p, s, pid, commit, samples)
    ensures HonestSamples(p, s', pid, commit, samples)
    ensures PeakList(s'.dataset, 0, commit.leafCount) == PeakList(s.dataset, 0, commit.leafCount)
  {
    hide ProofPath, PeakList, CustodyIndex;
    var n, more := commit.leafCount, s'.dataset[|s.dataset|..];
    assert s'.dataset == s.dataset + more;
    PeakListStable(s.dataset, more, 0, n);
    forall j | 0 <= j < |samples|
      ensures var i := CustodyIndex(p, commit.seed, pid, j, n);
        samples[j] == ChunkProof(s'.dataset[i], ProofPath(s'.dataset, i, n))
    {
      var i := CustodyIndex(p, commit.seed, pid, j, n);
      ProofsOnlyExtend(s.dataset, more, i, n, n);
    }
  }

  /**
   * Planned on `s` at `t1`, landed on `s'` at `t2`: the plan proves or escapes, the contract accepts it when an
   * escape holds the data, and from then on the provider is CURRENT and idle.
   */
  ghost predicate OnePlanReaches(p: Params, c: CustodyParams, s: State, s': State, pid: nat, t1: U64, t2: U64,
                                 available: bool, failed: bool, seed: Hash, samples: seq<ChunkProof>)
    requires Stored(s') && SameParams(p, c) && pid in s.providers
  {
    var plan := PlanFor(t1, ViewOf(s.providers[pid]), c, IDLE, available, failed);
    (plan.Prove? || plan.Escape?) &&
    ((plan.Escape? ==> HonestSamples(p, s, pid, plan.commit, samples)) ==>
      var sent := Sent(plan, s, pid, seed, samples);
      Execute(p, s', t2, sent).Ok? && QuietFrom(p, c, Transact(p, s', t2, sent), pid, t2))
  }

  /** The commit of this period has landed, whoever sent it. */
  predicate Committed(p: Params, s: State, pid: nat, t: U64)
    requires p.custodyPeriod > 0
  {
    pid in s.providers && s.providers[pid].status.Active? && s.providers[pid].anchor <= t &&
    s.providers[pid].commitPeriodPlusOne == Period(p, s.providers[pid].anchor, t) + 1
  }

  lemma SamplesInData(p: Params, s: State, pid: nat, commit: Commit, samples: seq<ChunkProof>)
    requires HonestSamples(p, s, pid, commit, samples)
    ensures commit.leafCount <= |s.dataset|
  {
  }

  lemma DataOnlyGrows(s: State, s': State)
    requires Evolves(s, s')
    ensures s.dataset <= s'.dataset
  {
  }

  /** With this period committed and nothing in flight, what the planner sends is a proof the contract accepts. */
  lemma ProofIsAccepted(p: Params, c: CustodyParams, s: State, s': State, pid: nat, t1: U64, t2: U64,
                        available: bool, failed: bool, seed: Hash, samples: seq<ChunkProof>)
    requires Inv(p, s) && SameParams(p, c) && s.clock <= t1 <= t2 && LaterWithRecord(p, s, s', pid, t2)
    requires Committed(p, s, pid, t1) && Committed(p, s, pid, t2)
    ensures var plan := PlanFor(t1, ViewOf(s.providers[pid]), c, IDLE, available, failed);
      (plan.Prove? || plan.Escape?) &&
      ((plan.Escape? ==> HonestSamples(p, s, pid, plan.commit, samples)) ==>
        var sent := Sent(plan, s, pid, seed, samples);
        (sent.AProof? || sent.AEscape?) && sent.pid == pid && Execute(p, s', t2, sent).Ok?)
  {
    hide Period, Inv, HonestSamples, SubmitProofEscape, PlanFor, Evolves;
    var pr := s.providers[pid];
    var plan := PlanFor(t1, ViewOf(pr), c, IDLE, available, failed);
    PlanByPeriod(p, c, pr, t1, IDLE, available, failed);
    PlanMeetsContract(p, c, s, t1, pid, IDLE, available, failed);
    if plan.Escape? && HonestSamples(p, s, pid, plan.commit, samples) {
      SamplesInData(p, s, pid, plan.commit, samples);
      DataOnlyGrows(s, s');
      HonestLater(p, s, s', pid, plan.commit, samples);
      HonestEscapePasses(p, s', t2, pid, plan.commit, samples);
    }
  }

  /** So one plan suffices. */
  lemma OnePlanReachesCurrent(p: Params, c: CustodyParams, s: State, s': State, pid: nat, t1: U64, t2: U64,
                              available: bool, failed: bool, seed: Hash, samples: seq<ChunkProof>)
    requires Inv(p, s) && SameParams(p, c) && s.clock <= t1 <= t2 && LaterWithRecord(p, s, s', pid, t2)
    requires Committed(p, s, pid, t1) && Committed(p, s, pid, t2)
    ensures OnePlanReaches(p, c, s, s', pid, t1, t2, available, failed, seed, samples)
  {
    hide Period, Inv, HonestSamples, QuietFrom, Transact, PlanFor, Execute, Evolves;
    var plan := PlanFor(t1, ViewOf(s.providers[pid]), c, IDLE, available, failed);
    ProofIsAccepted(p, c, s, s', pid, t1, t2, available, failed, seed, samples);
    if plan.Escape? ==> HonestSamples(p, s, pid, plan.commit, samples) {
      if plan.Escape? { SamplesInData(p, s, pid, plan.commit, samples); }
      var sent := Sent(plan, s, pid, seed, samples);
      ProofLands(p, s', t2, sent, pid);
      ProvenIsQuiet(p, c, Transact(p, s', t2, sent), pid, t2);
    }
  }

  /** An uncommitted, unproven period: the planner opens the window and the contract accepts. */
  lemma BeginLands(p: Params, c: CustodyParams, s: State, s': State, pid: nat, t1: U64, t2: U64, t3: U64,
                   available: bool, failed: bool, seed: Hash)
    requires SameParams(p, c) && pid in s.providers && s.providers[pid].status.Active?
    requires s.clock <= t1 <= t2 <= t3 && s.providers[pid].anchor <= t1 && LaterWithRecord(p, s, s', pid, t2)
    requires Period(p, s.providers[pid].anchor, t1) == Period(p, s.providers[pid].anchor, t3)
    requires s.providers[pid].lastProvenPlusOne <= Period(p, s.providers[pid].anchor, t1)
    requires !Committed(p, s, pid, t1)
    ensures var plan := PlanFor(t1, ViewOf(s.providers[pid]), c, IDLE, available, failed);
      plan.Begin? && Execute(p, s', t2, Sent(plan, s, pid, seed, [])).Ok? &&
      Committed(p, Transact(p, s', t2, Sent(plan, s, pid, seed, [])), pid, t3)
  {
    hide Period, Inv, PlanFor;
    var pr := s.providers[pid];
    PlanByPeriod(p, c, pr, t1, IDLE, available, failed);
    PeriodGrows(p, pr.anchor, t1, t2);
    PeriodGrows(p, pr.anchor, t2, t3);
  }

  /**
   * Planned on `s` at `t1`, landed on `s1` at `t2`: the plan opens the window, the contract accepts, and
   * wherever that record is next found one plan made at `t3` and landed at `t4` finishes.
   */
  ghost predicate BeginThenOnePlan(p: Params, c: CustodyParams, s: State, s1: State, pid: nat,
                                   t1: U64, t2: U64, t3: U64, t4: U64, available: bool, failed: bool, seed: Hash)
    requires Stored(s1) && SameParams(p, c) && pid in s.providers
  {
    var plan := PlanFor(t1, ViewOf(s.providers[pid]), c, IDLE, available, failed);
    plan.Begin? && Execute(p, s1, t2, Sent(plan, s, pid, seed, [])).Ok? &&
    var s2 := Transact(p, s1, t2, Sent(plan, s, pid, seed, []));
    forall s3, s4, samples :: LaterWithRecord(p, s2, s3, pid, t3) && LaterWithRecord(p, s3, s4, pid, t4) ==>
      OnePlanReaches(p, c, s3, s4, pid, t3, t4, available, failed, seed, samples)
  }

  lemma BeginThenOnePlanSuffices(p: Params, c: CustodyParams, s: State, s1: State, pid: nat,
                                 t1: U64, t2: U64, t3: U64, t4: U64, available: bool, failed: bool, seed: Hash)
    requires SameParams(p, c) && pid in s.providers && s.providers[pid].status.Active?
    requires s.clock <= t1 <= t2 <= t3 <= t4 && s.providers[pid].anchor <= t1 && LaterWithRecord(p, s, s1, pid, t2)
    requires Period(p, s.providers[pid].anchor, t1) == Period(p, s.providers[pid].anchor, t4)
    requires s.providers[pid].lastProvenPlusOne <= Period(p, s.providers[pid].anchor, t1)
    requires !Committed(p, s, pid, t1)
    ensures BeginThenOnePlan(p, c, s, s1, pid, t1, t2, t3, t4, available, failed, seed)
  {
    hide Period, Inv, OnePlanReaches, PlanFor, Transact, Execute, Sent, Evolves;
    var pr := s.providers[pid];
    PeriodGrows(p, pr.anchor, t1, t3);
    PeriodGrows(p, pr.anchor, t3, t4);
    var plan := PlanFor(t1, ViewOf(pr), c, IDLE, available, failed);
    BeginLands(p, c, s, s1, pid, t1, t2, t3, available, failed, seed);
    BeginLands(p, c, s, s1, pid, t1, t2, t4, available, failed, seed);
    var s2 := Transact(p, s1, t2, Sent(plan, s, pid, seed, []));
    forall s3, s4, samples | LaterWithRecord(p, s2, s3, pid, t3) && LaterWithRecord(p, s3, s4, pid, t4)
      ensures OnePlanReaches(p, c, s3, s4, pid, t3, t4, available, failed, seed, samples)
    {
      OnePlanReachesCurrent(p, c, s3, s4, pid, t3, t4, available, failed, seed, samples);
    }
  }

  /**
   * From any ACTIVE, unproven period with nothing in flight, two plans suffice, whatever lands between planning
   * and inclusion as long as the record is left alone. If the period is committed already, one does.
   */
  lemma TwoPlansReachCurrent(p: Params, c: CustodyParams, s: State, s1: State, pid: nat,
                             t1: U64, t2: U64, t3: U64, t4: U64, available: bool, failed: bool, seed: Hash)
    requires Inv(p, s) && SameParams(p, c) && pid in s.providers && s.providers[pid].status.Active?
    requires s.clock <= t1 <= t2 <= t3 <= t4 && LaterWithRecord(p, s, s1, pid, t2)
    ensures s.providers[pid].anchor <= t1
    ensures var pr := s.providers[pid];
      Period(p, pr.anchor, t1) == Period(p, pr.anchor, t4) && pr.lastProvenPlusOne <= Period(p, pr.anchor, t1) ==>
        if Committed(p, s, pid, t1) then
          forall samples :: OnePlanReaches(p, c, s, s1, pid, t1, t2, available, failed, seed, samples)
        else
          BeginThenOnePlan(p, c, s, s1, pid, t1, t2, t3, t4, available, failed, seed)
  {
    hide Period, Inv, OnePlanReaches, BeginThenOnePlan, Evolves;
    AnchorInPast(p, s, pid);
    var pr := s.providers[pid];
    if Period(p, pr.anchor, t1) == Period(p, pr.anchor, t4) && pr.lastProvenPlusOne <= Period(p, pr.anchor, t1) {
      if Committed(p, s, pid, t1) {
        PeriodGrows(p, pr.anchor, t1, t2);
        PeriodGrows(p, pr.anchor, t2, t4);
        forall samples ensures OnePlanReaches(p, c, s, s1, pid, t1, t2, available, failed, seed, samples) {
          OnePlanReachesCurrent(p, c, s, s1, pid, t1, t2, available, failed, seed, samples);
        }
      } else {
        BeginThenOnePlanSuffices(p, c, s, s1, pid, t1, t2, t3, t4, available, failed, seed);
      }
    }
  }

  // ---- The driver ----

  datatype ProverOutcome = Proof | ProverFailed

  /** What the world reports about background jobs since the last tick. */
  datatype Reports = Reports(beginDone: bool, submitDone: bool, proving: Option<ProverOutcome>)

  /** What is still in flight once finished work is collected; a finished proof turns into its submission. */
  function Left(begin: bool, proving: Option<nat>, submitting: bool, view: ProviderView, reports: Reports): InFlight {
    InFlight(
      begin && !reports.beginDone,
      proving.Some? && reports.proving.None?,
      (submitting && !reports.submitDone) ||
      (proving.Some? && reports.proving == Some(Proof) && view.commit.Some?
       && view.commit.value.period == proving.value))
  }

  /** A plan never asks for a slot in use. */
  lemma PlanRespects(now: U64, view: ProviderView, c: CustodyParams, busy: InFlight, available: bool, failed: bool)
    requires c.custodyPeriod > 0
    ensures var plan := PlanFor(now, view, c, busy, available, failed);
      (plan.Begin? ==> !busy.begin) && (plan.Prove? ==> !busy.proving) && (plan.Escape? ==> !busy.submitting)
  {
    hide Wrap64;
  }

  /** What is held between ticks: the jobs in flight, and the last period a prover failed on. */
  datatype Jobs = Jobs(begin: bool, proving: Option<nat>, submitting: bool, failedPeriod: Option<nat>)

  /** The period a prover last failed on, the reports of this tick included. */
  function LastFailure(proving: Option<nat>, failedPeriod: Option<nat>, reports: Reports): Option<nat> {
    if proving.Some? && reports.proving == Some(ProverFailed) then proving else failedPeriod
  }

  /** Whether a prover is known to have failed on the committed period. */
  predicate Failed(proving: Option<nat>, failedPeriod: Option<nat>, view: ProviderView, reports: Reports) {
    view.commit.Some? && Some(view.commit.value.period) == LastFailure(proving, failedPeriod, reports)
  }

  /** Finished work is collected, a proof of the committed period turns into its submission, the plan is started. */
  function AfterTick(jobs: Jobs, view: ProviderView, reports: Reports, plan: Plan): Jobs {
    var left := Left(jobs.begin, jobs.proving, jobs.submitting, view, reports);
    Jobs(left.begin || plan.Begin?,
         if plan.Prove? then Some(plan.commit.period) else if left.proving then jobs.proving else None,
         left.submitting || plan.Escape?,
         LastFailure(jobs.proving, jobs.failedPeriod, reports))
  }

  /**
   * Executes plans. The ghost counters say how many jobs of each kind were ever started and collected: a
   * job overwritten while running would be started but neither held nor collected.
   */
  class CustodyDriver {
    const c: CustodyParams
    var begin: bool
    var proving: Option<nat>
    var submitting: bool
    var proverFailedPeriod: Option<nat>
    var lastStatus: Option<DerivedStatus>
    ghost var started: (nat, nat, nat)
    ghost var collected: (nat, nat, nat)

    ghost predicate Valid()
      reads this
    {
      c.custodyPeriod > 0 &&
      started.0 == collected.0 + (if begin then 1 else 0) &&
      started.1 == collected.1 + (if proving.Some? then 1 else 0) &&
      started.2 == collected.2 + (if submitting then 1 else 0)
    }

    function Held(): Jobs
      reads this
    {
      Jobs(begin, proving, submitting, proverFailedPeriod)
    }

    constructor (c: CustodyParams)
      requires c.custodyPeriod > 0
      ensures Valid() && this.c == c && Held() == Jobs(false, None, false, None)
    {
      this.c := c;
      begin, proving, submitting, proverFailedPeriod, lastStatus := false, None, false, None, None;
      started, collected := (0, 0, 0), (0, 0, 0);
    }

    method SpawnBegin()
      requires Valid() && !begin
      modifies this
      ensures Valid() && begin && unchanged(`proving, `submitting, `proverFailedPeriod, `lastStatus, `collected)
      ensures started == (old(started).0 + 1, old(started).1, old(started).2)
    {
      begin, started := true, (started.0 + 1, started.1, started.2);
    }

    method SpawnProve(commit: Commit)
      requires Valid() && proving.None?
      modifies this
      ensures Valid() && proving == Some(commit.period)
      ensures unchanged(`begin, `submitting, `proverFailedPeriod, `lastStatus, `collected)
      ensures started == (old(started).0, old(started).1 + 1, old(started).2)
    {
      proving, started := Some(commit.period), (started.0, started.1 + 1, started.2);
    }

    /** A proof submission or an escape: both use the one submitting slot. */
    method SpawnSubmit()
      requires Valid() && !submitting
      modifies this
      ensures Valid() && submitting && unchanged(`begin, `proving, `proverFailedPeriod, `lastStatus, `collected)
      ensures started == (old(started).0, old(started).1, old(started).2 + 1)
    {
      submitting, started := true, (started.0, started.1, started.2 + 1);
    }

    /**
     * Collect finished work. A finished proof is submitted only if the commit on chain is of the period it proves
     * and nothing else is submitting; a failed prover marks its period for the escape hatch.
     */
    method Reap(view: ProviderView, reports: Reports)
      requires Valid()
      modifies this
      ensures Valid() && lastStatus == old(lastStatus)
      ensures begin == (old(begin) && !reports.beginDone)
      ensures proving == if reports.proving.Some? then None else old(proving)
      ensures submitting ==
        ((old(submitting) && !reports.submitDone) ||
         (old(proving).Some? && reports.proving == Some(Proof) && view.commit.Some?
          && view.commit.value.period == old(proving).value))
      ensures started == (old(started).0, old(started).1, old(started).2 +
                          if submitting && !(old(submitting) && !reports.submitDone) then 1 else 0)
      ensures proverFailedPeriod ==
        if old(proving).Some? && reports.proving == Some(ProverFailed) then old(proving) else old(proverFailedPeriod)
    {
      if begin && reports.beginDone { begin, collected := false, (collected.0 + 1, collected.1, collected.2); }
      if submitting && reports.submitDone {
        submitting, collected := false, (collected.0, collected.1, collected.2 + 1);
      }
      if proving.Some? && reports.proving.Some? {
        var period := proving.value;
        proving, collected := None, (collected.0, collected.1 + 1, collected.2);
        match reports.proving.value
        case Proof =>
          if view.commit.Some? && view.commit.value.period == period && !submitting { SpawnSubmit(); }
        case ProverFailed =>
          proverFailedPeriod := Some(period);
      }
    }

    /** Start what a plan asks for, in its own slot. */
    method Start(plan: Plan)
      requires Valid() && (plan.Begin? ==> !begin) && (plan.Prove? ==> proving.None?) && (plan.Escape? ==> !submitting)
      modifies this
      ensures Valid() && lastStatus == old(lastStatus)
      ensures Held() == old(Held()).(
        begin := old(begin) || plan.Begin?,
        proving := if plan.Prove? then Some(plan.commit.period) else old(proving),
        submitting := old(submitting) || plan.Escape?)
      ensures started == (old(started).0 + (if plan.Begin? then 1 else 0),
                          old(started).1 + (if plan.Prove? then 1 else 0),
                          old(started).2 + (if plan.Escape? then 1 else 0))
    {
      match plan
      case Idle =>
      case Begin(_) => SpawnBegin();
      case Prove(commit, _) => SpawnProve(commit);
      case Escape(_, _) => SpawnSubmit();
    }

    /** One tick: reap, note the status, execute the plan. No live job is ever displaced. */
    method Drive(now: U64, view: ProviderView, proverAvailable: bool, reports: Reports) returns (plan: Plan)
      requires Valid()
      modifies this
      ensures Valid()
      ensures plan == PlanFor(now, view, c, Left(old(begin), old(proving), old(submitting), view, reports),
                              proverAvailable, Failed(old(proving), old(proverFailedPeriod), view, reports))
      ensures view.active ==> lastStatus == Some(DeriveStatus(now, view.anchor, view.lastProvenPlusOne, c))
      ensures !view.active ==> lastStatus == old(lastStatus)
      ensures Held() == AfterTick(old(Held()), view, reports, plan)
      ensures var left := Left(old(begin), old(proving), old(submitting), view, reports);
        started == (old(started).0 + (if plan.Begin? then 1 else 0), old(started).1 + (if plan.Prove? then 1 else 0),
                    old(started).2 + (if plan.Escape? then 1 else 0) +
                      (if left.submitting && !(old(submitting) && !reports.submitDone) then 1 else 0))
      ensures old(begin) && !reports.beginDone ==> !plan.Begin?
      ensures old(proving).Some? && reports.proving.None? ==> !plan.Prove?
      ensures old(submitting) && !reports.submitDone ==> !plan.Escape?
    {
      hide PlanFor, DeriveStatus;
      Reap(view, reports);
      if view.active {
        lastStatus := Some(DeriveStatus(now, view.anchor, view.lastProvenPlusOne, c));
      }
      var failed := view.commit.Some? && proverFailedPeriod == Some(view.commit.value.period);
      var busy := InFlight(begin, proving.Some?, submitting);
      PlanRespects(now, view, c, busy, proverAvailable, failed);
      plan := PlanFor(now, view, c, busy, proverAvailable, failed);
      Start(plan);
    }
  }

  // ---- Ticks in a row ----

  /** What one tick is given. */
  datatype Tick = Tick(now: U64, view: ProviderView, proverAvailable: bool, reports: Reports)

  /** This tick reports that the prover of period `q` has failed. */
  predicate ReportsFailure(jobs: Jobs, tick: Tick, q: nat) {
    jobs.proving == Some(q) && tick.reports.proving == Some(ProverFailed)
  }

  /** The provider is ACTIVE, and `q` is both the current period and the committed one. */
  predicate InCommittedPeriod(c: CustodyParams, tick: Tick, q: nat)
    requires c.custodyPeriod > 0
  {
    tick.view.active && tick.view.commit.Some? && tick.view.commit.value.period == q &&
    SaturatingSub(tick.now, tick.view.anchor) / c.custodyPeriod == q
  }

  /** A submission is in flight when this tick plans. */
  predicate Submitting(jobs: Jobs, tick: Tick) {
    Left(jobs.begin, jobs.proving, jobs.submitting, tick.view, tick.reports).submitting
  }

  lemma FailedMeansEscape(c: CustodyParams, jobs: Jobs, tick: Tick, q: nat)
    requires c.custodyPeriod > 0 && InCommittedPeriod(c, tick, q) && !Submitting(jobs, tick)
    requires LastFailure(jobs.proving, jobs.failedPeriod, tick.reports) == Some(q)
    ensures PlanFor(tick.now, tick.view, c, Left(jobs.begin, jobs.proving, jobs.submitting, tick.view, tick.reports),
                    tick.proverAvailable, Failed(jobs.proving, jobs.failedPeriod, tick.view, tick.reports)).Escape?
  {
    hide Wrap64;
  }

  /** The decision of a tick. */
  function PlanOf(c: CustodyParams, jobs: Jobs, tick: Tick): Plan
    requires c.custodyPeriod > 0
  {
    PlanFor(tick.now, tick.view, c, Left(jobs.begin, jobs.proving, jobs.submitting, tick.view, tick.reports),
            tick.proverAvailable, Failed(jobs.proving, jobs.failedPeriod, tick.view, tick.reports))
  }

  /** What is held after each tick is what the tick makes of what was held before. */
  ghost predicate Traces(ticks: seq<Tick>, plans: seq<Plan>, jobs: seq<Jobs>) {
    |plans| == |ticks| && |jobs| == |ticks| + 1 &&
    forall k :: 0 <= k < |ticks| ==> jobs[k + 1] == AfterTick(jobs[k], ticks[k].view, ticks[k].reports, plans[k])
  }

  /** Tick `a` reports a failure on period `q`, and none up to tick `b` reports one on another. */
  ghost predicate StillFailed(ticks: seq<Tick>, jobs: seq<Jobs>, a: nat, b: nat, q: nat)
    requires |jobs| == |ticks| + 1 && a <= b < |ticks|
  {
    ReportsFailure(jobs[a], ticks[a], q) &&
    forall m, other :: a < m <= b && ReportsFailure(jobs[m], ticks[m], other) ==> other == q
  }

  lemma {:induction false} FailureIsKept(ticks: seq<Tick>, plans: seq<Plan>, jobs: seq<Jobs>,
                                         a: nat, b: nat, q: nat)
    requires a <= b < |ticks| && Traces(ticks, plans, jobs) && StillFailed(ticks, jobs, a, b, q)
    ensures LastFailure(jobs[b].proving, jobs[b].failedPeriod, ticks[b].reports) == Some(q)
    decreases b
  {
    if a < b {
      FailureIsKept(ticks, plans, jobs, a, b - 1, q);
      assert jobs[b - 1 + 1] == AfterTick(jobs[b - 1], ticks[b - 1].view, ticks[b - 1].reports, plans[b - 1]);
      if jobs[b].proving.Some? { assert jobs[b].proving == Some(jobs[b].proving.value); }
      assert jobs[b].proving.Some? && ticks[b].reports.proving == Some(ProverFailed) ==>
        ReportsFailure(jobs[b], ticks[b], jobs[b].proving.value);
    }
  }

  /**
   * Tick after tick. Once a prover is reported to have failed on a period, and until one fails on another, every
   * tick in that period, while it is committed and nothing is submitting, starts an escape: the reporting tick
   * itself is the first.
   */
  method DriveAll(driver: CustodyDriver, ticks: seq<Tick>) returns (plans: seq<Plan>, jobs: seq<Jobs>)
    requires driver.Valid()
    modifies driver
    ensures driver.Valid() && |plans| == |ticks| && |jobs| == |ticks| + 1
    ensures Traces(ticks, plans, jobs)
    ensures jobs[0] == old(driver.Held()) && jobs[|ticks|] == driver.Held()
    ensures forall a, b, q :: 0 <= a <= b < |ticks| && StillFailed(ticks, jobs, a, b, q) ==>
      (InCommittedPeriod(driver.c, ticks[b], q) && !Submitting(jobs[b], ticks[b]) ==> plans[b].Escape?)
  {
    plans, jobs := [], [driver.Held()];
    for k := 0 to |ticks|
      invariant driver.Valid() && |plans| == k && |jobs| == k + 1
      invariant jobs[0] == old(driver.Held()) && jobs[k] == driver.Held()
      invariant forall m :: 0 <= m < k ==> jobs[m + 1] == AfterTick(jobs[m], ticks[m].view, ticks[m].reports, plans[m])
      invariant forall m :: 0 <= m < k ==> plans[m] == PlanOf(driver.c, jobs[m], ticks[m])
    {
      var tick := ticks[k];
      var plan := driver.Drive(tick.now, tick.view, tick.proverAvailable, tick.reports);
      plans, jobs := plans + [plan], jobs + [driver.Held()];
    }
    forall a, b, q | 0 <= a <= b < |ticks| && StillFailed(ticks, jobs, a, b, q) &&
      InCommittedPeriod(driver.c, ticks[b], q) && !Submitting(jobs[b], ticks[b])
      ensures plans[b].Escape?
    {
      FailureIsKept(ticks, plans, jobs, a, b, q);
      FailedMeansEscape(driver.c, jobs[b], ticks[b], q);
    }
  }
}
