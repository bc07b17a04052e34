/**
 * What the records of the instance mean: each is traced back to the transactions that made it. A commit is a
 * snapshot of the data and the randomness of its own `beginProof`; a challenge pins the data of its own opening,
 * or of the provider's exit; and every accepted proof, escape or response is possession of exactly those chunks.
 */
module History {
  import opened Data
  import opened Bits
  import opened Forest
  import opened Inclusion
  import opened InstanceSpec
  import opened Lifecycle
  import opened Runs
  import opened Effects
  import opened Rights
  import opened Circuit

  /** A call that ends a provider's commit when it is accepted. */
  predicate Voids(a: Action, pid: nat) {
    (a.AProof? || a.AEscape? || a.AUnbond?) && a.pid == pid
  }

  /** The commit of a `beginProof` in this period, over this data, with this randomness. */
  ghost predicate Commits(pr: Provider, data: seq<Chunk>, seed: Hash, period: nat) {
    pr.commitPeriodPlusOne == period + 1 && pr.commitSeed == seed &&
    pr.commitRoot == Root(|data|, PeakList(data, 0, |data|)) && pr.commitLeafCount == |data|
  }

  /** Transaction `i` is the provider's last accepted begin before state `j`, and nothing has voided it. */
  ghost predicate LiveBegin(p: Params, states: seq<State>, txs: seq<Tx>, i: nat, j: nat, pid: nat)
    requires IsRun(p, states, txs) && j < |states|
  {
    i < j && Begins(p, states, txs, i, pid) &&
    forall m :: i < m < j ==>
      !Begins(p, states, txs, m, pid) && !(Voids(txs[m].action, pid) && Succeeds(p, states, txs, m))
  }

  /** One transaction, seen from a provider's record. */
  lemma StepRecord(p: Params, states: seq<State>, txs: seq<Tx>, m: nat, pid: nat)
    requires IsRun(p, states, txs) && m < |txs| && pid in states[m].providers
    ensures pid in states[m + 1].providers
    ensures states[m + 1].providers[pid] ==
      if Succeeds(p, states, txs, m) then RecordAfter(p, states[m], txs[m].now, txs[m].action, pid)
      else states[m].providers[pid]
    ensures states[m].providers[pid].anchor <= states[m].clock <= txs[m].now && Stored(states[m]) && Inv(p, states[m])
  {
    hide Execute, RecordAfter, Inv;
    RunKeeps(p, states, txs, m);
    assert Step(p, states[m], txs[m], states[m + 1]);
    CommitPin(p, states[m], pid);
    if Succeeds(p, states, txs, m) { RecordsMove(p, states[m], txs[m].now, txs[m].action); }
  }

  /** A record that was not there before was staked by this transaction. */
  lemma NewRecord(p: Params, states: seq<State>, txs: seq<Tx>, m: nat, pid: nat)
    requires IsRun(p, states, txs) && m < |txs| && pid !in states[m].providers && pid in states[m + 1].providers
    ensures Succeeds(p, states, txs, m) && txs[m].action.AStake? && pid == states[m].nextProviderId
    ensures states[m + 1].providers[pid] == Fresh(txs[m].now, txs[m].action.operator, txs[m].action.withdrawal)
  {
    hide Execute, RecordAfter, Inv;
    RunKeeps(p, states, txs, m);
    assert Step(p, states[m], txs[m], states[m + 1]);
    if Succeeds(p, states, txs, m) { RecordsMove(p, states[m], txs[m].now, txs[m].action); }
  }

  lemma NoneAtFirst(p: Params, states: seq<State>, txs: seq<Tx>)
    requires IsRun(p, states, txs)
    ensures states[0].providers == map[] && states[0].challenges == map[]
  {
  }

  /** A begin makes its own commit, and what neither begins nor voids leaves a commit as it is. */
  lemma CommitAfter(p: Params, s: State, now: U64, a: Action, pid: nat)
    requires pid in s.providers && p.custodyPeriod > 0 && s.providers[pid].anchor <= now
    ensures var pr, pr' := s.providers[pid], RecordAfter(p, s, now, a, pid);
      && (a.ABegin? && a.pid == pid ==> Commits(pr', s.dataset, a.seed, Period(p, pr.anchor, now)))
      && (Voids(a, pid) ==> pr'.commitPeriodPlusOne == 0)
      && (!(a.ABegin? && a.pid == pid) && !Voids(a, pid) ==>
            pr'.commitPeriodPlusOne == pr.commitPeriodPlusOne && pr'.commitSeed == pr.commitSeed &&
            pr'.commitRoot == pr.commitRoot && pr'.commitLeafCount == pr.commitLeafCount)
      && pr'.anchor == pr.anchor
  {
    hide PeakList;
  }

  /**
   * From an accepted begin until it is voided, the record holds exactly the period, the data and the randomness
   * of that transaction.
   */
  lemma {:induction false} CommitIsKept(p: Params, states: seq<State>, txs: seq<Tx>, i: nat, j: nat, pid: nat)
    requires IsRun(p, states, txs) && j < |states| && p.custodyPeriod > 0 && LiveBegin(p, states, txs, i, j, pid)
    ensures pid in states[j].providers && pid in states[i].providers
    ensures Commits(states[j].providers[pid], states[i].dataset, txs[i].action.seed,
                    PeriodOf(p, states[i], txs[i].now, pid))
    ensures states[j].providers[pid].anchor == states[i].providers[pid].anchor
    decreases j
  {
    hide RecordAfter, Inv, Execute, PeakList, Period;
    var m := j - 1;
    if i == m {
      BeginShows(p, states, txs, i, pid);
    } else {
      CommitIsKept(p, states, txs, i, m, pid);
    }
    StepRecord(p, states, txs, m, pid);
    CommitAfter(p, states[m], txs[m].now, txs[m].action, pid);
  }

  /** Every live commit was made by a begin that nothing has voided since. */
  lemma {:induction false} CommitHasBegin(p: Params, states: seq<State>, txs: seq<Tx>, j: nat, pid: nat)
    returns (i: nat)
    requires IsRun(p, states, txs) && j < |states| && p.custodyPeriod > 0
    requires pid in states[j].providers && states[j].providers[pid].commitPeriodPlusOne != 0
    ensures LiveBegin(p, states, txs, i, j, pid)
    decreases j
  {
    hide RecordAfter, Inv, Execute, PeakList, Period;
    if j == 0 {
      NoneAtFirst(p, states, txs);
    } else {
      var m := j - 1;
      if pid !in states[m].providers {
        NewRecord(p, states, txs, m, pid);
      } else {
        StepRecord(p, states, txs, m, pid);
        CommitAfter(p, states[m], txs[m].now, txs[m].action, pid);
        if Begins(p, states, txs, m, pid) { i := m; } else { i := CommitHasBegin(p, states, txs, m, pid); }
      }
    }
  }

  // ---- Custody proofs are possession ----

  lemma DataGrowsInRuns(p: Params, states: seq<State>, txs: seq<Tx>, i: nat, j: nat)
    requires IsRun(p, states, txs) && i <= j < |states|
    ensures states[i].dataset <= states[j].dataset
  {
    RunEvolves(p, states, txs, i, j);
  }

  /** Reveals of a snapshot mean the same over the data it was taken from and over any later data. */
  lemma RevealsStable(p: Params, data: seq<Chunk>, later: seq<Chunk>, seed: Hash, pid: nat, samples: seq<ChunkProof>)
    requires data <= later
    ensures PeakList(later, 0, |data|) == PeakList(data, 0, |data|)
    ensures Reveals(p, later, |data|, seed, pid, samples) <==> Reveals(p, data, |data|, seed, pid, samples)
  {
    hide PeakList, ProofPath;
    var n, more := |data|, later[|data|..];
    assert later == data + more;
    PeakListStable(data, more, 0, n);
    if n > 0 {
      forall j | 0 <= j < |samples|
        ensures TrueAnswer(later, p.draw(seed, pid, j) % n, n) == TrueAnswer(data, p.draw(seed, pid, j) % n, n)
      {
        ProofsOnlyExtend(data, more, p.draw(seed, pid, j) % n, n, n);
      }
    }
  }

  /**
   * An escape is accepted exactly when its sender is the operator, the provider is ACTIVE, the period is that of
   * the live begin, and it reveals, of the data as it was at that begin, the chunks at the positions drawn from
   * that transaction's randomness: `maxSample` of them, unless there was no data.
   */
  lemma EscapeExactly(p: Params, states: seq<State>, txs: seq<Tx>, i: nat, j: nat, pid: nat)
    requires IsRun(p, states, txs) && j < |txs| && p.custodyPeriod > 0 && LiveBegin(p, states, txs, i, j, pid)
    requires txs[j].action.AEscape? && txs[j].action.pid == pid
    ensures pid in states[j].providers
    ensures var data, a, pr := states[i].dataset, txs[j].action, states[j].providers[pid];
      Succeeds(p, states, txs, j) <==>
        pr.status.Active? && a.sender == pr.operator &&
        PeriodOf(p, states[i], txs[i].now, pid) == PeriodOf(p, states[j], txs[j].now, pid) &&
        a.n == |data| && a.peaks == PeakList(data, 0, |data|) &&
        Reveals(p, data, |data|, txs[i].action.seed, pid, a.samples)
  {
    hide RecordAfter, Inv, PeakList, Reveals, Execute;
    var a := txs[j].action;
    CommitIsKept(p, states, txs, i, j, pid);
    StepRecord(p, states, txs, j, pid);
    BeginShows(p, states, txs, i, pid);
    AcceptedExactly(p, states[j], txs[j].now, a);
    DataGrowsInRuns(p, states, txs, i, j);
    RevealsStable(p, states[i].dataset, states[j].dataset, txs[i].action.seed, pid, a.samples);
  }

  /** Every accepted escape reveals the data of a live begin of its own period. */
  lemma EscapeIsPossession(p: Params, states: seq<State>, txs: seq<Tx>, j: nat, pid: nat) returns (i: nat)
    requires IsRun(p, states, txs) && j < |txs| && Succeeds(p, states, txs, j)
    requires txs[j].action.AEscape? && txs[j].action.pid == pid
    ensures LiveBegin(p, states, txs, i, j, pid) && p.custodyPeriod > 0
    ensures PeriodOf(p, states[i], txs[i].now, pid) == PeriodOf(p, states[j], txs[j].now, pid)
    ensures var data, samples := states[i].dataset, txs[j].action.samples;
      |samples| == (if data == [] then 0 else p.maxSample) &&
      forall k :: 0 <= k < |samples| ==>
        samples[k].chunk == data[p.draw(txs[i].action.seed, pid, k) % |data|]
  {
    hide RecordAfter, Inv, PeakList, Execute, ProofPath;
    assert Step(p, states[j], txs[j], states[j + 1]);
    RunKeeps(p, states, txs, j);
    AcceptedExactly(p, states[j], txs[j].now, txs[j].action);
    i := CommitHasBegin(p, states, txs, j, pid);
    EscapeExactly(p, states, txs, i, j, pid);
  }

  /** The public values a succinct proof must attest, as the contract encodes them from the record. */
  function ValuesOf(p: Params, pid: nat, pr: Provider): Option<PublicValues> {
    if pr.commitLeafCount < U64_LIMIT
    then Some(PublicValues(pid, pr.commitSeed, pr.commitRoot, pr.commitLeafCount, p.custodyK))
    else None
  }

  /**
   * An accepted succinct proof attests values that the guest commits to only for one witness: the chunks of the
   * data as it was at the live begin, at `custodyK` positions drawn from that transaction's randomness.
   */
  lemma ProofIsPossession(p: Params, states: seq<State>, txs: seq<Tx>, j: nat, pid: nat) returns (i: nat)
    requires IsRun(p, states, txs) && j < |txs| && Succeeds(p, states, txs, j)
    requires txs[j].action.AProof? && txs[j].action.pid == pid
    ensures txs[j].action.verified && p.custodyPeriod > 0 && LiveBegin(p, states, txs, i, j, pid)
    ensures PeriodOf(p, states[i], txs[i].now, pid) == PeriodOf(p, states[j], txs[j].now, pid)
    ensures pid in states[j].providers && |states[i].dataset| < U64_LIMIT
    ensures var data := states[i].dataset;
      var v := PublicValues(pid, txs[i].action.seed, Root(|data|, PeakList(data, 0, |data|)), |data|, p.custodyK);
      ValuesOf(p, pid, states[j].providers[pid]) == Some(v) &&
      forall peaks, samples :: Accepts(p, v, peaks, samples) <==> data != [] && TrueWitness(p, data, v, peaks, samples)
  {
    hide RecordAfter, Inv, PeakList, Execute, ProofPath, TrueWitness;
    assert Step(p, states[j], txs[j], states[j + 1]);
    RunKeeps(p, states, txs, j);
    AcceptedExactly(p, states[j], txs[j].now, txs[j].action);
    i := CommitHasBegin(p, states, txs, j, pid);
    CommitIsKept(p, states, txs, i, j, pid);
    StepRecord(p, states, txs, j, pid);
    BeginShows(p, states, txs, i, pid);
    RunKeeps(p, states, txs, i);
    Rights.TreeIsData(p, states[i]);
    var data := states[i].dataset;
    var v := PublicValues(pid, txs[i].action.seed, Root(|data|, PeakList(data, 0, |data|)), |data|, p.custodyK);
    forall peaks, samples
      ensures Accepts(p, v, peaks, samples) <==> data != [] && TrueWitness(p, data, v, peaks, samples)
    {
      hide SamplesVerify;
      if data != [] { AcceptsExactly(p, v, peaks, samples, data); }
    }
  }

  /** The last accepted proof of a provider, and which path it took. */
  lemma {:induction false} LastProof(p: Params, states: seq<State>, txs: seq<Tx>, j: nat, pid: nat) returns (k: nat)
    requires IsRun(p, states, txs) && j < |states| && p.custodyPeriod > 0
    requires pid in states[j].providers && states[j].providers[pid].lastProvenPlusOne != 0
    ensures k < j && Proves(p, states, txs, k, pid)
    ensures forall m :: k < m < j ==> !Proves(p, states, txs, m, pid)
    ensures states[j].providers[pid].lastProvenPlusOne == PeriodOf(p, states[k], txs[k].now, pid) + 1
    ensures states[j].providers[pid].lastDegraded == txs[k].action.AEscape?
    decreases j
  {
    hide Inv, Execute, PeakList;
    if j == 0 {
      NoneAtFirst(p, states, txs);
    } else {
      var m := j - 1;
      if pid !in states[m].providers {
        NewRecord(p, states, txs, m, pid);
      } else {
        StepRecord(p, states, txs, m, pid);
        if Proves(p, states, txs, m, pid) { k := m; } else { k := LastProof(p, states, txs, m, pid); }
      }
    }
  }

  // ---- Responses are possession ----

  /** Transaction `u` is this provider's accepted unbonding. */
  ghost predicate Unbonds(p: Params, states: seq<State>, txs: seq<Tx>, u: nat, pid: nat)
    requires IsRun(p, states, txs) && u < |txs|
  {
    txs[u].action.AUnbond? && txs[u].action.pid == pid && Succeeds(p, states, txs, u)
  }

  /** An exiting provider answers for the data as it was at its own unbonding, which its operator sent. */
  lemma {:induction false} ExitHasUnbonding(p: Params, states: seq<State>, txs: seq<Tx>, j: nat, pid: nat)
    returns (u: nat)
    requires IsRun(p, states, txs) && j < |states|
    requires pid in states[j].providers && states[j].providers[pid].status.Unbonding?
    ensures u < j && Unbonds(p, states, txs, u, pid)
    ensures states[j].providers[pid].unbondingAt == txs[u].now
    ensures states[j].providers[pid].exitRoot == DataRoot(states[u].dataset)
    ensures states[j].providers[pid].exitLeafCount == |states[u].dataset|
    decreases j
  {
    hide Inv, Execute, PeakList;
    if j == 0 {
      NoneAtFirst(p, states, txs);
    } else {
      var m := j - 1;
      if pid !in states[m].providers {
        NewRecord(p, states, txs, m, pid);
      } else {
        StepRecord(p, states, txs, m, pid);
        if Unbonds(p, states, txs, m, pid) { u := m; } else { u := ExitHasUnbonding(p, states, txs, m, pid); }
      }
    }
  }

  /** Transaction `i` opened challenge `id`. */
  ghost predicate Opens(p: Params, states: seq<State>, txs: seq<Tx>, i: nat, id: nat)
    requires IsRun(p, states, txs) && i < |txs|
  {
    txs[i].action.AChallenge? && Succeeds(p, states, txs, i) && states[i].nextChallengeId == id
  }

  /**
   * The state whose data a challenge opened by transaction `i` pins: that of the opening itself while the
   * provider is ACTIVE, that of its unbonding afterwards.
   */
  ghost predicate PinnedAt(p: Params, states: seq<State>, txs: seq<Tx>, i: nat, u: nat)
    requires IsRun(p, states, txs) && i < |txs| && txs[i].action.AChallenge? && u <= i
  {
    var pid := txs[i].action.pid;
    pid in states[i].providers &&
    if states[i].providers[pid].status.Active? then u == i
    else states[i].providers[pid].status.Unbonding? && Unbonds(p, states, txs, u, pid)
  }

  /** One transaction, seen from the challenge records. */
  lemma StepChallenges(p: Params, states: seq<State>, txs: seq<Tx>, m: nat)
    requires IsRun(p, states, txs) && m < |txs|
    ensures states[m + 1].challenges ==
      if Succeeds(p, states, txs, m) then ChallengesAfter(states[m], txs[m].now, txs[m].action)
      else states[m].challenges
    ensures Stored(states[m]) && Inv(p, states[m]) && states[m].clock <= txs[m].now
    ensures states[m].nextChallengeId !in states[m].challenges
  {
    hide Execute, RecordAfter, Inv, ChallengesAfter, RecordsMoved;
    RunKeeps(p, states, txs, m);
    assert Step(p, states[m], txs[m], states[m + 1]);
    Effects.TreeIsData(p, states[m]);
    if Succeeds(p, states, txs, m) { RecordsMove(p, states[m], txs[m].now, txs[m].action); }
  }

  /** The record an opening makes. */
  lemma OpeningPins(p: Params, states: seq<State>, txs: seq<Tx>, i: nat) returns (u: nat)
    requires IsRun(p, states, txs) && i < |txs| && txs[i].action.AChallenge? && Succeeds(p, states, txs, i)
    ensures u <= i && PinnedAt(p, states, txs, i, u)
    ensures states[i].nextChallengeId in states[i + 1].challenges
    ensures var a, data := txs[i].action, states[u].dataset;
      states[i + 1].challenges[states[i].nextChallengeId] ==
        Challenge(a.pid, a.sender, a.value, txs[i].now, DataRoot(data), |data|, a.indices, false)
  {
    hide Execute, Inv, PeakList;
    var a := txs[i].action;
    StepChallenges(p, states, txs, i);
    AcceptedExactly(p, states[i], txs[i].now, a);
    u := i;
    if !states[i].providers[a.pid].status.Active? { u := ExitHasUnbonding(p, states, txs, i, a.pid); }
  }

  /** A challenge record is what its opening made, perhaps resolved since. */
  lemma {:induction false} RecordHasOpening(p: Params, states: seq<State>, txs: seq<Tx>, j: nat, id: nat)
    returns (i: nat, u: nat)
    requires IsRun(p, states, txs) && j < |states| && id in states[j].challenges
    ensures i < j && Opens(p, states, txs, i, id) && u <= i && PinnedAt(p, states, txs, i, u)
    ensures var a, data, c := txs[i].action, states[u].dataset, states[j].challenges[id];
      c.(resolved := false) ==
        Challenge(a.pid, a.sender, a.value, txs[i].now, DataRoot(data), |data|, a.indices, false)
    decreases j
  {
    hide Execute, Inv, PeakList, DataRoot;
    if j == 0 {
      NoneAtFirst(p, states, txs);
    } else {
      var m := j - 1;
      StepChallenges(p, states, txs, m);
      if id !in states[m].challenges {
        i := m;
        u := OpeningPins(p, states, txs, m);
      } else {
        i, u := RecordHasOpening(p, states, txs, m, id);
      }
    }
  }

  /** Answers over a snapshot mean the same over any later data. */
  lemma AnswersStable(data: seq<Chunk>, later: seq<Chunk>, indices: seq<nat>, proofs: seq<ChunkProof>)
    requires data <= later
    ensures PeakList(later, 0, |data|) == PeakList(data, 0, |data|)
    ensures Answers(later, |data|, indices, proofs) <==> Answers(data, |data|, indices, proofs)
  {
    hide PeakList, ProofPath;
    var n, more := |data|, later[|data|..];
    assert later == data + more;
    PeakListStable(data, more, 0, n);
    forall j | 0 <= j < |indices| && indices[j] < n
      ensures TrueAnswer(later, indices[j], n) == TrueAnswer(data, indices[j], n)
    {
      ProofsOnlyExtend(data, more, indices[j], n, n);
    }
  }

  /**
   * Every accepted response answers one opening, inside its window, from the operator, with one true chunk for
   * each challenged position, at least one, of the data pinned there.
   */
  lemma ResponseIsPossession(p: Params, states: seq<State>, txs: seq<Tx>, j: nat) returns (i: nat, u: nat)
    requires IsRun(p, states, txs) && j < |txs| && txs[j].action.ARespond? && Succeeds(p, states, txs, j)
    ensures i < j && Opens(p, states, txs, i, txs[j].action.id) && u <= i && PinnedAt(p, states, txs, i, u)
    ensures var open, a, data := txs[i].action, txs[j].action, states[u].dataset;
      && txs[j].now < txs[i].now + p.responseWindow
      && open.pid in states[j].providers && a.sender == states[j].providers[open.pid].operator
      && a.indices == open.indices && |a.proofs| == |open.indices| > 0 && a.n == |data|
      && forall k :: 0 <= k < |a.proofs| ==>
           open.indices[k] < |data| && a.proofs[k].chunk == data[open.indices[k]] &&
           a.proofs[k].path == ProofPath(data, open.indices[k], |data|)
  {
    hide Execute, Inv, PeakList, ProofPath;
    var a := txs[j].action;
    StepChallenges(p, states, txs, j);
    AcceptedExactly(p, states[j], txs[j].now, a);
    i, u := RecordHasOpening(p, states, txs, j, a.id);
    DataGrowsInRuns(p, states, txs, u, j);
    AnswersStable(states[u].dataset, states[j].dataset, a.indices, a.proofs);
  }
}
