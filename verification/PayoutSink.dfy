/**
 * The one payout pattern both contracts use: push with pull fallback. A failed push parks the amount in a
 * claimable ledger; a failed claim reverts and can be retried.
 */
module PayoutSink {
  import opened Data
  import opened Sums

  type Address = nat

  /** Everything an entry point of either contract can revert with; `Panic` is checked arithmetic. */
  datatype Error =
    | Panic
    | IntentExpired | WrongNonce | NotDesignatedCarrier | BadSignature | EmptyUpdate | BlobCountMismatch
    | BlobHashMismatch | UnexpectedExtraBlob | SubtreeCountMismatch | PointEvaluationFailed
    | InvalidEquivalenceProof
    | WrongStakeAmount | ZeroAddress | UnknownProvider | NotOperator | NotActive | NotUnbonding
    | UnbondingDelayActive | OpenChallengesRemain | ChallengeWindowClosed | NoIndices | TooManyIndices
    | IndexOutOfRange | BondTooSmall | UnknownChallenge | AlreadyResolved | ResponseWindowClosed
    | ResponseWindowStillOpen | IndicesMismatch | ProofCountMismatch | PinMismatch | InvalidInclusionProof
    | ProviderSlashed | AlreadyCommitted | NoCommit | CommitFromEarlierPeriod | InvalidCustodyProof
    | NotLapsable | NothingClaimable | PayoutFailed
    | OnlyInstance | NotDormant | NothingToReclaim

  /** A contract's balance, its ledger of parked payouts, and, outside of it, what each address has been sent. */
  datatype Sink = Sink(
    balance: nat, claimable: map<Address, nat>, totalClaimable: nat, received: map<Address, nat>)

  function Credit(m: map<Address, nat>, to: Address, amount: nat): map<Address, nat> {
    m[to := Entry(m, to) + amount]
  }

  /** Push, and on any failure park the amount for a later pull. */
  function Push(k: Sink, to: Address, amount: nat, accepted: bool): Sink {
    if accepted && amount <= k.balance
    then k.(balance := k.balance - amount, received := Credit(k.received, to, amount))
    else k.(claimable := Credit(k.claimable, to, amount), totalClaimable := k.totalClaimable + amount)
  }

  /** Drain the caller's parked balance, or revert. */
  function Pull(k: Sink, who: Address, accepted: bool): Result<Sink, Error> {
    var amount := Entry(k.claimable, who);
    :- Need(amount != 0, NothingClaimable);
    :- Need(amount <= k.totalClaimable, Panic);
    :- Need(accepted && amount <= k.balance, PayoutFailed);
    Ok(Sink(k.balance - amount, k.claimable[who := 0], k.totalClaimable - amount, Credit(k.received, who, amount)))
  }

  /** The ledger total is the sum of its entries. */
  ghost predicate Summed(k: Sink) {
    k.totalClaimable == SumValues(k.claimable)
  }

  /** ETH not spoken for by parked payouts. */
  function Available(k: Sink): int {
    k.balance - k.totalClaimable
  }

  /** Whether pushed or parked, a payout takes exactly its amount out of what is available. */
  lemma PushSpends(k: Sink, to: Address, amount: nat, accepted: bool)
    requires Summed(k)
    ensures Summed(Push(k, to, amount, accepted))
    ensures Available(Push(k, to, amount, accepted)) == Available(k) - amount
  {
    SumUpdate(k.claimable, to, Entry(k.claimable, to) + amount);
  }

  /** A claim pays exactly the caller's entry and leaves what is available unchanged. */
  lemma PullKeeps(k: Sink, who: Address, accepted: bool)
    requires Summed(k) && Pull(k, who, accepted).Ok?
    ensures Summed(Pull(k, who, accepted).value)
    ensures Available(Pull(k, who, accepted).value) == Available(k)
    ensures Pull(k, who, accepted).value.balance + k.claimable[who] == k.balance
  {
    SumUpdate(k.claimable, who, 0);
  }

  /** With the books balanced, a claim fails only when nothing is owed or the recipient refuses. */
  lemma PullIsFunded(k: Sink, who: Address)
    requires Summed(k) && Available(k) >= 0
    ensures Pull(k, who, true).Ok? <==> Entry(k.claimable, who) > 0
  {
    if who in k.claimable { SumRemove(k.claimable, who); }
  }
}
