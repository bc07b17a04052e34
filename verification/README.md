# Blobsitter, modelled and proved

Blobsitter keeps a growing data set alive: a publisher declares chunks in blobs, an instance contract
commits to them in a Merkle mountain range, bonded providers store them and can be challenged, and a daemon
follows the chain, stores the chunks and answers. This project models the parts where these pieces depend on
each other and proves what they promise each other, for all inputs and all runs.

The modules, bottom up:

- `Data`, `Bits`: shared values; powers of two, shifts and single bits.
- `Decomposition`, `Forest`, `Mmr`: how an append is split into aligned subtrees, the binary-counter merge of
  peaks, and its two executable forms (a map of peaks in the reference, a table of 64 slots in the contract).
- `Inclusion`, `Proofs`: inclusion proofs, exact acceptance, and the three ways proofs are built (memoizing
  builder, bottom-up tree, the daemon's proof set with parked read errors).
- `Packing`: chunks to canonical blobs and back, and the four places that check the form.
- `Field`, `Fermat`, `Roots`, `Barycentric`, `Evaluation`: arithmetic modulo a prime, the bit-reversed domain,
  and the claim that the closed form evaluates the blob's polynomial.
- `Sums`, `PayoutSink`, `InstanceSpec`, `Solvency`, `Lifecycle`, `Runs`, `Instance`, `Paymaster`: the contracts.
  Each entry point is a function on storage (`InstanceSpec`) and a method on a class that updates the fields in
  source order (`Instance`); the methods are proved equal to the functions, and facts about runs are proved of
  the functions.
- `Effects`, `Rights`, `History`: the instance from outside. Exactly when a call is accepted, who ends up with how
  much, what each record traces back to, and what an accepted proof, escape or response proves about possession.
- `Custody`, `Circuit`: the planner against the contract, the driver's jobs, and the custody guest.
- `Disk`, `Store`, `Crashes`: a disk with a stable prefix and renames that a power cut may undo, the store, and
  every interleaving of commits, failures, restarts and power cuts.
- `Ingest`, `Follower`, `Ledger`: untrusted blob sources, an untrusted log feed, and the challenge ledger.
- `Events`: the events of every run of the contract are what the daemon assumes of them, so that the daemon's
  guarantees hold of the contract's own states and records.

Keccak with its domain tags is a free datatype, that is, collision free. Versioned hashes are an arbitrary
function; collision freedom is assumed only where a statement says so. Randomness, clocks, RPC answers, blob
sources and the success of every push, write and sync are parameters or nondeterministic choices. Ether that left
a contract is kept per recipient (`received`), so that statements can say who was paid. Time never
runs backwards. Leaf counts and timestamps are 64-bit. The contract's arithmetic is checked and an overflow is a
revert; updates of the reference library carry the bound `n + m < 2^64`. The daemon is built without overflow
checks, so its 64-bit sums wrap: the end of the grace, the planner's deadline, the retention deadline and the
page arithmetic of the log scan.

## Where the code differs from what is said about it

- The decomposition comment bounds the length by `2 * ceil(log2(m + 1)) + 1`; the true bound proved here is one
  smaller.
- A provider can commit twice in one period, because an accepted proof clears the commit. What holds is that an
  accepted proof of that period lies between any two commits; the next commit of a period is accepted exactly
  when there is one (`Runs.BeginsAgainExactlyAfterAProof`, with a run in `Runs.TwoCommitsInOnePeriod`).
- The daemon's status is the contract's exactly when fewer than two periods are missed or the end of the grace
  fits in 64 bits (`Custody.StatusAgrees`; `Custody.HugeGraceMisreads` is an input where it is not). The
  retention deadline is right exactly when it fits (`Runs.ExitIsBounded`).
- The dormancy gate says something only when `dormancyMinChunks` is at least one
  (`Runs.QuietNeedsAPositiveMinimum`).
- A slash reverts exactly when the bounty exceeds the stake, so `bountyBps <= 10000` is what keeps it enabled
  (`Solvency.SlashIsFunded`, `Runs.ExitIsLive`).
- A scan ends, from every cursor and after any answers and failures, exactly when `log_page` is at least one and
  below 2^63 (`Follower.ScanEnds`). Under any other ceiling the page can become empty
  (`Follower.EmptyPageReachable`, and `Follower.HugePageSticks` for an input); `Follower.EmptyPageExactly` says
  for which ceilings it does without any failure.
- A cursor is safe from a power cut exactly when no frontier file the cut may bring back is behind it
  (`Follower.CursorSafeExactly`). It is when everything behind it is acknowledged (`Follower.CursorSurvives`);
  behind a merely visible frontier it need not be (`Follower.CaughtUpCanBeLost`), and then the next declaration
  shows the gap and rewinds.
- The root alarm is meant never to be false. It sounds exactly when the store is not at the nonce the contract had
  at the finalized block (`Events.RootCheckExactly`, `Events.Poll`), so also when a node lags behind a store whose
  last commit was not followed by a written cursor (`Events.RestartBeforeCursor`).
- A crash during the very first append, before any frontier exists, makes the next open refuse; nothing is
  touched (`Store.OpenRecovers` gives the exact condition, `Store.FirstAppendOrphans` the input).
- A commit that is interrupted is followed by the frontier before it or after it exactly when those two are the
  only ones the disk can show as it starts (`Crashes.CutAfterCommit`, in both directions): after a synced
  directory, and also on a retry in the same process after the directory sync failed (`Crashes.CommitThenCut`).
  Opening does not sync the directory, so when the process dies between a rename and its directory sync, the
  next one commits, and the power fails, an older frontier can come back (`Crashes.UnsyncedRenameCanReturn`). It
  is never older than the last acknowledged commit (`Crashes.Run`).
- The challenge ledger accepts a redelivered opening without writing it when an earlier write of it failed, so
  acceptance does not always mean durability. `Ledger.AcceptedIsDurable` gives the exact condition and
  `Ledger.RedeliveryIsNotDurable` a failing input. The on-chain count, compared every tick, is what notices the
  loss after a restart.
- The daemon compares counts of open challenges, so a stale entry can hide a missing one
  (`Ledger.StaleHidesMissing`). A deficit shows exactly when more are missing than stale
  (`Ledger.DeficitExactly`).
- The two evaluators differ outside canonical inputs: the production one panics, the big-integer one reduces,
  and on the domain it returns the stored integer unreduced.

## Model

| member | source | states |
|---|---|---|
| `Decomposition.DecomposeTiles` | reference/src/lib.rs:85-103 | The heights of an append cover the new leaves in order, without gap or overlap, each subtree starting at a multiple of its size |
| `Decomposition.DecomposeIsMinimal` | reference/src/lib.rs:85-103 | No aligned tiling of the same leaves has fewer subtrees than the greedy one |
| `Decomposition.DecomposeShape` | reference/src/lib.rs:89-103 | Heights strictly rise and then strictly fall, so at most the two neighbours at the turn are equal |
| `Decomposition.DecomposeLength` | contracts/src/libraries/MMR.sol:43-46 | Length at most twice the bit length of `m`, which is tighter than the bound in the comment |
| `Decomposition.PeakHeightsAreBits` | reference/src/lib.rs:78-83 | Height `k` is listed exactly when bit `k` of the leaf count is set, and the list is strictly falling |
| `Decomposition.DecomposeLoop` | reference/src/lib.rs:89-103 | The loop with its two machine instructions computes the decomposition |
| `Decomposition.PeakHeightsLoop` | reference/src/lib.rs:81-83 | The scan over 64 bits computes the peak heights |
| `Forest.CarryCounts` | reference/src/lib.rs:160-169 | Merging a subtree of height `h` into the peaks of `n` leaves gives the peaks of `n + 2^h` leaves: height `k` occupied exactly when bit `k` is set |
| `Forest.MergeCount` | reference/src/lib.rs:153-171 | An update performs exactly popcount(n) + (number of subtrees) - popcount(n + m) merges |
| `Forest.CarrySubtree` | reference/src/lib.rs:160-177 | Merging an aligned subtree root is appending its leaves one at a time |
| `Forest.TilingIsLeafByLeaf` | reference/src/lib.rs:153-177 | Any aligned tiling merges to the leaf-by-leaf result, not only the greedy one |
| `Forest.BatchIsLeafByLeaf` | reference/src/lib.rs:150-177 | From any valid peaks, a batched update equals that many single appends |
| `Forest.AppendFromEmpty` | reference/src/lib.rs:173-177 | Appending leaves one by one from empty gives the peak forest of the data |
| `Forest.BatchedAppend` | reference/src/lib.rs:150-177 | The update built from the new chunks takes the peaks at `n` to the peaks at `n + m`, for every data set, and both equal single appends |
| `Forest.CanonicalOfPeakMap` | reference/src/lib.rs:140-143 | Peaks read tallest first are the canonical list, oldest leaves first |
| `Forest.RehydrateCanonical` | reference/src/lib.rs:119-143 | Storing the canonical list and rehydrating gives the same peaks back |
| `Forest.CanonicalRehydrate` | reference/src/lib.rs:119-143 | Rehydrating a list of the right length and listing it gives the same list back, and a valid counter |
| `Mmr.Mmr.constructor` | reference/src/lib.rs:115-117 | The empty state is a valid counter at zero leaves |
| `Mmr.Mmr.FromState` | reference/src/lib.rs:119-134 | A list of the wrong length is refused, and only that; otherwise the result is a valid counter that lists back the same peaks |
| `Mmr.Mmr.PeakListing` | reference/src/lib.rs:140-143 | The listing determines the peaks: rehydrating it gives them back |
| `Mmr.Mmr.ApplyUpdate` | reference/src/lib.rs:150-171 | The in-place merge loop performs the specified carries; a list of the wrong length is refused and changes nothing |
| `Mmr.Mmr.AppendLeaf` | reference/src/lib.rs:173-177 | A single append is one carry at height zero |
| `Mmr.SliceRoot` | reference/src/lib.rs:371-380 | Hashing a power-of-two slice by halving gives the root of that subtree of the whole data |
| `Mmr.UpdateSubtreeRoots` | reference/src/lib.rs:383-394 | The publisher loop returns one root per subtree of the decomposition, over the right slices |
| `Mmr.StoredUpdate` | reference/src/lib.rs:119-171 | A stored list that commits to the data, updated with the roots of the next chunks, commits to the longer data |
| `Mmr.UpdateRootsDetermineChunks` | reference/src/lib.rs:383-394 | Two updates of equal length at the same leaf count have equal subtree roots exactly when they have equal chunks |
| `Mmr.TableApplyUpdate` | contracts/src/libraries/MMR.sol:68-127 | The contract table algorithm returns the canonical list of the same merge the reference performs |
| `Mmr.Scatter` | contracts/src/libraries/MMR.sol:79-95 | The canonical list lands in the slots whose bit is set |
| `Mmr.TableCarry` | contracts/src/libraries/MMR.sol:96-111 | The carry over slots, with presence read off the running count, is the carry over the peak map |
| `Mmr.TableMerge` | contracts/src/libraries/MMR.sol:96-111 | All carries of an update keep the table matching the specified peaks |
| `Mmr.Gather` | contracts/src/libraries/MMR.sol:112-127 | Reading occupied slots top down gives the canonical list |
| `Inclusion.VerifiesExactly` | reference/src/lib.rs:195-212 | Against the true peaks a proof verifies if and only if it shows the true chunk and the true path |
| `Inclusion.PinnedProofIsTrue` | reference/src/lib.rs:62-76 | Whatever re-bags to a pinned root and verifies is the true leaf count, peaks, chunk and path |
| `Inclusion.ClimbExact` | reference/src/lib.rs:206-211 | Within one subtree exactly one chunk and path climb to its root |
| `Inclusion.ProofsOnlyExtend` | reference/src/lib.rs:269-282 | The path of a leaf at an earlier leaf count is a prefix of its path at any later one |
| `Inclusion.SubtreeRootStable` | reference/src/lib.rs:235-253 | Appending never changes an existing subtree root |
| `Inclusion.PeakListStable` | reference/src/lib.rs:255-267 | Peaks at an earlier leaf count can be rebuilt from the grown data |
| `Inclusion.PathAt` | reference/src/lib.rs:272-282 | Level `l` of a path is the subtree at `((i >> l) xor 1) << l` |
| `Inclusion.LocateLoop` | reference/src/lib.rs:180-193 | Walking the peaks with a running start finds the one that covers the leaf |
| `Inclusion.Verify` | reference/src/lib.rs:198-212 | The climb by offset bits decides exactly the specified acceptance |
| `Proofs.ChunkSource.Read` | daemon/src/store/mod.rs:178-190 | A bounded read returns the stored chunk or an error |
| `Proofs.ChunkSource.At` | daemon/src/proofs.rs:68-95 | A failed read is parked, never overwritten, and a result is trusted only while nothing is parked |
| `Proofs.PathBuilder.Root` | reference/src/lib.rs:235-253 | With the memo in any state it can reach, the result is plain recursion over the data |
| `Proofs.PathBuilder.PeaksAt` | reference/src/lib.rs:255-267 | Peaks at any past leaf count, whatever was cached before |
| `Proofs.PathBuilder.Prove` | reference/src/lib.rs:269-282 | The path of any leaf at any past leaf count, whatever was cached before |
| `Proofs.BuildProofSet` | daemon/src/proofs.rs:68-130 | A returned set is the true one for the pinned root; over readable data it is returned exactly when the pin is true; a set built over a failed read is never returned, and the self-check never fires |
| `Proofs.NextLevel` | circuits/script/src/lib.rs:58-78 | Pairing one level gives the next level of the true tree |
| `Proofs.PeakLevels` | circuits/script/src/lib.rs:58-78 | The bottom-up levels of one peak are the true nodes |
| `Proofs.MemoTree.Build` | circuits/script/src/lib.rs:58-78 | The bottom-up build holds the true nodes of every peak |
| `Proofs.MemoTree.Peaks` | circuits/script/src/lib.rs:80-86 | Same peaks as recursion |
| `Proofs.MemoTree.Path` | circuits/script/src/lib.rs:88-99 | Same path as recursion, by shifting the offset level by level |
| `Packing.PackElement` | reference/src/lib.rs:410-440 | Element `u` of the packed blobs is a zero byte and chunk `u`, or zero past the data |
| `Packing.PackIsCanonical` | reference/src/lib.rs:410-440 | Packing yields the canonical form the verifiers accept |
| `Packing.PackInjective` | reference/src/lib.rs:428-440 | Equal blobs of equally many chunks come from equal chunks |
| `Packing.ChunksFromBlobs` | daemon/src/verify.rs:37-66 | Accepts exactly the canonical blobs; the result packs back to them, and whatever packs to them is the result |
| `Packing.EquivalenceChunks` | circuits/common/src/lib.rs:37-84 | The guest assertions hold exactly for a nonempty update in canonical blobs, and the chunks it hashes pack back to those blobs |
| `Packing.ValidateBlobs` | intents/src/validate.rs:66-92 | The client size and high-byte checks accept exactly a nonempty list of full-size blobs with zero high bytes |
| `Packing.PreflightBlobs` | carrier/src/preflight.rs:143-175 | The carrier blob-count and tail checks accept exactly the right count with a zero tail |
| `Packing.CarrierAcceptsCanonical` | carrier/src/preflight.rs:143-175 | Client and carrier checks together accept the same blob lists as the daemon and the guest |
| `Field.Inverse` | reference/src/lib.rs:572-573 | The computed element is reduced and inverts its argument |
| `Field.Cancel` | reference/src/lib.rs:572-573 | The field has no zero divisors |
| `Fermat.LittleTheorem` | reference/src/lib.rs:496-497 | A nonzero element to the power `p - 1` is one |
| `Fermat.FermatInverse` | reference/src/lib.rs:496-497 | A nonzero element to the power `p - 2` is its inverse |
| `Roots.NoEarlierOne` | reference/src/lib.rs:538-547 | A root with `w^N = 1` and `w^(N/2) != 1` has no smaller power equal to one |
| `Roots.PowersCancel` | reference/src/lib.rs:538-556 | Over all roots the `a`-th powers sum to `N` when `a = N` and to zero for every other `a` below `2N` |
| `Roots.UnshuffleAt` | reference/src/lib.rs:464-466 | Position `i` of the domain holds the root whose exponent is `i` with its bits reversed |
| `Roots.ReverseAndShift` | reference/src/lib.rs:464-466 | Reversing in a wider word and shifting right is reversing in the narrow one |
| `Roots.DomainIsAllRoots` | reference/src/lib.rs:452-467 | The bit-reversed domain is a permutation of all `N` roots, pairwise different |
| `Barycentric.PolySumValue` | reference/src/lib.rs:396-399 | Summing `c(d) d (z^N - d^N)/(z - d)` over the domain gives `N c(z)` |
| `Barycentric.ClosedForm` | reference/src/lib.rs:396-399 | The closed form is the value at `z` of whatever polynomial of degree below `N` takes the elements on the domain |
| `Barycentric.InterpolantExists` | reference/src/lib.rs:396-399 | Every blob is the values of such a polynomial |
| `Evaluation.RootFromBase` | reference/src/lib.rs:452-457 | A root computed as `g^((p-1)/N)` always has `w^N = 1`, and is primitive exactly when `g` is not a square |
| `Evaluation.BitReversedDomain` | reference/src/lib.rs:455-467 | Running products and the index trick build the domain |
| `Evaluation.PrefixProducts` | reference/src/lib.rs:566-571 | Entry `i` is the product of the first `i` denominators |
| `Evaluation.Unwind` | reference/src/lib.rs:572-579 | The backward loop yields a true inverse of every denominator from one inversion |
| `Evaluation.WeightedSum` | reference/src/lib.rs:505-508 | The running sum is the weighted sum |
| `Evaluation.CloseForm` | reference/src/lib.rs:509-511 | The closing factor is `(z^N - 1)/N` |
| `Evaluation.BarycentricEval` | reference/src/lib.rs:514-587 | For canonical inputs, and only those, returns the value of the blob polynomial at `z`, on the domain and off it |
| `Evaluation.BarycentricEvalBigint` | reference/src/lib.rs:469-512 | Same value for any integers, inverting by exponentiation; on the domain the integer stored at that index, off it a reduced result |
| `Evaluation.EvaluationIsUnique` | reference/src/lib.rs:469-587 | The value is one field element, so the two evaluators agree on canonical inputs |
| `PayoutSink.PushSpends` | contracts/src/PayoutSink.sol:40-49 | Paid or parked, a payout lowers the available balance by its amount and the parked total stays the sum of the entries |
| `PayoutSink.PullKeeps` | contracts/src/PayoutSink.sol:28-38 | A claim pays exactly its entry and leaves the available balance |
| `PayoutSink.PullIsFunded` | contracts/src/PayoutSink.sol:28-38 | With nothing overspent, an accepting claimant with a parked balance is always paid |
| `Instance.BlobsitterInstance.constructor` | contracts/src/BlobsitterInstance.sol:295-318 | Deployment satisfies every invariant |
| `Instance.BlobsitterInstance.Declare` | contracts/src/BlobsitterInstance.sol:438-512 | All checks in order, blob hashes, extra blob and openings included, then merge, nonce and checkpoint, exactly as specified; the stored peaks keep committing to the published chunks |
| `Instance.BlobsitterInstance.Stake` | contracts/src/BlobsitterInstance.sol:565-580 | New ACTIVE record with the deposit held |
| `Instance.BlobsitterInstance.InitiateUnbonding` | contracts/src/BlobsitterInstance.sol:583-598 | Exit pin taken, commit voided |
| `Instance.BlobsitterInstance.Withdraw` | contracts/src/BlobsitterInstance.sol:602-611 | Stake leaves after the delay and only with no challenge open |
| `Instance.BlobsitterInstance.BeginProof` | contracts/src/BlobsitterInstance.sol:666-679 | Commit snapshots seed and state unless this period already has one |
| `Instance.BlobsitterInstance.SubmitProof` | contracts/src/BlobsitterInstance.sol:684-695 | Accepts a verified proof for the committed, current period |
| `Instance.BlobsitterInstance.SubmitProofEscape` | contracts/src/BlobsitterInstance.sol:702-724 | Accepts exactly the full set of verified reveals at the drawn positions, none for an empty snapshot |
| `Instance.BlobsitterInstance.Lapse` | contracts/src/BlobsitterInstance.sol:781-794 | Slashes only past the grace after two missed periods; bounty to the caller, remainder to the paymaster |
| `Instance.BlobsitterInstance.OpenChallenge` | contracts/src/BlobsitterInstance.sol:835-887 | Pins the current or exit state, checks indices and bond, counts the record |
| `Instance.BlobsitterInstance.Respond` | contracts/src/BlobsitterInstance.sol:893-928 | Checks in source order, then resolves and pays the bond to the operator |
| `Instance.BlobsitterInstance.ResolveTimeout` | contracts/src/BlobsitterInstance.sol:933-953 | Slashes the first time, refunds afterwards; a failed slash reverts everything |
| `Instance.BlobsitterInstance.Claim` | contracts/src/PayoutSink.sol:30-38 | Drains the parked balance or reverts |
| `Instance.BlobsitterInstance.CustodyStatus` | contracts/src/BlobsitterInstance.sol:764-775 | Computes the derived status |
| `Solvency.EntryPointsBalance` | contracts/src/BlobsitterInstance.sol:565-953 | Every successful entry point keeps: balance = stakes held + open bonds + parked payouts + forced ETH, and each provider counts exactly its unresolved records |
| `Solvency.TransactBalances` | contracts/src/BlobsitterInstance.sol:565-953 | So does every transaction, reverts included, with pushes failing arbitrarily |
| `Solvency.HeldIsCount` | contracts/src/BlobsitterInstance.sol:565-611 | The stake held is `stakeWei` times the number of ACTIVE or UNBONDING records |
| `Solvency.OpenIsCounted` | contracts/src/BlobsitterInstance.sol:835-953 | A provider with an unresolved record has a positive count and is never EXITED |
| `Solvency.SlashIsFunded` | contracts/src/BlobsitterInstance.sol:787-794 | A slash never lacks funds: it succeeds exactly when the bounty does not exceed the stake |
| `Lifecycle.DeclareKeeps` | contracts/src/BlobsitterInstance.sol:438-512 | A declaration keeps every pin, commit and record tied to the published data |
| `Lifecycle.TransactKeeps` | contracts/src/BlobsitterInstance.sol:438-953 | Every transaction keeps the whole invariant and moves records only forward |
| `Effects.PaysExactly` | contracts/src/BlobsitterInstance.sol:565-953 | Every successful call gives each address exactly what it is owed: stake to the withdrawal address, bounty to caller or challenger, remainder to the paymaster, bond to the operator or back to the challenger; nobody else gets anything |
| `Effects.SentOrParked` | contracts/src/BlobsitterInstance.sol:565-953 | A payout that is taken is sent, one that is refused is parked in full |
| `Effects.ClaimSends` | contracts/src/PayoutSink.sol:28-38 | A claim is sent, empties the caller entry and no other |
| `Effects.RecordsMove` | contracts/src/BlobsitterInstance.sol:565-953 | Every successful call changes the record it concerns as stated, with pins that are those of the published chunks, and no other record |
| `Effects.DeclareMoves` | contracts/src/BlobsitterInstance.sol:492-505 | An accepted declaration appends its chunks, moves the nonce by one, and moves the checkpoint exactly when the minimum has accumulated |
| `Rights.AcceptedExactly` | contracts/src/BlobsitterInstance.sol:438-953 | In every reachable state a call is accepted exactly when its caller is entitled to it by records, clock and published chunks |
| `Rights.EscapeRight` | contracts/src/BlobsitterInstance.sol:702-724 | An escape is accepted exactly when it reveals the true chunk at every position drawn from the committed seed, from the operator, in the committed period |
| `Rights.RespondRight` | contracts/src/BlobsitterInstance.sol:893-928 | A response is accepted exactly when it reveals the true chunk at every challenged position of the pinned state, from the operator, in time |
| `Rights.RefusalIsTrue` | contracts/src/BlobsitterInstance.sol:438-953 | In every state of every run, for all entry points: the error of a refused call names something that is really wrong with it, told from the records, the clock and the published chunks; checked arithmetic refuses only for configuration, clock and counter limits |
| `Rights.RespondRefusal` | contracts/src/BlobsitterInstance.sol:893-908 | Of several reasons to refuse a response, operator, window, resolution and slashing are reported in that order |
| `Rights.CarriesExactly` | contracts/src/BlobsitterInstance.sol:455-470 | A transaction that passes carries exactly the signed blobs, in order |
| `History.CommitIsKept` | contracts/src/BlobsitterInstance.sol:662-679 | From an accepted begin until it is voided the record holds the period, the data and the randomness of that transaction |
| `History.CommitHasBegin` | contracts/src/BlobsitterInstance.sol:662-748 | Every live commit was made by an accepted begin that nothing has voided since |
| `History.EscapeExactly` | contracts/src/BlobsitterInstance.sol:697-724 | Over runs: an escape is accepted exactly when it reveals, of the data as of the live begin, the chunks drawn from that transaction |
| `History.EscapeIsPossession` | contracts/src/BlobsitterInstance.sol:697-724 | Every accepted escape lies in the period of a live begin and reveals `maxSample` chunks of the data as of that begin, none only if there was no data |
| `History.ProofIsPossession` | contracts/src/BlobsitterInstance.sol:684-695 | Every accepted succinct proof attests values for which the guest accepts exactly one witness: `custodyK` drawn chunks of the data as of the live begin |
| `History.LastProof` | contracts/src/BlobsitterInstance.sol:737-748 | The proven period and its degraded flag are those of the last accepted proof |
| `History.ExitHasUnbonding` | contracts/src/BlobsitterInstance.sol:583-598 | The exit pin and the start of the delay are those of the unbonding |
| `History.OpeningPins` | contracts/src/BlobsitterInstance.sol:835-887 | A challenge records its sender, value, time and index set, and pins the data of its opening, or of the unbonding of an exiting provider |
| `History.RecordHasOpening` | contracts/src/BlobsitterInstance.sol:835-953 | Every challenge record is what its opening made, perhaps resolved since |
| `History.ResponseIsPossession` | contracts/src/BlobsitterInstance.sol:889-928 | Every accepted response answers one opening in time, from the operator, with one true chunk of the pinned data for each challenged position, at least one |
| `Runs.AlwaysSolvent` | contracts/src/BlobsitterInstance.sol:565-953 | The solvency equation and the per-provider count hold in every reachable state of every run |
| `Runs.StakeLeavesOnce` | contracts/src/BlobsitterInstance.sol:602-611 | In any run a stake is released exactly once if its record is no longer staked, and not before |
| `Runs.ExitedIsFinal` | contracts/src/BlobsitterInstance.sol:602-611 | EXITED and SLASHED are final: no exited provider is ever slashed, no slashed one paid out |
| `Runs.BeginsAreSeparatedByAProof` | contracts/src/BlobsitterInstance.sol:662-679 | Between two commits of one provider in one period lies an accepted proof of that period |
| `Runs.BeginsAgainExactlyAfterAProof` | contracts/src/BlobsitterInstance.sol:662-748 | After a commit, the next `beginProof` the ACTIVE operator sends in that period is accepted exactly when a proof of the period was accepted in between |
| `Runs.TwoCommitsInOnePeriod` | contracts/src/BlobsitterInstance.sol:662-748 | The input on which the one-commit claim fails: a run with two accepted commits in one period |
| `Runs.VoidBegins` | contracts/src/BlobsitterInstance.sol:666-679 | An ACTIVE provider without a commit may open the window at any time |
| `Runs.ProofsAreRemembered` | contracts/src/BlobsitterInstance.sol:737-748 | `lastProvenPlusOne` stays above every period ever proven |
| `Runs.LapseIsEarned` | contracts/src/BlobsitterInstance.sol:777-794 | A lapse succeeds only when two whole periods plus the grace have passed after the last proven one |
| `Runs.LapsableExactlyWhenLapseRuns` | contracts/src/BlobsitterInstance.sol:764-794 | `custodyStatus` is LAPSABLE exactly when `lapse` succeeds, and LAPSE_ELIGIBLE exactly inside the grace |
| `Runs.StatusByTime` | contracts/src/BlobsitterInstance.sol:764-775 | The derived status of an ACTIVE provider, by the time since the end of its last proven period |
| `Runs.ExitIsBounded` | daemon/src/enforcement.rs:15-19 | A challenge open against an UNBONDING provider is pinned within the exit snapshot and due by the end of delay plus window; the 64-bit retention deadline is that instant exactly when it fits |
| `Runs.ExitIsLive` | contracts/src/BlobsitterInstance.sol:602-611 | Past that instant the withdrawal goes through when nothing is open, and every challenge still open can be timed out exactly when the bounty fits the stake |
| `Runs.DueIsResolvable` | contracts/src/BlobsitterInstance.sol:933-953 | Any open challenge past its window can be timed out, unless its provider is not yet slashed and the bounty exceeds the stake |
| `Runs.ResponseRevealsData` | contracts/src/BlobsitterInstance.sol:889-928 | An accepted response shows one true chunk and path for every challenged index, and there is at least one |
| `Runs.HonestResponseIsAccepted` | contracts/src/BlobsitterInstance.sol:893-928 | The true chunks and paths are always accepted inside the window |
| `Runs.EscapeRevealsData` | contracts/src/BlobsitterInstance.sol:697-724 | An accepted escape shows the true chunk at each of `maxSample` drawn positions, none only for an empty snapshot |
| `Runs.CheckpointBounds` | contracts/src/BlobsitterInstance.sol:499-505 | Fewer than the minimum number of chunks lie past the checkpoint, at every point of every run |
| `Runs.CheckpointOrigin` | contracts/src/BlobsitterInstance.sol:499-505 | The checkpoint counts no chunk younger than itself: what it covers was there before, or its time is that of a transaction since |
| `Runs.GateOpensOnlyWhenQuiet` | contracts/src/BlobsitterPaymaster.sol:113-123 | When the gate is open, the transactions of the last window, the first included, appended fewer than `dormancyMinChunks` chunks |
| `Runs.QuietNeedsAPositiveMinimum` | contracts/src/BlobsitterInstance.sol:499-505 | With a zero minimum that is false: a concrete deployment |
| `Paymaster.TransactKeeps` | contracts/src/BlobsitterPaymaster.sol:66-137 | Outstanding is the sum of contributions, the level is within the cap and the balance covers parked payouts, after every transaction |
| `Paymaster.ReclaimSucceeds` | contracts/src/BlobsitterPaymaster.sol:120-131 | A reclaim succeeds exactly for a donor with weight after the window; which of the two is missing is what the refusal says |
| `Paymaster.LevelBound` | contracts/src/BlobsitterPaymaster.sol:74-80 | The level is the exact refill, floored, clamped to the cap: flooring never creates allowance and forgets less than one unit |
| `Paymaster.ReimbursesExactly` | contracts/src/BlobsitterPaymaster.sol:87-104 | A reimbursement takes exactly the amount out of balance and bucket, for the carrier and nobody else, when the instance asks and both cover it; otherwise nothing; a refused push is parked for the carrier |
| `Paymaster.DrainIsBounded` | contracts/src/BlobsitterPaymaster.sol:87-104 | Over any window of `w` seconds, opened at any instant, what reimbursements take out of the available balance is bounded: 86400 x taken <= 86400 x cap + rate x w |
| `Paymaster.SweepKeepsValue` | contracts/src/BlobsitterPaymaster.sol:113-131 | During a sweep the value of a unit of weight never falls |
| `Paymaster.ReclaimsExactly` | contracts/src/BlobsitterPaymaster.sol:120-131 | An accepted reclaim pays the floor of the share of what is available, to the donor and nobody else, and takes exactly that; its weight alone is gone |
| `Paymaster.ShareNeverFalls` | contracts/src/BlobsitterPaymaster.sol:113-131 | During a sweep no donor share falls below the floor of its opening share |
| `Paymaster.SweepIsFair` | contracts/src/BlobsitterPaymaster.sol:113-131 | In whatever order donors sweep, each is paid at least the floor of the share it had when the sweep began, and exactly the floor of its share at its call |
| `Paymaster.LastReclaimSweepsAll` | contracts/src/BlobsitterPaymaster.sol:113-131 | The reclaim that empties the ledger leaves nothing available |
| `Paymaster.OthersExactly` | contracts/src/BlobsitterPaymaster.sol:66-111 | A donation is available and credited to its donor; a slash remainder and forced ETH are available and credited to nobody; a claim moves only what was parked |
| `Paymaster.BlobsitterPaymaster.Donate` | contracts/src/BlobsitterPaymaster.sol:66-72 | Credits the donor |
| `Paymaster.BlobsitterPaymaster.Level` | contracts/src/BlobsitterPaymaster.sol:74-80 | The stated level, within the cap |
| `Paymaster.BlobsitterPaymaster.Reimburse` | contracts/src/BlobsitterPaymaster.sol:92-104 | All or nothing; never reverts for the instance |
| `Paymaster.BlobsitterPaymaster.AbsorbSlash` | contracts/src/BlobsitterPaymaster.sol:106-111 | Only the instance; never credited to a donor |
| `Paymaster.BlobsitterPaymaster.Reclaim` | contracts/src/BlobsitterPaymaster.sol:120-131 | Pays the pro-rata share exactly as specified |
| `Paymaster.BlobsitterPaymaster.Claim` | contracts/src/PayoutSink.sol:30-38 | Drains the parked balance or reverts |
| `Custody.StatusAgrees` | daemon/src/custody.rs:95-115 | The daemon and the contract derive the same status exactly when fewer than two periods are missed or the end of the grace fits in 64 bits |
| `Custody.HugeGraceMisreads` | daemon/src/custody.rs:109-115 | The input on which they differ: the longest grace, where the daemon reads LAPSABLE and the contract LAPSE_ELIGIBLE |
| `Custody.PlanMeetsContract` | daemon/src/custody.rs:137-188 | Every plan read off the record passes the contract guards at that time |
| `Custody.PlanExactly` | daemon/src/custody.rs:137-188 | The whole decision from the record and the clock: when to idle, begin, prove or escape, with which commit and deadline; in a committed period with nothing submitting it is an escape exactly for an empty snapshot, no prover, a failed prover or too little time left of the contract period |
| `Custody.HonestEscapePasses` | contracts/src/BlobsitterInstance.sol:697-748 | Inside the committed period the true chunks at the drawn positions are accepted, empty snapshot included |
| `Custody.HonestEscapeIsAccepted` | daemon/src/custody.rs:137-170 | So a planned escape with the true chunks is accepted |
| `Custody.BeginLands` | daemon/src/custody.rs:171-187 | In an uncommitted, unproven period the planner opens the window, and in any later state that still holds the record the contract accepts; the record is then committed for the rest of the period |
| `Custody.ProofIsAccepted` | daemon/src/custody.rs:151-170 | With the period committed and nothing in flight, what the planner sends is a proof or an escape that the contract accepts in any later state that still holds the record, whatever was declared in between |
| `Custody.OnePlanReachesCurrent` | daemon/src/custody.rs:151-170 | Such a plan, landed in any such state, makes the provider CURRENT and idle to the end of the period |
| `Custody.TwoPlansReachCurrent` | daemon/src/custody.rs:137-188 | From any ACTIVE unproven period with nothing in flight: one plan if this period is committed already, otherwise the begin and then one plan; each lands, and the second is made, in any later state that still holds the record |
| `Custody.CustodyDriver.Reap` | daemon/src/custody.rs:258-312 | Collects finished jobs; a proof is submitted only for a commit of the same period and never beside another submission; what was started is counted exactly |
| `Custody.CustodyDriver.Drive` | daemon/src/custody.rs:226-256 | One tick executes the plan made from the work left after collecting: what is held and started afterwards is stated exactly, and no job still running is replaced |
| `Custody.DriveAll` | daemon/src/custody.rs:226-312 | Tick after tick: once a prover has failed on a period, every tick of that committed period with nothing submitting starts an escape |
| `Circuit.Custody` | circuits/common/src/lib.rs:117-147 | For public values that pin a true state, a witness passes if and only if it is the true peaks, chunks and paths |
| `Circuit.AcceptsExactly` | circuits/common/src/lib.rs:117-147 | The guest accepts exactly the true witness of pinned data |
| `Disk.FlatAt` | daemon/src/store/chunks.rs:1-4 | Chunk `i` lies at byte `31 i` |
| `Disk.DataGrows` | daemon/src/store/chunks.rs:49-63 | Earlier declarations are a prefix of later data |
| `Disk.PowerCutKeeps` | daemon/src/persist.rs:10-22 | A power cut at any moment leaves a recoverable disk |
| `Disk.WriteKeeps` | daemon/src/store/chunks.rs:49-63 | Writing a declaration where it belongs, whole or in part, leaves every stable byte as it is: repeating it lands identically |
| `Disk.SyncKeeps` | daemon/src/store/chunks.rs:49-63 | Declared data may be made stable |
| `Disk.Device.Append` | daemon/src/store/chunks.rs:49-63 | Write then sync: whatever fails, a prefix of the bytes is written and the sync happened or not |
| `Disk.AppendKeeps` | daemon/src/store/chunks.rs:49-63 | An append that stops anywhere keeps the disk recoverable; synced, the whole declaration is stable |
| `Disk.TruncateKeeps` | daemon/src/store/chunks.rs:42-47 | Cutting to the visible frontier keeps every frontier a power cut may still show |
| `Disk.RenameKeeps` | daemon/src/persist.rs:10-22 | Renaming a synced file over the frontier can be undone by a power cut, never torn |
| `Disk.Device.WriteAtomic` | daemon/src/persist.rs:10-22 | However far it gets, the file is unpublished, renamed only, or renamed and durable; success is durable |
| `Disk.PublishKeeps` | daemon/src/persist.rs:10-22 | Publishing a backed frontier keeps the disk recoverable however it ends; settled, nothing older can return |
| `Store.OpensExactly` | daemon/src/store/mod.rs:76-108 | On every disk, damaged or not: opening succeeds exactly when there is no file at all, or the frontier names a peak per tree and every committed chunk reads back; the shortage it reports is the first chunk that does not |
| `Store.OpenRecovers` | daemon/src/store/mod.rs:65-110 | Opening finds a faithful frontier at or past everything acknowledged; the only refusal is bytes without a frontier, never after a frontier was published |
| `Store.FirstAppendOrphans` | daemon/src/store/mod.rs:65-145 | The input on which it refuses: the very first append stops after one byte |
| `Store.DeclarationBytes` | daemon/src/store/chunks.rs:49-63 | A declaration occupies exactly the bytes after everything before it |
| `Store.Store.Open` | daemon/src/store/mod.rs:65-110 | Refusals touch nothing; success cuts the uncommitted tail |
| `Store.Store.MmrAt` | daemon/src/store/mod.rs:116-120 | The stored state rehydrates to the peaks of the committed data |
| `Store.Store.CommitDeclaration` | daemon/src/store/mod.rs:122-145 | Whatever fails, at whatever step: the disk is one of the listed endings of a commit, committed bytes stay, the frontier moves only on success and success is final |
| `Store.Store.ReadChunk` | daemon/src/store/mod.rs:147-154 | Bounded by the frontier |
| `Store.ReadThrough` | daemon/src/store/mod.rs:166-190 | Bounded by the snapshot, then a positioned read |
| `Crashes.CommittedIsServed` | daemon/src/store/mod.rs:156-190 | A committed chunk is on disk and is the declared one, for as long as the file only grows |
| `Crashes.Reopen` | daemon/src/store/mod.rs:65-110 | After any history reopening succeeds at a faithful frontier, or refuses only where nothing was acknowledged |
| `Crashes.CommitOwed` | daemon/src/store/mod.rs:122-145 | A commit is acknowledged and final, or not acknowledged; the file only grows |
| `Crashes.CutAfterCommit` | daemon/src/store/mod.rs:122-145 | Over every ending of a commit and every power cut the frontier found is the one before or after, if and only if the disk could show no third one when the commit started |
| `Crashes.CommitThenCut` | daemon/src/store/mod.rs:122-145 | Under that condition, a retry after a failed directory sync included: commit, cut, reopen ends at the frontier before or after, after it when acknowledged, committed bytes untouched |
| `Crashes.UnsyncedRenameCanReturn` | daemon/src/store/mod.rs:65-145 | The input outside it: from a settled store a commit stops between rename and directory sync, the next process opens and commits, the power goes, and the store is back before both |
| `Crashes.Run` | daemon/src/store/mod.rs:1-12 | Over every script of commits, reads, restarts and power cuts with arbitrary failures: acknowledged declarations are never lost or repeated, every opened frontier is faithful and within the commits attempted, every chunk served is the declared one |
| `Ingest.Acquire` | daemon/src/source/mod.rs:67-131 | Succeeds exactly when every wanted hash is offered by some source, and returns blobs that have their hashes |
| `Ingest.CheckEvent` | daemon/src/ingest.rs:87-133 | What passes is exactly what the event declares, by blob hashes, leaf count and subtree roots; an honest event with all blobs offered passes when hashes do not collide; a genuine event yields exactly the declared chunks |
| `Ingest.Ingestor.IngestEvent` | daemon/src/ingest.rs:71-148 | Redelivery ignored, gap halts, owed declaration committed exactly or not at all; with blobs offered and no collision only the disk can fail |
| `Ingest.Ingestor.CommitVerified` | daemon/src/ingest.rs:135-140 | Verified chunks take the stored state to the next one |
| `Follower.ScanEnds` | daemon/src/follower.rs:212-252 | From every cursor, and after every sequence of answers and failures, a scan over answered pages ends exactly when `log_page` is at least one and below 2^63 |
| `Follower.EmptyPageReachable` | daemon/src/follower.rs:222-235 | Some sequence of answers and failures leads to an empty page exactly under a ceiling of zero or at least 2^63 |
| `Follower.EmptyPageExactly` | daemon/src/follower.rs:222-224 | Without failures an empty page comes exactly when no doubling of the ceiling, cut to 64 bits, exceeds it |
| `Follower.FailuresHalve` | daemon/src/follower.rs:231-234 | After `n` failures the page is the ceiling divided by 2^n, at least one |
| `Follower.PageCovers` | daemon/src/follower.rs:238-241 | A page covers as many of the next blocks as asked for, or those left |
| `Follower.HugePageSticks` | daemon/src/follower.rs:222-224 | An input where it does not end: under a ceiling of 2^63 the page after one answer is empty and the cursor never moves again |
| `Follower.CursorSafeExactly` | daemon/src/follower.rs:143-180 | A cursor is still caught up after every power cut that opens if and only if no file the cut may bring back is behind it |
| `Follower.CursorSurvives` | daemon/src/follower.rs:143-180 | The case that needs no look at the disk: a cursor whose declarations are all acknowledged survives any restart or power cut, whatever earlier cursor comes back |
| `Follower.CaughtUpCanBeLost` | daemon/src/follower.rs:143-180 | Being caught up with the frontier alone is not enough: a power cut after an unsettled opening loses it |
| `Follower.HaltKeepsUp` | daemon/src/follower.rs:300-307 | Halting before an event leaves nothing uncommitted behind the cursor |
| `Follower.Follower.Request` | daemon/src/follower.rs:212-236 | Page halves on failure, doubles to the ceiling on success, never reaches zero |
| `Follower.Follower.Dispatch` | daemon/src/follower.rs:275-308 | A halt by a gap leaves the cursor at the floor and names the missing nonce, any other halt leaves it before the event; success and other failures leave it where it was |
| `Follower.Follower.DispatchPage` | daemon/src/follower.rs:244-249 | A page in order; when it is complete, nothing uncommitted is left behind the cursor wherever it halts |
| `Follower.Follower.ScanDeclared` | daemon/src/follower.rs:238-252 | Ends; keeps the store in step under any authentic feed; under complete pages everything at or below the cursor is committed |
| `Follower.Follower.CheckRoot` | daemon/src/follower.rs:447-485 | Skipped behind the cursor; otherwise alarms exactly when leaf count or root differ from the answer |
| `Follower.Follow` | daemon/src/follower.rs:143-180 | The same over any sequence of polls; where nothing unacknowledged was held at the start, everything at or below the cursor is acknowledged |
| `Ledger.ReplayMembership` | daemon/src/responder.rs:74-97 | Who is in the ledger after a replay of a whole history, from any start |
| `Ledger.ReplayEntry` | daemon/src/responder.rs:74-83 | A replay keeps the entry it finds, answers included |
| `Ledger.ReachedFromHistory` | daemon/src/responder.rs:142-174 | However a ledger was reached, each entry is some opening of the history |
| `Ledger.ReplayConverges` | daemon/src/follower.rs:254-273 | From any reachable ledger a full replay leaves exactly the challenges opened here and unresolved, keeps survivors as they were, and is idempotent |
| `Ledger.AcceptedIsDurable` | daemon/src/responder.rs:74-83 | An accepted opening is in the file, whatever the disk does, exactly when it is new to memory or already in the file |
| `Ledger.RedeliveryIsNotDurable` | daemon/src/responder.rs:74-83 | The failing input: after a failed write the redelivered event is accepted unwritten |
| `Ledger.Ledger.Insert` | daemon/src/responder.rs:74-83 | Entry kept if present, recorded otherwise; memory and file as specified |
| `Ledger.Ledger.Remove` | daemon/src/responder.rs:92-174 | Drops the entry; alarms only for a known one that timed out |
| `Ledger.Ledger.MarkResponded` | daemon/src/responder.rs:84-90 | Marks only an existing entry |
| `Ledger.Ledger.TakeIn` | daemon/src/follower.rs:313-384 | Taking events in one by one is the replay |
| `Ledger.DeficitExactly` | daemon/src/enforcement.rs:121-128 | For every ledger a deficit of the count shows exactly when more challenges are missing than stale |
| `Ledger.DeficitMeansMissing` | daemon/src/enforcement.rs:121-128 | A deficit always means a missing challenge, and detection is exact if and only if nothing is missing or more is missing than stale |
| `Ledger.StaleHidesMissing` | daemon/src/enforcement.rs:121-128 | The history on which detection fails: one challenge opened and resolved, a second opened, and only the first event delivered |
| `Ledger.TrailingExactly` | daemon/src/enforcement.rs:127-143 | The streak is at least `n` exactly when each of the last `n` ticks saw a deficit |
| `Ledger.IntakeWatch.Tick` | daemon/src/enforcement.rs:127-143 | A rescan is requested at every fifth deficit in a row and at no other tick |
| `Events.AcceptedDeclares` | contracts/src/BlobsitterInstance.sol:438-512 | What an accepted declaration publishes is what its event says, under the next nonce |
| `Events.DeclarationsFormAChain` | contracts/src/BlobsitterInstance.sol:492-508 | The accepted declarations of every run are numbered without a gap, each event genuine, none before deployment, in block order; the frontier after all of them is the contract state |
| `Events.EveryStateIsAFrontier` | contracts/src/BlobsitterInstance.sol:492-508 | Every state the contract was ever in is the store frontier at its nonce |
| `Events.NonceAtBlock` | daemon/src/follower.rs:238-252 | The nonce of the contract at a block is the number of events up to it |
| `Events.RootCheckExactly` | daemon/src/follower.rs:447-485 | Against the contract at a block, a store passes the root check exactly when it holds as many declarations as were made by then |
| `Events.LaggingNodeAlarms` | daemon/src/follower.rs:447-485 | A settled store in step with the chain fails the check against any block before its last declaration |
| `Events.RestartBeforeCursor` | daemon/src/follower.rs:447-485 | The input on which the alarm is false: a process restarted between a commit and its cursor, with a node that lags, alarms whenever it opens |
| `Events.Poll` | daemon/src/follower.rs:196-210 | A poll against a run of the contract: a scan that goes through reaches the contract state of that block, and the alarm sounds exactly when the store is at another nonce |
| `Events.TimeoutIsAnnounced` | contracts/src/BlobsitterInstance.sol:929-953 | A resolution is announced as timed out exactly when it is the one that slashes the provider |
| `Events.ChallengesFormAHistory` | contracts/src/BlobsitterInstance.sol:835-953 | The challenge events of every run form a history and say exactly what the records are |
| `Events.RescanFindsTheOpen` | daemon/src/follower.rs:254-273 | From any reachable ledger a replay of the events of a run leaves exactly the records still open against this provider, with their index sets, pins and deadlines, and as many as the contract counts |

## Left out

- KZG commitments and openings, SHA-256, ERC-1271, EIP-712 digests, SP1 verification: a valid equivalence proof
  is read as its statement (the signed blobs pack the published chunks and the signed subtree roots are theirs), a
  valid opening and a valid signature as a boolean, a valid custody proof as a boolean whose meaning is
  `Circuit.Custody`.
- Fiat-Shamir preimages, public-value and ABI encodings, JSON and hex formats: fixed-width concatenations.
- Primality of the BLS12-381 scalar modulus and non-squareness of 7: parameters of the evaluation theorems, which
  hold for every prime `p` and every `2^k` below it; the program uses `k = 12` and four extra index bits.
- Modular exponentiation and the library inversion as algorithms: their results are used.
- Reimbursement amounts and gas measurement: the amount is a parameter of `Paymaster.BlobsitterPaymaster.Reimburse`.
- Reentrancy: payouts come last in every entry point and a failed push has no effect, so calls are sequential.
- App pointer, successor, announcements, other events and error arguments: they touch no modelled state.
- Provider and challenge counters are unbounded where the contract has 64-bit ones.
- The advisory directory lock: one store per disk is assumed.
- Follower.ScanEnds: under a ceiling below 2^63 the finalized block plus the ceiling stays within 2^64, so that no
  block sum wraps. Built with overflow checks the program panics where the daemon's sums wrap here.
- File offsets `31 * leafCount` are unbounded where the store multiplies in 64 bits.
- A torn or unreadable cursor file: the constructor takes the cursor it held, if any.
- A successful `fsync` is taken to make everything written so far durable.
- The client's and carrier's checks of hash, opening and subtree counts: three comparisons of lengths.
- RPC, beacon and archive adapters, alarms, transaction fees, configuration, command lines and background tasks:
  a background job is a flag that a later tick finds finished.
- The enforcement scan as a second copy of the declaration scan: its intake is `Ledger.Ledger.TakeIn`, its rewind
  is what `Ledger.ReplayConverges` is about.
- Ledger.Ledger.Persist: the file is old or new after a failure, without the directory-sync detail that `Disk` has.
