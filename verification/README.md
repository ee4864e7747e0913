# A Dafny model of RollupX

RollupX is a transfer rollup. A sequencer admits, orders and seals transactions, an executor runs the
sealed batches, a zkVM guest replays the executor's state diffs, and a submitter posts the result to L1.
This project models the logic of those components and proves what they keep across whole runs.

`dafny verify dfyconfig.toml` checks everything.

| file | content |
|---|---|
| `Machine`, `Folds`, `Bytes`, `Crypto`, `StableSort` | machine integers, folds, byte encodings, digests as free terms, stable sorting |
| `Accounts`, `Merkle` | account map in key order, `compute_root` and what it binds |
| `ExecutorTypes`, `SequencerTypes`, `Signing` | transactions on both sides, wire normalization, the signed bytes |
| `TxEngine`, `EngineHistory`, `Supply`, `Inclusion` | `execute_batch` and what holds of every sequence of batches |
| `Guest` | the guest verifier, its verdict on executor traces, what a journal binds |
| `KeyStore`, `PersistentEngine` | the byte-keyed account store with its leaf indices, and the deployed engine that runs on it |
| `JobProtocol` | publishers, job channel and worker as interleaved steps |
| `Policies`, `PolicyProperties`, `TieOrder` | the five scheduling policies over an arbitrary hash map order, which orders they guarantee and what becomes of ties |
| `Pool`, `PackingProperties` | the two queues and the blob-packing selection |
| `Batching`, `BatchingProperties`, `FairProgress`, `BlobLivelock`, `BlobProgress`, `BlobRoom` | trigger, gas filter, `produce_batch`, limits, drain, and progress past transactions that fit no batch |
| `Admission`, `AdmissionProperties`, `AdmissionLimits`, `SealOrder`, `SealedRuns` | state cache, validator, API handler, admission implies execution, and exactly which batches of any run are executed in full |
| `GasEscalation` | outbox rows and the capped gas-price escalation |

## How it is modelled

- Objects that the source mutates are classes whose methods are proved against functions on values; the
  properties are then lemmas about those functions, over every input, run or reachable state.
- SHA-256 and Keccak-256 are free terms: a digest is what was hashed. The four SHA-256 preimages have
  different lengths, so the constructors of `Crypto.Preimage` cannot clash.
- ECDSA recovery is a function parameter, one for the sequencer and one inside `TxEngine.Verifier`.
- A hash map is walked in an arbitrary order: loops over one choose any remaining key, and a merge is a
  relation, so its properties hold for every order.
- Integers are unbounded with explicit u64 saturation or wrapping where the source has it; `usize` is 64
  bits, and release-build wrapping is used for the gas `sum`, the pool counters and `+=`. Byte totals
  (`Batching.Total` of `EncodedBytes`, `SizeOf`) are unbounded sums. Where 256-bit arithmetic or `as_u64`
  panics, the model returns an error or a panic flag and changes nothing.
- The engine is generic over its state in the source; it is modelled once over the in-memory map and once
  over the store, and `PersistentEngine.StoreRunAgrees` joins the two.
- Clocks, the L1 chain's answers, the blob fill threshold and the tree's Merkle paths are parameters.
- One API handler call and one `produce_batch` call are one step each.

## Where the code does not do what it says

- A self-transfer is logged with a second diff that lowers the nonce, so the guest refuses the trace
  (`GuestReplay.SelfTransferIsRefused`, exact condition in `GuestReplay.GuestAcceptsIff`); it also creates funds (`Supply.TransferConservesIff`), reports a wrong
  sender state (`EngineHistory.SenderPostFaithfulIff`) and can be included again (`Inclusion.ReplayableIff`).
- The time-boost and blob-packing documentation promises arrival order for ties (policies.rs:41 and
  150-153). The code compares timestamps and then follows the hash map, and only heads of queues compete.
  Tied transactions keep arrival order in every walk if and only if, for each pair, some transaction up to the
  later one in its sender's queue loses to everything up to the earlier one in its own
  (`TieOrder.TiesKeepArrivalIff`). For two transactions alone this means ascending timestamps
  (`TieOrder.PairKeepsArrivalIff`): with descending ones the earlier arrival comes second
  (`TieOrder.LaterTimestampIsOvertaken`), with equal ones either way (`TieOrder.TiedPairHasBothOrders`). With
  ascending timestamps a worse transaction at the head of its queue still puts the earlier arrival behind
  (`TieOrder.OvertakenBehindHead`).
- With a minimum batch size of zero the timeout fires on an empty pool (`BatchingProperties.FiresOnEmptyIff`).
- A gas limit of u64::MAX is not enforced, because the comparison saturates (`BatchingProperties.GasLimitEnforcedIff`).
- Below 5 wei a 20% bump rounds to nothing and recovery resends for ever; when 297 times the original price
  overflows 256 bits, the pass that should give up panics instead (`GasEscalation.GivesUpIff`).
- A gas deferral can seal a later nonce before an earlier one, and the executor then rejects it
  (`AdmissionLimits.DeferredNonceIsRejected`). It also puts the deferred transaction behind later nonces, so that
  a batch two seals on is rejected although it takes the sender's first transaction in the pool
  (`SealedRuns.EarlierDeferralIsRejected`). In every run, up to the first rejection, a batch is executed in full if
  and only if it took each sender's lowest nonces of the pool it was sealed from (`SealedRuns.RunsInFullIffNext`);
  when a seal does so is decided by what it accepts and leaves (`SealOrder.TakesNextIff`).
- Admission does not compare a gas limit with the batch's. Under blob packing a large transaction over the
  limit can be selected and deferred on every call while one within it waits for ever
  (`BlobLivelock.LargerHoldsUpSmaller`). Calls settle in a state that seals nothing more, and a transaction waits
  for ever if and only if it is left in that state (`BlobProgress.WaitsForEverIff`). Transactions over the limit
  hold up none of given ones within it, whichever of those wait, if and only if for each of those the ones over the
  limit that rank ahead leave room (`BlobRoom.HoldsNothingUpIff`). The other policies get past it
  (`FairProgress.FittingSealedOnce`).
- The default seeds give the cached dev account 10^22 wei and the executor account 10^18, so the funding
  condition of `AdmissionProperties.Init` fails for it: a transfer that the validator admits is rejected
  (`AdmissionProperties.DefaultSeedsDisagree`). `AdmissionProperties.FundsNeededIff` says that for an
  account that can sign the condition is exactly what is needed.

## Model

| member | source | states |
|---|---|---|
| Accounts.KeyOrder | executor/src/merkle.rs:27-36 | the B-tree walk yields the keys in strictly ascending byte order |
| Accounts.SortedKeysAscend | executor/src/merkle.rs:27-36 | the walk lists exactly the keys, without repetition, in lexicographic order |
| Merkle.NextLevel | executor/src/merkle.rs:43-58 | the inner loop computes one pairing level, with an odd last node paired with itself |
| Merkle.ComputeRoot | executor/src/merkle.rs:26-62 | the nested loops compute the recursive root of the leaves in key order, and zero for the empty map |
| Merkle.PairUpKeepsShape | executor/src/merkle.rs:42-59 | pairing keeps distinct nodes distinct and at one height, for either parity |
| Merkle.PairUpInjective | executor/src/merkle.rs:45-56 | distinct levels with equal parents are equal, despite odd-node duplication |
| Merkle.RootBindsAccounts | executor/src/merkle.rs:26-62 | two account maps of any sizes have the same root if and only if they are equal |
| Merkle.RepeatedLeafCollides | executor/src/merkle.rs:47-51 | without distinct leaves binding fails: repeating an odd last leaf keeps the root |
| ExecutorTypes.NormalizeAllAt | executor/src/types.rs:231-261 | a payload is accepted if and only if each transaction is, and then position by position |
| Signing.U64ToU256IsBigEndian | executor/src/tx_engine.rs:301-305 | zero-extending a u64 gives the 32-byte big-endian form |
| Signing.PreimagesAgree | sequencer/src/types.rs:70-105 | for every accepted payload the sequencer and executor build the same 152 bytes |
| Signing.PreimageInjective | executor/src/tx_engine.rs:289-299 | the signed bytes agree if and only if the seven signed fields agree, with an absent bid read as zero |
| StateManager.InMemoryStateManager.SetAccount | executor/src/state.rs:54-73 | one key is written and the diff carries the values before and after |
| StateManager.InMemoryStateManager.CurrentRoot | executor/src/state.rs:75-77 | the reported root is the Merkle root of the accounts |
| TxEngine.SimpleTransactionEngine.Write | executor/src/tx_engine.rs:159-173 | sender then receiver is written, each diff with the old value it met and the root before it |
| TxEngine.SimpleTransactionEngine.Execute | executor/src/tx_engine.rs:84-193 | one loop iteration is one step of the fold |
| TxEngine.SimpleTransactionEngine.ExecuteBatch | executor/src/tx_engine.rs:67-243 | trace and new accounts are those of the transaction-by-transaction fold from the current root |
| EngineHistory.RunIsHistory | executor/src/tx_engine.rs:84-193 | the final accounts are those of the executed transactions alone, each verified and spendable where it ran |
| EngineHistory.BatchesAreHistory | executor/src/service.rs:180-185 | any sequence of batches is one such history |
| EngineHistory.OutcomesMatchInputs | executor/src/tx_engine.rs:84-193 | one outcome per input, the executed list is the included subsequence, two diffs per executed transaction, the cap holds |
| EngineHistory.OutcomeAt | executor/src/tx_engine.rs:112-146 | each outcome is the verdict in the state left by the inputs before it |
| EngineHistory.SenderPostFaithfulIff | executor/src/tx_engine.rs:176-192 | the reported sender state is the real one if and only if the transfer is not to oneself, up to one degenerate case |
| EngineHistory.DiffLogFaithful | executor/src/tx_engine.rs:159-173 | replaying the diffs rebuilds the final accounts, and every old value matches the replay at that point |
| Supply.TransferAccounting | executor/src/tx_engine.rs:149-168 | total after plus what saturation drops equals total before plus what a self-transfer creates, in every case |
| Supply.SupplyAccounting | executor/src/tx_engine.rs:84-193 | the same exact accounting over any history |
| Supply.SupplyConserved | executor/src/tx_engine.rs:112-168 | without self-transfers the total never grows over any batches, and is constant with no saturation when it starts within u64 |
| Supply.TransferConservesIff | executor/src/tx_engine.rs:149-168 | within a u64 supply one transfer conserves the total if and only if it is no self-transfer that creates funds |
| Inclusion.NonceAccounting | executor/src/tx_engine.rs:149-168 | in every history an account's nonce has moved by exactly its inclusions that are no self-transfer and below the maximum |
| Inclusion.ConsecutiveNonces | executor/src/tx_engine.rs:115-152 | an inclusion carries its sender's initial nonce plus its number if and only if all earlier ones of that sender were no self-transfer and below the maximum nonce |
| Inclusion.SingleInclusion | executor/src/tx_engine.rs:84-174 | over any batches, re-executed ones included, each (sender, nonce) is included at most once if and only if no sender goes on after a self-transfer or a maximal nonce, and then its nonces ascend; the final nonce is initial plus count if and only if no inclusion was of that kind |
| Inclusion.ReplayableIff | executor/src/tx_engine.rs:149-168 | an included transaction can be included again at once if and only if it is a self-transfer or its saturated nonce and funds allow it |
| RollupCore.LightweightSMT.ApplyDiff | risc0_prover/rollup_core/src/lib.rs:46-64 | an accepted diff moves the root by the fold, a refused one leaves it and names the error |
| RollupCore.GuestMain | risc0_prover/guest/src/main.rs:4-14 | the guest commits the two roots if and only if the replay ends at the claimed final root |
| RollupCore.ReplaySucceedsIff | risc0_prover/rollup_core/src/lib.rs:46-64 | a replay succeeds if and only if no nonce falls, no debit raises a balance and each witness is the fold so far; it ends at the fold of all diffs |
| RollupCore.JournalBindsDiffs | risc0_prover/rollup_core/src/lib.rs:71-80 | two accepted replays between the same two roots applied the same diffs |
| GuestReplay.GuestVerdict | executor/src/proof.rs:253-271 | the guest's verdict on any run's diffs: the run's root, or a lowered-nonce error, decided by one family of transfers |
| GuestReplay.GuestAcceptsIff | executor/src/tx_engine.rs:148-196 | a trace is accepted if and only if no included transaction is a self-transfer with a nonce below the maximum |
| GuestReplay.SelfTransferIsRefused | executor/src/tx_engine.rs:149-168 | a verified, spendable self-transfer below the maximum nonce is included by itself and its trace is refused |
| GuestReplay.JournalBindsState | risc0_prover/guest/src/main.rs:7-13 | two accepted in-memory runs with the same journal start from the same accounts and end in the same accounts |
| KeyStore.RocksDbStateManager.LoadNextLeafIndex | executor/src/state.rs:145-160 | the stored counter, 1 when absent, an error when it is not eight bytes |
| KeyStore.RocksDbStateManager.GetOrAssignLeafIndex | executor/src/state.rs:170-195 | an existing index is returned unchanged, a new one takes the counter and advances it |
| KeyStore.RocksDbStateManager.Set | executor/src/state.rs:240-289 | index, tree write and account blob in order; the diff has old and new values, the tree's path or its latest root, and the leaf encoding; the proof is never empty |
| KeyStore.KeysNeverCollide | executor/src/state.rs:131-143 | the three key families are disjoint and each determines its address |
| KeyStore.TreeKeyInjective | executor/src/state.rs:219-223 | tree keys determine addresses |
| KeyStore.AccountRoundTrip | executor/src/state.rs:197-210 | decoding an encoded account gives it back |
| KeyStore.ValueHashInjective | executor/src/state.rs:212-217 | the 32-byte leaf value determines the account |
| KeyStore.SetRefines | executor/src/state.rs:240-289 | one write keeps the store a refinement of a plain map plus first-write order |
| KeyStore.StoreAgreesWithMap | executor/src/state.rs:231-238 | after any writes every read agrees with the plain map, and no write fails |
| KeyStore.LeafIndicesAreBijective | executor/src/state.rs:170-195 | leaf indices are a bijection between the written addresses and 1..next-1 |
| KeyStore.IndicesNeverChange | executor/src/state.rs:172-185 | the index bytes stored for an address after some writes are the ones stored after any further writes, and a later lookup returns that index and changes nothing |
| KeyStore.TreeIndicesConsistent | executor/src/state.rs:246-254 | over all tree writes of a run, equal keys and equal indices coincide |
| KeyStore.FreshIndicesDifferIff | executor/src/state.rs:187-194 | two new addresses get different indices if and only if the counter is below its maximum |
| PersistentEngine.PersistentTransactionEngine.Write | executor/src/tx_engine.rs:159-173 | the two writes to the store in order, up to the first that fails, with the same diffs whatever path and root the tree answers |
| PersistentEngine.PersistentTransactionEngine.Execute | executor/src/tx_engine.rs:84-193 | one loop iteration on the store; a failed write gives its error and leaves the writes before it |
| PersistentEngine.PersistentTransactionEngine.ExecuteBatch | executor/src/tx_engine.rs:67-243 | the loop on the store, for every sequence of tree answers: trace and store of the chained steps, or the first error and the store as it was left |
| PersistentEngine.StoreRunAgrees | executor/src/service.rs:132 | from a store that stands for an account map, and while indices last, a batch succeeds and has the in-memory fold's accounts, root, executed list, outcomes and, up to the leaf encoding, diffs |
| PersistentEngine.StoreBatchesAgree | executor/src/service.rs:180-185 | the same over any sequence of batches, so what is proved of in-memory histories holds of the deployed engine |
| PersistentEngine.DeployedTraceAcceptedIff | executor/src/proof.rs:253-271 | the guest accepts a deployed trace if and only if no included transaction is a self-transfer with a nonce below the maximum |
| JobProtocol.ExecutorService.SetBatchState | executor/src/service.rs:160-163 | exactly one id's state is overwritten |
| JobProtocol.ExecutorService.TryInsert | executor/src/service.rs:464-492 | the lock section marks the id pending unless it is pending, running or completed |
| JobProtocol.ExecutorService.SendJob | executor/src/service.rs:494-499 | the job joins the back of the channel |
| JobProtocol.ExecutorService.ReportSendFailure | executor/src/service.rs:499-504 | a failed send marks the id failed |
| JobProtocol.ExecutorService.ReceiveJob | executor/src/service.rs:603-606 | the worker takes the oldest job |
| JobProtocol.ExecutorService.BeginJob | executor/src/service.rs:171-172 | the run is marked in progress |
| JobProtocol.ExecutorService.FinishJob | executor/src/service.rs:387-397 | the run is marked completed or failed |
| JobProtocol.InvHolds | executor/src/service.rs:160-173 | the ownership and log invariant holds in every state of every interleaving, worker crashes and dropped requests included |
| JobProtocol.OneJobPerId | executor/src/service.rs:464-513 | at most one job per id is inserted, queued or running, and the id is then pending or in progress |
| JobProtocol.CompletedIsFinal | executor/src/service.rs:478-482 | a completed id stays completed, holds no job and never starts again |
| JobProtocol.RerunOnlyAfterFailure | executor/src/service.rs:483-491 | between two starts of an id lies a failed run, and no success precedes a start |
| Policies.BetterIsStrictWeak | sequencer/src/scheduler/policies.rs:111-121 | each policy's comparison is asymmetric and its incomparability transitive |
| Policies.GroupBySender | sequencer/src/scheduler/policies.rs:93-96 | the grouping loop builds per-sender queues in input order |
| Policies.SortQueues | sequencer/src/scheduler/policies.rs:97-99 | every queue is stably sorted by nonce, whatever the visiting order |
| Policies.BestSender | sequencer/src/scheduler/policies.rs:103-125 | the scan returns a head that no other head beats, whatever the visiting order |
| Policies.GreedyMerge | sequencer/src/scheduler/policies.rs:101-136 | the loop emits best heads until the queues are empty |
| Policies.OrderTransactions | sequencer/src/scheduler/policies.rs:390-400 | each policy returns one of its admissible outputs |
| PolicyProperties.PolicyIsPermutation | sequencer/src/scheduler/policies.rs:75-78 | every policy in every hash map order returns a permutation of its input |
| PolicyProperties.MergeKeepsNonceOrder | sequencer/src/scheduler/policies.rs:160-221 | merging policies list each sender by nonce, equal nonces in input order |
| PolicyProperties.FairOrderKeepsSender | sequencer/src/scheduler/policies.rs:267-272 | fair ordering is a stable timestamp sort and keeps a sender's order when its timestamps do not decrease |
| PolicyProperties.SenderOrderKept | sequencer/src/scheduler/policies.rs:92-137 | a sender already in nonce order keeps its order |
| PolicyProperties.NotBeatenByAnyHead | sequencer/src/scheduler/policies.rs:287-340 | read off the output, no transaction is beaten by the next one of another sender |
| PolicyProperties.HeadsAreRanked | sequencer/src/scheduler/policies.rs:178-202 | the same, spelled out in fee, window, bid, size and time per policy |
| PolicyProperties.OrderIndependent | sequencer/src/scheduler/policies.rs:104-125 | without ties between senders every hash map order gives the same output |
| PolicyProperties.OrderIndependentIff | sequencer/src/scheduler/policies.rs:101-136 | the output is unique if and only if no step of it met a tie between senders |
| TieOrder.AlwaysLeadsIff | sequencer/src/scheduler/policies.rs:101-136 | for any queues, the p-th transaction of one sender leaves before the q-th of another in every hash map order if and only if some transaction up to that q-th loses to everything up to that p-th |
| TieOrder.UniqueIffDecided | sequencer/src/scheduler/policies.rs:104-125 | for any input, the output is unique if and only if every two transactions of different senders are decided in that sense, one way or the other |
| TieOrder.ArrivalsPoint | sequencer/src/scheduler/policies.rs:93-99 | each transaction of a sender's queue is traced to its input position |
| TieOrder.ArrivalsCover | sequencer/src/scheduler/policies.rs:93-99 | and every input position has its place in its sender's queue |
| TieOrder.TiesKeepArrivalIff | sequencer/src/scheduler/policies.rs:150-153 | for any input, transactions of different senders equal in the documented key keep arrival order in every output if and only if each earlier arrival's queue is ahead of the later one's |
| TieOrder.OvertakenBehindHead | sequencer/src/scheduler/policies.rs:103-125 | three transactions: the earlier arrival of a tied pair comes out second in every output, whatever the timestamps, when its sender's first transaction loses to the other |
| TieOrder.PairKeepsArrivalIff | sequencer/src/scheduler/policies.rs:150-153 | two tied transactions alone keep arrival order in every output if and only if the first has the earlier timestamp |
| TieOrder.LaterTimestampIsOvertaken | sequencer/src/scheduler/policies.rs:196-200 | the earlier arrival of a tied pair comes second in the only output when its timestamp is the later one |
| TieOrder.TiedPairHasBothOrders | sequencer/src/scheduler/policies.rs:115-119 | two transactions of different senders that tie in full, timestamp included, come out in either order |
| Pool.ForcedQueue.Add | sequencer/src/pool/forced_queue.rs:45-49 | appends at the back |
| Pool.ForcedQueue.GetAll | sequencer/src/pool/forced_queue.rs:59-64 | returns everything in order and empties the queue |
| Pool.TransactionPool.Add | sequencer/src/pool/tx_pool.rs:47-52 | appends at the back and counts |
| Pool.TransactionPool.GetPending | sequencer/src/pool/tx_pool.rs:69-75 | takes a prefix of at most the requested length and keeps the rest in order |
| Pool.GreedyPack | sequencer/src/pool/tx_pool.rs:108-121 | the selection loop computes the greedy pass |
| Pool.TransactionPool.TakeBlobPacked | sequencer/src/pool/tx_pool.rs:83-130 | returns the chosen positions of the pool and leaves the others, with the byte count |
| Pool.PackedInArrivalOrder | sequencer/src/pool/tx_pool.rs:123-129 | selection and remainder are complementary subsequences of the pool in arrival order |
| PackingProperties.PackingBudgets | sequencer/src/pool/tx_pool.rs:108-129 | count and byte budgets hold, the byte count is exact, and at the end the count is full or no leftover fits |
| PackingProperties.PassedOverIsLarger | sequencer/src/pool/tx_pool.rs:98-121 | a transaction passed over for a lower-ranked one is strictly larger |
| PackingProperties.EqualSizesByPrice | sequencer/src/pool/tx_pool.rs:98-106 | between equal sizes the higher price, then the earlier arrival, is selected |
| Batching.Schedule | sequencer/src/scheduler/scheduler.rs:64-86 | forced transactions in order, then a policy order of the normal ones |
| Batching.BatchEngine.CreateBatch | sequencer/src/batch/engine.rs:42-54 | consecutive batch ids |
| Batching.BatchEngine.FilterByGas | sequencer/src/batch/orchestrator.rs:279-289 | the filter loop, used for both kinds of transaction, computes the gas filter |
| Batching.BatchOrchestrator.TakeNormal | sequencer/src/batch/orchestrator.rs:303-309 | blob packing or a prefix, according to the policy |
| Batching.BatchOrchestrator.ScheduleAccepted | sequencer/src/batch/orchestrator.rs:334-343 | what was accepted is scheduled, loses nothing and gets the next id |
| Batching.BatchOrchestrator.ProduceBatch | sequencer/src/batch/orchestrator.rs:276-343 | new queues and batch are those of the plan; a batch is made, with the next id, only when it is nonempty |
| BatchingProperties.FilterKeepsOrder | sequencer/src/batch/orchestrator.rs:313-324 | accepted and deferred transactions are complementary subsequences in queue order |
| BatchingProperties.SealedContents | sequencer/src/batch/orchestrator.rs:334-343 | a batch starts with the accepted forced transactions in queue order and holds exactly the accepted ones |
| BatchingProperties.ProduceConserves | sequencer/src/batch/orchestrator.rs:276-343 | batch plus queues after equals queues before as multisets, for every policy and also when no batch is made |
| BatchingProperties.BatchLimits | sequencer/src/batch/orchestrator.rs:295-327 | size is within the target or only forced transactions are sealed, gas is within any limit below u64::MAX, and under every limit each pulled but deferred transaction would exceed it on top of the final batch |
| BatchingProperties.BlobLimit | sequencer/src/batch/orchestrator.rs:298-306 | under blob packing the sealed bytes stay within the target unless forced transactions alone exceed it |
| BatchingProperties.GasLimitEnforcedIff | sequencer/src/batch/engine.rs:72-76 | under any policy every produced batch is within the gas limit if and only if the limit is below u64::MAX |
| BatchingProperties.SomethingIsSealed | sequencer/src/batch/orchestrator.rs:330-332 | if each waiting transaction fits alone, a waiting transaction means a nonempty batch |
| BatchingProperties.Drains | sequencer/src/batch/orchestrator.rs:276-343 | if each waiting transaction fits alone, as many calls as there are waiting transactions empty the queues and seal each exactly once |
| FairProgress.SealsNothingIff | sequencer/src/batch/orchestrator.rs:279-332 | a call seals nothing if and only if nothing forced and nothing it takes is within the gas limit by itself |
| FairProgress.FittingSealedOnce | sequencer/src/batch/orchestrator.rs:276-343 | whatever else waits, under every policy but blob packing each transaction within the gas limit is sealed exactly as often as it waits within a computed number of calls, and no other is ever sealed |
| BlobLivelock.NeverSealsIff | sequencer/src/pool/tx_pool.rs:98-121 | under blob packing no call ever seals anything if and only if no forced transaction, and none of the same size and price as a selected one, is within the gas limit |
| BlobLivelock.LargerHoldsUpSmaller | sequencer/src/batch/orchestrator.rs:303-327 | with one transaction per batch and a larger one over the gas limit, a smaller one within it still waits after any number of calls |
| BlobProgress.SealedUntilStuck | sequencer/src/batch/orchestrator.rs:276-343 | under blob packing, after a computed number of calls no further call seals anything; whatever waited was sealed exactly as often as it waited, minus what is left of it then, and nothing over the gas limit was ever sealed |
| BlobProgress.WaitsForEverIff | sequencer/src/batch/orchestrator.rs:276-343 | under blob packing a transaction waits after every number of calls if and only if it waits after that computed number |
| BlobRoom.KeySelectedIff | sequencer/src/pool/tx_pool.rs:98-121 | some transaction of a given size and price is selected if and only if packing what ranks strictly ahead leaves room for it |
| BlobRoom.HoldsNothingUpIff | sequencer/src/pool/tx_pool.rs:98-121 | given transactions over the gas limit let every one of given transactions within it be sealed in the end, in every pool made of the former and any number of the latter, if and only if for each of the latter, and each target size, those over the limit that rank ahead leave room |
| BatchingProperties.FiresOnEmptyIff | sequencer/src/batch/trigger.rs:117-188 | the trigger fires with nothing waiting if and only if a target is zero or the minimum size is zero at timeout |
| BatchingProperties.FiredTriggerSeals | sequencer/src/batch/trigger.rs:117-164 | with a positive minimum size every fired trigger yields a nonempty batch |
| Admission.StateCache.IncrementNonce | sequencer/src/state/cache.rs:136-151 | the next nonce, or a new entry with nonce 1 |
| Admission.StateCache.DeductBalance | sequencer/src/state/cache.rs:171-179 | a saturating deduction from a known account only |
| Admission.ApiServer.HandleTransaction | sequencer/src/api/server.rs:364-402 | validation decides; acceptance deducts, increments and pools, refusal changes nothing |
| AdmissionProperties.HandleMovesSender | sequencer/src/api/server.rs:364-378 | acceptance moves exactly the sender's entry, to the next nonce, which wraps, and by the whole cost, with nothing saturating |
| AdmissionProperties.NonceAfterIsModular | sequencer/src/state/cache.rs:136-151 | counting nonces with wrap-around is addition modulo 2^64 |
| AdmissionProperties.CacheTracksAccepted | sequencer/src/state/cache.rs:7-12 | over any handler calls the cached nonce is seed plus accepted count, wrapping, and the cached balance seed minus accepted costs |
| AdmissionProperties.FundsNeededIff | sequencer/src/validation/validator.rs:159-183 | with equal nonces, everything the validator admits from an account that can sign, and that fits the wire, is spendable if and only if the executor holds the cached balance, up to u64::MAX |
| AdmissionProperties.DefaultSeedsDisagree | sequencer/src/main.rs:129-148 | with the default seeds of cache and executor a validly signed transfer is admitted and rejected for its balance |
| AdmissionProperties.HeadExecutes | executor/src/tx_engine.rs:112-168 | the first covered transaction passes every executor check and leaves the rest covered |
| AdmissionProperties.PrefixKeepsSenders | sequencer/src/batch/orchestrator.rs:303-343 | from a pool in nonce order, a policy other than blob packing that defers nothing keeps each sender's order, fair ordering provided that timestamps follow it |
| AdmissionProperties.SealKeepsInv | sequencer/src/batch/orchestrator.rs:310-343 | under any policy and with any deferrals, a seal that takes each sender's lowest nonces keeps every sender covered, whatever the order of the pool |
| AdmissionProperties.InvHolds | sequencer/src/api/server.rs:364-378 | in every run with arbitrary seals, up to the first that does not take each sender's lowest nonces: per sender, executor nonce plus pending count is the cached nonce and executor balance covers cached balance plus pending costs; for runs without forced transactions, whose admitted transactions fit u64, are no self-transfer and have a nonce below the maximum, and with the same signature recovery on both sides |
| AdmissionProperties.AdmittedIsExecuted | executor/src/tx_engine.rs:84-193 | in every such interleaving of admission, sealing and execution in seal order, up to such a seal the executor rejects no admitted transaction |
| AdmissionProperties.OrderlySealsAreNext | sequencer/src/batch/orchestrator.rs:303-343 | a run whose seals each defer nothing under a policy other than blob packing, or keep each sender's order as it happens, takes each sender's lowest nonces throughout and keeps the pool in nonce order |
| AdmissionLimits.RunsInFullIff | executor/src/tx_engine.rs:112-168 | a batch drawn from covered transactions in any order is executed in full if and only if, per sender, it is a prefix of what is in flight |
| AdmissionLimits.SealedRunsInFullIff | sequencer/src/batch/orchestrator.rs:303-343 | from every covered state, whatever the order of its pool, a batch that any policy seals, blob packing and deferrals included, is executed in full behind the batches sealed before if and only if it takes, per sender, the lowest nonces of the pool |
| SealOrder.TakesNextIffClosed | sequencer/src/batch/orchestrator.rs:313-327 | in any pool without repeated nonces, a selection of positions put in nonce order takes each sender's lowest nonces if and only if no chosen one is above an unchosen one of the same sender |
| SealOrder.TakesNextIff | sequencer/src/batch/orchestrator.rs:303-343 | under every policy, from any pool without repeated nonces, a sealed batch takes each sender's lowest nonces if and only if it leaves none of a sender below one that it accepts and, under FCFS and fair ordering, arrival or timestamp order of the accepted ones is nonce order |
| SealOrder.DistinctThroughout | sequencer/src/api/server.rs:364-378 | in every run with arbitrary seals, rejections included, no sender has a nonce twice in the pool |
| SealedRuns.ExecutesInSealOrder | executor/src/service.rs:603-606 | in every run with arbitrary seals the batches waiting for execution are those sealed, in seal order, without as many as were executed, and none of them fails to normalize |
| SealedRuns.RunsInFullIffNext | executor/src/tx_engine.rs:112-168 | in every run with arbitrary seals, up to the first rejection, the batch that the executor takes was sealed by some step and is executed in full if and only if that step took each sender's lowest nonces of its pool |
| SealedRuns.NothingRejectedIff | executor/src/tx_engine.rs:84-193 | in every run with arbitrary seals, the executor has rejected nothing so far if and only if each batch that it executed took the lowest nonces when it was sealed |
| SealedRuns.EarlierDeferralIsRejected | sequencer/src/batch/orchestrator.rs:313-327 | from every initial state an account that can sign has a run of three admissions, a seal and an execution in full after which a batch with the sender's first transaction in the pool is sealed and not executed in full |
| AdmissionLimits.DeferralSkipsNonce | sequencer/src/batch/orchestrator.rs:313-327 | a sender's first transaction over the gas limit and its second within it make a batch that takes neither what is next nor the lowest nonce |
| AdmissionLimits.DeferredNonceIsRejected | executor/src/tx_engine.rs:112-124 | from every initial state an account that can sign has a run of two admissions after which such a batch is sealed and not executed in full |
| GasEscalation.SagaOutbox.UpdateState | submitter/src/saga.rs:97-105 | state and time of one existing row |
| GasEscalation.SagaOutbox.UpdateSubmission | submitter/src/saga.rs:107-125 | a resubmission without a price keeps the original price |
| GasEscalation.SagaOutbox.RecoverRow | submitter/src/daemon.rs:414-467 | the recovery branch for one row, with the price it broadcasts, and the panic when 256-bit arithmetic overflows |
| GasEscalation.BumpsRaiseWithinCap | submitter/src/daemon.rs:427-449 | from 5 wei every bump strictly raises the price and stays within three times the original |
| GasEscalation.FailsOnlyWithin | submitter/src/daemon.rs:427-446 | whatever the passes, a row whose original price is below 5 wei or overflows when taken 297 times stays submitted |
| GasEscalation.GivesUpIff | submitter/src/daemon.rs:413-467 | after nine or more passes that each find the row's transaction, come five minutes after the last update and get their resend taken, the row is Failed if and only if its original price is at least 5 wei and 297 times it fits 256 bits; otherwise it is still submitted |
| GasEscalation.PassesFollowEscalation | submitter/src/daemon.rs:413-467 | over any passes, failed lookups and resends included, the row keeps its original price and either its escalation so far or its failure, and no other row changes |
| GasEscalation.AtMostEightBumps | submitter/src/daemon.rs:427-458 | from 5 wei, however many passes run, at most eight bumps, always within three times the original |

## Left out

- The orchestrator's `start` loop: it measures the forced queue by draining it, so nothing is conserved across it.
- Requests that arrive while `produce_batch` is between two locks, and interleaving inside one API handler.
- AdmissionProperties.InvHolds: not for forced transactions, self-transfers, values beyond u64 or a maximal nonce, which the executor numbers or refuses in other ways.
- AdmissionProperties.AdmittedIsExecuted: the same.
- Which batches run in full after the first rejection, when cache and executor disagree on that sender's nonce.
- Admission with forced transactions, and re-execution of a batch after its proof failed: both can make the executor refuse an admitted transaction.
- Root continuity between consecutive batches: the initial root comes from the state tree, the final root from the diff fold.
- Errors of the persistent tree and of RocksDB itself; a corrupt index is the only failing write.
- TxEngine.SimpleTransactionEngine.ExecuteBatch: without the commitments, trace id, timings and journal hash of the trace, which only report.
- PersistentEngine.PersistentTransactionEngine.ExecuteBatch: the same.
- Parsing of requests and batch payloads, the JSON form of transactions, and the adaptive policy string.
- Resuming received or compressed outbox rows, and the outbox's other columns.
- ECDSA, SHA-256, Keccak-256, the persistent Merkle tree, SQLite and the zkVM prover themselves.
- Metrics, MEV estimates, wait times, configuration loading, L1 listening, plotting and deployment scripts.
