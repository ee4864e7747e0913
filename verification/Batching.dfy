/** When to seal a batch, what goes into it, and how it is put in order. */
module Batching {
  import opened Machine
  import opened SequencerTypes
  import opened Policies
  import opened Pool
  import PolicyProperties

  /** `adaptive` stands for the batch policy string being "adaptive" in any case. */
  datatype BatchConfig = BatchConfig(
    maxBatchSize: nat, timeoutIntervalMs: nat, minBatchSize: nat, maxGasLimit: u64, adaptive: bool,
    lowLoadThreshold: nat, mediumLoadThreshold: nat,
    smallBatchSize: nat, mediumBatchSize: nat, largeBatchSize: nat,
    smallTimeoutMs: nat, mediumTimeoutMs: nat, largeTimeoutMs: nat, blobTargetBytes: nat)

  // ---------- trigger ----------

  datatype TriggerReason = ForcedTransactions | SizeThreshold | Timeout

  function TargetBatchSize(c: BatchConfig, pending: nat): nat {
    if !c.adaptive then c.maxBatchSize
    else if pending < c.lowLoadThreshold then Min(c.smallBatchSize, c.maxBatchSize)
    else if pending <= c.mediumLoadThreshold then Min(c.mediumBatchSize, c.maxBatchSize)
    else Min(c.largeBatchSize, c.maxBatchSize)
  }

  function TimeoutFor(c: BatchConfig, pending: nat): nat {
    if !c.adaptive then c.timeoutIntervalMs
    else if pending < c.lowLoadThreshold then c.smallTimeoutMs
    else if pending <= c.mediumLoadThreshold then c.mediumTimeoutMs
    else c.largeTimeoutMs
  }

  /** `blobFill` is the byte threshold of the blob mode, when that mode is on; `elapsedMs` is the clock. */
  function ShouldSeal(c: BatchConfig, forced: nat, normal: nat, totalBytes: nat, blobFill: Option<nat>, elapsedMs: nat)
    : Option<TriggerReason>
  {
    if forced > 0 then Some(ForcedTransactions)
    else if normal >= TargetBatchSize(c, normal) then Some(SizeThreshold)
    else if blobFill.Some? && totalBytes >= blobFill.value && totalBytes > 0 then Some(SizeThreshold)
    else if elapsedMs >= TimeoutFor(c, normal) && (normal >= c.minBatchSize || normal > 0) then Some(Timeout)
    else None
  }

  // ---------- gas ----------

  function Total(weight: Transaction -> nat, txs: seq<Transaction>): nat
    decreases |txs|
  {
    if txs == [] then 0 else Total(weight, txs[..|txs| - 1]) + weight(txs[|txs| - 1])
  }

  function Gas(tx: Transaction): nat {
    GasLimit(tx)
  }

  /** `estimated_encoded_bytes` */
  function EncodedBytes(tx: Transaction): nat {
    match tx
    case Normal(ptx) => PooledBytes(ptx)
    case Forced(ftx) => ForcedBytes(ftx)
  }

  /** `sum::<u64>()`, wrapping as a release build does */
  function GasSum(txs: seq<Transaction>): u64
    decreases |txs|
  {
    if txs == [] then 0
    else
      var sum := GasSum(txs[..|txs| - 1]) + GasLimit(txs[|txs| - 1]);
      if sum > U64_MAX then sum - TWO_64 else sum
  }

  predicate CanAdd(c: BatchConfig, current: seq<Transaction>, tx: Transaction) {
    SatAdd(GasSum(current), GasLimit(tx)) <= c.maxGasLimit
  }

  datatype Filtered = Filtered(accepted: seq<Transaction>, deferred: seq<Transaction>)

  /** Accept what still fits on top of `base`; defer the rest. */
  function GasFilter(c: BatchConfig, base: seq<Transaction>, txs: seq<Transaction>): Filtered
    decreases |txs|
  {
    if txs == [] then Filtered([], [])
    else
      var f, tx := GasFilter(c, base, txs[..|txs| - 1]), txs[|txs| - 1];
      if CanAdd(c, base + f.accepted, tx) then f.(accepted := f.accepted + [tx])
      else f.(deferred := f.deferred + [tx])
  }

  // ---------- wrapping ----------

  function WrapForced(txs: seq<ForcedTransaction>): (w: seq<Transaction>)
    ensures |w| == |txs| && forall i :: 0 <= i < |txs| ==> w[i] == Forced(txs[i])
  {
    seq(|txs|, i requires 0 <= i < |txs| => Forced(txs[i]))
  }

  function WrapNormal(txs: seq<PooledTransaction>): (w: seq<Transaction>)
    ensures |w| == |txs| && forall i :: 0 <= i < |txs| ==> w[i] == Normal(txs[i])
  {
    seq(|txs|, i requires 0 <= i < |txs| => Normal(txs[i]))
  }

  /** `filter_map` over the forced ones; the others are dropped. */
  function UnwrapForced(txs: seq<Transaction>): seq<ForcedTransaction>
    decreases |txs|
  {
    if txs == [] then []
    else UnwrapForced(txs[..|txs| - 1]) + if txs[|txs| - 1].Forced? then [txs[|txs| - 1].forced] else []
  }

  function UnwrapNormal(txs: seq<Transaction>): seq<PooledTransaction>
    decreases |txs|
  {
    if txs == [] then []
    else UnwrapNormal(txs[..|txs| - 1]) + if txs[|txs| - 1].Normal? then [txs[|txs| - 1].pooled] else []
  }

  // ---------- one batch ----------

  datatype Backlog = Backlog(forced: seq<ForcedTransaction>, pool: seq<PooledTransaction>)

  /** What the policy's kind of selection takes from the pool and what it leaves. */
  function TakeFromPool(policy: Policy, pool: seq<PooledTransaction>, maxCount: nat, maxBytes: nat)
    : (seq<PooledTransaction>, seq<PooledTransaction>)
  {
    if policy.BlobPacking? then
      var chosen := Chosen(pool, maxCount, maxBytes);
      (Pick(pool, chosen), Pick(pool, Others(pool, chosen)))
    else (pool[..Min(maxCount, |pool|)], pool[Min(maxCount, |pool|)..])
  }

  datatype Plan = Plan(forced: Filtered, taken: seq<PooledTransaction>, left: seq<PooledTransaction>, normal: Filtered)

  function PlanBatch(c: BatchConfig, policy: Policy, q: Backlog): Plan {
    var forced := GasFilter(c, [], WrapForced(q.forced));
    var maxNormal := SatSub(TargetBatchSize(c, |q.pool|), |forced.accepted|);
    var maxBytes := SatSub(c.blobTargetBytes, Total(EncodedBytes, forced.accepted));
    var (taken, left) := TakeFromPool(policy, q.pool, maxNormal, maxBytes);
    Plan(forced, taken, left, GasFilter(c, forced.accepted, WrapNormal(taken)))
  }

  /** The queues after a plan: what did not fit goes to the back. */
  function Requeued(p: Plan): Backlog {
    Backlog(UnwrapForced(p.forced.deferred), p.left + UnwrapNormal(p.normal.deferred))
  }

  /** Forced transactions in queue order, then a policy order of the normal ones. */
  ghost predicate Scheduled(policy: Policy, forced: seq<ForcedTransaction>, normal: seq<PooledTransaction>,
                            out: seq<Transaction>)
    requires Valid(policy)
  {
    exists ordered :: OrderedBy(policy, normal, ordered) && out == WrapForced(forced) + WrapNormal(ordered)
  }

  /** One call of `produce_batch`; an empty `sealed` means that no batch was made. */
  ghost predicate Produces(c: BatchConfig, policy: Policy, q: Backlog, sealed: seq<Transaction>, next: Backlog)
    requires Valid(policy)
  {
    var p := PlanBatch(c, policy, q);
    && next == Requeued(p)
    && Scheduled(policy, UnwrapForced(p.forced.accepted), UnwrapNormal(p.normal.accepted), sealed)
  }

  // ---------- the components ----------

  method Schedule(policy: Policy, forced: seq<ForcedTransaction>, normal: seq<PooledTransaction>)
    returns (result: seq<Transaction>)
    requires Valid(policy)
    ensures Scheduled(policy, forced, normal, result)
  {
    result := [];
    for i := 0 to |forced|
      invariant result == WrapForced(forced[..i])
    {
      assert WrapForced(forced[..i + 1]) == WrapForced(forced[..i]) + [Forced(forced[i])];
      result := result + [Forced(forced[i])];
    }
    assert forced[..|forced|] == forced;
    var orderedNormal := OrderTransactions(policy, normal);
    for i := 0 to |orderedNormal|
      invariant result == WrapForced(forced) + WrapNormal(orderedNormal[..i])
    {
      assert WrapNormal(orderedNormal[..i + 1]) == WrapNormal(orderedNormal[..i]) + [Normal(orderedNormal[i])];
      result := result + [Normal(orderedNormal[i])];
    }
    assert orderedNormal[..|orderedNormal|] == orderedNormal;
  }

  class BatchEngine {
    const config: BatchConfig
    var nextBatchId: nat

    constructor (config: BatchConfig)
      ensures this.config == config && nextBatchId == 1
    {
      this.config := config;
      nextBatchId := 1;
    }

    method CreateBatch(transactions: seq<Transaction>) returns (batch: Batch)
      modifies this
      ensures batch == Batch(old(nextBatchId), transactions)
      ensures nextBatchId == old(nextBatchId) + 1
    {
      batch := Batch(nextBatchId, transactions);
      nextBatchId := nextBatchId + 1;
    }

    /** The filtering loop of `produce_batch`, used for both kinds of transaction. */
    method FilterByGas(base: seq<Transaction>, txs: seq<Transaction>) returns (f: Filtered)
      ensures f == GasFilter(config, base, txs)
    {
      var accepted: seq<Transaction>, deferred: seq<Transaction> := [], [];
      for i := 0 to |txs|
        invariant Filtered(accepted, deferred) == GasFilter(config, base, txs[..i])
      {
        assert txs[..i + 1][..i] == txs[..i];
        if CanAdd(config, base + accepted, txs[i]) {
          accepted := accepted + [txs[i]];
        } else {
          deferred := deferred + [txs[i]];
        }
      }
      assert txs[..|txs|] == txs;
      f := Filtered(accepted, deferred);
    }
  }

  class BatchOrchestrator {
    const forcedQueue: ForcedQueue
    const txPool: TransactionPool
    const engine: BatchEngine
    const policy: Policy

    constructor (forcedQueue: ForcedQueue, txPool: TransactionPool, engine: BatchEngine, policy: Policy)
      ensures this.forcedQueue == forcedQueue && this.txPool == txPool
      ensures this.engine == engine && this.policy == policy
    {
      this.forcedQueue, this.txPool, this.engine, this.policy := forcedQueue, txPool, engine, policy;
    }

    ghost function View(): Backlog
      reads forcedQueue, txPool
    {
      Backlog(forcedQueue.transactions, txPool.transactions)
    }

    method RequeueForced(txs: seq<ForcedTransaction>)
      modifies forcedQueue
      ensures forcedQueue.transactions == old(forcedQueue.transactions) + txs
    {
      for i := 0 to |txs|
        invariant forcedQueue.transactions == old(forcedQueue.transactions) + txs[..i]
      {
        forcedQueue.Add(txs[i]);
      }
    }

    method RequeueNormal(txs: seq<PooledTransaction>)
      modifies txPool
      ensures txPool.transactions == old(txPool.transactions) + txs
    {
      for i := 0 to |txs|
        invariant txPool.transactions == old(txPool.transactions) + txs[..i]
      {
        txPool.Add(txs[i]);
      }
    }

    method TakeNormal(maxCount: nat, maxBytes: nat) returns (taken: seq<PooledTransaction>)
      modifies txPool
      ensures (taken, txPool.transactions) == TakeFromPool(policy, old(txPool.transactions), maxCount, maxBytes)
    {
      if policy.BlobPacking? {
        var packedBytes;
        taken, packedBytes := txPool.TakeBlobPacked(maxCount, maxBytes);
      } else {
        ghost var pool, n := txPool.transactions, Min(maxCount, |txPool.transactions|);
        taken := txPool.GetPending(maxCount);
        assert taken == pool[..n] && txPool.transactions == pool[n..];
      }
    }

    /** Order what was accepted and number it. */
    method ScheduleAccepted(forced: seq<Transaction>, normal: seq<Transaction>) returns (batch: Batch)
      requires Valid(policy) && AllForced(forced) && AllNormal(normal)
      modifies engine
      ensures batch.batchId == old(engine.nextBatchId) && engine.nextBatchId == old(engine.nextBatchId) + 1
      ensures Scheduled(policy, UnwrapForced(forced), UnwrapNormal(normal), batch.transactions)
      ensures |batch.transactions| == |forced| + |normal|
    {
      var forcedInner, normalInner := UnwrapForced(forced), UnwrapNormal(normal);
      var ordered := Schedule(policy, forcedInner, normalInner);
      ScheduledSize(policy, forced, normal, ordered);
      batch := engine.CreateBatch(ordered);
    }

    method ProduceBatch() returns (produced: Option<Batch>)
      requires Valid(policy)
      modifies forcedQueue, txPool, engine
      ensures Produces(engine.config, policy, old(View()),
                       if produced.Some? then produced.value.transactions else [], View())
      ensures produced.Some? ==>
                && produced.value.batchId == old(engine.nextBatchId)
                && engine.nextBatchId == old(engine.nextBatchId) + 1
                && produced.value.transactions != []
      ensures produced.None? ==> engine.nextBatchId == old(engine.nextBatchId)
    {
      ghost var plan := PlanBatch(engine.config, policy, View());
      var forcedTxs := forcedQueue.GetAll();
      var forced := engine.FilterByGas([], WrapForced(forcedTxs));
      RequeueForced(UnwrapForced(forced.deferred));

      var target := TargetBatchSize(engine.config, |txPool.transactions|);
      var maxNormal := SatSub(target, |forced.accepted|);
      var remainingBytes := SatSub(engine.config.blobTargetBytes, Total(EncodedBytes, forced.accepted));
      var normalTxs := TakeNormal(maxNormal, remainingBytes);
      var normal := engine.FilterByGas(forced.accepted, WrapNormal(normalTxs));
      RequeueNormal(UnwrapNormal(normal.deferred));
      assert plan == Plan(forced, normalTxs, plan.left, normal);

      if forced.accepted == [] && normal.accepted == [] {
        NothingScheduled(policy);
        return None;
      }

      AcceptedKinds(engine.config, forcedTxs, forced.accepted, normalTxs);
      var batch := ScheduleAccepted(forced.accepted, normal.accepted);
      produced := Some(batch);
    }
  }

  // ---------- kinds and sizes ----------

  ghost predicate AllForced(txs: seq<Transaction>) {
    forall i :: 0 <= i < |txs| ==> txs[i].Forced?
  }

  ghost predicate AllNormal(txs: seq<Transaction>) {
    forall i :: 0 <= i < |txs| ==> txs[i].Normal?
  }

  lemma {:induction false} FilterKeepsKind(c: BatchConfig, base: seq<Transaction>, txs: seq<Transaction>)
    ensures AllForced(txs) ==>
              AllForced(GasFilter(c, base, txs).accepted) && AllForced(GasFilter(c, base, txs).deferred)
    ensures AllNormal(txs) ==>
              AllNormal(GasFilter(c, base, txs).accepted) && AllNormal(GasFilter(c, base, txs).deferred)
    decreases |txs|
  {
    if txs != [] {
      FilterKeepsKind(c, base, txs[..|txs| - 1]);
    }
  }

  lemma AcceptedKinds(c: BatchConfig, forced: seq<ForcedTransaction>, base: seq<Transaction>,
                      normal: seq<PooledTransaction>)
    ensures AllForced(GasFilter(c, [], WrapForced(forced)).accepted)
    ensures AllNormal(GasFilter(c, base, WrapNormal(normal)).accepted)
  {
    FilterKeepsKind(c, [], WrapForced(forced));
    FilterKeepsKind(c, base, WrapNormal(normal));
  }

  lemma {:induction false} UnwrapForcedAll(txs: seq<Transaction>)
    requires AllForced(txs)
    ensures WrapForced(UnwrapForced(txs)) == txs
    decreases |txs|
  {
    if txs != [] {
      UnwrapForcedAll(txs[..|txs| - 1]);
    }
  }

  lemma {:induction false} UnwrapNormalAll(txs: seq<Transaction>)
    requires AllNormal(txs)
    ensures WrapNormal(UnwrapNormal(txs)) == txs
    decreases |txs|
  {
    if txs != [] {
      UnwrapNormalAll(txs[..|txs| - 1]);
    }
  }

  lemma NothingScheduled(policy: Policy)
    requires Valid(policy)
    ensures Scheduled(policy, UnwrapForced([]), UnwrapNormal([]), [])
  {
    assert OrderedBy(policy, [], []);
    assert WrapForced([]) + WrapNormal([]) == [];
  }

  lemma ScheduledSize(policy: Policy, forced: seq<Transaction>, normal: seq<Transaction>, out: seq<Transaction>)
    requires Valid(policy) && AllForced(forced) && AllNormal(normal)
    requires Scheduled(policy, UnwrapForced(forced), UnwrapNormal(normal), out)
    ensures |out| == |forced| + |normal|
  {
    UnwrapForcedAll(forced);
    UnwrapNormalAll(normal);
    var ordered :| OrderedBy(policy, UnwrapNormal(normal), ordered)
                   && out == WrapForced(UnwrapForced(forced)) + WrapNormal(ordered);
    PolicyProperties.PolicyIsPermutation(policy, UnwrapNormal(normal), ordered);
  }
}
