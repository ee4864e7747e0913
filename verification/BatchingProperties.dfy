/** Conservation, limits, maximality and drain of batch production. */
module BatchingProperties {
  import opened Machine
  import opened Folds
  import opened SequencerTypes
  import opened StableSort
  import opened Policies
  import opened PolicyProperties
  import opened Pool
  import opened PackingProperties
  import opened Batching

  // ---------- conservation ----------

  /** Everything that waits. */
  function Pending(q: Backlog): seq<Transaction> {
    WrapForced(q.forced) + WrapNormal(q.pool)
  }

  function Depth(q: Backlog): nat {
    |q.forced| + |q.pool|
  }

  /** The positions that the filter accepts. */
  function AcceptedAt(c: BatchConfig, base: seq<Transaction>, txs: seq<Transaction>): set<nat>
    decreases |txs|
  {
    if txs == [] then {}
    else
      var n := |txs| - 1;
      AcceptedAt(c, base, txs[..n])
      + if CanAdd(c, base + GasFilter(c, base, txs[..n]).accepted, txs[n]) then {n} else {}
  }

  lemma {:induction false} PickAgrees<T>(s: seq<T>, a: set<nat>, b: set<nat>)
    requires forall i: nat :: i < |s| ==> (i in a <==> i in b)
    ensures Pick(s, a) == Pick(s, b)
    decreases |s|
  {
    if s != [] {
      PickAgrees(s[..|s| - 1], a, b);
    }
  }

  /** Accepted and deferred transactions both keep their queue order. */
  lemma {:induction false} FilterKeepsOrder(c: BatchConfig, base: seq<Transaction>, txs: seq<Transaction>)
    ensures forall i :: i in AcceptedAt(c, base, txs) ==> i < |txs|
    ensures GasFilter(c, base, txs).accepted == Pick(txs, AcceptedAt(c, base, txs))
    ensures GasFilter(c, base, txs).deferred == Pick(txs, Others(txs, AcceptedAt(c, base, txs)))
    decreases |txs|
  {
    if txs != [] {
      var n := |txs| - 1;
      FilterKeepsOrder(c, base, txs[..n]);
      var before, after := AcceptedAt(c, base, txs[..n]), AcceptedAt(c, base, txs);
      PickAgrees(txs[..n], before, after);
      PickAgrees(txs[..n], Others(txs[..n], before), Others(txs, after));
    }
  }

  lemma FilterPartitions(c: BatchConfig, base: seq<Transaction>, txs: seq<Transaction>)
    ensures var f := GasFilter(c, base, txs);
            && multiset(f.accepted) + multiset(f.deferred) == multiset(txs)
            && |f.accepted| + |f.deferred| == |txs|
  {
    FilterKeepsOrder(c, base, txs);
    PickPartitions(txs, AcceptedAt(c, base, txs), Others(txs, AcceptedAt(c, base, txs)));
  }

  lemma {:induction false} CountWrapNormal(txs: seq<PooledTransaction>, ptx: PooledTransaction)
    ensures multiset(WrapNormal(txs))[Normal(ptx)] == multiset(txs)[ptx]
    decreases |txs|
  {
    if txs != [] {
      var n := |txs| - 1;
      CountWrapNormal(txs[..n], ptx);
      assert txs == txs[..n] + [txs[n]];
      assert WrapNormal(txs) == WrapNormal(txs[..n]) + [Normal(txs[n])];
    } else {
      assert WrapNormal(txs) == [];
    }
  }

  lemma {:induction false} NoForcedInNormal(txs: seq<PooledTransaction>, f: ForcedTransaction)
    ensures multiset(WrapNormal(txs))[Forced(f)] == 0
    decreases |txs|
  {
    if txs != [] {
      var n := |txs| - 1;
      NoForcedInNormal(txs[..n], f);
      assert WrapNormal(txs) == WrapNormal(txs[..n]) + [Normal(txs[n])];
    } else {
      assert WrapNormal(txs) == [];
    }
  }

  /** Wrapping respects multisets. */
  lemma WrapNormalMultiset(a: seq<PooledTransaction>, b: seq<PooledTransaction>, c: seq<PooledTransaction>)
    requires multiset(a) + multiset(b) == multiset(c)
    ensures multiset(WrapNormal(a)) + multiset(WrapNormal(b)) == multiset(WrapNormal(c))
  {
    forall t ensures multiset(WrapNormal(a))[t] + multiset(WrapNormal(b))[t] == multiset(WrapNormal(c))[t] {
      match t
      case Normal(ptx) =>
        CountWrapNormal(a, ptx);
        CountWrapNormal(b, ptx);
        CountWrapNormal(c, ptx);
      case Forced(f) =>
        NoForcedInNormal(a, f);
        NoForcedInNormal(b, f);
        NoForcedInNormal(c, f);
    }
  }

  lemma UnwrapNormalMultiset(a: seq<PooledTransaction>, b: seq<PooledTransaction>, c: seq<PooledTransaction>)
    requires multiset(WrapNormal(a)) + multiset(WrapNormal(b)) == multiset(WrapNormal(c))
    ensures multiset(a) + multiset(b) == multiset(c)
  {
    forall ptx ensures multiset(a)[ptx] + multiset(b)[ptx] == multiset(c)[ptx] {
      CountWrapNormal(a, ptx);
      CountWrapNormal(b, ptx);
      CountWrapNormal(c, ptx);
    }
  }

  lemma PrefixPartitions<T>(s: seq<T>, n: nat)
    requires n <= |s|
    ensures multiset(s[..n]) + multiset(s[n..]) == multiset(s)
  {
    assert s == s[..n] + s[n..];
  }

  lemma TakePartitions(policy: Policy, pool: seq<PooledTransaction>, maxCount: nat, maxBytes: nat)
    ensures var (taken, left) := TakeFromPool(policy, pool, maxCount, maxBytes);
            && multiset(taken) + multiset(left) == multiset(pool)
            && |taken| + |left| == |pool|
  {
    if policy.BlobPacking? {
      var chosen := Chosen(pool, maxCount, maxBytes);
      PickPartitions(pool, chosen, Others(pool, chosen));
    } else {
      PrefixPartitions(pool, Min(maxCount, |pool|));
    }
  }

  /** A plan keeps the two kinds apart. */
  lemma PlanKinds(c: BatchConfig, policy: Policy, q: Backlog)
    ensures var p := PlanBatch(c, policy, q);
            && AllForced(p.forced.accepted) && AllForced(p.forced.deferred)
            && AllNormal(p.normal.accepted) && AllNormal(p.normal.deferred)
  {
    var f := GasFilter(c, [], WrapForced(q.forced));
    FilterKeepsKind(c, [], WrapForced(q.forced));
    FilterKeepsKind(c, f.accepted, WrapNormal(PlanBatch(c, policy, q).taken));
  }

  lemma WrapNormalConcat(a: seq<PooledTransaction>, b: seq<PooledTransaction>)
    ensures WrapNormal(a + b) == WrapNormal(a) + WrapNormal(b)
  {
  }

  /** What waits after a plan. */
  lemma PendingRequeued(p: Plan)
    requires AllForced(p.forced.deferred) && AllNormal(p.normal.deferred)
    ensures Pending(Requeued(p)) == p.forced.deferred + (WrapNormal(p.left) + p.normal.deferred)
  {
    UnwrapForcedAll(p.forced.deferred);
    UnwrapNormalAll(p.normal.deferred);
    WrapNormalConcat(p.left, UnwrapNormal(p.normal.deferred));
  }

  lemma WrapNormalPermutation(a: seq<PooledTransaction>, b: seq<PooledTransaction>)
    requires multiset(a) == multiset(b)
    ensures multiset(WrapNormal(a)) == multiset(WrapNormal(b))
  {
    assert multiset(a) + multiset([]) == multiset(b);
    WrapNormalMultiset(a, [], b);
    assert WrapNormal([]) == [];
  }

  /** A schedule puts the forced transactions in front and is a permutation of both. */
  lemma ScheduledContents(policy: Policy, forced: seq<Transaction>, normal: seq<Transaction>, sealed: seq<Transaction>)
    requires Valid(policy) && AllForced(forced) && AllNormal(normal)
    requires Scheduled(policy, UnwrapForced(forced), UnwrapNormal(normal), sealed)
    ensures forced <= sealed
    ensures multiset(sealed) == multiset(forced) + multiset(normal) && |sealed| == |forced| + |normal|
  {
    UnwrapForcedAll(forced);
    UnwrapNormalAll(normal);
    var pooled := UnwrapNormal(normal);
    var ordered :| OrderedBy(policy, pooled, ordered)
                   && sealed == WrapForced(UnwrapForced(forced)) + WrapNormal(ordered);
    PolicyIsPermutation(policy, pooled, ordered);
    WrapNormalPermutation(ordered, pooled);
  }

  /** A sealed batch holds exactly the accepted transactions, the forced ones in front and in queue order. */
  lemma SealedContents(c: BatchConfig, policy: Policy, q: Backlog, sealed: seq<Transaction>, next: Backlog)
    requires Valid(policy) && Produces(c, policy, q, sealed, next)
    ensures var p := PlanBatch(c, policy, q);
            && p.forced.accepted <= sealed
            && multiset(sealed) == multiset(p.forced.accepted) + multiset(p.normal.accepted)
            && |sealed| == |p.forced.accepted| + |p.normal.accepted|
  {
    var p := PlanBatch(c, policy, q);
    PlanKinds(c, policy, q);
    ScheduledContents(policy, p.forced.accepted, p.normal.accepted, sealed);
  }

  lemma PlanPartitions(c: BatchConfig, policy: Policy, q: Backlog)
    ensures var p := PlanBatch(c, policy, q);
            && multiset(p.forced.accepted) + multiset(p.forced.deferred) == multiset(WrapForced(q.forced))
            && multiset(p.normal.accepted) + multiset(p.normal.deferred) == multiset(WrapNormal(p.taken))
            && multiset(WrapNormal(p.taken)) + multiset(WrapNormal(p.left)) == multiset(WrapNormal(q.pool))
  {
    var p := PlanBatch(c, policy, q);
    FilterPartitions(c, [], WrapForced(q.forced));
    FilterPartitions(c, p.forced.accepted, WrapNormal(p.taken));
    TakePartitions(policy, q.pool, SatSub(TargetBatchSize(c, |q.pool|), |p.forced.accepted|),
                   SatSub(c.blobTargetBytes, Total(EncodedBytes, p.forced.accepted)));
    WrapNormalMultiset(p.taken, p.left, q.pool);
  }

  /** No transaction is lost or duplicated, for every policy, whether or not a batch is made. */
  lemma ProduceConserves(c: BatchConfig, policy: Policy, q: Backlog, sealed: seq<Transaction>, next: Backlog)
    requires Valid(policy) && Produces(c, policy, q, sealed, next)
    ensures multiset(sealed) + multiset(Pending(next)) == multiset(Pending(q))
    ensures |sealed| + Depth(next) == Depth(q)
  {
    SealedContents(c, policy, q, sealed, next);
    PlanKinds(c, policy, q);
    PendingRequeued(PlanBatch(c, policy, q));
    PlanPartitions(c, policy, q);
    assert |multiset(sealed) + multiset(Pending(next))| == |sealed| + |Pending(next)|;
    assert |multiset(Pending(q))| == |Pending(q)|;
  }

  // ---------- limits ----------

  lemma TotalSnoc(w: Transaction -> nat, txs: seq<Transaction>, tx: Transaction)
    ensures Total(w, txs + [tx]) == Total(w, txs) + w(tx)
  {
    assert (txs + [tx])[..|txs|] == txs;
  }

  lemma {:induction false} TotalConcat(w: Transaction -> nat, a: seq<Transaction>, b: seq<Transaction>)
    ensures Total(w, a + b) == Total(w, a) + Total(w, b)
    decreases |b|
  {
    if b == [] {
      assert a + b == a;
    } else {
      var n := |b| - 1;
      TotalConcat(w, a, b[..n]);
      assert a + b == (a + b[..n]) + [b[n]];
      TotalSnoc(w, a + b[..n], b[n]);
    }
  }

  lemma TotalMiddle(w: Transaction -> nat, front: seq<Transaction>, tx: Transaction, back: seq<Transaction>)
    ensures Total(w, front + [tx] + back) == Total(w, front + back) + w(tx)
  {
    TotalSnoc(w, front, tx);
    TotalConcat(w, front + [tx], back);
    TotalConcat(w, front, back);
  }

  lemma {:induction false} TotalOfPermutation(w: Transaction -> nat, a: seq<Transaction>, b: seq<Transaction>)
    requires multiset(a) == multiset(b)
    ensures Total(w, a) == Total(w, b)
    decreases |a|
  {
    if a == [] {
      assert b == [] by { assert |multiset(a)| == |multiset(b)|; }
    } else {
      var n := |a| - 1;
      MultisetLast(a);
      assert a[n] in multiset(b);
      var front, back := SplitAround(b, a[n]);
      MultisetCancel(multiset(a[..n]), multiset(front + back), a[n]);
      TotalOfPermutation(w, a[..n], front + back);
      TotalMiddle(w, front, a[n], back);
    }
  }

  lemma {:induction false} GasSumExact(txs: seq<Transaction>)
    requires Total(Gas, txs) <= U64_MAX
    ensures GasSum(txs) == Total(Gas, txs)
    decreases |txs|
  {
    if txs != [] {
      GasSumExact(txs[..|txs| - 1]);
    }
  }

  lemma CanAddIff(c: BatchConfig, current: seq<Transaction>, tx: Transaction)
    requires Total(Gas, current) <= c.maxGasLimit < U64_MAX
    ensures CanAdd(c, current, tx) <==> Total(Gas, current) + GasLimit(tx) <= c.maxGasLimit
  {
    GasSumExact(current);
  }

  /** The filter keeps the gas limit, and what it defers would break the limit of the final selection. */
  lemma {:induction false} FilterLimits(c: BatchConfig, base: seq<Transaction>, txs: seq<Transaction>)
    requires c.maxGasLimit < U64_MAX && Total(Gas, base) <= c.maxGasLimit
    ensures var f := GasFilter(c, base, txs);
            && Total(Gas, base) + Total(Gas, f.accepted) <= c.maxGasLimit
            && forall i :: 0 <= i < |f.deferred| ==>
                 Total(Gas, base) + Total(Gas, f.accepted) + GasLimit(f.deferred[i]) > c.maxGasLimit
    decreases |txs|
  {
    if txs != [] {
      var n := |txs| - 1;
      FilterLimits(c, base, txs[..n]);
      var f := GasFilter(c, base, txs[..n]);
      TotalConcat(Gas, base, f.accepted);
      TotalSnoc(Gas, f.accepted, txs[n]);
      CanAddIff(c, base + f.accepted, txs[n]);
    }
  }

  lemma {:induction false} NothingDeferredAtMax(c: BatchConfig, base: seq<Transaction>, txs: seq<Transaction>)
    requires c.maxGasLimit == U64_MAX
    ensures GasFilter(c, base, txs).deferred == []
    decreases |txs|
  {
    if txs != [] {
      NothingDeferredAtMax(c, base, txs[..|txs| - 1]);
    }
  }

  lemma SealedTotal(c: BatchConfig, policy: Policy, q: Backlog, sealed: seq<Transaction>, next: Backlog,
                    w: Transaction -> nat)
    requires Valid(policy) && Produces(c, policy, q, sealed, next)
    ensures var p := PlanBatch(c, policy, q);
            Total(w, sealed) == Total(w, p.forced.accepted) + Total(w, p.normal.accepted)
  {
    var p := PlanBatch(c, policy, q);
    SealedContents(c, policy, q, sealed, next);
    TotalOfPermutation(w, sealed, p.forced.accepted + p.normal.accepted);
    TotalConcat(w, p.forced.accepted, p.normal.accepted);
  }

  lemma SealedSize(c: BatchConfig, policy: Policy, q: Backlog, sealed: seq<Transaction>, next: Backlog)
    requires Valid(policy) && Produces(c, policy, q, sealed, next)
    ensures |sealed| <= TargetBatchSize(c, |q.pool|) || sealed == PlanBatch(c, policy, q).forced.accepted
  {
    SealedContents(c, policy, q, sealed, next);
    PlanWithinTarget(c, policy, q);
  }

  ghost predicate AllExceed(c: BatchConfig, gas: nat, txs: seq<Transaction>) {
    forall i :: 0 <= i < |txs| ==> gas + GasLimit(txs[i]) > c.maxGasLimit
  }

  /** The two filters of a plan together. */
  lemma TwoFilters(c: BatchConfig, forced: seq<Transaction>, normal: seq<Transaction>)
    ensures var f := GasFilter(c, [], forced);
            var n := GasFilter(c, f.accepted, normal);
            var gas := Total(Gas, f.accepted) + Total(Gas, n.accepted);
            && (c.maxGasLimit < U64_MAX ==> gas <= c.maxGasLimit)
            && AllExceed(c, gas, f.deferred) && AllExceed(c, gas, n.deferred)
  {
    var f := GasFilter(c, [], forced);
    if c.maxGasLimit < U64_MAX {
      FilterLimits(c, [], forced);
      FilterLimits(c, f.accepted, normal);
    } else {
      NothingDeferredAtMax(c, [], forced);
      NothingDeferredAtMax(c, f.accepted, normal);
    }
  }

  /**
   * The size is within the target unless only forced transactions are sealed, gas is within any limit below
   * u64::MAX, and every pulled but deferred transaction would take the sealed batch over the limit.
   */
  lemma BatchLimits(c: BatchConfig, policy: Policy, q: Backlog, sealed: seq<Transaction>, next: Backlog)
    requires Valid(policy) && Produces(c, policy, q, sealed, next)
    ensures var p := PlanBatch(c, policy, q);
            && (|sealed| <= TargetBatchSize(c, |q.pool|) || sealed == p.forced.accepted)
            && (c.maxGasLimit < U64_MAX ==> Total(Gas, sealed) <= c.maxGasLimit)
            && AllExceed(c, Total(Gas, sealed), p.forced.deferred)
            && AllExceed(c, Total(Gas, sealed), p.normal.deferred)
  {
    SealedSize(c, policy, q, sealed, next);
    SealedTotal(c, policy, q, sealed, next, Gas);
    TwoFilters(c, WrapForced(q.forced), WrapNormal(PlanBatch(c, policy, q).taken));
  }

  lemma PlanWithinTarget(c: BatchConfig, policy: Policy, q: Backlog)
    ensures var p := PlanBatch(c, policy, q);
            p.normal.accepted == [] || |p.forced.accepted| + |p.normal.accepted| <= TargetBatchSize(c, |q.pool|)
  {
    var p := PlanBatch(c, policy, q);
    TakenWithinCount(policy, q.pool, SatSub(TargetBatchSize(c, |q.pool|), |p.forced.accepted|),
                     SatSub(c.blobTargetBytes, Total(EncodedBytes, p.forced.accepted)));
    FilterPartitions(c, p.forced.accepted, WrapNormal(p.taken));
  }

  lemma TakenWithinCount(policy: Policy, pool: seq<PooledTransaction>, maxCount: nat, maxBytes: nat)
    ensures |TakeFromPool(policy, pool, maxCount, maxBytes).0| <= maxCount
  {
    if policy.BlobPacking? {
      SelectsWithinCount(pool, maxCount, maxBytes);
    }
  }

  lemma {:induction false} WrapNormalBytes(txs: seq<PooledTransaction>)
    ensures Total(EncodedBytes, WrapNormal(txs)) == SizeOf(txs)
    decreases |txs|
  {
    if txs != [] {
      WrapNormalBytes(txs[..|txs| - 1]);
      assert WrapNormal(txs)[..|txs| - 1] == WrapNormal(txs[..|txs| - 1]);
    }
  }

  lemma {:induction false} PickTotal(w: Transaction -> nat, txs: seq<Transaction>, chosen: set<nat>)
    ensures Total(w, Pick(txs, chosen)) <= Total(w, txs)
    decreases |txs|
  {
    if txs != [] {
      var n := |txs| - 1;
      PickTotal(w, txs[..n], chosen);
      TotalSnoc(w, Pick(txs[..n], chosen), txs[n]);
      assert Pick(txs[..n], chosen) + [] == Pick(txs[..n], chosen);
    }
  }

  /**
   * Under blob packing the sealed bytes stay within the blob target, unless the forced transactions alone
   * exceed it.
   */
  lemma BlobLimit(c: BatchConfig, q: Backlog, sealed: seq<Transaction>, next: Backlog)
    requires Produces(c, BlobPacking, q, sealed, next) && c.blobTargetBytes < U64_MAX
    ensures Total(EncodedBytes, sealed) <= c.blobTargetBytes || sealed == PlanBatch(c, BlobPacking, q).forced.accepted
  {
    var p := PlanBatch(c, BlobPacking, q);
    SealedContents(c, BlobPacking, q, sealed, next);
    SealedTotal(c, BlobPacking, q, sealed, next, EncodedBytes);
    FilterKeepsOrder(c, p.forced.accepted, WrapNormal(p.taken));
    PickTotal(EncodedBytes, WrapNormal(p.taken), AcceptedAt(c, p.forced.accepted, WrapNormal(p.taken)));
    WrapNormalBytes(p.taken);
    var maxNormal := SatSub(TargetBatchSize(c, |q.pool|), |p.forced.accepted|);
    PackingBudgets(q.pool, maxNormal, SatSub(c.blobTargetBytes, Total(EncodedBytes, p.forced.accepted)));
    if Total(EncodedBytes, p.forced.accepted) > c.blobTargetBytes {
      EmptyPoolHasNoBytes(p.taken);
      assert WrapNormal(p.taken) == [];
      assert sealed == p.forced.accepted;
    }
  }

  lemma {:induction false} EmptyPoolHasNoBytes(pool: seq<PooledTransaction>)
    ensures SizeOf(pool) > 0 <==> pool != []
    decreases |pool|
  {
    if pool != [] {
      EmptyPoolHasNoBytes(pool[..|pool| - 1]);
    }
  }

  lemma NothingToTake(policy: Policy, maxCount: nat, maxBytes: nat)
    ensures TakeFromPool(policy, [], maxCount, maxBytes) == ([], [])
  {
  }

  /** With an empty pool the plan is the forced filter alone. */
  lemma PlanOfForced(c: BatchConfig, policy: Policy, forced: seq<ForcedTransaction>)
    ensures PlanBatch(c, policy, Backlog(forced, []))
            == Plan(GasFilter(c, [], WrapForced(forced)), [], [], Filtered([], []))
  {
    var f := GasFilter(c, [], WrapForced(forced));
    NothingToTake(policy, SatSub(TargetBatchSize(c, 0), |f.accepted|),
                  SatSub(c.blobTargetBytes, Total(EncodedBytes, f.accepted)));
    assert WrapNormal([]) == [];
  }

  lemma ForcedScheduled(policy: Policy, forced: seq<ForcedTransaction>)
    requires Valid(policy)
    ensures Scheduled(policy, forced, [], WrapForced(forced))
  {
    assert WrapNormal([]) == [] && WrapForced(forced) + WrapNormal([]) == WrapForced(forced);
    assert OrderedBy(policy, [], []);
  }

  lemma {:induction false} UnwrapWrapNormal(txs: seq<PooledTransaction>)
    ensures UnwrapNormal(WrapNormal(txs)) == txs
    decreases |txs|
  {
    if txs != [] {
      UnwrapWrapNormal(txs[..|txs| - 1]);
      assert WrapNormal(txs)[..|txs| - 1] == WrapNormal(txs[..|txs| - 1]);
    }
  }

  lemma {:induction false} UnwrapWrapForced(forced: seq<ForcedTransaction>)
    ensures UnwrapForced(WrapForced(forced)) == forced
    decreases |forced|
  {
    if forced != [] {
      UnwrapWrapForced(forced[..|forced| - 1]);
      assert WrapForced(forced)[..|forced| - 1] == WrapForced(forced[..|forced| - 1]);
    }
  }

  /** At u64::MAX every forced transaction is sealed. */
  lemma ForcedSealedAtMax(c: BatchConfig, policy: Policy, forced: seq<ForcedTransaction>)
    requires Valid(policy) && c.maxGasLimit == U64_MAX
    ensures Produces(c, policy, Backlog(forced, []), WrapForced(forced), Backlog([], []))
  {
    PlanOfForced(c, policy, forced);
    NothingDeferredAtMax(c, [], WrapForced(forced));
    AcceptedIsAll(c, WrapForced(forced));
    UnwrapWrapForced(forced);
    ForcedScheduled(policy, forced);
    NothingUnwrapped();
  }

  lemma {:induction false} AcceptedIsAll(c: BatchConfig, txs: seq<Transaction>)
    requires GasFilter(c, [], txs).deferred == []
    ensures GasFilter(c, [], txs).accepted == txs
    decreases |txs|
  {
    if txs != [] {
      AcceptedIsAll(c, txs[..|txs| - 1]);
    }
  }

  lemma NothingUnwrapped()
    ensures UnwrapForced([]) == [] && UnwrapNormal([]) == []
  {
  }

  /** The saturating comparison enforces the gas limit on every batch exactly when the limit is below u64::MAX. */
  lemma GasLimitEnforcedIff(c: BatchConfig, policy: Policy, heavy: ForcedTransaction)
    requires Valid(policy) && heavy.gasLimit == U64_MAX
    ensures (forall q, sealed, next :: Produces(c, policy, q, sealed, next) ==> Total(Gas, sealed) <= c.maxGasLimit)
            <==> c.maxGasLimit < U64_MAX
  {
    if c.maxGasLimit < U64_MAX {
      forall q, sealed, next | Produces(c, policy, q, sealed, next) ensures Total(Gas, sealed) <= c.maxGasLimit {
        BatchLimits(c, policy, q, sealed, next);
      }
    } else {
      ForcedSealedAtMax(c, policy, [heavy, heavy]);
      var two := WrapForced([heavy, heavy]);
      assert two[..1][..0] == [] && Total(Gas, two[..1]) == U64_MAX;
      assert Total(Gas, two) > c.maxGasLimit;
    }
  }

  // ---------- progress ----------

  ghost predicate PositiveTargets(c: BatchConfig) {
    c.maxBatchSize > 0 && (c.adaptive ==> c.smallBatchSize > 0 && c.mediumBatchSize > 0 && c.largeBatchSize > 0)
  }

  ghost predicate FitsAlone(c: BatchConfig, policy: Policy, t: Transaction) {
    GasLimit(t) <= c.maxGasLimit && (policy.BlobPacking? && t.Normal? ==> PooledBytes(t.pooled) <= c.blobTargetBytes)
  }

  /** Each waiting transaction fits a batch of its own. */
  ghost predicate EachFits(c: BatchConfig, policy: Policy, q: Backlog) {
    forall i :: 0 <= i < |Pending(q)| ==> FitsAlone(c, policy, Pending(q)[i])
  }

  lemma PooledFits(c: BatchConfig, policy: Policy, q: Backlog, j: nat)
    requires EachFits(c, policy, q) && j < |q.pool|
    ensures FitsAlone(c, policy, Normal(q.pool[j]))
  {
    assert Pending(q)[|q.forced| + j] == Normal(q.pool[j]);
  }

  ghost predicate Usable(c: BatchConfig, policy: Policy) {
    && Valid(policy) && PositiveTargets(c)
    && (policy.BlobPacking? ==> c.blobTargetBytes < U64_MAX)
  }

  lemma {:induction false} FirstIsAccepted(c: BatchConfig, txs: seq<Transaction>)
    requires txs != [] && GasLimit(txs[0]) <= c.maxGasLimit
    ensures GasFilter(c, [], txs).accepted != []
    decreases |txs|
  {
    var n := |txs| - 1;
    if n > 0 {
      FirstIsAccepted(c, txs[..n]);
    } else {
      assert txs[..0] == [];
    }
  }

  lemma PlanWithoutForced(c: BatchConfig, policy: Policy, q: Backlog)
    requires q.forced == []
    ensures var p := PlanBatch(c, policy, q);
            && p.forced == Filtered([], [])
            && (p.taken, p.left) == TakeFromPool(policy, q.pool, TargetBatchSize(c, |q.pool|), c.blobTargetBytes)
            && p.normal == GasFilter(c, [], WrapNormal(p.taken))
  {
    assert WrapForced(q.forced) == [];
  }

  lemma TakesSomething(c: BatchConfig, policy: Policy, pool: seq<PooledTransaction>)
    requires Usable(c, policy) && pool != []
    requires policy.BlobPacking? ==> PooledBytes(pool[0]) <= c.blobTargetBytes
    ensures TakeFromPool(policy, pool, TargetBatchSize(c, |pool|), c.blobTargetBytes).0 != []
  {
    if policy.BlobPacking? {
      SelectsSomething(pool, TargetBatchSize(c, |pool|), c.blobTargetBytes);
    }
  }

  lemma TakenFits(c: BatchConfig, policy: Policy, q: Backlog, maxCount: nat, maxBytes: nat)
    requires EachFits(c, policy, q)
    ensures forall i :: 0 <= i < |TakeFromPool(policy, q.pool, maxCount, maxBytes).0| ==>
              TakeFromPool(policy, q.pool, maxCount, maxBytes).0[i].tx.gasLimit <= c.maxGasLimit
  {
    var taken := TakeFromPool(policy, q.pool, maxCount, maxBytes).0;
    TakePartitions(policy, q.pool, maxCount, maxBytes);
    forall i | 0 <= i < |taken| ensures taken[i].tx.gasLimit <= c.maxGasLimit {
      assert taken[i] in multiset(taken);
      assert taken[i] in multiset(q.pool);
      var j :| 0 <= j < |q.pool| && q.pool[j] == taken[i];
      PooledFits(c, policy, q, j);
    }
  }

  lemma PlanAcceptsSomething(c: BatchConfig, policy: Policy, q: Backlog)
    requires Usable(c, policy) && EachFits(c, policy, q) && (q.forced != [] || q.pool != [])
    ensures PlanBatch(c, policy, q).forced.accepted != [] || PlanBatch(c, policy, q).normal.accepted != []
  {
    if q.forced != [] {
      assert Pending(q)[0] == WrapForced(q.forced)[0];
      FirstIsAccepted(c, WrapForced(q.forced));
    } else {
      PooledFits(c, policy, q, 0);
      TakesSomething(c, policy, q.pool);
      TakenFits(c, policy, q, TargetBatchSize(c, |q.pool|), c.blobTargetBytes);
      PlanWithoutForced(c, policy, q);
      FirstIsAccepted(c, WrapNormal(PlanBatch(c, policy, q).taken));
    }
  }

  /** When something waits, a batch is made. */
  lemma SomethingIsSealed(c: BatchConfig, policy: Policy, q: Backlog, sealed: seq<Transaction>, next: Backlog)
    requires Usable(c, policy) && EachFits(c, policy, q) && Produces(c, policy, q, sealed, next)
    requires q.forced != [] || q.pool != []
    ensures sealed != []
  {
    SealedContents(c, policy, q, sealed, next);
    PlanAcceptsSomething(c, policy, q);
  }

  lemma FitsKept(c: BatchConfig, policy: Policy, q: Backlog, sealed: seq<Transaction>, next: Backlog)
    requires EachFits(c, policy, q)
    requires multiset(sealed) + multiset(Pending(next)) == multiset(Pending(q))
    ensures EachFits(c, policy, next)
  {
    var before, after := Pending(q), Pending(next);
    forall i | 0 <= i < |after| ensures FitsAlone(c, policy, after[i]) {
      assert after[i] in multiset(after);
      assert after[i] in multiset(before);
      var k :| 0 <= k < |before| && before[k] == after[i];
    }
  }

  // ---------- drain ----------

  ghost predicate ProducesAt(c: BatchConfig, policy: Policy, states: seq<Backlog>, batches: seq<seq<Transaction>>,
                             k: nat)
    requires Valid(policy) && k < |batches| && |states| == |batches| + 1
  {
    Produces(c, policy, states[k], batches[k], states[k + 1])
  }

  /** Repeated production without arrivals. */
  ghost predicate IsDrain(c: BatchConfig, policy: Policy, states: seq<Backlog>, batches: seq<seq<Transaction>>)
    requires Valid(policy)
  {
    |states| == |batches| + 1 && forall k :: 0 <= k < |batches| ==> ProducesAt(c, policy, states, batches, k)
  }

  /** What one production leaves to rely on. */
  ghost predicate Progressed(c: BatchConfig, policy: Policy, q: Backlog, sealed: seq<Transaction>, next: Backlog) {
    && EachFits(c, policy, next)
    && multiset(sealed) + multiset(Pending(next)) == multiset(Pending(q))
    && Depth(next) <= SatSub(Depth(q), 1)
  }

  lemma DrainStep(c: BatchConfig, policy: Policy, q: Backlog, sealed: seq<Transaction>, next: Backlog)
    requires Usable(c, policy) && EachFits(c, policy, q) && Produces(c, policy, q, sealed, next)
    ensures Progressed(c, policy, q, sealed, next)
  {
    ProduceConserves(c, policy, q, sealed, next);
    FitsKept(c, policy, q, sealed, next);
    if q.forced != [] || q.pool != [] {
      SomethingIsSealed(c, policy, q, sealed, next);
    }
  }

  lemma ProgressAt(c: BatchConfig, policy: Policy, states: seq<Backlog>, batches: seq<seq<Transaction>>, k: nat)
    requires Usable(c, policy) && IsDrain(c, policy, states, batches)
    requires k < |batches| && EachFits(c, policy, states[k])
    ensures Progressed(c, policy, states[k], batches[k], states[k + 1])
  {
    assert ProducesAt(c, policy, states, batches, k);
    DrainStep(c, policy, states[k], batches[k], states[k + 1]);
  }

  lemma {:induction false} FitsThroughout(c: BatchConfig, policy: Policy, states: seq<Backlog>,
                                          batches: seq<seq<Transaction>>, k: nat)
    requires Usable(c, policy) && IsDrain(c, policy, states, batches) && EachFits(c, policy, states[0])
    requires k <= |batches|
    ensures EachFits(c, policy, states[k])
    decreases k
  {
    if k > 0 {
      FitsThroughout(c, policy, states, batches, k - 1);
      ProgressAt(c, policy, states, batches, k - 1);
    }
  }

  lemma CallConserves(c: BatchConfig, policy: Policy, states: seq<Backlog>, batches: seq<seq<Transaction>>, k: nat)
    requires Valid(policy) && IsDrain(c, policy, states, batches) && k < |batches|
    ensures multiset(batches[k]) + multiset(Pending(states[k + 1])) == multiset(Pending(states[k]))
  {
    assert ProducesAt(c, policy, states, batches, k);
    ProduceConserves(c, policy, states[k], batches[k], states[k + 1]);
  }

  lemma DrainTail(c: BatchConfig, policy: Policy, states: seq<Backlog>, batches: seq<seq<Transaction>>)
    requires Valid(policy) && IsDrain(c, policy, states, batches) && batches != []
    ensures IsDrain(c, policy, states[1..], batches[1..])
  {
    forall k | 0 <= k < |batches[1..]| ensures ProducesAt(c, policy, states[1..], batches[1..], k) {
      assert ProducesAt(c, policy, states, batches, k + 1);
    }
  }

  lemma MultisetJoins<T>(first: seq<T>, rest: seq<T>, left: seq<T>, mid: seq<T>, all: seq<T>)
    requires multiset(first) + multiset(mid) == multiset(all)
    requires multiset(rest) + multiset(left) == multiset(mid)
    ensures multiset(first + rest) + multiset(left) == multiset(all)
  {
  }

  /** What is sealed and what still waits is what waited. */
  lemma {:induction false} DrainConserves(c: BatchConfig, policy: Policy, states: seq<Backlog>,
                                          batches: seq<seq<Transaction>>)
    requires Valid(policy) && IsDrain(c, policy, states, batches)
    ensures multiset(Flatten(batches)) + multiset(Pending(states[|batches|])) == multiset(Pending(states[0]))
    decreases |batches|
  {
    if batches != [] {
      CallConserves(c, policy, states, batches, 0);
      DrainTail(c, policy, states, batches);
      DrainConserves(c, policy, states[1..], batches[1..]);
      FlattenCons(batches);
      MultisetJoins(batches[0], Flatten(batches[1..]), Pending(states[|batches|]), Pending(states[1]),
                    Pending(states[0]));
    }
  }

  /** Each call shortens the queues until they are empty. */
  lemma {:induction false} DrainShortens(c: BatchConfig, policy: Policy, states: seq<Backlog>,
                                         batches: seq<seq<Transaction>>, k: nat)
    requires Usable(c, policy) && IsDrain(c, policy, states, batches) && EachFits(c, policy, states[0])
    requires k <= |batches|
    ensures Depth(states[k]) <= SatSub(Depth(states[0]), k)
    decreases k
  {
    if k > 0 {
      DrainShortens(c, policy, states, batches, k - 1);
      FitsThroughout(c, policy, states, batches, k - 1);
      ProgressAt(c, policy, states, batches, k - 1);
    }
  }

  /** As many calls as there are waiting transactions seal each of them exactly once. */
  lemma Drains(c: BatchConfig, policy: Policy, states: seq<Backlog>, batches: seq<seq<Transaction>>)
    requires Usable(c, policy) && IsDrain(c, policy, states, batches) && EachFits(c, policy, states[0])
    requires |batches| >= Depth(states[0])
    ensures states[|batches|] == Backlog([], [])
    ensures multiset(Flatten(batches)) == multiset(Pending(states[0]))
  {
    DrainConserves(c, policy, states, batches);
    DrainShortens(c, policy, states, batches, |batches|);
    assert Pending(Backlog([], [])) == [];
  }

  // ---------- triggers ----------

  /** The trigger fires with nothing waiting only for a zero target or a zero minimum batch size. */
  lemma FiresOnEmptyIff(c: BatchConfig, blobFill: Option<nat>, elapsedMs: nat)
    ensures ShouldSeal(c, 0, 0, 0, blobFill, elapsedMs).Some?
            <==> TargetBatchSize(c, 0) == 0 || (c.minBatchSize == 0 && elapsedMs >= TimeoutFor(c, 0))
  {
  }

  /** With a positive minimum batch size, every trigger that fires yields a nonempty batch. */
  lemma FiredTriggerSeals(c: BatchConfig, policy: Policy, q: Backlog, blobFill: Option<nat>, elapsedMs: nat,
                          sealed: seq<Transaction>, next: Backlog)
    requires Usable(c, policy) && EachFits(c, policy, q) && c.minBatchSize > 0
    requires ShouldSeal(c, |q.forced|, |q.pool|, SizeOf(q.pool), blobFill, elapsedMs).Some?
    requires Produces(c, policy, q, sealed, next)
    ensures sealed != []
  {
    EmptyPoolHasNoBytes(q.pool);
    SomethingIsSealed(c, policy, q, sealed, next);
  }
}
