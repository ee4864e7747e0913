/**
 * Progress whatever else waits.
 *
 * Admission does not compare a transaction's gas with the batch limit, so a transaction that fits no batch may
 * wait for ever. Under every policy but blob packing it holds up nothing: each one that fits is sealed, exactly
 * once, within a number of calls that depends on the backlog only.
 */
module FairProgress {
  import opened Machine
  import opened Folds
  import opened SequencerTypes
  import opened Policies
  import opened Batching
  import opened BatchingProperties

  predicate GasFits(c: BatchConfig, tx: Transaction) {
    GasLimit(tx) <= c.maxGasLimit
  }

  ghost predicate SomeFits(c: BatchConfig, txs: seq<Transaction>) {
    exists i :: 0 <= i < |txs| && GasFits(c, txs[i])
  }

  // ---------- the filter ----------

  lemma EmptyHasRoom(c: BatchConfig, tx: Transaction)
    ensures CanAdd(c, [], tx) <==> GasFits(c, tx)
  {
  }

  /** On top of nothing, the filter accepts something exactly when something fits. */
  lemma {:induction false} AcceptsIffSomeFits(c: BatchConfig, txs: seq<Transaction>)
    ensures GasFilter(c, [], txs).accepted != [] <==> SomeFits(c, txs)
    decreases |txs|
  {
    if txs != [] {
      var n := |txs| - 1;
      AcceptsIffSomeFits(c, txs[..n]);
      EmptyHasRoom(c, txs[n]);
      var f := GasFilter(c, [], txs[..n]);
      if f.accepted == [] {
        assert [] + f.accepted == [];
      }
      SomeFitsSnoc(c, txs);
    }
  }

  /** Nothing is accepted that does not fit. */
  lemma {:induction false} AcceptedFit(c: BatchConfig, base: seq<Transaction>, txs: seq<Transaction>)
    ensures forall tx :: tx in GasFilter(c, base, txs).accepted ==> GasFits(c, tx)
    decreases |txs|
  {
    if txs != [] {
      AcceptedFit(c, base, txs[..|txs| - 1]);
    }
  }

  lemma SealedFit(c: BatchConfig, policy: Policy, q: Backlog, sealed: seq<Transaction>, next: Backlog)
    requires Valid(policy) && Produces(c, policy, q, sealed, next)
    ensures forall tx :: tx in sealed ==> GasFits(c, tx)
  {
    var p := PlanBatch(c, policy, q);
    SealedContents(c, policy, q, sealed, next);
    AcceptedFit(c, [], WrapForced(q.forced));
    AcceptedFit(c, p.forced.accepted, WrapNormal(p.taken));
    forall tx | tx in sealed ensures GasFits(c, tx) {
      assert tx in multiset(sealed);
      assert tx in p.forced.accepted || tx in p.normal.accepted;
    }
  }

  // ---------- a call that seals nothing ----------

  /** What a call takes from the pool when it accepts no forced transaction. */
  function TakenAlone(c: BatchConfig, policy: Policy, pool: seq<PooledTransaction>): seq<PooledTransaction> {
    TakeFromPool(policy, pool, TargetBatchSize(c, |pool|), c.blobTargetBytes).0
  }

  function LeftAlone(c: BatchConfig, policy: Policy, pool: seq<PooledTransaction>): seq<PooledTransaction> {
    TakeFromPool(policy, pool, TargetBatchSize(c, |pool|), c.blobTargetBytes).1
  }

  lemma PlanWithoutAccepted(c: BatchConfig, policy: Policy, q: Backlog)
    requires GasFilter(c, [], WrapForced(q.forced)).accepted == []
    ensures var p := PlanBatch(c, policy, q);
            && p.taken == TakenAlone(c, policy, q.pool) && p.left == LeftAlone(c, policy, q.pool)
            && p.normal == GasFilter(c, [], WrapNormal(p.taken))
  {
  }

  /** A call seals nothing exactly when nothing forced and nothing that it takes fits. */
  lemma SealsNothingIff(c: BatchConfig, policy: Policy, q: Backlog, sealed: seq<Transaction>, next: Backlog)
    requires Valid(policy) && Produces(c, policy, q, sealed, next)
    ensures sealed == [] <==>
              !SomeFits(c, WrapForced(q.forced)) && !SomeFits(c, WrapNormal(TakenAlone(c, policy, q.pool)))
  {
    SealedContents(c, policy, q, sealed, next);
    AcceptsIffSomeFits(c, WrapForced(q.forced));
    if GasFilter(c, [], WrapForced(q.forced)).accepted == [] {
      PlanWithoutAccepted(c, policy, q);
      AcceptsIffSomeFits(c, WrapNormal(TakenAlone(c, policy, q.pool)));
    }
  }

  lemma AllDeferred(c: BatchConfig, txs: seq<Transaction>)
    requires !SomeFits(c, txs)
    ensures GasFilter(c, [], txs) == Filtered([], txs)
  {
    AcceptsIffSomeFits(c, txs);
    DeferredIsAll(c, txs);
  }

  lemma {:induction false} DeferredIsAll(c: BatchConfig, txs: seq<Transaction>)
    requires GasFilter(c, [], txs).accepted == []
    ensures GasFilter(c, [], txs).deferred == txs
    decreases |txs|
  {
    if txs != [] {
      DeferredIsAll(c, txs[..|txs| - 1]);
    }
  }

  /** Then the forced queue stays and the pool is turned: what was taken goes to the back. */
  lemma NothingSealedTurns(c: BatchConfig, policy: Policy, q: Backlog, sealed: seq<Transaction>, next: Backlog)
    requires Valid(policy) && Produces(c, policy, q, sealed, next) && sealed == []
    ensures next == Backlog(q.forced, LeftAlone(c, policy, q.pool) + TakenAlone(c, policy, q.pool))
  {
    SealsNothingIff(c, policy, q, sealed, next);
    AllDeferred(c, WrapForced(q.forced));
    PlanWithoutAccepted(c, policy, q);
    AllDeferred(c, WrapNormal(TakenAlone(c, policy, q.pool)));
    UnwrapWrapForced(q.forced);
    UnwrapWrapNormal(TakenAlone(c, policy, q.pool));
  }

  // ---------- how much is left to do ----------

  function FitWeight(c: BatchConfig): Transaction -> nat {
    (tx: Transaction) => if GasFits(c, tx) then 1 else 0
  }

  /** How many of these fit. */
  function FitCount(c: BatchConfig, txs: seq<Transaction>): nat {
    Total(FitWeight(c), txs)
  }

  lemma SomeFitsSnoc(c: BatchConfig, txs: seq<Transaction>)
    requires txs != []
    ensures SomeFits(c, txs) <==> SomeFits(c, txs[..|txs| - 1]) || GasFits(c, txs[|txs| - 1])
  {
    var n := |txs| - 1;
    if SomeFits(c, txs[..n]) {
      var i :| 0 <= i < n && GasFits(c, txs[..n][i]);
      assert GasFits(c, txs[i]);
    }
    if SomeFits(c, txs) {
      var i :| 0 <= i < |txs| && GasFits(c, txs[i]);
      assert i < n ==> txs[..n][i] == txs[i];
    }
  }

  lemma {:induction false} FitCountPositive(c: BatchConfig, txs: seq<Transaction>)
    ensures FitCount(c, txs) > 0 <==> SomeFits(c, txs)
    decreases |txs|
  {
    if txs != [] {
      FitCountPositive(c, txs[..|txs| - 1]);
      SomeFitsSnoc(c, txs);
    }
  }

  lemma {:induction false} FitCountAll(c: BatchConfig, txs: seq<Transaction>)
    requires forall i :: 0 <= i < |txs| ==> GasFits(c, txs[i])
    ensures FitCount(c, txs) == |txs|
    decreases |txs|
  {
    if txs != [] {
      FitCountAll(c, txs[..|txs| - 1]);
    }
  }

  /** How many transactions stand before the first that fits. */
  function FirstFit(c: BatchConfig, pool: seq<PooledTransaction>): (k: nat)
    ensures k <= |pool|
  {
    if pool == [] || GasFits(c, Normal(pool[0])) then 0 else 1 + FirstFit(c, pool[1..])
  }

  /** Calls within which everything that fits is sealed: a turn of the pool for each, and the way to the first. */
  function CallsNeeded(c: BatchConfig, q: Backlog): nat {
    Turns(FitCount(c, Pending(q)), |q.pool|) + FirstFit(c, q.pool)
  }

  /** A turn of the pool, and two calls more, for each. */
  function Turns(fit: nat, pool: nat): nat {
    if fit == 0 then 0 else Turns(fit - 1, pool) + pool + 2
  }

  lemma {:induction false} FirstFitSkips(c: BatchConfig, pool: seq<PooledTransaction>, m: nat)
    requires m <= |pool| && !SomeFits(c, WrapNormal(pool[..m]))
    ensures m <= FirstFit(c, pool) && FirstFit(c, pool[m..]) == FirstFit(c, pool) - m
    decreases m
  {
    if m > 0 {
      assert WrapNormal(pool[..m])[0] == Normal(pool[0]);
      assert pool[1..][..m - 1] == pool[..m][1..] && pool[1..][m - 1..] == pool[m..];
      var short, long := WrapNormal(pool[1..][..m - 1]), WrapNormal(pool[..m]);
      forall i | 0 <= i < |short| ensures !GasFits(c, short[i]) {
        assert short[i] == long[i + 1];
      }
      FirstFitSkips(c, pool[1..], m - 1);
    } else {
      assert pool[0..] == pool;
    }
  }

  lemma {:induction false} FirstFitFound(c: BatchConfig, front: seq<PooledTransaction>, back: seq<PooledTransaction>)
    requires SomeFits(c, WrapNormal(front))
    ensures FirstFit(c, front + back) == FirstFit(c, front)
    decreases |front|
  {
    var i :| 0 <= i < |WrapNormal(front)| && GasFits(c, WrapNormal(front)[i]);
    if !GasFits(c, Normal(front[0])) {
      assert WrapNormal(front[1..])[i - 1] == WrapNormal(front)[i];
      FirstFitFound(c, front[1..], back);
      assert (front + back)[1..] == front[1..] + back;
    }
  }

  lemma FitCountMoves(c: BatchConfig, policy: Policy, q: Backlog, sealed: seq<Transaction>, next: Backlog)
    requires Valid(policy) && Produces(c, policy, q, sealed, next)
    ensures FitCount(c, Pending(q)) == |sealed| + FitCount(c, Pending(next))
    ensures |next.pool| <= |q.pool|
  {
    ProduceConserves(c, policy, q, sealed, next);
    TotalOfPermutation(FitWeight(c), sealed + Pending(next), Pending(q));
    TotalConcat(FitWeight(c), sealed, Pending(next));
    SealedFit(c, policy, q, sealed, next);
    FitCountAll(c, sealed);
    PoolShrinks(c, policy, q, sealed, next);
  }

  lemma PoolShrinks(c: BatchConfig, policy: Policy, q: Backlog, sealed: seq<Transaction>, next: Backlog)
    requires Valid(policy) && Produces(c, policy, q, sealed, next)
    ensures |next.pool| <= |q.pool|
  {
    var p := PlanBatch(c, policy, q);
    PlanKinds(c, policy, q);
    UnwrapNormalAll(p.normal.deferred);
    assert |UnwrapNormal(p.normal.deferred)| == |p.normal.deferred|;
    FilterPartitions(c, p.forced.accepted, WrapNormal(p.taken));
    TakePartitions(policy, q.pool, SatSub(TargetBatchSize(c, |q.pool|), |p.forced.accepted|),
                   SatSub(c.blobTargetBytes, Total(EncodedBytes, p.forced.accepted)));
  }

  lemma {:induction false} ShorterTurns(fit: nat, pool: nat, nextPool: nat)
    requires nextPool <= pool
    ensures Turns(fit, nextPool) <= Turns(fit, pool)
  {
    if fit > 0 {
      ShorterTurns(fit - 1, pool, nextPool);
    }
  }

  lemma {:induction false} FewerTurns(fit: nat, less: nat, pool: nat)
    requires less < fit
    ensures Turns(less, pool) + pool < Turns(fit, pool)
    decreases fit
  {
    if less < fit - 1 {
      FewerTurns(fit - 1, less, pool);
    }
  }

  lemma SomeFitsConcat(c: BatchConfig, a: seq<Transaction>, b: seq<Transaction>)
    ensures SomeFits(c, a + b) <==> SomeFits(c, a) || SomeFits(c, b)
  {
    if SomeFits(c, a) {
      var i :| 0 <= i < |a| && GasFits(c, a[i]);
      assert (a + b)[i] == a[i];
    }
    if SomeFits(c, b) {
      var i :| 0 <= i < |b| && GasFits(c, b[i]);
      assert (a + b)[|a| + i] == b[i];
    }
  }

  lemma FitBehind(c: BatchConfig, pool: seq<PooledTransaction>, m: nat)
    requires m <= |pool| && SomeFits(c, WrapNormal(pool)) && !SomeFits(c, WrapNormal(pool[..m]))
    ensures SomeFits(c, WrapNormal(pool[m..]))
  {
    SomeFitsConcat(c, WrapNormal(pool[..m]), WrapNormal(pool[m..]));
    assert WrapNormal(pool) == WrapNormal(pool[..m]) + WrapNormal(pool[m..]);
  }

  lemma RotationBringsNearer(c: BatchConfig, pool: seq<PooledTransaction>, m: nat)
    requires m <= |pool| && SomeFits(c, WrapNormal(pool)) && !SomeFits(c, WrapNormal(pool[..m]))
    ensures FirstFit(c, pool[m..] + pool[..m]) == FirstFit(c, pool) - m
  {
    FirstFitSkips(c, pool, m);
    FitBehind(c, pool, m);
    FirstFitFound(c, pool[m..], pool[..m]);
  }

  /** A call that seals nothing brings the first one that fits nearer. */
  lemma TurnBringsNearer(c: BatchConfig, policy: Policy, q: Backlog, sealed: seq<Transaction>, next: Backlog)
    requires Valid(policy) && !policy.BlobPacking? && PositiveTargets(c) && Produces(c, policy, q, sealed, next)
    requires sealed == [] && SomeFits(c, Pending(q))
    ensures FirstFit(c, next.pool) < FirstFit(c, q.pool) && |next.pool| == |q.pool|
  {
    SealsNothingIff(c, policy, q, sealed, next);
    NothingSealedTurns(c, policy, q, sealed, next);
    SomeFitsConcat(c, WrapForced(q.forced), WrapNormal(q.pool));
    RotationBringsNearer(c, q.pool, Min(TargetBatchSize(c, |q.pool|), |q.pool|));
  }

  lemma CallsDecrease(c: BatchConfig, policy: Policy, q: Backlog, sealed: seq<Transaction>, next: Backlog)
    requires Valid(policy) && !policy.BlobPacking? && PositiveTargets(c) && Produces(c, policy, q, sealed, next)
    requires FitCount(c, Pending(q)) > 0
    ensures CallsNeeded(c, next) < CallsNeeded(c, q)
  {
    FitCountMoves(c, policy, q, sealed, next);
    if sealed == [] {
      FitCountPositive(c, Pending(q));
      TurnBringsNearer(c, policy, q, sealed, next);
    } else {
      FewerTurns(FitCount(c, Pending(q)), FitCount(c, Pending(next)), |q.pool|);
      ShorterTurns(FitCount(c, Pending(next)), |q.pool|, |next.pool|);
    }
  }

  // ---------- the whole drain ----------

  lemma CallCounts(c: BatchConfig, policy: Policy, states: seq<Backlog>, batches: seq<seq<Transaction>>, k: nat)
    requires Valid(policy) && !policy.BlobPacking? && PositiveTargets(c) && IsDrain(c, policy, states, batches)
    requires k < |batches|
    ensures FitCount(c, Pending(states[k + 1])) <= FitCount(c, Pending(states[k]))
    ensures FitCount(c, Pending(states[k])) > 0 ==> CallsNeeded(c, states[k + 1]) < CallsNeeded(c, states[k])
  {
    assert ProducesAt(c, policy, states, batches, k);
    FitCountMoves(c, policy, states[k], batches[k], states[k + 1]);
    if FitCount(c, Pending(states[k])) > 0 {
      CallsDecrease(c, policy, states[k], batches[k], states[k + 1]);
    }
  }

  lemma {:induction false} CallsCountDown(c: BatchConfig, policy: Policy, states: seq<Backlog>,
                                          batches: seq<seq<Transaction>>, k: nat)
    requires Valid(policy) && !policy.BlobPacking? && PositiveTargets(c) && IsDrain(c, policy, states, batches)
    requires k <= |batches|
    ensures FitCount(c, Pending(states[k])) == 0 || CallsNeeded(c, states[k]) + k <= CallsNeeded(c, states[0])
    decreases k
  {
    if k > 0 {
      CallsCountDown(c, policy, states, batches, k - 1);
      CallCounts(c, policy, states, batches, k - 1);
    }
  }

  lemma {:induction false} AllSealedFit(c: BatchConfig, policy: Policy, states: seq<Backlog>,
                                        batches: seq<seq<Transaction>>, k: nat, tx: Transaction)
    requires Valid(policy) && IsDrain(c, policy, states, batches) && k <= |batches| && tx in FlattenTo(batches, k)
    ensures GasFits(c, tx)
    decreases k
  {
    if k > 0 {
      if tx in FlattenTo(batches, k - 1) {
        AllSealedFit(c, policy, states, batches, k - 1, tx);
      } else {
        assert tx in batches[k - 1] && ProducesAt(c, policy, states, batches, k - 1);
        SealedFit(c, policy, states[k - 1], batches[k - 1], states[k]);
      }
    }
  }

  lemma NoneFitsLeft(c: BatchConfig, policy: Policy, states: seq<Backlog>, batches: seq<seq<Transaction>>)
    requires Valid(policy) && !policy.BlobPacking? && PositiveTargets(c) && IsDrain(c, policy, states, batches)
    requires |batches| >= CallsNeeded(c, states[0])
    ensures !SomeFits(c, Pending(states[|batches|]))
  {
    CallsCountDown(c, policy, states, batches, |batches|);
    FitCountPositive(c, Pending(states[|batches|]));
    if FitCount(c, Pending(states[|batches|])) > 0 {
      SomeCallNeeded(c, states[|batches|]);
    }
  }

  lemma SomeCallNeeded(c: BatchConfig, q: Backlog)
    requires FitCount(c, Pending(q)) > 0
    ensures CallsNeeded(c, q) > 0
  {
    assert Turns(FitCount(c, Pending(q)), |q.pool|) > 0;
  }

  /**
   * Under every policy but blob packing, without arrivals and within `CallsNeeded` calls, what fits a batch is
   * sealed exactly as often as it waited, and what does not fit is never sealed.
   */
  lemma FittingSealedOnce(c: BatchConfig, policy: Policy, states: seq<Backlog>, batches: seq<seq<Transaction>>,
                          tx: Transaction)
    requires Valid(policy) && !policy.BlobPacking? && PositiveTargets(c) && IsDrain(c, policy, states, batches)
    requires |batches| >= CallsNeeded(c, states[0])
    ensures multiset(Flatten(batches))[tx] == if GasFits(c, tx) then multiset(Pending(states[0]))[tx] else 0
  {
    DrainConserves(c, policy, states, batches);
    if GasFits(c, tx) {
      NoneFitsLeft(c, policy, states, batches);
      assert tx !in Pending(states[|batches|]);
    } else if tx in Flatten(batches) {
      AllSealedFit(c, policy, states, batches, |batches|, tx);
    }
  }
}
