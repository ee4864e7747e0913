/**
 * Every run, whatever it seals.
 *
 * Seals are arbitrary here: blob packing, gas deferrals and pools that earlier deferrals left out of nonce order.
 * Up to the first rejection, each batch runs in full exactly when it took each sender's lowest nonces of the pool
 * that it was sealed from.
 */
module SealedRuns {
  import opened Machine
  import opened Folds
  import opened Crypto
  import opened Accounts
  import opened SequencerTypes
  import opened StableSort
  import opened Policies
  import opened PolicyProperties
  import opened Batching
  import opened Admission
  import opened AdmissionProperties
  import opened AdmissionLimits
  import opened SealOrder
  import E = ExecutorTypes
  import T = TxEngine
  import BatchingProperties

  // ---------- what is pending can always be normalized ----------

  /** Whatever was sealed how, everything that is pending was admitted. */
  ghost predicate PendingRunnable(env: Env, s: System) {
    && AllRunnable(env.verifier, s.front.pool)
    && forall i :: 0 <= i < |s.sealed| ==> AllRunnable(env.verifier, s.sealed[i])
  }

  lemma AdmitPending(env: Env, s: System, tx: UserTransaction, arrivedAt: u64, enteredAt: u64, t: System)
    requires SameSignatures(env) && PendingRunnable(env, s) && AdmitNext(env, s, tx, arrivedAt, enteredAt, t)
    ensures PendingRunnable(env, t)
  {
    if Validate(env.recover, s.front.cache, tx).Ok? {
      SignatureCarries(env, s.front.cache, tx);
      RunnableSnoc(env.verifier, s.front.pool, Pooled(tx, arrivedAt, enteredAt));
    }
  }

  lemma SealPending(env: Env, s: System, batch: seq<PooledTransaction>, t: System)
    requires Valid(env.policy) && PendingRunnable(env, s) && SealNext(env, s, batch, t)
    ensures PendingRunnable(env, t)
  {
    SealConserves(env, s.front.pool, batch, t.front.pool);
    PartIsFromPool(s.front.pool, batch);
    PartIsFromPool(s.front.pool, t.front.pool);
    FlightIsRunnable(env.verifier, s.front.pool, batch);
    FlightIsRunnable(env.verifier, s.front.pool, t.front.pool);
    SealedRunnable(env.verifier, s.sealed, batch);
  }

  lemma SealedRunnable(v: T.Verifier, sealed: seq<seq<PooledTransaction>>, batch: seq<PooledTransaction>)
    requires AllRunnable(v, batch) && forall i :: 0 <= i < |sealed| ==> AllRunnable(v, sealed[i])
    ensures forall i :: 0 <= i < |sealed + [batch]| ==> AllRunnable(v, (sealed + [batch])[i])
  {
  }

  lemma OldestIsTaken(env: Env, s: System, batchId: nat, root: Hash, t: System)
    requires PendingRunnable(env, s) && ExecuteNext(env, s, batchId, root, t)
    ensures t.front == s.front && t.sealed == s.sealed[1..] && PendingRunnable(env, t)
  {
    BatchNormalizes(env.verifier, s.sealed[0]);
  }

  // ---------- batches are executed in seal order ----------

  /** The batches that the first `k` steps seal. */
  function SealedBy(actions: seq<Action>, k: nat): seq<seq<PooledTransaction>>
    requires k <= |actions|
  {
    if k == 0 then []
    else SealedBy(actions, k - 1) + if actions[k - 1].Seal? then [actions[k - 1].batch] else []
  }

  /** The number of executions among the first `k` steps. */
  function ExecutedBy(actions: seq<Action>, k: nat): nat
    requires k <= |actions|
  {
    if k == 0 then 0 else ExecutedBy(actions, k - 1) + if actions[k - 1].Execute? then 1 else 0
  }

  ghost predicate Queued(s: System, sealed: seq<seq<PooledTransaction>>, executed: nat) {
    executed <= |sealed| && s.sealed == sealed[executed..]
  }

  lemma StepQueues(env: Env, s: System, action: Action, t: System, sealed: seq<seq<PooledTransaction>>, executed: nat)
    requires Valid(env.policy) && SameSignatures(env) && Next(env, s, action, t)
    requires PendingRunnable(env, s) && Queued(s, sealed, executed)
    ensures PendingRunnable(env, t)
    ensures Queued(t, sealed + (if action.Seal? then [action.batch] else []),
                   executed + if action.Execute? then 1 else 0)
  {
    match action
    case Admit(tx, arrivedAt, enteredAt) => AdmitPending(env, s, tx, arrivedAt, enteredAt, t);
    case Seal(batch) => SealPending(env, s, batch, t);
    case Execute(batchId, root) => OldestIsTaken(env, s, batchId, root, t);
  }

  /** In every run the queue holds what was sealed, in seal order, without the batches executed so far. */
  lemma {:induction false} ExecutesInSealOrder(env: Env, run: seq<System>, actions: seq<Action>, k: nat)
    requires Valid(env.policy) && SameSignatures(env) && IsRun(env, run, actions) && k < |run|
    ensures PendingRunnable(env, run[k]) && Queued(run[k], SealedBy(actions, k), ExecutedBy(actions, k))
    decreases k
  {
    if k > 0 {
      ExecutesInSealOrder(env, run, actions, k - 1);
      assert NextAt(env, run, actions, k - 1);
      StepQueues(env, run[k - 1], actions[k - 1], run[k], SealedBy(actions, k - 1), ExecutedBy(actions, k - 1));
    }
  }

  /** The step that sealed the `n`-th batch. */
  lemma {:induction false} SealStep(actions: seq<Action>, k: nat, n: nat) returns (i: nat)
    requires k <= |actions| && n < |SealedBy(actions, k)|
    ensures i < k && actions[i].Seal? && |SealedBy(actions, i)| == n && actions[i].batch == SealedBy(actions, k)[n]
    decreases k
  {
    i := k - 1;
    if n < |SealedBy(actions, k - 1)| {
      i := SealStep(actions, k - 1, n);
    }
  }

  /** The step that executes it. */
  lemma {:induction false} ExecuteStep(actions: seq<Action>, k: nat, n: nat) returns (m: nat)
    requires k <= |actions| && n < ExecutedBy(actions, k)
    ensures m < k && actions[m].Execute? && ExecutedBy(actions, m) == n
    decreases k
  {
    m := k - 1;
    if n < ExecutedBy(actions, k - 1) {
      m := ExecuteStep(actions, k - 1, n);
    }
  }

  lemma {:induction false} CountsGrow(actions: seq<Action>, i: nat, k: nat)
    requires i <= k <= |actions|
    ensures |SealedBy(actions, i)| <= |SealedBy(actions, k)| && ExecutedBy(actions, i) <= ExecutedBy(actions, k)
    decreases k
  {
    if i < k {
      CountsGrow(actions, i, k - 1);
    }
  }

  // ---------- from a seal to its execution ----------

  /** The state at a seal with the batches and accounts of a later one. */
  function Later(atSeal: System, s: System, n: nat): System
    requires n <= |s.sealed|
  {
    atSeal.(sealed := s.sealed[..n], accounts := s.accounts)
  }

  /** `batch` waits behind `n` others, which leave it the executor that its pool counts on. */
  ghost predicate Waits(env: Env, atSeal: System, batch: seq<PooledTransaction>, s: System, n: nat) {
    n < |s.sealed| && s.sealed[n] == batch && Inv(env, Later(atSeal, s, n))
  }

  lemma SealedWaits(env: Env, s: System, batch: seq<PooledTransaction>, t: System)
    requires Valid(env.policy) && Inv(env, s) && SealNext(env, s, batch, t)
    ensures Waits(env, s, batch, t, |s.sealed|)
  {
    assert Later(s, t, |s.sealed|) == s;
  }

  lemma ExecutionBringsNearer(env: Env, atSeal: System, batch: seq<PooledTransaction>, s: System, n: nat,
                              batchId: nat, root: Hash, t: System)
    requires Waits(env, atSeal, batch, s, n) && n > 0 && ExecuteNext(env, s, batchId, root, t)
    ensures Waits(env, atSeal, batch, t, n - 1)
  {
    var before := Later(atSeal, s, n);
    var after := ExecuteOldest(env, before, batchId, root);
    ExecuteMoves(env, before, batchId, root, after);
    ExecuteKeepsInv(env, before, batchId, root, after);
    OldestBatchExecutes(env, before, batchId, root);
    assert before.sealed[0] == s.sealed[0] && s.sealed[..n][1..] == s.sealed[1..][..n - 1];
    assert after == Later(atSeal, t, n - 1);
  }

  lemma WaitStep(env: Env, atSeal: System, batch: seq<PooledTransaction>, s: System, n: nat, action: Action, t: System)
    requires Valid(env.policy) && Waits(env, atSeal, batch, s, n) && Next(env, s, action, t)
    requires action.Execute? ==> n > 0
    ensures Waits(env, atSeal, batch, t, if action.Execute? then n - 1 else n)
  {
    match action
    case Admit(_, _, _) =>
      assert Later(atSeal, t, n) == Later(atSeal, s, n);
    case Seal(_) =>
      assert t.sealed[..n] == s.sealed[..n];
      assert Later(atSeal, t, n) == Later(atSeal, s, n);
    case Execute(batchId, root) => ExecutionBringsNearer(env, atSeal, batch, s, n, batchId, root, t);
  }

  /** The batch that step `i` seals waits at step `k`, unless it was executed. */
  ghost predicate WaitsAt(env: Env, run: seq<System>, actions: seq<Action>, i: nat, k: nat)
    requires i < |actions| && k <= |actions| && |run| == |actions| + 1 && actions[i].Seal?
  {
    ExecutedBy(actions, k) <= |SealedBy(actions, i)| ==>
      Waits(env, run[i], actions[i].batch, run[k], |SealedBy(actions, i)| - ExecutedBy(actions, k))
  }

  lemma WaitsFromSeal(env: Env, run: seq<System>, actions: seq<Action>, i: nat)
    requires Valid(env.policy) && SameSignatures(env) && IsRun(env, run, actions)
    requires i < |actions| && actions[i].Seal? && SealedNext(run, actions, i)
    ensures WaitsAt(env, run, actions, i, i + 1)
  {
    assert NextAt(env, run, actions, i);
    InvHolds(env, run, actions, i);
    ExecutesInSealOrder(env, run, actions, i);
    SealedWaits(env, run[i], actions[i].batch, run[i + 1]);
  }

  lemma WaitsOn(env: Env, run: seq<System>, actions: seq<Action>, i: nat, k: nat)
    requires Valid(env.policy) && i < |actions| && k < |actions| && |run| == |actions| + 1 && actions[i].Seal?
    requires NextAt(env, run, actions, k) && WaitsAt(env, run, actions, i, k)
    ensures WaitsAt(env, run, actions, i, k + 1)
  {
    if ExecutedBy(actions, k + 1) <= |SealedBy(actions, i)| {
      WaitStep(env, run[i], actions[i].batch, run[k], |SealedBy(actions, i)| - ExecutedBy(actions, k), actions[k],
               run[k + 1]);
    }
  }

  lemma WaitsThroughout(env: Env, run: seq<System>, actions: seq<Action>, i: nat, k: nat)
    requires Valid(env.policy) && IsRun(env, run, actions)
    requires i < k < |run| && actions[i].Seal? && WaitsAt(env, run, actions, i, i + 1)
    ensures WaitsAt(env, run, actions, i, k)
  {
    var holds := (m: nat) => i + 1 + m <= |actions| ==> WaitsAt(env, run, actions, i, i + 1 + m);
    forall m: nat | holds(m) ensures holds(m + 1) {
      if i + 1 + m < |actions| {
        assert NextAt(env, run, actions, i + 1 + m);
        WaitsOn(env, run, actions, i, i + 1 + m);
      }
    }
    Induct(holds, k - i - 1);
  }

  lemma FirstRunsInFullIff(env: Env, atSeal: System, batch: seq<PooledTransaction>, left: seq<PooledTransaction>,
                           s: System, batchId: nat, root: Hash)
    requires Valid(env.policy) && Waits(env, atSeal, batch, s, 0) && Seals(env, atSeal.front.pool, batch, left)
    ensures RunsInFull(env, s, batchId, root) <==> NextByNonce(atSeal.front.pool, batch)
  {
    NextRunsInFullIff(env, Later(atSeal, s, 0), batch, left, batchId, root);
  }

  /** Behind seals that took the lowest nonces, a batch runs in full exactly when it did. */
  lemma ExecutedInFullIff(env: Env, run: seq<System>, actions: seq<Action>, i: nat, k: nat)
    requires Valid(env.policy) && SameSignatures(env) && IsRun(env, run, actions)
    requires i < k < |actions| && actions[i].Seal? && actions[k].Execute? && SealedNext(run, actions, i)
    requires ExecutedBy(actions, k) == |SealedBy(actions, i)|
    ensures run[k].sealed != []
    ensures RunsInFull(env, run[k], actions[k].batchId, actions[k].root)
            <==> NextByNonce(run[i].front.pool, actions[i].batch)
  {
    WaitsFromSeal(env, run, actions, i);
    WaitsThroughout(env, run, actions, i, k);
    assert WaitsAt(env, run, actions, i, k) && NextAt(env, run, actions, i);
    FirstRunsInFullIff(env, run[i], actions[i].batch, run[i + 1].front.pool, run[k], actions[k].batchId,
                       actions[k].root);
  }

  // ---------- up to the first rejection ----------

  /** If step `m` executes, it runs its batch in full. */
  ghost predicate InFullAt(env: Env, run: seq<System>, actions: seq<Action>, m: nat)
    requires m < |actions| && |run| == |actions| + 1
  {
    actions[m].Execute? ==> run[m].sealed != [] && RunsInFull(env, run[m], actions[m].batchId, actions[m].root)
  }

  /** Every execution before step `k` ran its batch in full. */
  ghost predicate FullBefore(env: Env, run: seq<System>, actions: seq<Action>, k: nat)
    requires k < |run| == |actions| + 1
  {
    forall m :: 0 <= m < k ==> InFullAt(env, run, actions, m)
  }

  lemma ExecutedLater(env: Env, run: seq<System>, actions: seq<Action>, i: nat, m: nat)
    requires Valid(env.policy) && SameSignatures(env) && IsRun(env, run, actions) && i < |run|
    requires m < |actions| && actions[m].Execute? && ExecutedBy(actions, m) == |SealedBy(actions, i)|
    ensures i < m
  {
    ExecutesInSealOrder(env, run, actions, m);
    assert NextAt(env, run, actions, m);
    if m <= i {
      CountsGrow(actions, m, i);
    }
  }

  lemma FullMeansNextAt(env: Env, run: seq<System>, actions: seq<Action>, k: nat, i: nat)
    requires Valid(env.policy) && SameSignatures(env) && IsRun(env, run, actions)
    requires i < |actions| && k < |run| && FullBefore(env, run, actions, k) && SealedNext(run, actions, i)
    requires actions[i].Seal? && |SealedBy(actions, i)| < ExecutedBy(actions, k)
    ensures NextByNonce(run[i].front.pool, actions[i].batch)
  {
    var m := ExecuteStep(actions, k, |SealedBy(actions, i)|);
    ExecutedLater(env, run, actions, i, m);
    assert InFullAt(env, run, actions, m);
    ExecutedInFullIff(env, run, actions, i, m);
  }

  /** Of the batches executed in full, each took the lowest nonces. */
  lemma {:induction false} FullMeansNext(env: Env, run: seq<System>, actions: seq<Action>, k: nat, i: nat)
    requires Valid(env.policy) && SameSignatures(env) && IsRun(env, run, actions)
    requires i < |run| && k < |run| && FullBefore(env, run, actions, k)
    requires |SealedBy(actions, i)| <= ExecutedBy(actions, k)
    ensures SealedNext(run, actions, i)
    decreases i
  {
    if i > 0 {
      FullMeansNext(env, run, actions, k, i - 1);
      if actions[i - 1].Seal? {
        FullMeansNextAt(env, run, actions, k, i - 1);
      }
    }
  }

  /**
   * In every run, up to the first rejection: the batch that the executor takes next was sealed by some step, and
   * it runs in full exactly when that step took, per sender, the lowest nonces of its pool.
   */
  lemma RunsInFullIffNext(env: Env, run: seq<System>, actions: seq<Action>, k: nat) returns (i: nat)
    requires Valid(env.policy) && SameSignatures(env) && IsRun(env, run, actions)
    requires k < |actions| && actions[k].Execute? && FullBefore(env, run, actions, k)
    ensures i < k && actions[i].Seal? && |SealedBy(actions, i)| == ExecutedBy(actions, k)
    ensures run[k].sealed != [] && run[k].sealed[0] == actions[i].batch
    ensures InFullAt(env, run, actions, k) <==> NextByNonce(run[i].front.pool, actions[i].batch)
  {
    ExecutesInSealOrder(env, run, actions, k);
    assert NextAt(env, run, actions, k);
    i := SealStep(actions, k, ExecutedBy(actions, k));
    FullMeansNext(env, run, actions, k, i);
    ExecutedInFullIff(env, run, actions, i, k);
  }

  /** Each of the batches executed before step `k` took the lowest nonces when it was sealed. */
  ghost predicate ExecutedNext(run: seq<System>, actions: seq<Action>, k: nat)
    requires k < |run| == |actions| + 1
  {
    forall i :: 0 <= i < |actions| && |SealedBy(actions, i)| < ExecutedBy(actions, k) ==> NextAtSeal(run, actions, i)
  }

  lemma NextMeansFullAt(env: Env, run: seq<System>, actions: seq<Action>, k: nat, n: nat)
    requires Valid(env.policy) && SameSignatures(env) && IsRun(env, run, actions)
    requires k < n < |run| && actions[k].Execute? && FullBefore(env, run, actions, k) && ExecutedNext(run, actions, n)
    ensures InFullAt(env, run, actions, k)
  {
    var i := RunsInFullIffNext(env, run, actions, k);
    CountsGrow(actions, k + 1, n);
    ExecutedNextAt(run, actions, n, i);
  }

  lemma ExecutedNextAt(run: seq<System>, actions: seq<Action>, k: nat, i: nat)
    requires k < |run| == |actions| + 1 && ExecutedNext(run, actions, k)
    requires i < |actions| && actions[i].Seal? && |SealedBy(actions, i)| < ExecutedBy(actions, k)
    ensures NextByNonce(run[i].front.pool, actions[i].batch)
  {
    assert NextAtSeal(run, actions, i);
  }

  lemma {:induction false} NextMeansFull(env: Env, run: seq<System>, actions: seq<Action>, k: nat, n: nat)
    requires Valid(env.policy) && SameSignatures(env) && IsRun(env, run, actions)
    requires k <= n < |run| && ExecutedNext(run, actions, n)
    ensures FullBefore(env, run, actions, k)
    decreases k
  {
    if k > 0 {
      NextMeansFull(env, run, actions, k - 1, n);
      if actions[k - 1].Execute? {
        NextMeansFullAt(env, run, actions, k - 1, n);
      }
    }
  }

  /** In every run, the executor has rejected nothing exactly when each batch it executed took the lowest nonces. */
  lemma NothingRejectedIff(env: Env, run: seq<System>, actions: seq<Action>, k: nat)
    requires Valid(env.policy) && SameSignatures(env) && IsRun(env, run, actions) && k < |run|
    ensures FullBefore(env, run, actions, k) <==> ExecutedNext(run, actions, k)
  {
    if ExecutedNext(run, actions, k) {
      NextMeansFull(env, run, actions, k, k);
    }
    if FullBefore(env, run, actions, k) {
      forall i | 0 <= i < |actions| && |SealedBy(actions, i)| < ExecutedBy(actions, k)
        ensures NextAtSeal(run, actions, i)
      {
        FullMeansNext(env, run, actions, k, i + 1);
      }
    }
  }

  // ---------- a deferral two batches ago ----------

  lemma RunSeals(env: Env, run: seq<System>, actions: seq<Action>, batch: seq<PooledTransaction>,
                 left: seq<PooledTransaction>)
    returns (t: System)
    requires Valid(env.policy) && IsRun(env, run, actions) && batch != []
    requires Seals(env, run[|actions|].front.pool, batch, left)
    ensures IsRun(env, run + [t], actions + [Seal(batch)])
    ensures var s := run[|actions|]; t == s.(front := s.front.(pool := left), sealed := s.sealed + [batch])
  {
    var s := run[|actions|];
    t := s.(front := s.front.(pool := left), sealed := s.sealed + [batch]);
    RunGoesOn(env, run, actions, Seal(batch), t);
  }

  lemma RunExecutes(env: Env, run: seq<System>, actions: seq<Action>, batchId: nat, root: Hash) returns (t: System)
    requires Valid(env.policy) && SameSignatures(env) && IsRun(env, run, actions) && run[|actions|].sealed != []
    ensures IsRun(env, run + [t], actions + [Execute(batchId, root)])
    ensures t.front == run[|actions|].front && t.sealed == run[|actions|].sealed[1..]
  {
    t := ExecuteOldest(env, run[|actions|], batchId, root);
    ExecutesInSealOrder(env, run, actions, |actions|);
    OldestIsTaken(env, run[|actions|], batchId, root, t);
    RunGoesOn(env, run, actions, Execute(batchId, root), t);
  }

  lemma OnlyFirstFits(c: BatchConfig, first: PooledTransaction, second: PooledTransaction)
    requires first.tx.gasLimit <= c.maxGasLimit < second.tx.gasLimit
    ensures GasFilter(c, [], [Normal(first)] + [Normal(second)]) == Filtered([Normal(first)], [Normal(second)])
  {
    var none: seq<Transaction> := [];
    assert none + none == none && GasSum(none) == 0;
    GasFilterSnoc(c, none, none, Normal(first));
    assert none + [Normal(first)] == [Normal(first)] && none + [Normal(second)] == [Normal(second)];
    GasFilterSnoc(c, none, [Normal(first)], Normal(second));
  }

  lemma PlanDefersSecond(c: BatchConfig, first: PooledTransaction, second: PooledTransaction,
                         rest: seq<PooledTransaction>)
    requires c.maxBatchSize == 2 && !c.adaptive && first.tx.gasLimit <= c.maxGasLimit < second.tx.gasLimit
    ensures PlanBatch(c, Fcfs, Backlog([], [first, second] + rest))
            == Plan(Filtered([], []), [first, second], rest, Filtered([Normal(first)], [Normal(second)]))
  {
    var pool := [first, second] + rest;
    BatchingProperties.PlanWithoutForced(c, Fcfs, Backlog([], pool));
    assert pool[..2] == [first, second] && pool[2..] == rest;
    PairWrapped(first, second);
    OnlyFirstFits(c, first, second);
  }

  /** Of two transactions taken, the second is over the gas limit and goes to the back of the pool. */
  lemma SecondDeferred(env: Env, first: PooledTransaction, second: PooledTransaction, rest: seq<PooledTransaction>)
    requires env.policy == Fcfs && env.config.maxBatchSize == 2 && !env.config.adaptive
    requires first.tx.gasLimit <= env.config.maxGasLimit < second.tx.gasLimit
    ensures Seals(env, [first, second] + rest, [first], rest + [second])
  {
    PlanDefersSecond(env.config, first, second, rest);
    UnwrapOne(first);
    UnwrapOne(second);
    assert UnwrapForced([]) == [] && WrapForced([]) == [];
    assert [] + WrapNormal([first]) == WrapNormal([first]);
    assert OrderedBy(Fcfs, [first], [first]);
  }

  /** The first transaction of a pool is next by arrival, and next by nonce exactly when nothing lower is left. */
  lemma OneIsNextIff(env: Env, pool: seq<PooledTransaction>, first: PooledTransaction, rest: seq<PooledTransaction>,
                     left: seq<PooledTransaction>)
    requires Valid(env.policy) && pool == [first] + rest && DistinctNonces(pool) && Seals(env, pool, [first], left)
    ensures TakesNext(pool, [first])
    ensures NextByNonce(pool, [first]) <==> NothingLowerLeft([first], left)
  {
    forall a: Address ensures BySender([first], a) <= BySender(pool, a) && Sorted(NonceLess, BySender([first], a)) {
      BySenderCons(first, rest, a);
      BySenderCons(first, [], a);
      assert [first] + [] == [first];
    }
    SealConserves(env, pool, [first], left);
    NextIff(pool, [first], left);
  }

  /** A sender submits three transactions, of which only the second is over the gas limit; all are admitted. */
  lemma ThreeAdmitted(env: Env, s: System, sign: seq<byte> -> Signature, a: Address, sample: UserTransaction)
    returns (x: PooledTransaction, y: PooledTransaction, z: PooledTransaction, run: seq<System>, actions: seq<Action>)
    requires Valid(env.policy) && SignsFor(env.recover, sign, a) && Init(s)
    requires sample.to != a && GetOrInit(s.front.cache, a).nonce + 2 < U64_MAX
    ensures IsRun(env, run, actions) && |run| == 4 && run[0] == s
    ensures SealedNext(run, actions, 3)
    ensures run[3].sealed == [] && run[3].front.pool == [x, y] + [z]
    ensures x.tx.from == y.tx.from == z.tx.from == a && x.tx.nonce < y.tx.nonce < z.tx.nonce
    ensures x.tx.gasLimit == z.tx.gasLimit == 0 && y.tx.gasLimit == U64_MAX
  {
    var u, s1 := RunAdmits(env, [s], [], sign, a, sample.(gasLimit := 0));
    var v, s2 := RunAdmits(env, [s] + [s1], [] + [Admit(u, 0, 0)], sign, a, sample.(gasLimit := U64_MAX));
    var run2, actions2 := [s] + [s1] + [s2], [] + [Admit(u, 0, 0)] + [Admit(v, 0, 0)];
    var w, s3 := RunAdmits(env, run2, actions2, sign, a, sample.(gasLimit := 0));
    run, actions := run2 + [s3], actions2 + [Admit(w, 0, 0)];
    x, y, z := Pooled(u, 0, 0), Pooled(v, 0, 0), Pooled(w, 0, 0);
    assert [] + [x] + [y] + [z] == [x, y] + [z];
  }

  /** A run goes on with one seal and its execution. */
  lemma RunSealsAndExecutes(env: Env, run: seq<System>, actions: seq<Action>, batch: seq<PooledTransaction>,
                            left: seq<PooledTransaction>, batchId: nat, root: Hash)
    returns (s1: System, s2: System)
    requires Valid(env.policy) && SameSignatures(env) && IsRun(env, run, actions) && batch != []
    requires run[|actions|].sealed == [] && Seals(env, run[|actions|].front.pool, batch, left)
    ensures IsRun(env, run + [s1] + [s2], actions + [Seal(batch)] + [Execute(batchId, root)])
    ensures s1.sealed == [batch] && s2.sealed == [] && s2.front.pool == left
  {
    s1 := RunSeals(env, run, actions, batch, left);
    s2 := RunExecutes(env, run + [s1], actions + [Seal(batch)], batchId, root);
  }

  lemma StillNext(run: seq<System>, actions: seq<Action>, batch: seq<PooledTransaction>, batchId: nat, root: Hash,
                  s1: System, s2: System)
    requires |run| == |actions| + 1 && SealedNext(run, actions, |actions|)
    requires NextByNonce(run[|actions|].front.pool, batch)
    ensures var longer, more := run + [s1] + [s2], actions + [Seal(batch)] + [Execute(batchId, root)];
            SealedNext(longer, more, |actions| + 1) && SealedNext(longer, more, |actions| + 2)
  {
    var longer, more := run + [s1] + [s2], actions + [Seal(batch)] + [Execute(batchId, root)];
    forall j | 0 <= j < |actions| + 2 ensures NextAtSeal(longer, more, j) {
      if j < |actions| {
        assert NextAtSeal(run, actions, j);
      }
    }
  }

  lemma FirstOfThree(env: Env, run: seq<System>, actions: seq<Action>, x: PooledTransaction, y: PooledTransaction,
                     z: PooledTransaction, k: nat)
    requires Valid(env.policy) && IsRun(env, run, actions) && k < |run| && run[k].front.pool == [x, y] + [z]
    requires x.tx.nonce < y.tx.nonce < z.tx.nonce && Seals(env, [x, y] + [z], [x], [z, y])
    ensures NextByNonce([x, y] + [z], [x])
  {
    DistinctThroughout(env, run, actions, k);
    assert [x, y] + [z] == [x] + [y, z];
    OneIsNextIff(env, [x, y] + [z], x, [y, z], [z, y]);
  }

  lemma ThirdBeforeSecond(env: Env, run: seq<System>, actions: seq<Action>, y: PooledTransaction, z: PooledTransaction,
                          k: nat)
    requires Valid(env.policy) && IsRun(env, run, actions) && k < |run| && run[k].front.pool == [z, y]
    requires y.tx.from == z.tx.from && y.tx.nonce < z.tx.nonce && Seals(env, [z, y], [z], [y])
    ensures TakesNext([z, y], [z]) && !NextByNonce([z, y], [z])
  {
    DistinctThroughout(env, run, actions, k);
    assert [z, y] == [z] + [y] && z in [z] && y in [y];
    OneIsNextIff(env, [z, y], z, [y], [y]);
  }

  lemma ThirdSealedNext(env: Env, x: PooledTransaction, y: PooledTransaction, z: PooledTransaction)
    requires env.policy == Fcfs && env.config.maxBatchSize == 2 && !env.config.adaptive
    requires x.tx.gasLimit <= env.config.maxGasLimit < y.tx.gasLimit && z.tx.gasLimit <= env.config.maxGasLimit
    ensures Seals(env, [x, y] + [z], [x], [z, y]) && Seals(env, [z, y], [z], [y])
  {
    SecondDeferred(env, x, y, [z]);
    SecondDeferred(env, z, y, []);
    assert [z] + [y] == [z, y] == [z, y] + [] && [] + [y] == [y];
  }

  lemma SealsFirstOfThree(env: Env, run3: seq<System>, actions3: seq<Action>, x: PooledTransaction,
                          y: PooledTransaction, z: PooledTransaction, batchId: nat, root: Hash)
    returns (run: seq<System>, actions: seq<Action>)
    requires Valid(env.policy) && SameSignatures(env) && IsRun(env, run3, actions3) && |run3| == 4
    requires SealedNext(run3, actions3, 3) && run3[3].sealed == [] && run3[3].front.pool == [x, y] + [z]
    requires x.tx.nonce < y.tx.nonce < z.tx.nonce && Seals(env, [x, y] + [z], [x], [z, y])
    ensures IsRun(env, run, actions) && |run| == 6 && run[0] == run3[0]
    ensures SealedNext(run, actions, 4) && SealedNext(run, actions, 5)
    ensures run[4].sealed != [] && actions[4] == Execute(batchId, root)
    ensures run[5].sealed == [] && run[5].front.pool == [z, y]
  {
    FirstOfThree(env, run3, actions3, x, y, z, 3);
    var s1, s2 := RunSealsAndExecutes(env, run3, actions3, [x], [z, y], batchId, root);
    StillNext(run3, actions3, [x], batchId, root, s1, s2);
    run, actions := run3 + [s1] + [s2], actions3 + [Seal([x])] + [Execute(batchId, root)];
  }

  /**
   * Three transactions of one sender, the second over the gas limit, two per batch: the first batch takes the
   * lowest nonce and runs in full, and its deferral leaves the third before the second.
   */
  lemma DeferralReorders(env: Env, s: System, sign: seq<byte> -> Signature, a: Address, sample: UserTransaction,
                         batchId: nat, root: Hash)
    returns (y: PooledTransaction, z: PooledTransaction, run: seq<System>, actions: seq<Action>)
    requires env.policy == Fcfs && env.config.maxBatchSize == 2 && !env.config.adaptive
    requires env.config.maxGasLimit < U64_MAX && SameSignatures(env) && SignsFor(env.recover, sign, a) && Init(s)
    requires sample.to != a && GetOrInit(s.front.cache, a).nonce + 2 < U64_MAX
    ensures IsRun(env, run, actions) && |run| == 6 && run[0] == s
    ensures SealedNext(run, actions, 4) && SealedNext(run, actions, 5)
    ensures run[4].sealed != [] && actions[4] == Execute(batchId, root)
    ensures run[5].sealed == [] && run[5].front.pool == [z, y]
    ensures y.tx.from == z.tx.from == a && y.tx.nonce < z.tx.nonce && Seals(env, [z, y], [z], [y])
  {
    var x, run3, actions3;
    x, y, z, run3, actions3 := ThreeAdmitted(env, s, sign, a, sample);
    ThirdSealedNext(env, x, y, z);
    run, actions := SealsFirstOfThree(env, run3, actions3, x, y, z, batchId, root);
  }

  /**
   * The first batch runs in full. The next one takes the sender's first transaction in the pool, but not its
   * lowest nonce, and is not executed in full.
   */
  lemma EarlierDeferralIsRejected(env: Env, s: System, sign: seq<byte> -> Signature, a: Address,
                                  sample: UserTransaction, batchId: nat, root: Hash)
    returns (y: PooledTransaction, z: PooledTransaction, run: seq<System>, actions: seq<Action>)
    requires env.policy == Fcfs && env.config.maxBatchSize == 2 && !env.config.adaptive
    requires env.config.maxGasLimit < U64_MAX && SameSignatures(env) && SignsFor(env.recover, sign, a) && Init(s)
    requires sample.to != a && GetOrInit(s.front.cache, a).nonce + 2 < U64_MAX
    ensures IsRun(env, run, actions) && |run| == 6 && run[0] == s && run[5].front.pool == [z, y]
    ensures actions[4] == Execute(batchId, root) && InFullAt(env, run, actions, 4)
    ensures Seals(env, [z, y], [z], [y]) && TakesNext([z, y], [z]) && !NextByNonce([z, y], [z])
    ensures E.NormalizeAll(Wires([z])).Ok?
    ensures var txs := E.NormalizeAll(Wires([z])).value;
            T.RunBatch(env.verifier, Decimal(batchId), run[5].accounts, root, txs).executed != txs
  {
    y, z, run, actions := DeferralReorders(env, s, sign, a, sample, batchId, root);
    AdmittedIsExecuted(env, run, actions, 4, batchId, root);
    InvHolds(env, run, actions, 5);
    ThirdBeforeSecond(env, run, actions, y, z, 5);
    NextRunsInFullIff(env, run[5], [z], [y], batchId, root);
  }
}
