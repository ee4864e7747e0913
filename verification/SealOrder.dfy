/**
 * When a seal takes the lowest nonces.
 *
 * A batch does so exactly when no sender has something lower left behind and the policy puts what was accepted in
 * nonce order. Merging policies always do; the other two go by arrival and by timestamp.
 */
module SealOrder {
  import opened Machine
  import opened Accounts
  import opened SequencerTypes
  import opened StableSort
  import opened Policies
  import opened PolicyProperties
  import opened Pool
  import opened Batching
  import opened Admission
  import opened AdmissionProperties
  import opened AdmissionLimits
  import BatchingProperties

  /** No sender has a lower nonce left than one that is taken. */
  ghost predicate NothingLowerLeft(taken: seq<PooledTransaction>, left: seq<PooledTransaction>) {
    forall x, y :: x in taken && y in left && x.tx.from == y.tx.from ==> x.tx.nonce < y.tx.nonce
  }

  lemma BySenderMembers(txs: seq<PooledTransaction>, tx: PooledTransaction, a: Address)
    ensures tx in BySender(txs, a) <==> tx in txs && tx.tx.from == a
  {
    FilterMembers(SentFrom(a), txs);
    assert SentFrom(a)(tx) <==> tx.tx.from == a;
  }

  lemma LowerLeftBySender(taken: seq<PooledTransaction>, left: seq<PooledTransaction>)
    ensures NothingLowerLeft(taken, left)
            <==> forall a: Address :: AllBelow(NonceLess, BySender(taken, a), BySender(left, a))
  {
    if NothingLowerLeft(taken, left) {
      forall a: Address, x, y | x in BySender(taken, a) && y in BySender(left, a) ensures NonceLess(x, y) {
        BySenderMembers(taken, x, a);
        BySenderMembers(left, y, a);
      }
    }
    if forall a: Address :: AllBelow(NonceLess, BySender(taken, a), BySender(left, a)) {
      forall x, y | x in taken && y in left && x.tx.from == y.tx.from ensures x.tx.nonce < y.tx.nonce {
        BySenderMembers(taken, x, x.tx.from);
        BySenderMembers(left, y, x.tx.from);
        assert AllBelow(NonceLess, BySender(taken, x.tx.from), BySender(left, x.tx.from));
        assert NonceLess(x, y);
      }
    }
  }

  /** A part of a pool takes the lowest nonces exactly when it is in nonce order and leaves nothing lower. */
  lemma NextIff(pool: seq<PooledTransaction>, batch: seq<PooledTransaction>, left: seq<PooledTransaction>)
    requires DistinctNonces(pool) && multiset(batch) + multiset(left) == multiset(pool)
    ensures NextByNonce(pool, batch) <==> InOrder(batch) && NothingLowerLeft(batch, left)
  {
    OrdersAreStrictWeak();
    LowerLeftBySender(batch, left);
    forall a: Address
      ensures BySender(batch, a) <= BySender(ByNonce(pool), a)
              <==> Sorted(NonceLess, BySender(batch, a)) && AllBelow(NonceLess, BySender(batch, a), BySender(left, a))
    {
      SenderConserved(pool, batch, left, a);
      assert StrictlyOrdered(NonceLess, BySender(ByNonce(pool), a));
      PrefixIff(NonceLess, BySender(ByNonce(pool), a), BySender(batch, a), BySender(left, a));
    }
  }

  // ---------- by position ----------

  /** Nothing is chosen above an unchosen one of the same sender. */
  ghost predicate Closed(txs: seq<PooledTransaction>, chosen: set<nat>) {
    forall i: nat, j: nat :: i < |txs| && j < |txs| && Below(txs[i], txs[j]) && j in chosen ==> i in chosen
  }

  predicate Below(x: PooledTransaction, y: PooledTransaction) {
    x.tx.from == y.tx.from && x.tx.nonce < y.tx.nonce
  }

  /** In a pool without repeated nonces, parts of it share none of a sender. */
  lemma PartsDiffer(pool: seq<PooledTransaction>, taken: seq<PooledTransaction>, left: seq<PooledTransaction>,
                    x: PooledTransaction, y: PooledTransaction)
    requires DistinctNonces(pool) && multiset(taken) + multiset(left) == multiset(pool)
    requires x in taken && y in left && x.tx.from == y.tx.from
    ensures x.tx.nonce != y.tx.nonce
  {
    var a := x.tx.from;
    var all := BySender(ByNonce(pool), a);
    OrdersAreStrictWeak();
    SenderConserved(pool, taken, left, a);
    BySenderMembers(taken, x, a);
    BySenderMembers(left, y, a);
    assert x in multiset(BySender(taken, a)) && y in multiset(BySender(left, a));
    assert x in multiset(all) && y in multiset(all);
    StrictHasNoRepeats(NonceLess, all, x);
    var p :| 0 <= p < |all| && all[p] == x;
    var q :| 0 <= q < |all| && all[q] == y;
    assert StrictlyOrdered(NonceLess, all);
    assert p == q ==> multiset(all)[x] >= 2;
  }

  lemma ClosedIff(pool: seq<PooledTransaction>, chosen: set<nat>)
    requires DistinctNonces(pool)
    ensures Closed(pool, chosen) <==> NothingLowerLeft(Pick(pool, chosen), Pick(pool, Others(pool, chosen)))
  {
    var taken, left := Pick(pool, chosen), Pick(pool, Others(pool, chosen));
    PickPartitions(pool, chosen, Others(pool, chosen));
    assert pool[..|pool|] == pool;
    if Closed(pool, chosen) {
      forall x, y | x in taken && y in left && x.tx.from == y.tx.from ensures x.tx.nonce < y.tx.nonce {
        var j := PickedAt(pool, |pool|, chosen, x);
        var i := PickedAt(pool, |pool|, Others(pool, chosen), y);
        PartsDiffer(pool, taken, left, x, y);
      }
    }
    if NothingLowerLeft(taken, left) {
      forall i: nat, j: nat | i < |pool| && j < |pool| && Below(pool[i], pool[j]) && j in chosen ensures i in chosen {
        PickHas(pool, chosen, j);
        if i !in chosen {
          PickHas(pool, Others(pool, chosen), i);
        }
      }
    }
  }

  /** Put in nonce order, a selection of positions takes the lowest nonces exactly when it is closed. */
  lemma TakesNextIffClosed(pool: seq<PooledTransaction>, chosen: set<nat>)
    requires DistinctNonces(pool)
    ensures NextByNonce(pool, ByNonce(Pick(pool, chosen))) <==> Closed(pool, chosen)
  {
    var taken, left := Pick(pool, chosen), Pick(pool, Others(pool, chosen));
    PickPartitions(pool, chosen, Others(pool, chosen));
    SortIsPermutation(NonceLess, taken);
    NextIff(pool, ByNonce(taken), left);
    ByNonceInOrder(taken);
    ClosedIff(pool, chosen);
    SameTaken(taken, ByNonce(taken), left);
  }

  lemma ByNonceInOrder(txs: seq<PooledTransaction>)
    ensures InOrder(ByNonce(txs))
  {
    OrdersAreStrictWeak();
    forall a: Address ensures Sorted(NonceLess, BySender(ByNonce(txs), a)) {
      ByNonceOf(txs, a);
      SortSorted(NonceLess, BySender(txs, a));
    }
  }

  lemma SameTaken(t1: seq<PooledTransaction>, t2: seq<PooledTransaction>, left: seq<PooledTransaction>)
    requires multiset(t1) == multiset(t2)
    ensures NothingLowerLeft(t1, left) <==> NothingLowerLeft(t2, left)
  {
    assert forall x :: x in t1 <==> x in multiset(t1);
    assert forall x :: x in t2 <==> x in multiset(t2);
  }

  // ---------- at a seal ----------

  /** What a call without forced transactions accepts from the pool, and what it leaves there. */
  function AcceptedFrom(c: BatchConfig, policy: Policy, pool: seq<PooledTransaction>): seq<PooledTransaction> {
    UnwrapNormal(PlanBatch(c, policy, Backlog([], pool)).normal.accepted)
  }

  function LeftIn(c: BatchConfig, policy: Policy, pool: seq<PooledTransaction>): seq<PooledTransaction> {
    Requeued(PlanBatch(c, policy, Backlog([], pool))).pool
  }

  /** The policy puts what was accepted in nonce order. */
  ghost predicate OrdersByNonce(policy: Policy, accepted: seq<PooledTransaction>) {
    match policy
    case Fcfs => InOrder(accepted)
    case FairBft => InOrder(Sort(TimestampLess, accepted))
    case _ => true
  }

  lemma PolicyOrdersIff(policy: Policy, accepted: seq<PooledTransaction>, batch: seq<PooledTransaction>)
    requires Valid(policy) && OrderedBy(policy, accepted, batch)
    ensures InOrder(batch) <==> OrdersByNonce(policy, accepted)
  {
    if IsMerging(policy) {
      OrdersAreStrictWeak();
      forall a: Address ensures Sorted(NonceLess, BySender(batch, a)) {
        MergeKeepsNonceOrder(policy, accepted, batch, a);
        SortSorted(NonceLess, BySender(accepted, a));
      }
    }
  }

  lemma SealedIsPolicyOrder(env: Env, pool: seq<PooledTransaction>, batch: seq<PooledTransaction>,
                            left: seq<PooledTransaction>)
    requires Valid(env.policy) && Seals(env, pool, batch, left)
    ensures OrderedBy(env.policy, AcceptedFrom(env.config, env.policy, pool), batch)
    ensures left == LeftIn(env.config, env.policy, pool)
  {
    BatchingProperties.PlanWithoutForced(env.config, env.policy, Backlog([], pool));
    BatchingProperties.NothingUnwrapped();
    ScheduledIsOrdered(env.policy, AcceptedFrom(env.config, env.policy, pool), batch);
  }

  /**
   * Under every policy, a sealed batch takes each sender's lowest nonces exactly when none that it leaves is lower
   * than one that it accepts and the policy puts the accepted ones in nonce order.
   */
  lemma TakesNextIff(env: Env, pool: seq<PooledTransaction>, batch: seq<PooledTransaction>,
                     left: seq<PooledTransaction>)
    requires Valid(env.policy) && DistinctNonces(pool) && Seals(env, pool, batch, left)
    ensures var accepted := AcceptedFrom(env.config, env.policy, pool);
            NextByNonce(pool, batch)
            <==> NothingLowerLeft(accepted, LeftIn(env.config, env.policy, pool)) && OrdersByNonce(env.policy, accepted)
  {
    var accepted := AcceptedFrom(env.config, env.policy, pool);
    SealConserves(env, pool, batch, left);
    SealedIsPolicyOrder(env, pool, batch, left);
    NextIff(pool, batch, left);
    PolicyOrdersIff(env.policy, accepted, batch);
    PolicyIsPermutation(env.policy, accepted, batch);
    SameTaken(accepted, batch, left);
  }

  // ---------- in every run ----------

  /** Different nonces in order, all below `bound`. */
  ghost predicate NumberedBelow(mine: seq<PooledTransaction>, bound: nat) {
    StrictlyOrdered(NonceLess, mine) && forall k :: 0 <= k < |mine| ==> mine[k].tx.nonce < bound
  }

  /** What `a` has waiting carries different nonces below the cached one. */
  ghost predicate Numbered(cache: Cache, pool: seq<PooledTransaction>, a: Address) {
    NumberedBelow(BySender(ByNonce(pool), a), GetOrInit(cache, a).nonce)
  }

  lemma NumberedSnoc(mine: seq<PooledTransaction>, ptx: PooledTransaction)
    requires NumberedBelow(mine, ptx.tx.nonce)
    ensures NumberedBelow(mine + [ptx], ptx.tx.nonce + 1)
  {
  }

  lemma NewestAppends(pool: seq<PooledTransaction>, ptx: PooledTransaction)
    requires NumberedBelow(BySender(ByNonce(pool), ptx.tx.from), ptx.tx.nonce)
    ensures BySender(ByNonce(pool + [ptx]), ptx.tx.from) == BySender(ByNonce(pool), ptx.tx.from) + [ptx]
  {
    NewestSorted(pool, ptx, ptx.tx.from);
    BySenderAppend(ByNonce(pool), ptx, ptx.tx.from);
  }

  lemma OthersUnmoved(pool: seq<PooledTransaction>, ptx: PooledTransaction, a: Address)
    requires ptx.tx.from != a
    ensures BySender(ByNonce(pool + [ptx]), a) == BySender(ByNonce(pool), a)
  {
    NewestSorted(pool, ptx, a);
    BySenderAppend(ByNonce(pool), ptx, a);
  }

  lemma ChargeNumbers(before: Cache, after: Cache, pool: seq<PooledTransaction>, ptx: PooledTransaction, a: Address)
    requires Numbered(before, pool, a) && Charged(before, after, ptx, a)
    requires ptx.tx.from == a ==> ptx.tx.nonce == GetOrInit(before, a).nonce < U64_MAX
    ensures Numbered(after, pool + [ptx], a)
  {
    if ptx.tx.from == a {
      NewestAppends(pool, ptx);
      NumberedSnoc(BySender(ByNonce(pool), a), ptx);
    } else {
      OthersUnmoved(pool, ptx, a);
    }
  }

  lemma AdmitNumbers(env: Env, s: System, tx: UserTransaction, arrivedAt: u64, enteredAt: u64, t: System, a: Address)
    requires AdmitNext(env, s, tx, arrivedAt, enteredAt, t) && Numbered(s.front.cache, s.front.pool, a)
    ensures Numbered(t.front.cache, t.front.pool, a)
  {
    if Validate(env.recover, s.front.cache, tx).Ok? {
      HandleMovesSender(env.recover, s.front, tx, arrivedAt, enteredAt, a);
      ChargeNumbers(s.front.cache, t.front.cache, s.front.pool, Pooled(tx, arrivedAt, enteredAt), a);
    }
  }

  lemma SealNumbers(env: Env, s: System, batch: seq<PooledTransaction>, t: System, a: Address)
    requires Valid(env.policy) && SealNext(env, s, batch, t) && Numbered(s.front.cache, s.front.pool, a)
    ensures Numbered(t.front.cache, t.front.pool, a)
  {
    SealConserves(env, s.front.pool, batch, t.front.pool);
    PartNumbered(s.front.cache, s.front.pool, batch, t.front.pool, a);
  }

  lemma PartNumbered(cache: Cache, pool: seq<PooledTransaction>, batch: seq<PooledTransaction>,
                     left: seq<PooledTransaction>, a: Address)
    requires Numbered(cache, pool, a) && multiset(batch) + multiset(left) == multiset(pool)
    ensures Numbered(cache, left, a)
  {
    var all, part := BySender(ByNonce(pool), a), BySender(ByNonce(left), a);
    OrdersAreStrictWeak();
    SenderConserved(pool, batch, left, a);
    ByNonceOf(left, a);
    SortSorted(NonceLess, BySender(left, a));
    SortIsPermutation(NonceLess, BySender(left, a));
    assert multiset(part) <= multiset(all);
    StrictPart(NonceLess, all, part);
    forall k | 0 <= k < |part| ensures part[k].tx.nonce < GetOrInit(cache, a).nonce {
      assert part[k] in multiset(part) && part[k] in multiset(all);
    }
  }

  lemma StepNumbers(env: Env, s: System, action: Action, t: System, a: Address)
    requires Valid(env.policy) && Next(env, s, action, t) && Numbered(s.front.cache, s.front.pool, a)
    ensures Numbered(t.front.cache, t.front.pool, a)
  {
    match action
    case Admit(tx, arrivedAt, enteredAt) => AdmitNumbers(env, s, tx, arrivedAt, enteredAt, t, a);
    case Seal(batch) => SealNumbers(env, s, batch, t, a);
    case Execute(_, _) =>
  }

  lemma {:induction false} NumberedThroughout(env: Env, run: seq<System>, actions: seq<Action>, k: nat, a: Address)
    requires Valid(env.policy) && IsRun(env, run, actions) && k < |run|
    ensures Numbered(run[k].front.cache, run[k].front.pool, a)
    decreases k
  {
    if k == 0 {
      assert BySender(ByNonce([]), a) == [];
    } else {
      NumberedThroughout(env, run, actions, k - 1, a);
      assert NextAt(env, run, actions, k - 1);
      StepNumbers(env, run[k - 1], actions[k - 1], run[k], a);
    }
  }

  /** In every run, rejections or not, no sender has a nonce twice in the pool. */
  lemma DistinctThroughout(env: Env, run: seq<System>, actions: seq<Action>, k: nat)
    requires Valid(env.policy) && IsRun(env, run, actions) && k < |run|
    ensures DistinctNonces(run[k].front.pool)
  {
    forall a: Address ensures StrictlyOrdered(NonceLess, BySender(ByNonce(run[k].front.pool), a)) {
      NumberedThroughout(env, run, actions, k, a);
    }
  }
}
