/**
 * Exactly which sealed batches of admitted transactions run in full, whatever the policy.
 *
 * Blob packing and gas deferral may seal a later nonce of a sender before an earlier one. A batch runs in full
 * if and only if, per sender, it takes the lowest nonces that wait.
 */
module AdmissionLimits {
  import opened Machine
  import opened Crypto
  import opened Accounts
  import opened SequencerTypes
  import opened StableSort
  import opened Policies
  import opened PolicyProperties
  import opened Batching
  import opened Admission
  import opened AdmissionProperties
  import E = ExecutorTypes
  import T = TxEngine
  import BatchingProperties
  import EngineHistory
  import Inclusion

  ghost predicate FromFlight(flight: seq<PooledTransaction>, batch: seq<PooledTransaction>) {
    forall i :: 0 <= i < |batch| ==> batch[i] in flight
  }

  lemma FlightIsRunnable(v: T.Verifier, flight: seq<PooledTransaction>, batch: seq<PooledTransaction>)
    requires AllRunnable(v, flight) && FromFlight(flight, batch)
    ensures AllRunnable(v, batch)
  {
    forall i | 0 <= i < |batch| ensures Runnable(v, batch[i].tx) {
      assert batch[i] in flight;
      var k :| 0 <= k < |flight| && flight[k] == batch[i];
      assert Runnable(v, flight[k].tx);
    }
  }

  // ---------- taking what is next is enough ----------

  lemma {:induction false} CostSumPrefix(txs: seq<PooledTransaction>, k: nat)
    requires k <= |txs|
    ensures CostSum(txs[..k]) <= CostSum(txs)
    decreases |txs|
  {
    if k < |txs| {
      var n := |txs| - 1;
      CostSumPrefix(txs[..n], k);
      assert txs[..n][..k] == txs[..k];
    } else {
      assert txs[..k] == txs;
    }
  }

  /** `a` can pay for its part of the batch and starts it at its nonce. */
  ghost predicate Affords(accounts: AccountMap, batch: seq<PooledTransaction>, a: Address) {
    var mine := BySender(batch, a);
    && Get(accounts, a).nonce + |mine| <= U64_MAX
    && (forall k :: 0 <= k < |mine| ==> mine[k].tx.nonce == Get(accounts, a).nonce + k)
    && Get(accounts, a).balance >= CostSum(mine)
  }

  lemma NextIsAfforded(cache: Cache, accounts: AccountMap, flight: seq<PooledTransaction>,
                       batch: seq<PooledTransaction>, a: Address)
    requires Covered(cache, accounts, flight, a) && BySender(batch, a) <= BySender(flight, a)
    ensures Affords(accounts, batch, a)
  {
    var mine, all := BySender(batch, a), BySender(flight, a);
    assert mine == all[..|mine|];
    CostSumPrefix(all, |mine|);
  }

  /** A cache that promises the batch and nothing else. */
  ghost function CacheFor(accounts: AccountMap, batch: seq<PooledTransaction>, owners: set<Address>): Cache
    requires forall a: Address :: Affords(accounts, batch, a)
  {
    map a: Address | a in owners ::
      assert Affords(accounts, batch, a); AccountState(a, 0, Get(accounts, a).nonce + |BySender(batch, a)|)
  }

  lemma AffordedIsCovered(accounts: AccountMap, batch: seq<PooledTransaction>) returns (cache: Cache)
    requires forall a: Address :: Affords(accounts, batch, a)
    ensures AllCovered(cache, accounts, batch)
  {
    var owners := accounts.Keys + set i | 0 <= i < |batch| :: batch[i].tx.from;
    cache := CacheFor(accounts, batch, owners);
    forall a: Address ensures Covered(cache, accounts, batch, a) {
      assert Affords(accounts, batch, a);
      if a !in owners {
        NothingFrom(batch, a);
      }
    }
  }

  lemma {:induction false} NothingFrom(batch: seq<PooledTransaction>, a: Address)
    requires forall i :: 0 <= i < |batch| ==> batch[i].tx.from != a
    ensures BySender(batch, a) == []
    decreases |batch|
  {
    if batch != [] {
      NothingFrom(batch[..|batch| - 1], a);
    }
  }

  lemma AffordedRunsInFull(v: T.Verifier, cap: nat, accounts: AccountMap, root: Hash,
                           batch: seq<PooledTransaction>, txs: seq<E.Transaction>)
    requires AllRunnable(v, batch) && NormalizesTo(batch, txs) && |batch| <= cap
    requires forall a: Address :: Affords(accounts, batch, a)
    ensures T.Run(v, cap, T.Start(accounts, root), txs).executed == txs
  {
    var cache := AffordedIsCovered(accounts, batch);
    assert batch + [] == batch;
    PrefixExecutes(v, cap, cache, T.Start(accounts, root), batch, [], txs, |batch|);
    assert txs[..|batch|] == txs;
  }

  // ---------- and needed ----------

  lemma {:induction false} SentIsCounted(batch: seq<PooledTransaction>, txs: seq<E.Transaction>, a: Address, j: nat)
    requires NormalizesTo(batch, txs) && j <= |batch|
    ensures Inclusion.Sent(txs, j, a) == |BySender(batch[..j], a)|
    decreases j
  {
    if j > 0 {
      SentIsCounted(batch, txs, a, j - 1);
      BySenderPrefix(batch, j - 1, a);
      assert E.Normalize(E.WireNormal(batch[j - 1].tx)) == Ok(txs[j - 1]);
    }
  }

  /** In a batch that runs in full each transaction carries the nonce that its sender has reached. */
  lemma NonceReached(v: T.Verifier, accounts: AccountMap, batch: seq<PooledTransaction>, txs: seq<E.Transaction>,
                     j: nat)
    requires AllRunnable(v, batch) && NormalizesTo(batch, txs) && j < |batch|
    requires EngineHistory.ValidHistory(accounts, txs)
    ensures batch[j].tx.nonce == Get(accounts, batch[j].tx.from).nonce + |BySender(batch[..j], batch[j].tx.from)|
  {
    forall i | 0 <= i <= j
      ensures Inclusion.Advances(txs[i]) && txs[i].from == batch[i].tx.from && txs[i].nonce == batch[i].tx.nonce
    {
      assert Runnable(v, batch[i].tx);
      assert E.Normalize(E.WireNormal(batch[i].tx)) == Ok(txs[i]);
    }
    Inclusion.ConsecutiveNonces(accounts, txs, j);
    SentIsCounted(batch, txs, batch[j].tx.from, j);
  }

  lemma {:induction false} PartIsConsecutive(v: T.Verifier, accounts: AccountMap, batch: seq<PooledTransaction>,
                                             txs: seq<E.Transaction>, a: Address, j: nat)
    requires AllRunnable(v, batch) && NormalizesTo(batch, txs) && j <= |batch|
    requires EngineHistory.ValidHistory(accounts, txs)
    ensures forall k :: 0 <= k < |BySender(batch[..j], a)| ==>
              BySender(batch[..j], a)[k].tx.nonce == Get(accounts, a).nonce + k
    decreases j
  {
    if j > 0 {
      PartIsConsecutive(v, accounts, batch, txs, a, j - 1);
      NonceReached(v, accounts, batch, txs, j - 1);
      BySenderPrefix(batch, j - 1, a);
    }
  }

  /** A covered transaction of a sender sits where its nonce says. */
  lemma PlaceByNonce(cache: Cache, accounts: AccountMap, flight: seq<PooledTransaction>, tx: PooledTransaction, k: nat)
    requires Covered(cache, accounts, flight, tx.tx.from) && tx in flight
    requires tx.tx.nonce == Get(accounts, tx.tx.from).nonce + k
    ensures k < |BySender(flight, tx.tx.from)| && BySender(flight, tx.tx.from)[k] == tx
  {
    var all := BySender(flight, tx.tx.from);
    FilterMembers(SentFrom(tx.tx.from), flight);
    assert SentFrom(tx.tx.from)(tx) && tx in all;
    var m :| 0 <= m < |all| && all[m] == tx;
  }

  lemma NextInPlace(cache: Cache, accounts: AccountMap, flight: seq<PooledTransaction>,
                    batch: seq<PooledTransaction>, a: Address, k: nat)
    requires Covered(cache, accounts, flight, a) && FromFlight(flight, batch)
    requires k < |BySender(batch, a)| && BySender(batch, a)[k].tx.nonce == Get(accounts, a).nonce + k
    ensures k < |BySender(flight, a)| && BySender(flight, a)[k] == BySender(batch, a)[k]
  {
    var tx := BySender(batch, a)[k];
    FilterMembers(SentFrom(a), batch);
    assert tx in batch && SentFrom(a)(tx) && tx in flight;
    PlaceByNonce(cache, accounts, flight, tx, k);
  }

  /** Consecutive nonces of a sender's covered transactions can only be the next ones. */
  lemma ConsecutiveIsNext(cache: Cache, accounts: AccountMap, flight: seq<PooledTransaction>,
                          batch: seq<PooledTransaction>, a: Address)
    requires Covered(cache, accounts, flight, a) && FromFlight(flight, batch)
    requires forall k :: 0 <= k < |BySender(batch, a)| ==> BySender(batch, a)[k].tx.nonce == Get(accounts, a).nonce + k
    ensures BySender(batch, a) <= BySender(flight, a)
  {
    var mine := BySender(batch, a);
    if mine != [] {
      NextInPlace(cache, accounts, flight, batch, a, |mine| - 1);
    }
    forall k | 0 <= k < |mine| ensures BySender(flight, a)[k] == mine[k] {
      NextInPlace(cache, accounts, flight, batch, a, k);
    }
  }

  /** A batch of admitted transactions runs in full exactly when it takes, per sender, what is next. */
  lemma RunsInFullIff(v: T.Verifier, cap: nat, cache: Cache, accounts: AccountMap, root: Hash,
                      flight: seq<PooledTransaction>, batch: seq<PooledTransaction>, txs: seq<E.Transaction>)
    requires AllCovered(cache, accounts, flight) && AllRunnable(v, flight)
    requires FromFlight(flight, batch) && NormalizesTo(batch, txs) && |batch| <= cap
    ensures T.Run(v, cap, T.Start(accounts, root), txs).executed == txs <==> TakesNext(flight, batch)
  {
    FlightIsRunnable(v, flight, batch);
    if TakesNext(flight, batch) {
      forall a: Address ensures Affords(accounts, batch, a) {
        assert Covered(cache, accounts, flight, a) && BySender(batch, a) <= BySender(flight, a);
        NextIsAfforded(cache, accounts, flight, batch, a);
      }
      AffordedRunsInFull(v, cap, accounts, root, batch, txs);
    }
    if T.Run(v, cap, T.Start(accounts, root), txs).executed == txs {
      EngineHistory.RunIsHistory(v, cap, accounts, root, txs);
      forall a: Address ensures BySender(batch, a) <= BySender(flight, a) {
        PartIsConsecutive(v, accounts, batch, txs, a, |batch|);
        assert batch[..|batch|] == batch && Covered(cache, accounts, flight, a);
        ConsecutiveIsNext(cache, accounts, flight, batch, a);
      }
    }
  }

  // ---------- at a seal ----------

  lemma PartIsFromPool(pool: seq<PooledTransaction>, part: seq<PooledTransaction>)
    requires multiset(part) <= multiset(pool)
    ensures FromFlight(pool, part) && FromFlight(ByNonce(pool), part)
  {
    SortIsPermutation(NonceLess, pool);
    forall i | 0 <= i < |part| ensures part[i] in pool && part[i] in ByNonce(pool) {
      assert part[i] in multiset(part);
      assert part[i] in multiset(pool) && part[i] in multiset(ByNonce(pool));
    }
  }

  /** The state after the oldest sealed batch was executed; a payload that does not normalize stays. */
  ghost function ExecuteOldest(env: Env, s: System, batchId: nat, root: Hash): (t: System)
    requires s.sealed != []
    ensures ExecuteNext(env, s, batchId, root, t)
  {
    match E.NormalizeAll(Wires(s.sealed[0]))
    case Err(_) => s
    case Ok(txs) =>
      s.(sealed := s.sealed[1..],
         accounts := T.RunBatch(env.verifier, Decimal(batchId), s.accounts, root, txs).accounts)
  }

  /** The state after all sealed batches were executed in order, under any ids and roots. */
  ghost function ExecuteSealed(env: Env, s: System, ids: nat -> nat, roots: nat -> Hash): System
    decreases |s.sealed|
  {
    if s.sealed == [] then s
    else
      var t := ExecuteOldest(env, s, ids(|s.sealed|), roots(|s.sealed|));
      if |t.sealed| < |s.sealed| then ExecuteSealed(env, t, ids, roots) else s
  }

  lemma {:induction false} SealedExecuted(env: Env, s: System, ids: nat -> nat, roots: nat -> Hash)
    requires Inv(env, s)
    ensures var t := ExecuteSealed(env, s, ids, roots); Inv(env, t) && t.sealed == [] && t.front == s.front
    decreases |s.sealed|
  {
    if s.sealed != [] {
      var id, root := ids(|s.sealed|), roots(|s.sealed|);
      var t := ExecuteOldest(env, s, id, root);
      ExecuteMoves(env, s, id, root, t);
      ExecuteKeepsInv(env, s, id, root, t);
      SealedExecuted(env, t, ids, roots);
    }
  }

  /** With nothing else sealed, a batch of any policy runs in full exactly when it takes the lowest nonces. */
  lemma NextRunsInFullIff(env: Env, s: System, batch: seq<PooledTransaction>, left: seq<PooledTransaction>,
                          batchId: nat, root: Hash)
    requires Valid(env.policy) && Inv(env, s) && s.sealed == [] && Seals(env, s.front.pool, batch, left)
    ensures E.NormalizeAll(Wires(batch)).Ok?
    ensures var txs := E.NormalizeAll(Wires(batch)).value;
            T.RunBatch(env.verifier, Decimal(batchId), s.accounts, root, txs).executed == txs
            <==> NextByNonce(s.front.pool, batch)
  {
    var flight := ByNonce(s.front.pool);
    assert Flight(s) == flight;
    SealConserves(env, s.front.pool, batch, left);
    PartIsFromPool(s.front.pool, batch);
    FlightIsRunnable(env.verifier, flight, batch);
    BatchNormalizes(env.verifier, batch);
    NumericIdIsUncapped(batchId);
    RunsInFullIff(env.verifier, U64_MAX, s.front.cache, s.accounts, root, flight, batch,
                  E.NormalizeAll(Wires(batch)).value);
  }

  /**
   * While the invariant holds, a batch that any policy seals, deferring whatever it defers, is executed in full
   * behind the batches sealed before exactly when it takes, per sender, the lowest nonces of the pool.
   */
  lemma SealedRunsInFullIff(env: Env, s: System, batch: seq<PooledTransaction>, left: seq<PooledTransaction>,
                            ids: nat -> nat, roots: nat -> Hash)
    requires Valid(env.policy) && Inv(env, s) && Seals(env, s.front.pool, batch, left)
    ensures E.NormalizeAll(Wires(batch)).Ok?
    ensures var txs, accounts := E.NormalizeAll(Wires(batch)).value, ExecuteSealed(env, s, ids, roots).accounts;
            T.RunBatch(env.verifier, Decimal(ids(0)), accounts, roots(0), txs).executed == txs
            <==> NextByNonce(s.front.pool, batch)
  {
    SealedExecuted(env, s, ids, roots);
    NextRunsInFullIff(env, ExecuteSealed(env, s, ids, roots), batch, left, ids(0), roots(0));
  }

  lemma GasFilterSnoc(c: BatchConfig, base: seq<Transaction>, txs: seq<Transaction>, tx: Transaction)
    ensures var f := GasFilter(c, base, txs);
            GasFilter(c, base, txs + [tx]) == if CanAdd(c, base + f.accepted, tx) then f.(accepted := f.accepted + [tx])
                                              else f.(deferred := f.deferred + [tx])
  {
    assert (txs + [tx])[..|txs|] == txs;
  }

  lemma OnlySecondFits(c: BatchConfig, first: PooledTransaction, second: PooledTransaction)
    requires second.tx.gasLimit <= c.maxGasLimit < first.tx.gasLimit
    ensures GasFilter(c, [], [Normal(first)] + [Normal(second)]) == Filtered([Normal(second)], [Normal(first)])
  {
    var none: seq<Transaction> := [];
    assert none + none == none && GasSum(none) == 0;
    GasFilterSnoc(c, none, none, Normal(first));
    assert none + [Normal(first)] == [Normal(first)] && none + [Normal(second)] == [Normal(second)];
    GasFilterSnoc(c, none, [Normal(first)], Normal(second));
  }

  lemma PairBySender(first: PooledTransaction, second: PooledTransaction)
    requires first.tx.from == second.tx.from
    ensures first.tx.nonce <= second.tx.nonce ==> ByNonce([first, second]) == [first, second]
    ensures BySender([first, second], first.tx.from) == [first, second]
    ensures BySender([second], first.tx.from) == [second]
  {
    if first.tx.nonce <= second.tx.nonce {
      SortOfSorted(NonceLess, [first, second]);
    }
    BySenderSnoc([], first, first.tx.from);
    BySenderSnoc([first], second, first.tx.from);
    BySenderSnoc([], second, first.tx.from);
    assert [] + [first] == [first] && [first] + [second] == [first, second] && [] + [second] == [second];
  }

  lemma PairTaken(first: PooledTransaction, second: PooledTransaction, maxCount: nat, maxBytes: nat)
    requires maxCount >= 2
    ensures TakeFromPool(Fcfs, [first, second], maxCount, maxBytes) == ([first, second], [])
  {
    var pool := [first, second];
    assert pool[..2] == pool && pool[2..] == [];
  }

  lemma PairWrapped(first: PooledTransaction, second: PooledTransaction)
    ensures WrapNormal([first, second]) == [Normal(first)] + [Normal(second)]
  {
  }

  lemma PlanDefersFirst(c: BatchConfig, first: PooledTransaction, second: PooledTransaction)
    requires c.maxBatchSize >= 2 && !c.adaptive
    requires second.tx.gasLimit <= c.maxGasLimit < first.tx.gasLimit
    ensures PlanBatch(c, Fcfs, Backlog([], [first, second]))
            == Plan(Filtered([], []), [first, second], [], Filtered([Normal(second)], [Normal(first)]))
  {
    BatchingProperties.PlanWithoutForced(c, Fcfs, Backlog([], [first, second]));
    PairTaken(first, second, c.maxBatchSize, c.blobTargetBytes);
    PairWrapped(first, second);
    OnlySecondFits(c, first, second);
  }

  lemma UnwrapOne(tx: PooledTransaction)
    ensures WrapNormal([tx]) == [Normal(tx)] && UnwrapNormal([Normal(tx)]) == [tx]
  {
    assert WrapNormal([tx]) == [Normal(tx)];
    BatchingProperties.UnwrapWrapNormal([tx]);
  }

  /** Deferring a sender's first transaction for its gas while sealing its second is not taking what is next. */
  lemma DeferralSkipsNonce(c: BatchConfig, first: PooledTransaction, second: PooledTransaction)
    requires c.maxBatchSize >= 2 && !c.adaptive && first.tx.from == second.tx.from && first != second
    requires second.tx.gasLimit <= c.maxGasLimit < first.tx.gasLimit
    ensures Produces(c, Fcfs, Backlog([], [first, second]), WrapNormal([second]), Backlog([], [first]))
    ensures !TakesNext([first, second], [second])
    ensures first.tx.nonce < second.tx.nonce ==> !NextByNonce([first, second], [second])
  {
    PlanDefersFirst(c, first, second);
    UnwrapOne(first);
    UnwrapOne(second);
    assert UnwrapForced([]) == [] && WrapForced([]) == [];
    assert [] + [first] == [first] && [] + WrapNormal([second]) == WrapNormal([second]);
    assert OrderedBy(Fcfs, [second], [second]);
    PairBySender(first, second);
  }

  /** An account that can sign gets one more transaction admitted. */
  lemma OneAdmitted(env: Env, s: System, sign: seq<byte> -> Signature, a: Address, sample: UserTransaction)
    returns (u: UserTransaction, t: System)
    requires SignsFor(env.recover, sign, a) && sample.to != a && GetOrInit(s.front.cache, a).nonce < U64_MAX
    ensures AdmitNext(env, s, u, 0, 0, t) && u.from == a && u.gasLimit == sample.gasLimit
    ensures u.nonce == GetOrInit(s.front.cache, a).nonce
    ensures t == s.(front := t.front) && t.front.pool == s.front.pool + [Pooled(u, 0, 0)]
    ensures GetOrInit(t.front.cache, a).nonce == GetOrInit(s.front.cache, a).nonce + 1
  {
    u := SignedTransferPasses(env.recover, sign, s.front.cache, a, 0, sample);
    t := s.(front := Handle(env.recover, s.front, u, 0, 0));
    HandleMovesSender(env.recover, s.front, u, 0, 0, a);
  }

  lemma StepsOn(env: Env, run: seq<System>, actions: seq<Action>, action: Action, t: System, k: nat)
    requires Valid(env.policy) && IsRun(env, run, actions) && Next(env, run[|actions|], action, t) && k <= |actions|
    ensures NextAt(env, run + [t], actions + [action], k)
  {
    if k < |actions| {
      assert NextAt(env, run, actions, k);
    }
  }

  /** A run goes on with any step. */
  lemma RunGoesOn(env: Env, run: seq<System>, actions: seq<Action>, action: Action, t: System)
    requires Valid(env.policy) && IsRun(env, run, actions) && Next(env, run[|actions|], action, t)
    ensures IsRun(env, run + [t], actions + [action])
  {
    forall k | 0 <= k < |actions + [action]| ensures NextAt(env, run + [t], actions + [action], k) {
      StepsOn(env, run, actions, action, t, k);
    }
  }

  /** Also with one more transaction of an account that can sign. */
  lemma RunAdmits(env: Env, run: seq<System>, actions: seq<Action>, sign: seq<byte> -> Signature, a: Address,
                  sample: UserTransaction)
    returns (u: UserTransaction, t: System)
    requires Valid(env.policy) && IsRun(env, run, actions) && SignsFor(env.recover, sign, a) && sample.to != a
    requires GetOrInit(run[|actions|].front.cache, a).nonce < U64_MAX
    ensures IsRun(env, run + [t], actions + [Admit(u, 0, 0)])
    ensures t == run[|actions|].(front := t.front) && u.from == a && u.gasLimit == sample.gasLimit
    ensures t.front.pool == run[|actions|].front.pool + [Pooled(u, 0, 0)]
    ensures u.nonce == GetOrInit(run[|actions|].front.cache, a).nonce == GetOrInit(t.front.cache, a).nonce - 1
  {
    u, t := OneAdmitted(env, run[|actions|], sign, a, sample);
    RunGoesOn(env, run, actions, Admit(u, 0, 0), t);
  }

  /** A sender submits a transaction over the gas limit and then one within it; both are admitted. */
  lemma TwoAdmitted(env: Env, s: System, sign: seq<byte> -> Signature, a: Address, sample: UserTransaction)
    returns (first: PooledTransaction, second: PooledTransaction, run: seq<System>, actions: seq<Action>)
    requires Valid(env.policy) && SignsFor(env.recover, sign, a) && Init(s)
    requires sample.to != a && GetOrInit(s.front.cache, a).nonce + 1 < U64_MAX
    ensures IsRun(env, run, actions) && |run| == 3 && run[0] == s && SealedNext(run, actions, 2)
    ensures run[2].sealed == [] && run[2].front.pool == [first, second]
    ensures first.tx.from == second.tx.from == a && first.tx.gasLimit == U64_MAX && second.tx.gasLimit == 0
    ensures first.tx.nonce < second.tx.nonce
  {
    var u1, s1 := RunAdmits(env, [s], [], sign, a, sample.(gasLimit := U64_MAX));
    var u2, s2 := RunAdmits(env, [s] + [s1], [] + [Admit(u1, 0, 0)], sign, a, sample.(gasLimit := 0));
    first, second := Pooled(u1, 0, 0), Pooled(u2, 0, 0);
    run, actions := [s] + [s1] + [s2], [] + [Admit(u1, 0, 0)] + [Admit(u2, 0, 0)];
    assert [] + [first] + [second] == [first, second];
  }

  /**
   * From every initial state an account that can sign has a run of two admissions after which the sequencer
   * seals a batch that the executor does not run in full.
   */
  lemma DeferredNonceIsRejected(env: Env, s: System, sign: seq<byte> -> Signature, a: Address,
                                sample: UserTransaction, batchId: nat, root: Hash)
    returns (first: PooledTransaction, second: PooledTransaction, run: seq<System>, actions: seq<Action>)
    requires env.policy == Fcfs && env.config.maxBatchSize >= 2 && !env.config.adaptive
    requires env.config.maxGasLimit < U64_MAX && SameSignatures(env) && SignsFor(env.recover, sign, a) && Init(s)
    requires sample.to != a && GetOrInit(s.front.cache, a).nonce + 1 < U64_MAX
    ensures IsRun(env, run, actions) && |run| == 3 && run[0] == s && run[2].front.pool == [first, second]
    ensures Produces(env.config, env.policy, Backlog([], [first, second]), WrapNormal([second]), Backlog([], [first]))
    ensures E.NormalizeAll(Wires([second])).Ok?
    ensures var txs := E.NormalizeAll(Wires([second])).value;
            T.RunBatch(env.verifier, Decimal(batchId), run[2].accounts, root, txs).executed != txs
  {
    first, second, run, actions := TwoAdmitted(env, s, sign, a, sample);
    InvHolds(env, run, actions, 2);
    DeferralSkipsNonce(env.config, first, second);
    NextRunsInFullIff(env, run[2], [second], [first], batchId, root);
  }
}
