/**
 * Admission implies execution: a simulation across handler, cache, pool, policy, wire and executor.
 *
 * A run interleaves admissions, arbitrary seals and execution of sealed batches in seal order. As long as seals
 * take each sender's lowest nonces, what a sender has admitted and not yet executed carries the executor's next
 * nonces, and the executor still holds what the cache promised.
 */
module AdmissionProperties {
  import opened Machine
  import opened Folds
  import opened Crypto
  import opened Accounts
  import opened SequencerTypes
  import opened StableSort
  import opened Policies
  import opened PolicyProperties
  import opened Batching
  import opened Admission
  import opened Signing
  import E = ExecutorTypes
  import T = TxEngine
  import BatchingProperties
  import EngineHistory

  // ---------- what the handler does to the cache ----------

  /** The cache moved for `ptx` as an acceptance moves it. */
  ghost predicate Charged(before: Cache, after: Cache, ptx: PooledTransaction, a: Address) {
    if a == ptx.tx.from then
      && GetOrInit(after, a).nonce == NextNonce(GetOrInit(before, a).nonce)
      && GetOrInit(after, a).balance + Cost(ptx.tx) == GetOrInit(before, a).balance
    else GetOrInit(after, a) == GetOrInit(before, a)
  }

  /**
   * An accepted transaction moves exactly its sender's entry: the next nonce, wrapping, and the whole cost with
   * nothing saturating.
   */
  lemma HandleMovesSender(recover: Recover, f: Front, tx: UserTransaction, arrivedAt: u64, enteredAt: u64, a: Address)
    requires Validate(recover, f.cache, tx).Ok?
    ensures Charged(f.cache, Handle(recover, f, tx, arrivedAt, enteredAt).cache, Pooled(tx, arrivedAt, enteredAt), a)
  {
  }

  datatype Submission = Submission(tx: UserTransaction, arrivedAt: u64, enteredAt: u64)

  /** Any sequence of handler calls. */
  function HandleAll(recover: Recover, f: Front, subs: seq<Submission>): Front
    decreases |subs|
  {
    if subs == [] then f
    else
      var s := subs[|subs| - 1];
      Handle(recover, HandleAll(recover, f, subs[..|subs| - 1]), s.tx, s.arrivedAt, s.enteredAt)
  }

  /** The transactions that were accepted, in order. */
  function Accepted(recover: Recover, f: Front, subs: seq<Submission>): seq<PooledTransaction>
    decreases |subs|
  {
    if subs == [] then []
    else
      var n, s := |subs| - 1, subs[|subs| - 1];
      Accepted(recover, f, subs[..n])
      + if Validate(recover, HandleAll(recover, f, subs[..n]).cache, s.tx).Ok? then
          [Pooled(s.tx, s.arrivedAt, s.enteredAt)]
        else []
  }

  function NonceAfter(nonce: u64, steps: nat): u64 {
    if steps == 0 then nonce else NextNonce(NonceAfter(nonce, steps - 1))
  }

  /** Counting with wrap-around is addition modulo 2^64. */
  lemma {:induction false} NonceAfterIsModular(nonce: u64, steps: nat)
    ensures NonceAfter(nonce, steps) == (nonce + steps) % TWO_64
  {
    if steps > 0 {
      NonceAfterIsModular(nonce, steps - 1);
    }
  }

  /** Cache entry of `a`, whose nonce wraps, after `accepted` were admitted from cache `seed`. */
  ghost predicate Tracks(seed: Cache, cache: Cache, accepted: seq<PooledTransaction>, a: Address) {
    && GetOrInit(cache, a).nonce == NonceAfter(GetOrInit(seed, a).nonce, |BySender(accepted, a)|)
    && GetOrInit(cache, a).balance + CostSum(BySender(accepted, a)) == GetOrInit(seed, a).balance
  }

  lemma ChargeKeepsTrack(seed: Cache, before: Cache, after: Cache, accepted: seq<PooledTransaction>,
                         ptx: PooledTransaction, a: Address)
    requires Tracks(seed, before, accepted, a) && Charged(before, after, ptx, a)
    ensures Tracks(seed, after, accepted + [ptx], a)
  {
    BySenderAppend(accepted, ptx, a);
  }

  /** The cached nonce is the seed plus the accepted count, the cached balance the seed minus the accepted costs. */
  lemma {:induction false} CacheTracksAccepted(recover: Recover, f: Front, subs: seq<Submission>, a: Address)
    ensures HandleAll(recover, f, subs).pool == f.pool + Accepted(recover, f, subs)
    ensures Tracks(f.cache, HandleAll(recover, f, subs).cache, Accepted(recover, f, subs), a)
    decreases |subs|
  {
    if subs == [] {
      assert BySender([], a) == [];
    } else {
      var n := |subs| - 1;
      CacheTracksAccepted(recover, f, subs[..n], a);
      var h, accepted := HandleAll(recover, f, subs[..n]), Accepted(recover, f, subs[..n]);
      if Validate(recover, h.cache, subs[n].tx).Ok? {
        var s, g := subs[n], HandleAll(recover, f, subs);
        HandleMovesSender(recover, h, s.tx, s.arrivedAt, s.enteredAt, a);
        ChargeKeepsTrack(f.cache, h.cache, g.cache, accepted, Pooled(s.tx, s.arrivedAt, s.enteredAt), a);
      } else {
        assert accepted + [] == accepted;
      }
    }
  }

  // ---------- the obligation carried by what is in flight ----------

  function CostSum(txs: seq<PooledTransaction>): nat
    decreases |txs|
  {
    if txs == [] then 0 else CostSum(txs[..|txs| - 1]) + Cost(txs[|txs| - 1].tx)
  }

  /** What a transaction must be for the executor to run it as admitted. */
  ghost predicate Runnable(v: T.Verifier, tx: UserTransaction) {
    && E.Normalize(E.WireNormal(tx)).Ok?
    && T.VerifySignature(v, E.Normalize(E.WireNormal(tx)).value)
    && tx.from != tx.to
    && tx.nonce < U64_MAX
  }

  /** Per sender: nonces in order from the executor's to the cache's, and funds for every pending cost. */
  ghost predicate Covered(cache: Cache, accounts: AccountMap, flight: seq<PooledTransaction>, a: Address) {
    var mine := BySender(flight, a);
    && Get(accounts, a).nonce + |mine| == GetOrInit(cache, a).nonce
    && (forall k :: 0 <= k < |mine| ==> mine[k].tx.nonce == Get(accounts, a).nonce + k)
    && Get(accounts, a).balance >= GetOrInit(cache, a).balance + CostSum(mine)
  }

  ghost predicate AllCovered(cache: Cache, accounts: AccountMap, flight: seq<PooledTransaction>) {
    forall a: Address :: Covered(cache, accounts, flight, a)
  }

  ghost predicate AllRunnable(v: T.Verifier, flight: seq<PooledTransaction>) {
    forall i {:trigger Runnable(v, flight[i].tx)} :: 0 <= i < |flight| ==> Runnable(v, flight[i].tx)
  }

  lemma CostSumSnoc(txs: seq<PooledTransaction>, tx: PooledTransaction)
    ensures CostSum(txs + [tx]) == CostSum(txs) + Cost(tx.tx)
  {
    assert (txs + [tx])[..|txs|] == txs;
  }

  lemma {:induction false} CostSumCons(tx: PooledTransaction, txs: seq<PooledTransaction>)
    ensures CostSum([tx] + txs) == Cost(tx.tx) + CostSum(txs)
    decreases |txs|
  {
    if txs == [] {
      assert [tx] + txs == [] + [tx];
      CostSumSnoc([], tx);
    } else {
      var n := |txs| - 1;
      CostSumCons(tx, txs[..n]);
      assert [tx] + txs == ([tx] + txs[..n]) + [txs[n]];
      CostSumSnoc([tx] + txs[..n], txs[n]);
    }
  }

  lemma BySenderAppend(txs: seq<PooledTransaction>, ptx: PooledTransaction, a: Address)
    ensures ptx.tx.from == a ==>
              && BySender(txs + [ptx], a) == BySender(txs, a) + [ptx]
              && CostSum(BySender(txs + [ptx], a)) == CostSum(BySender(txs, a)) + Cost(ptx.tx)
    ensures ptx.tx.from != a ==> BySender(txs + [ptx], a) == BySender(txs, a)
  {
    BySenderSnoc(txs, ptx, a);
    if ptx.tx.from == a {
      CostSumSnoc(BySender(txs, a), ptx);
    }
  }

  lemma ChargeKeepsCover(before: Cache, after: Cache, accounts: AccountMap, flight: seq<PooledTransaction>,
                         ptx: PooledTransaction, a: Address)
    requires Covered(before, accounts, flight, a) && Charged(before, after, ptx, a)
    requires ptx.tx.from == a ==> ptx.tx.nonce == GetOrInit(before, a).nonce < U64_MAX
    ensures Covered(after, accounts, flight + [ptx], a)
  {
    BySenderAppend(flight, ptx, a);
  }

  /** Admission extends the flight. */
  lemma AdmitKeepsCover(recover: Recover, f: Front, accounts: AccountMap, flight: seq<PooledTransaction>,
                        tx: UserTransaction, arrivedAt: u64, enteredAt: u64)
    requires AllCovered(f.cache, accounts, flight)
    requires Validate(recover, f.cache, tx).Ok? && tx.nonce < U64_MAX
    ensures AllCovered(Handle(recover, f, tx, arrivedAt, enteredAt).cache, accounts,
                       flight + [Pooled(tx, arrivedAt, enteredAt)])
  {
    var g := Handle(recover, f, tx, arrivedAt, enteredAt);
    forall a: Address ensures Covered(g.cache, accounts, flight + [Pooled(tx, arrivedAt, enteredAt)], a) {
      assert Covered(f.cache, accounts, flight, a);
      HandleMovesSender(recover, f, tx, arrivedAt, enteredAt, a);
      ChargeKeepsCover(f.cache, g.cache, accounts, flight, Pooled(tx, arrivedAt, enteredAt), a);
    }
  }

  /** Reordering that keeps each sender's transactions keeps the cover. */
  lemma ReorderKeepsCover(cache: Cache, accounts: AccountMap, before: seq<PooledTransaction>,
                          after: seq<PooledTransaction>)
    requires AllCovered(cache, accounts, before)
    requires forall a: Address :: BySender(after, a) == BySender(before, a)
    ensures AllCovered(cache, accounts, after)
  {
    forall a: Address ensures Covered(cache, accounts, after, a) {
      assert Covered(cache, accounts, before, a);
    }
  }

  /** The first transaction in flight passes every check of the executor, and the rest stays covered. */
  lemma HeadExecutes(v: T.Verifier, cache: Cache, accounts: AccountMap, head: PooledTransaction,
                     rest: seq<PooledTransaction>)
    requires AllCovered(cache, accounts, [head] + rest) && Runnable(v, head.tx)
    ensures var tx := E.Normalize(E.WireNormal(head.tx)).value;
            && T.Spendable(accounts, tx)
            && AllCovered(cache, T.Transfer(accounts, tx), rest)
  {
    var tx := E.Normalize(E.WireNormal(head.tx)).value;
    var sender := head.tx.from;
    BySenderCons(head, rest, sender);
    CostSumCons(head, BySender(rest, sender));
    assert Covered(cache, accounts, [head] + rest, sender);
    assert BySender([head] + rest, sender)[0] == head;
    forall a: Address ensures Covered(cache, T.Transfer(accounts, tx), rest, a) {
      BySenderCons(head, rest, a);
      assert Covered(cache, accounts, [head] + rest, a);
      if a == sender {
        SenderStaysCovered(cache, accounts, tx, head, rest);
      } else {
        assert BySender(rest, a) == BySender([head] + rest, a);
        assert Get(T.Transfer(accounts, tx), a).nonce == Get(accounts, a).nonce;
        assert Get(T.Transfer(accounts, tx), a).balance >= Get(accounts, a).balance;
      }
    }
  }

  lemma SenderStaysCovered(cache: Cache, accounts: AccountMap, tx: E.Transaction, head: PooledTransaction,
                           rest: seq<PooledTransaction>)
    requires Covered(cache, accounts, [head] + rest, head.tx.from)
    requires tx.from == head.tx.from && tx.from != tx.to && tx.amount == head.tx.value && tx.nonce == head.tx.nonce
    requires T.Spendable(accounts, tx) && tx.nonce < U64_MAX && tx.amount <= Cost(head.tx)
    ensures Covered(cache, T.Transfer(accounts, tx), rest, head.tx.from)
  {
    var sender := head.tx.from;
    var before, after := BySender([head] + rest, sender), BySender(rest, sender);
    BySenderCons(head, rest, sender);
    CostSumCons(head, after);
    assert before == [head] + after;
    var account := Get(T.Transfer(accounts, tx), sender);
    assert account == Account(Get(accounts, sender).balance - tx.amount, tx.nonce + 1);
    forall k | 0 <= k < |after| ensures after[k].tx.nonce == account.nonce + k {
      assert after[k] == before[k + 1];
    }
  }

  lemma BySenderCons(head: PooledTransaction, rest: seq<PooledTransaction>, a: Address)
    ensures BySender([head] + rest, a) == (if head.tx.from == a then [head] else []) + BySender(rest, a)
  {
    FilterCons(SentFrom(a), head, rest);
  }

  /** Whatever the validator lets `a` send, the executor finds spendable. */
  ghost predicate AdmittedIsSpendable(recover: Recover, cache: Cache, accounts: AccountMap, a: Address) {
    forall u: UserTransaction ::
      u.from == a && Validate(recover, cache, u).Ok? && E.Normalize(E.WireNormal(u)).Ok? ==>
        T.Spendable(accounts, E.Normalize(E.WireNormal(u)).value)
  }

  /** `sign` signs for `a`. */
  ghost predicate SignsFor(recover: Recover, sign: seq<byte> -> Signature, a: Address) {
    forall preimage {:trigger sign(preimage)} :: recover(preimage, sign(preimage)) == Some(a)
  }

  /** A signed transfer of `value` at no gas cost passes the validator. */
  lemma SignedTransferPasses(recover: Recover, sign: seq<byte> -> Signature, cache: Cache, a: Address, value: u64,
                             sample: UserTransaction)
    returns (u: UserTransaction)
    requires SignsFor(recover, sign, a) && value <= GetOrInit(cache, a).balance
    ensures u.from == a && u.to == sample.to && u.value == value && u.gasLimit == sample.gasLimit
    ensures u.nonce == GetOrInit(cache, a).nonce
    ensures Validate(recover, cache, u).Ok? && E.Normalize(E.WireNormal(u)).Ok?
  {
    var unsigned := sample.(from := a, value := value, nonce := GetOrInit(cache, a).nonce, gasPrice := 0,
                            boostBid := None);
    u := unsigned.(signature := sign(SequencerPreimage(unsigned)));
    assert SequencerPreimage(u) == SequencerPreimage(unsigned);
    assert Cost(u) == value;
  }

  /**
   * With equal nonces, what an account that can sign gets admitted is spendable exactly when the executor
   * holds what the cache promises, up to the largest value that the wire carries.
   */
  lemma FundsNeededIff(recover: Recover, sign: seq<byte> -> Signature, cache: Cache, accounts: AccountMap, a: Address,
                       sample: UserTransaction)
    requires SignsFor(recover, sign, a) && Get(accounts, a).nonce == GetOrInit(cache, a).nonce
    ensures AdmittedIsSpendable(recover, cache, accounts, a)
            <==> Get(accounts, a).balance >= Min(GetOrInit(cache, a).balance, U64_MAX)
  {
    var most := Min(GetOrInit(cache, a).balance, U64_MAX);
    if Get(accounts, a).balance < most {
      var u := SignedTransferPasses(recover, sign, cache, a, most, sample);
      assert !T.Spendable(accounts, E.Normalize(E.WireNormal(u)).value);
    }
  }

  /** The dev account's default seeds: 10^22 wei in the cache and 10^18 in the executor. */
  const CACHE_SEED: u256 := 10_000_000_000_000_000_000_000
  const GENESIS_BALANCE: u64 := 1_000_000_000_000_000_000

  /** With the default seeds the validator admits a transfer of the dev account that the executor rejects. */
  lemma DefaultSeedsDisagree(v: T.Verifier, recover: Recover, sign: seq<byte> -> Signature, dev: Address,
                             root: Hash, sample: UserTransaction)
    returns (u: UserTransaction)
    requires SignsFor(recover, sign, dev)
    requires forall preimage, signature :: recover(preimage, signature).Some? ==>
               v.recover(preimage, signature) == recover(preimage, signature)
    ensures Validate(recover, map[dev := AccountState(dev, CACHE_SEED, 0)], u).Ok? && E.Normalize(E.WireNormal(u)).Ok?
    ensures var p := T.Start(map[dev := Account(GENESIS_BALANCE, 0)], root);
            T.Verdict(v, U64_MAX, p, E.Normalize(E.WireNormal(u)).value) == Some(E.InsufficientBalance)
  {
    u := SignedTransferPasses(recover, sign, map[dev := AccountState(dev, CACHE_SEED, 0)], dev, U64_MAX, sample);
    PreimagesAgree(u, E.Normalize(E.WireNormal(u)).value);
  }

  // ---------- executing a whole batch ----------

  /** The executor's view of a batch of user transactions. */
  function Wires(batch: seq<PooledTransaction>): (w: seq<E.WireTransaction>)
    ensures |w| == |batch| && forall i :: 0 <= i < |batch| ==> w[i] == E.ToWire(Normal(batch[i]))
  {
    seq(|batch|, i requires 0 <= i < |batch| => E.ToWire(Normal(batch[i])))
  }

  ghost predicate NormalizesTo(batch: seq<PooledTransaction>, txs: seq<E.Transaction>) {
    && |txs| == |batch|
    && forall k {:trigger E.Normalize(E.WireNormal(batch[k].tx))} :: 0 <= k < |batch| ==>
         E.Normalize(E.WireNormal(batch[k].tx)) == Ok(txs[k])
  }

  lemma BatchNormalizes(v: T.Verifier, batch: seq<PooledTransaction>)
    requires AllRunnable(v, batch)
    ensures E.NormalizeAll(Wires(batch)).Ok?
    ensures |E.NormalizeAll(Wires(batch)).value| == |batch|
    ensures NormalizesTo(batch, E.NormalizeAll(Wires(batch)).value)
  {
    E.NormalizeAllAt(Wires(batch));
    forall i | 0 <= i < |batch| ensures E.Normalize(Wires(batch)[i]).Ok? {
      assert Runnable(v, batch[i].tx);
    }
  }

  lemma StepExecutes(v: T.Verifier, cap: nat, cache: Cache, p: T.Progress, head: PooledTransaction,
                     rest: seq<PooledTransaction>, tx: E.Transaction)
    requires AllCovered(cache, p.accounts, [head] + rest) && Runnable(v, head.tx)
    requires E.Normalize(E.WireNormal(head.tx)) == Ok(tx) && |p.executed| < cap
    ensures T.Step(v, cap, p, tx).executed == p.executed + [tx]
    ensures AllCovered(cache, T.Step(v, cap, p, tx).accounts, rest)
  {
    HeadExecutes(v, cache, p.accounts, head, rest);
    assert T.Verdict(v, cap, p, tx) == None;
  }

  lemma RunStep(v: T.Verifier, cap: nat, p: T.Progress, txs: seq<E.Transaction>, i: nat)
    requires 0 < i <= |txs|
    ensures T.Run(v, cap, p, txs[..i]) == T.Step(v, cap, T.Run(v, cap, p, txs[..i - 1]), txs[i - 1])
  {
    assert txs[..i][..i - 1] == txs[..i - 1];
  }

  lemma SplitFirst<X>(batch: seq<X>, rest: seq<X>, i: nat)
    requires 0 < i <= |batch|
    ensures batch[i - 1..] + rest == [batch[i - 1]] + (batch[i..] + rest)
  {
  }

  /** `q` executed the first `i` transactions, and the others are still covered. */
  ghost predicate ExecutedUpTo(cache: Cache, q: T.Progress, batch: seq<PooledTransaction>,
                               rest: seq<PooledTransaction>, txs: seq<E.Transaction>, i: nat)
    requires i <= |batch| == |txs|
  {
    q.executed == txs[..i] && AllCovered(cache, q.accounts, batch[i..] + rest)
  }

  lemma OneMoreExecutes(v: T.Verifier, cap: nat, cache: Cache, q: T.Progress, next: T.Progress,
                        batch: seq<PooledTransaction>, rest: seq<PooledTransaction>, txs: seq<E.Transaction>, i: nat)
    requires NormalizesTo(batch, txs) && AllRunnable(v, batch) && i < |batch| <= cap
    requires ExecutedUpTo(cache, q, batch, rest, txs, i) && next == T.Step(v, cap, q, txs[i])
    ensures ExecutedUpTo(cache, next, batch, rest, txs, i + 1)
  {
    SplitFirst(batch, rest, i + 1);
    assert Runnable(v, batch[i].tx);
    StepExecutes(v, cap, cache, q, batch[i], batch[i + 1..] + rest, txs[i]);
  }

  /** No prefix of the batch meets a rejection. */
  lemma {:induction false} PrefixExecutes(v: T.Verifier, cap: nat, cache: Cache, p: T.Progress,
                                          batch: seq<PooledTransaction>, rest: seq<PooledTransaction>,
                                          txs: seq<E.Transaction>, i: nat)
    requires p.executed == [] && AllCovered(cache, p.accounts, batch + rest) && AllRunnable(v, batch)
    requires NormalizesTo(batch, txs) && |batch| <= cap && i <= |batch|
    ensures ExecutedUpTo(cache, T.Run(v, cap, p, txs[..i]), batch, rest, txs, i)
    decreases i
  {
    if i == 0 {
      assert batch[0..] == batch;
    } else {
      PrefixExecutes(v, cap, cache, p, batch, rest, txs, i - 1);
      RunStep(v, cap, p, txs, i);
      OneMoreExecutes(v, cap, cache, T.Run(v, cap, p, txs[..i - 1]), T.Run(v, cap, p, txs[..i]), batch, rest, txs,
                      i - 1);
    }
  }

  // ---------- the system ----------

  datatype Env = Env(config: BatchConfig, policy: Policy, recover: Recover, verifier: T.Verifier)

  /** `sealed` holds the sealed batches that wait for execution, oldest first. */
  datatype System = System(front: Front, sealed: seq<seq<PooledTransaction>>, accounts: AccountMap)

  /** Sealed batches may carry any numeric id. */
  datatype Action =
    | Admit(tx: UserTransaction, arrivedAt: u64, enteredAt: u64)
    | Seal(batch: seq<PooledTransaction>)
    | Execute(batchId: nat, root: Hash)

  /** The executor recovers the address that the sequencer recovered. */
  ghost predicate SameSignatures(env: Env) {
    forall preimage, signature :: env.recover(preimage, signature).Some? ==>
      env.verifier.recover(preimage, signature) == env.recover(preimage, signature)
  }

  ghost predicate FitsExecutor(tx: UserTransaction) {
    E.Normalize(E.WireNormal(tx)).Ok? && tx.from != tx.to && tx.nonce < U64_MAX
  }

  /** Sealing without forced transactions, under any policy and with whatever deferrals. */
  ghost predicate Seals(env: Env, pool: seq<PooledTransaction>, batch: seq<PooledTransaction>,
                        left: seq<PooledTransaction>)
    requires Valid(env.policy)
  {
    && Produces(env.config, env.policy, Backlog([], pool), WrapNormal(batch), Backlog([], left))
    && |batch| <= U64_MAX
  }

  ghost predicate AdmitNext(env: Env, s: System, tx: UserTransaction, arrivedAt: u64, enteredAt: u64, t: System) {
    && (Validate(env.recover, s.front.cache, tx).Ok? ==> FitsExecutor(tx))
    && t == s.(front := Handle(env.recover, s.front, tx, arrivedAt, enteredAt))
  }

  ghost predicate SealNext(env: Env, s: System, batch: seq<PooledTransaction>, t: System)
    requires Valid(env.policy)
  {
    && batch != [] && Seals(env, s.front.pool, batch, t.front.pool)
    && t == s.(front := s.front.(pool := t.front.pool), sealed := s.sealed + [batch])
  }

  /** A payload that does not normalize is refused and leaves the batch where it is. */
  ghost predicate ExecuteNext(env: Env, s: System, batchId: nat, root: Hash, t: System) {
    && s.sealed != []
    && match E.NormalizeAll(Wires(s.sealed[0]))
       case Err(_) => t == s
       case Ok(txs) =>
         t == s.(sealed := s.sealed[1..],
                 accounts := T.RunBatch(env.verifier, Decimal(batchId), s.accounts, root, txs).accounts)
  }

  ghost predicate Next(env: Env, s: System, action: Action, t: System)
    requires Valid(env.policy)
  {
    match action
    case Admit(tx, arrivedAt, enteredAt) => AdmitNext(env, s, tx, arrivedAt, enteredAt, t)
    case Seal(batch) => SealNext(env, s, batch, t)
    case Execute(batchId, root) => ExecuteNext(env, s, batchId, root, t)
  }

  function ByNonce(pool: seq<PooledTransaction>): seq<PooledTransaction> {
    Sort(NonceLess, pool)
  }

  /** Per sender, the batch takes what is next in flight. */
  ghost predicate TakesNext(flight: seq<PooledTransaction>, batch: seq<PooledTransaction>) {
    forall a: Address :: BySender(batch, a) <= BySender(flight, a)
  }

  /** Per sender, the batch takes the lowest nonces of the pool, in order. */
  ghost predicate NextByNonce(pool: seq<PooledTransaction>, batch: seq<PooledTransaction>) {
    TakesNext(ByNonce(pool), batch)
  }

  /** Admitted and not yet executed: what is sealed in seal order, and behind it the pool by nonce. */
  function Flight(s: System): seq<PooledTransaction> {
    Flatten(s.sealed) + ByNonce(s.front.pool)
  }

  ghost predicate Inv(env: Env, s: System) {
    && AllCovered(s.front.cache, s.accounts, Flight(s))
    && AllRunnable(env.verifier, Flight(s))
    && forall i :: 0 <= i < |s.sealed| ==> |s.sealed[i]| <= U64_MAX
  }

  /** Executor nonces equal to cached ones, executor balances at least the cached ones, nothing pending. */
  ghost predicate Init(s: System) {
    && s.sealed == [] && s.front.pool == []
    && forall a: Address ::
         && Get(s.accounts, a).nonce == GetOrInit(s.front.cache, a).nonce
         && Get(s.accounts, a).balance >= GetOrInit(s.front.cache, a).balance
  }

  lemma InitInv(env: Env, s: System)
    requires Init(s)
    ensures Inv(env, s)
  {
    assert Flight(s) == [];
    forall a: Address ensures Covered(s.front.cache, s.accounts, [], a) {
      assert BySender([], a) == [];
    }
  }

  lemma SignatureCarries(env: Env, cache: Cache, tx: UserTransaction)
    requires SameSignatures(env) && Validate(env.recover, cache, tx).Ok? && FitsExecutor(tx)
    ensures Runnable(env.verifier, tx)
  {
    PreimagesAgree(tx, E.Normalize(E.WireNormal(tx)).value);
  }

  // ---------- one sender of the pool ----------

  lemma ByNonceOf(pool: seq<PooledTransaction>, a: Address)
    ensures BySender(ByNonce(pool), a) == Sort(NonceLess, BySender(pool, a))
  {
    OrdersAreStrictWeak();
    SortCommutesWithFilter(NonceLess, SentFrom(a), pool);
  }

  /** Per sender no nonce occurs twice. */
  ghost predicate DistinctNonces(pool: seq<PooledTransaction>) {
    forall a: Address :: StrictlyOrdered(NonceLess, BySender(ByNonce(pool), a))
  }

  lemma CoveredIsDistinct(cache: Cache, accounts: AccountMap, front: seq<PooledTransaction>,
                          pool: seq<PooledTransaction>)
    requires AllCovered(cache, accounts, front + ByNonce(pool))
    ensures DistinctNonces(pool)
  {
    forall a: Address ensures StrictlyOrdered(NonceLess, BySender(ByNonce(pool), a)) {
      assert Covered(cache, accounts, front + ByNonce(pool), a);
      FilterConcat(SentFrom(a), front, ByNonce(pool));
      var mine, before, all := BySender(ByNonce(pool), a), BySender(front, a), BySender(front + ByNonce(pool), a);
      forall k | 0 <= k < |mine| ensures mine[k].tx.nonce == Get(accounts, a).nonce + |before| + k {
        assert mine[k] == all[|before| + k];
      }
    }
  }

  lemma InvIsDistinct(env: Env, s: System)
    requires Inv(env, s)
    ensures DistinctNonces(s.front.pool)
  {
    CoveredIsDistinct(s.front.cache, s.accounts, Flatten(s.sealed), s.front.pool);
  }

  /** What is covered in the pool has nonces below the cached one. */
  lemma BelowCached(cache: Cache, accounts: AccountMap, front: seq<PooledTransaction>, pool: seq<PooledTransaction>,
                    a: Address, k: nat)
    requires Covered(cache, accounts, front + pool, a) && k < |BySender(pool, a)|
    ensures BySender(pool, a)[k].tx.nonce < GetOrInit(cache, a).nonce
  {
    FilterConcat(SentFrom(a), front, pool);
    assert BySender(pool, a)[k] == BySender(front + pool, a)[|BySender(front, a)| + k];
  }

  lemma NewestSorted(pool: seq<PooledTransaction>, ptx: PooledTransaction, a: Address)
    requires ptx.tx.from == a ==> forall k :: 0 <= k < |BySender(ByNonce(pool), a)| ==>
               !NonceLess(ptx, BySender(ByNonce(pool), a)[k])
    ensures BySender(ByNonce(pool + [ptx]), a) == BySender(ByNonce(pool) + [ptx], a)
  {
    ByNonceOf(pool, a);
    ByNonceOf(pool + [ptx], a);
    BySenderAppend(pool, ptx, a);
    BySenderAppend(ByNonce(pool), ptx, a);
    if ptx.tx.from == a {
      SortSnoc(NonceLess, BySender(pool, a), ptx);
      InsertLast(NonceLess, ptx, BySender(ByNonce(pool), a));
    }
  }

  /** A new transaction of the sender at the cached nonce comes last. */
  lemma NewestIsLast(cache: Cache, accounts: AccountMap, front: seq<PooledTransaction>, pool: seq<PooledTransaction>,
                     ptx: PooledTransaction, a: Address)
    requires Covered(cache, accounts, front + ByNonce(pool), a)
    requires ptx.tx.from == a ==> ptx.tx.nonce == GetOrInit(cache, a).nonce
    ensures BySender(ByNonce(pool + [ptx]), a) == BySender(ByNonce(pool) + [ptx], a)
  {
    forall k | 0 <= k < |BySender(ByNonce(pool), a)|
      ensures BySender(ByNonce(pool), a)[k].tx.nonce < GetOrInit(cache, a).nonce
    {
      BelowCached(cache, accounts, front, ByNonce(pool), a, k);
    }
    NewestSorted(pool, ptx, a);
  }

  lemma AdmitKeepsInv(env: Env, s: System, tx: UserTransaction, arrivedAt: u64, enteredAt: u64, t: System)
    requires Valid(env.policy) && SameSignatures(env) && Inv(env, s) && AdmitNext(env, s, tx, arrivedAt, enteredAt, t)
    ensures Inv(env, t)
  {
    if Validate(env.recover, s.front.cache, tx).Ok? {
      var ptx := Pooled(tx, arrivedAt, enteredAt);
      AdmitKeepsCover(env.recover, s.front, s.accounts, Flight(s), tx, arrivedAt, enteredAt);
      SignatureCarries(env, s.front.cache, tx);
      RunnableSnoc(env.verifier, Flight(s), ptx);
      forall a: Address ensures BySender(Flight(t), a) == BySender(Flight(s) + [ptx], a) {
        assert Covered(s.front.cache, s.accounts, Flight(s), a);
        NewestIsLast(s.front.cache, s.accounts, Flatten(s.sealed), s.front.pool, ptx, a);
        SameBehind(Flatten(s.sealed), ByNonce(t.front.pool), ByNonce(s.front.pool) + [ptx], a);
        Reassociate(Flatten(s.sealed), ByNonce(s.front.pool), [ptx]);
      }
      ReorderKeepsCover(t.front.cache, s.accounts, Flight(s) + [ptx], Flight(t));
      RunnableReordered(env.verifier, Flight(s) + [ptx], Flight(t));
    }
  }

  lemma SameBehind(front: seq<PooledTransaction>, b1: seq<PooledTransaction>, b2: seq<PooledTransaction>, a: Address)
    requires BySender(b1, a) == BySender(b2, a)
    ensures BySender(front + b1, a) == BySender(front + b2, a)
  {
    FilterConcat(SentFrom(a), front, b1);
    FilterConcat(SentFrom(a), front, b2);
  }

  lemma RunnableSnoc(v: T.Verifier, flight: seq<PooledTransaction>, ptx: PooledTransaction)
    requires AllRunnable(v, flight) && Runnable(v, ptx.tx)
    ensures AllRunnable(v, flight + [ptx])
  {
    forall i | 0 <= i < |flight + [ptx]| ensures Runnable(v, (flight + [ptx])[i].tx) {
      if i < |flight| { assert Runnable(v, flight[i].tx); }
    }
  }

  lemma RunnableReordered(v: T.Verifier, before: seq<PooledTransaction>, after: seq<PooledTransaction>)
    requires AllRunnable(v, before) && forall a: Address :: BySender(after, a) == BySender(before, a)
    ensures AllRunnable(v, after)
  {
    forall i | 0 <= i < |after| ensures Runnable(v, after[i].tx) {
      var a := after[i].tx.from;
      FilterMembers(SentFrom(a), after);
      FilterMembers(SentFrom(a), before);
      assert after[i] in after && SentFrom(a)(after[i]);
      assert after[i] in BySender(after, a) && after[i] in before;
      var k :| 0 <= k < |before| && before[k] == after[i];
      assert Runnable(v, before[k].tx);
    }
  }

  // ---------- sealing ----------

  /** Each sender's transactions stay in their order, the sealed ones first. */
  ghost predicate KeepsSenders(pool: seq<PooledTransaction>, batch: seq<PooledTransaction>,
                               left: seq<PooledTransaction>)
  {
    forall a: Address :: BySender(batch + left, a) == BySender(pool, a)
  }

  lemma PendingPool(pool: seq<PooledTransaction>)
    ensures BatchingProperties.Pending(Backlog([], pool)) == WrapNormal(pool)
  {
    assert WrapForced([]) == [];
  }

  /** What is sealed and what is left make up the pool. */
  lemma SealConserves(env: Env, pool: seq<PooledTransaction>, batch: seq<PooledTransaction>,
                      left: seq<PooledTransaction>)
    requires Valid(env.policy) && Seals(env, pool, batch, left)
    ensures multiset(batch) + multiset(left) == multiset(pool)
  {
    BatchingProperties.ProduceConserves(env.config, env.policy, Backlog([], pool), WrapNormal(batch),
                                        Backlog([], left));
    PendingPool(pool);
    PendingPool(left);
    BatchingProperties.UnwrapNormalMultiset(batch, left, pool);
  }

  lemma SenderConserved(pool: seq<PooledTransaction>, batch: seq<PooledTransaction>, left: seq<PooledTransaction>,
                        a: Address)
    requires multiset(batch) + multiset(left) == multiset(pool)
    ensures multiset(BySender(batch, a)) + multiset(BySender(left, a)) == multiset(BySender(pool, a))
    ensures multiset(BySender(batch, a)) + multiset(BySender(left, a)) == multiset(BySender(ByNonce(pool), a))
  {
    FilterPermutation(SentFrom(a), batch + left, pool);
    FilterConcat(SentFrom(a), batch, left);
    ByNonceOf(pool, a);
    SortIsPermutation(NonceLess, BySender(pool, a));
  }

  /** Sealing the lowest nonces leaves the rest of the pool by nonce behind them. */
  lemma NextKeepsSenders(pool: seq<PooledTransaction>, batch: seq<PooledTransaction>, left: seq<PooledTransaction>)
    requires DistinctNonces(pool) && NextByNonce(pool, batch) && multiset(batch) + multiset(left) == multiset(pool)
    ensures KeepsSenders(ByNonce(pool), batch, ByNonce(left))
  {
    OrdersAreStrictWeak();
    forall a: Address ensures BySender(batch + ByNonce(left), a) == BySender(ByNonce(pool), a) {
      SenderConserved(pool, batch, left, a);
      assert BySender(batch, a) <= BySender(ByNonce(pool), a);
      RestInOrder(NonceLess, BySender(ByNonce(pool), a), BySender(batch, a), BySender(left, a));
      ByNonceOf(left, a);
      FilterConcat(SentFrom(a), batch, ByNonce(left));
    }
  }

  /** Sealing that keeps each sender's order keeps the flight covered and runnable. */
  lemma OrderlySealInv(env: Env, s: System, batch: seq<PooledTransaction>, rest: seq<PooledTransaction>)
    requires Inv(env, s) && KeepsSenders(ByNonce(s.front.pool), batch, rest)
    ensures AllCovered(s.front.cache, s.accounts, Flatten(s.sealed + [batch]) + rest)
    ensures AllRunnable(env.verifier, Flatten(s.sealed + [batch]) + rest)
  {
    var after := Flatten(s.sealed) + (batch + rest);
    FlattenSnoc(s.sealed, batch);
    assert Flatten(s.sealed + [batch]) + rest == after;
    forall a: Address ensures BySender(after, a) == BySender(Flight(s), a) {
      assert BySender(batch + rest, a) == BySender(ByNonce(s.front.pool), a);
      SameBehind(Flatten(s.sealed), batch + rest, ByNonce(s.front.pool), a);
    }
    ReorderKeepsCover(s.front.cache, s.accounts, Flight(s), after);
    RunnableReordered(env.verifier, Flight(s), after);
  }

  /** Whatever the policy, a seal that takes each sender's lowest nonces keeps the invariant. */
  lemma SealKeepsInv(env: Env, s: System, batch: seq<PooledTransaction>, t: System)
    requires Valid(env.policy) && Inv(env, s) && SealNext(env, s, batch, t) && NextByNonce(s.front.pool, batch)
    ensures Inv(env, t)
  {
    SealConserves(env, s.front.pool, batch, t.front.pool);
    InvIsDistinct(env, s);
    NextKeepsSenders(s.front.pool, batch, t.front.pool);
    OrderlySealInv(env, s, batch, ByNonce(t.front.pool));
    SealedSizes(s.sealed, batch);
  }

  lemma SealedSizes(sealed: seq<seq<PooledTransaction>>, batch: seq<PooledTransaction>)
    requires |batch| <= U64_MAX && forall i :: 0 <= i < |sealed| ==> |sealed[i]| <= U64_MAX
    ensures forall i :: 0 <= i < |sealed + [batch]| ==> |(sealed + [batch])[i]| <= U64_MAX
  {
  }

  lemma NumericIdIsUncapped(batchId: nat)
    ensures T.MaxIncluded(Decimal(batchId)) == U64_MAX
  {
    var id := Decimal(batchId);
    assert id[0] in id;
    assert "large1"[0] == 'l' && "large2"[0] == 'l';
  }

  lemma FlightAfter(s: System, t: System)
    requires s.sealed != [] && t.front == s.front && t.sealed == s.sealed[1..]
    ensures Flight(s) == s.sealed[0] + Flight(t)
  {
    FlattenCons(s.sealed);
    Reassociate(s.sealed[0], Flatten(s.sealed[1..]), ByNonce(s.front.pool));
  }

  /** Executing the oldest batch includes every transaction of it. */
  lemma OldestBatchExecutes(env: Env, s: System, batchId: nat, root: Hash)
    requires Inv(env, s) && s.sealed != []
    ensures E.NormalizeAll(Wires(s.sealed[0])).Ok?
    ensures var txs := E.NormalizeAll(Wires(s.sealed[0])).value;
            var p := T.RunBatch(env.verifier, Decimal(batchId), s.accounts, root, txs);
            && p.executed == txs && |txs| == |s.sealed[0]|
            && AllCovered(s.front.cache, p.accounts, Flatten(s.sealed[1..]) + ByNonce(s.front.pool))
  {
    var batch, rest := s.sealed[0], Flatten(s.sealed[1..]) + ByNonce(s.front.pool);
    FlightAfter(s, s.(sealed := s.sealed[1..]));
    forall i | 0 <= i < |batch| ensures Runnable(env.verifier, batch[i].tx) {
      assert Flight(s)[i] == batch[i];
      assert Runnable(env.verifier, Flight(s)[i].tx);
    }
    BatchNormalizes(env.verifier, batch);
    var txs := E.NormalizeAll(Wires(batch)).value;
    NumericIdIsUncapped(batchId);
    PrefixExecutes(env.verifier, U64_MAX, s.front.cache, T.Start(s.accounts, root), batch, rest, txs, |batch|);
    assert txs[..|batch|] == txs && batch[|batch|..] + rest == rest;
  }

  lemma ExecuteMoves(env: Env, s: System, batchId: nat, root: Hash, t: System)
    requires Inv(env, s) && ExecuteNext(env, s, batchId, root, t)
    ensures t.front == s.front && t.sealed == s.sealed[1..]
    ensures AllCovered(t.front.cache, t.accounts, Flight(t))
  {
    OldestBatchExecutes(env, s, batchId, root);
  }

  lemma ExecuteKeepsInv(env: Env, s: System, batchId: nat, root: Hash, t: System)
    requires Inv(env, s) && ExecuteNext(env, s, batchId, root, t)
    ensures Inv(env, t)
  {
    ExecuteMoves(env, s, batchId, root, t);
    FlightAfter(s, t);
    RunnableRest(env.verifier, s.sealed[0], Flight(t));
  }

  lemma RunnableRest(v: T.Verifier, first: seq<PooledTransaction>, rest: seq<PooledTransaction>)
    requires AllRunnable(v, first + rest)
    ensures AllRunnable(v, rest)
  {
    forall i | 0 <= i < |rest| ensures Runnable(v, rest[i].tx) {
      assert rest[i] == (first + rest)[|first| + i];
      assert Runnable(v, (first + rest)[|first| + i].tx);
    }
  }

  lemma StepKeepsInv(env: Env, s: System, action: Action, t: System)
    requires Valid(env.policy) && SameSignatures(env) && Inv(env, s) && Next(env, s, action, t)
    requires action.Seal? ==> NextByNonce(s.front.pool, action.batch)
    ensures Inv(env, t)
  {
    match action
    case Admit(tx, arrivedAt, enteredAt) => AdmitKeepsInv(env, s, tx, arrivedAt, enteredAt, t);
    case Seal(batch) => SealKeepsInv(env, s, batch, t);
    case Execute(batchId, root) => ExecuteKeepsInv(env, s, batchId, root, t);
  }

  // ---------- every run ----------

  ghost predicate NextAt(env: Env, run: seq<System>, actions: seq<Action>, k: nat)
    requires Valid(env.policy) && |run| == |actions| + 1 && k < |actions|
  {
    Next(env, run[k], actions[k], run[k + 1])
  }

  ghost predicate IsRun(env: Env, run: seq<System>, actions: seq<Action>)
    requires Valid(env.policy)
  {
    && |run| == |actions| + 1 && Init(run[0])
    && forall k :: 0 <= k < |actions| ==> NextAt(env, run, actions, k)
  }

  /** If step `j` seals, it takes, per sender, the lowest nonces of the pool. */
  ghost predicate NextAtSeal(run: seq<System>, actions: seq<Action>, j: nat)
    requires j < |actions| && |run| == |actions| + 1
  {
    actions[j].Seal? ==> NextByNonce(run[j].front.pool, actions[j].batch)
  }

  ghost predicate SealedNext(run: seq<System>, actions: seq<Action>, k: nat)
    requires k < |run| == |actions| + 1
  {
    forall j :: 0 <= j < k ==> NextAtSeal(run, actions, j)
  }

  /** The invariant holds up to the first seal that takes a later nonce before an earlier one. */
  lemma {:induction false} InvHolds(env: Env, run: seq<System>, actions: seq<Action>, k: nat)
    requires Valid(env.policy) && SameSignatures(env) && IsRun(env, run, actions)
    requires k < |run| && SealedNext(run, actions, k)
    ensures Inv(env, run[k])
    decreases k
  {
    if k == 0 {
      InitInv(env, run[0]);
    } else {
      InvHolds(env, run, actions, k - 1);
      assert NextAt(env, run, actions, k - 1) && NextAtSeal(run, actions, k - 1);
      StepKeepsInv(env, run[k - 1], actions[k - 1], run[k]);
    }
  }

  /** The executor takes the oldest sealed batch and rejects nothing of it. */
  ghost predicate RunsInFull(env: Env, s: System, batchId: nat, root: Hash)
    requires s.sealed != []
  {
    && E.NormalizeAll(Wires(s.sealed[0])).Ok?
    && var txs := E.NormalizeAll(Wires(s.sealed[0])).value;
       T.RunBatch(env.verifier, Decimal(batchId), s.accounts, root, txs).executed == txs
  }

  /** Up to such a seal the executor rejects no admitted transaction: the batch it takes next runs in full. */
  lemma AdmittedIsExecuted(env: Env, run: seq<System>, actions: seq<Action>, k: nat, batchId: nat, root: Hash)
    requires Valid(env.policy) && SameSignatures(env) && IsRun(env, run, actions)
    requires k < |run| && SealedNext(run, actions, k) && run[k].sealed != []
    ensures RunsInFull(env, run[k], batchId, root)
    ensures var txs := E.NormalizeAll(Wires(run[k].sealed[0])).value;
            var p := T.RunBatch(env.verifier, Decimal(batchId), run[k].accounts, root, txs);
            && |p.outcomes| == |txs|
            && forall i :: 0 <= i < |p.outcomes| ==> p.outcomes[i].Included()
  {
    InvHolds(env, run, actions, k);
    OldestBatchExecutes(env, run[k], batchId, root);
    var txs := E.NormalizeAll(Wires(run[k].sealed[0])).value;
    EngineHistory.OutcomesMatchInputs(env.verifier, T.MaxIncluded(Decimal(batchId)), run[k].accounts, root, txs);
    var p := T.RunBatch(env.verifier, Decimal(batchId), run[k].accounts, root, txs);
    AllIncluded(txs, p.outcomes);
  }

  lemma {:induction false} IncludedAtMost(txs: seq<E.Transaction>, outcomes: seq<E.TxOutcome>)
    requires |txs| == |outcomes|
    ensures |EngineHistory.IncludedInputs(txs, outcomes)| <= |txs|
    decreases |txs|
  {
    if txs != [] {
      IncludedAtMost(txs[..|txs| - 1], outcomes[..|txs| - 1]);
    }
  }

  lemma {:induction false} AllIncluded(txs: seq<E.Transaction>, outcomes: seq<E.TxOutcome>)
    requires |txs| == |outcomes| == |EngineHistory.IncludedInputs(txs, outcomes)|
    ensures forall i :: 0 <= i < |outcomes| ==> outcomes[i].Included()
    decreases |txs|
  {
    if txs != [] {
      var n := |txs| - 1;
      IncludedAtMost(txs[..n], outcomes[..n]);
      AllIncluded(txs[..n], outcomes[..n]);
      assert forall i :: 0 <= i < n ==> outcomes[i] == outcomes[..n][i];
    }
  }

  // ---------- seals that keep the order of the pool ----------

  ghost predicate TimestampsInOrder(taken: seq<PooledTransaction>) {
    forall a: Address :: Sorted(TimestampLess, BySender(taken, a))
  }

  /** Each sender's transactions wait in nonce order. */
  ghost predicate InOrder(pool: seq<PooledTransaction>) {
    forall a: Address :: Sorted(NonceLess, BySender(pool, a))
  }

  /** A policy other than blob packing seals without a gas deferral; a fair one meets timestamps in order. */
  ghost predicate SealsPrefix(env: Env, pool: seq<PooledTransaction>) {
    var plan := PlanBatch(env.config, env.policy, Backlog([], pool));
    && !env.policy.BlobPacking?
    && plan.normal.deferred == []
    && (env.policy.FairBft? ==> TimestampsInOrder(plan.taken))
  }

  lemma PrefixTaken(policy: Policy, pool: seq<PooledTransaction>, n: nat, bytes: nat)
    requires !policy.BlobPacking?
    ensures pool == TakeFromPool(policy, pool, n, bytes).0 + TakeFromPool(policy, pool, n, bytes).1
  {
  }

  lemma NothingRequeued(p: Plan)
    requires p.forced.deferred == [] && p.normal.deferred == []
    ensures Requeued(p) == Backlog([], p.left)
  {
    assert UnwrapForced([]) == [] && UnwrapNormal([]) == [];
    assert p.left + [] == p.left;
  }

  /** Without forced transactions or a deferral, the plan accepts all it takes and leaves the rest of the pool. */
  lemma PlanTakesPrefix(c: BatchConfig, policy: Policy, pool: seq<PooledTransaction>)
    requires !policy.BlobPacking? && PlanBatch(c, policy, Backlog([], pool)).normal.deferred == []
    ensures var p := PlanBatch(c, policy, Backlog([], pool));
            && pool == p.taken + p.left
            && p.forced.accepted == [] && p.normal.accepted == WrapNormal(p.taken)
            && Requeued(p) == Backlog([], p.left)
  {
    BatchingProperties.PlanWithoutForced(c, policy, Backlog([], pool));
    var p := PlanBatch(c, policy, Backlog([], pool));
    PrefixTaken(policy, pool, TargetBatchSize(c, |pool|), c.blobTargetBytes);
    BatchingProperties.AcceptedIsAll(c, WrapNormal(p.taken));
    NothingRequeued(p);
  }

  lemma ScheduledIsOrdered(policy: Policy, taken: seq<PooledTransaction>, batch: seq<PooledTransaction>)
    requires Valid(policy) && Scheduled(policy, [], taken, WrapNormal(batch))
    ensures OrderedBy(policy, taken, batch)
  {
    var ordered :| OrderedBy(policy, taken, ordered) && WrapNormal(batch) == WrapForced([]) + WrapNormal(ordered);
    assert WrapForced([]) == [];
    assert WrapNormal(batch) == WrapNormal(ordered);
    WrapNormalInjective(batch, ordered);
  }

  /** What a seal takes is a prefix of the pool, and its batch is that prefix in policy order. */
  lemma SealTakesPrefix(env: Env, pool: seq<PooledTransaction>, batch: seq<PooledTransaction>,
                        left: seq<PooledTransaction>)
    returns (taken: seq<PooledTransaction>)
    requires Valid(env.policy) && SealsPrefix(env, pool) && Seals(env, pool, batch, left)
    ensures pool == taken + left && OrderedBy(env.policy, taken, batch)
    ensures env.policy.FairBft? ==> TimestampsInOrder(taken)
  {
    taken := PlanBatch(env.config, env.policy, Backlog([], pool)).taken;
    PlanTakesPrefix(env.config, env.policy, pool);
    BatchingProperties.UnwrapWrapNormal(taken);
    assert UnwrapForced([]) == [];
    ScheduledIsOrdered(env.policy, taken, batch);
  }

  lemma WrapNormalInjective(a: seq<PooledTransaction>, b: seq<PooledTransaction>)
    requires WrapNormal(a) == WrapNormal(b)
    ensures a == b
  {
    BatchingProperties.UnwrapWrapNormal(a);
    BatchingProperties.UnwrapWrapNormal(b);
  }

  lemma PolicyKeepsSender(policy: Policy, taken: seq<PooledTransaction>, batch: seq<PooledTransaction>, a: Address)
    requires Valid(policy) && OrderedBy(policy, taken, batch)
    requires policy.FairBft? ==> TimestampsInOrder(taken)
    requires Sorted(NonceLess, BySender(taken, a))
    ensures BySender(batch, a) == BySender(taken, a)
  {
    if policy.FairBft? {
      FairOrderKeepsSender(taken, a);
    } else {
      SenderOrderKept(policy, taken, batch, a);
    }
  }

  /** From a pool in order, a prefix sealed in policy order keeps each sender's order. */
  lemma PrefixKeepsSenders(env: Env, pool: seq<PooledTransaction>, batch: seq<PooledTransaction>,
                           left: seq<PooledTransaction>)
    requires Valid(env.policy) && InOrder(pool) && SealsPrefix(env, pool) && Seals(env, pool, batch, left)
    ensures KeepsSenders(pool, batch, left)
  {
    var taken := SealTakesPrefix(env, pool, batch, left);
    forall a: Address ensures BySender(batch + left, a) == BySender(pool, a) {
      FilterConcat(SentFrom(a), taken, left);
      FilterConcat(SentFrom(a), batch, left);
      assert Sorted(NonceLess, BySender(pool, a));
      SortedParts(NonceLess, BySender(taken, a), BySender(left, a));
      PolicyKeepsSender(env.policy, taken, batch, a);
    }
  }

  lemma SortedParts<X>(lt: (X, X) -> bool, front: seq<X>, back: seq<X>)
    requires Sorted(lt, front + back)
    ensures Sorted(lt, front) && Sorted(lt, back)
  {
    var all := front + back;
    assert forall i :: 0 <= i < |front| ==> front[i] == all[i];
    assert forall i :: 0 <= i < |back| ==> back[i] == all[|front| + i];
  }

  /** From a pool in order, a seal that keeps each sender's order takes the lowest nonces and leaves the pool so. */
  lemma OrderlyIsNext(pool: seq<PooledTransaction>, batch: seq<PooledTransaction>, left: seq<PooledTransaction>)
    requires InOrder(pool) && KeepsSenders(pool, batch, left)
    ensures NextByNonce(pool, batch) && InOrder(left)
  {
    forall a: Address
      ensures BySender(batch, a) <= BySender(ByNonce(pool), a) && Sorted(NonceLess, BySender(left, a))
    {
      assert BySender(batch + left, a) == BySender(pool, a) && Sorted(NonceLess, BySender(pool, a));
      FilterConcat(SentFrom(a), batch, left);
      ByNonceOf(pool, a);
      SortOfSorted(NonceLess, BySender(pool, a));
      SortedParts(NonceLess, BySender(batch, a), BySender(left, a));
    }
  }

  /** If step `j` seals, it keeps each sender's order in the pool, by its policy or as it happens. */
  ghost predicate OrderlyAt(env: Env, run: seq<System>, actions: seq<Action>, j: nat)
    requires j < |actions| && |run| == |actions| + 1
  {
    actions[j].Seal? ==>
      SealsPrefix(env, run[j].front.pool) || KeepsSenders(run[j].front.pool, actions[j].batch, run[j + 1].front.pool)
  }

  lemma AdmitKeepsOrder(env: Env, s: System, tx: UserTransaction, arrivedAt: u64, enteredAt: u64, t: System)
    requires Inv(env, s) && InOrder(s.front.pool) && AdmitNext(env, s, tx, arrivedAt, enteredAt, t)
    ensures InOrder(t.front.pool)
  {
    if Validate(env.recover, s.front.cache, tx).Ok? {
      var pool, ptx := s.front.pool, Pooled(tx, arrivedAt, enteredAt);
      forall a: Address ensures Sorted(NonceLess, BySender(pool + [ptx], a)) {
        assert Covered(s.front.cache, s.accounts, Flight(s), a) && Sorted(NonceLess, BySender(pool, a));
        NewestIsLast(s.front.cache, s.accounts, Flatten(s.sealed), pool, ptx, a);
        ByNonceOf(pool, a);
        ByNonceOf(pool + [ptx], a);
        SortOfSorted(NonceLess, BySender(pool, a));
        BySenderSnoc(pool, ptx, a);
        BySenderSnoc(ByNonce(pool), ptx, a);
        OrdersAreStrictWeak();
        SortSorted(NonceLess, BySender(pool + [ptx], a));
      }
    }
  }

  lemma SealKeepsOrder(env: Env, run: seq<System>, actions: seq<Action>, j: nat)
    requires Valid(env.policy) && j < |actions| && |run| == |actions| + 1 && NextAt(env, run, actions, j)
    requires actions[j].Seal? && OrderlyAt(env, run, actions, j) && InOrder(run[j].front.pool)
    ensures NextByNonce(run[j].front.pool, actions[j].batch) && InOrder(run[j + 1].front.pool)
  {
    var pool, batch, left := run[j].front.pool, actions[j].batch, run[j + 1].front.pool;
    if SealsPrefix(env, pool) {
      PrefixKeepsSenders(env, pool, batch, left);
    }
    OrderlyIsNext(pool, batch, left);
  }

  /**
   * A run whose seals keep each sender's order, as those of a policy other than blob packing without a gas
   * deferral do, takes the lowest nonces throughout.
   */
  lemma {:induction false} OrderlySealsAreNext(env: Env, run: seq<System>, actions: seq<Action>, k: nat)
    requires Valid(env.policy) && SameSignatures(env) && IsRun(env, run, actions) && k < |run|
    requires forall j :: 0 <= j < k ==> OrderlyAt(env, run, actions, j)
    ensures SealedNext(run, actions, k) && InOrder(run[k].front.pool)
    decreases k
  {
    if k == 0 {
      forall a: Address ensures Sorted(NonceLess, BySender(run[0].front.pool, a)) {
        assert BySender([], a) == [];
      }
    } else {
      OrderlySealsAreNext(env, run, actions, k - 1);
      InvHolds(env, run, actions, k - 1);
      assert NextAt(env, run, actions, k - 1) && OrderlyAt(env, run, actions, k - 1);
      match actions[k - 1]
      case Admit(tx, arrivedAt, enteredAt) => AdmitKeepsOrder(env, run[k - 1], tx, arrivedAt, enteredAt, run[k]);
      case Seal(_) => SealKeepsOrder(env, run, actions, k - 1);
      case Execute(_, _) =>
    }
  }
}
