/**
 * Blob packing can stand still.
 *
 * The packing pass ranks by size and price and does not look at gas, while the filter behind it defers what
 * exceeds the gas limit and puts it back. If everything that ranks like a selected transaction exceeds the gas
 * limit, no call ever seals anything; otherwise some call does.
 */
module BlobLivelock {
  import opened Machine
  import opened Folds
  import opened SequencerTypes
  import opened StableSort
  import opened Policies
  import opened Pool
  import opened PackingProperties
  import opened Batching
  import opened BatchingProperties
  import opened FairProgress
  import TieOrder

  // ---------- ranking keys ----------

  datatype Key = Key(size: nat, price: nat)

  function KeyOf(tx: PooledTransaction): Key {
    Key(PooledBytes(tx), tx.tx.gasPrice)
  }

  function CandidateKey(c: Candidate): Key {
    Key(c.size, c.tx.tx.gasPrice)
  }

  /** Larger first, then higher price. */
  predicate KeyLess(a: Key, b: Key) {
    a.size > b.size || (a.size == b.size && a.price > b.price)
  }

  function Map<T, U>(f: T -> U, s: seq<T>): (m: seq<U>)
    ensures |m| == |s| && forall i :: 0 <= i < |s| ==> m[i] == f(s[i])
  {
    seq(|s|, i requires 0 <= i < |s| => f(s[i]))
  }

  lemma MapMiddle<T, U>(f: T -> U, front: seq<T>, x: T, back: seq<T>)
    ensures multiset(Map(f, front + [x] + back)) == multiset(Map(f, front + back)) + multiset{f(x)}
  {
    assert Map(f, front + [x] + back) == Map(f, front) + [f(x)] + Map(f, back);
    assert Map(f, front + back) == Map(f, front) + Map(f, back);
  }

  lemma MapLast<T, U>(f: T -> U, s: seq<T>)
    requires s != []
    ensures multiset(Map(f, s)) == multiset(Map(f, s[..|s| - 1])) + multiset{f(s[|s| - 1])}
  {
    assert Map(f, s) == Map(f, s[..|s| - 1]) + [f(s[|s| - 1])];
  }

  /** Mapping respects permutation. */
  lemma {:induction false} MapPermutation<T, U>(f: T -> U, a: seq<T>, b: seq<T>)
    requires multiset(a) == multiset(b)
    ensures multiset(Map(f, a)) == multiset(Map(f, b))
    decreases |a|
  {
    if a == [] {
      assert b == [] by { assert |multiset(a)| == |multiset(b)|; }
    } else {
      var n := |a| - 1;
      MultisetLast(a);
      assert a[n] in multiset(b);
      var front, back := SplitAround(b, a[n]);
      MultisetCancel(multiset(a[..n]), multiset(front + back), a[n]);
      MapPermutation(f, a[..n], front + back);
      MapMiddle(f, front, a[n], back);
      MapLast(f, a);
    }
  }

  // ---------- the order of keys ----------

  lemma KeysSorted(pool: seq<PooledTransaction>)
    ensures Sorted(KeyLess, Map(CandidateKey, PackOrder(pool)))
  {
    PackOrders();
    SortSorted(PackLess, Candidates(pool));
  }

  lemma KeysOfPool(pool: seq<PooledTransaction>)
    ensures multiset(Map(CandidateKey, PackOrder(pool))) == multiset(Map(KeyOf, pool))
  {
    SortIsPermutation(PackLess, Candidates(pool));
    MapPermutation(CandidateKey, PackOrder(pool), Candidates(pool));
    assert Map(CandidateKey, Candidates(pool)) == Map(KeyOf, pool);
  }

  /** Pools with the same transactions are ranked into the same keys. */
  lemma SameKeyOrder(p1: seq<PooledTransaction>, p2: seq<PooledTransaction>)
    requires multiset(p1) == multiset(p2)
    ensures Map(CandidateKey, PackOrder(p1)) == Map(CandidateKey, PackOrder(p2))
  {
    KeysSorted(p1);
    KeysSorted(p2);
    KeysOfPool(p1);
    KeysOfPool(p2);
    MapPermutation(KeyOf, p1, p2);
    TotalOrderUnique(KeyLess, Map(CandidateKey, PackOrder(p1)), Map(CandidateKey, PackOrder(p2)));
  }

  // ---------- what the pass selects ----------

  lemma PackPrefix(order: seq<Candidate>, k: nat, maxCount: nat, maxBytes: nat)
    requires k < |order|
    ensures var p := Pack(order[..k], maxCount, maxBytes);
            Pack(order[..k + 1], maxCount, maxBytes)
            == if FitsAt(order, k, maxCount, maxBytes)
               then Packing(p.selected + [order[k]], p.remainder, SatAdd(p.used, order[k].size))
               else p.(remainder := p.remainder + [order[k]])
  {
    assert order[..k + 1][..k] == order[..k];
  }

  /** The pass decides by sizes alone. */
  lemma {:induction false} SamePacking(o1: seq<Candidate>, o2: seq<Candidate>, k: nat, maxCount: nat, maxBytes: nat)
    requires Map(CandidateKey, o1) == Map(CandidateKey, o2) && |o1| == |o2| && k <= |o1|
    ensures var p1, p2 := Pack(o1[..k], maxCount, maxBytes), Pack(o2[..k], maxCount, maxBytes);
            |p1.selected| == |p2.selected| && p1.used == p2.used
    decreases k
  {
    if k > 0 {
      SamePacking(o1, o2, k - 1, maxCount, maxBytes);
      PackPrefix(o1, k - 1, maxCount, maxBytes);
      PackPrefix(o2, k - 1, maxCount, maxBytes);
      assert CandidateKey(o1[k - 1]) == Map(CandidateKey, o1)[k - 1] == CandidateKey(o2[k - 1]);
    } else {
      assert o1[..0] == o2[..0];
    }
  }

  ghost predicate KeySelected(pool: seq<PooledTransaction>, maxCount: nat, maxBytes: nat, key: Key) {
    exists i :: i in Chosen(pool, maxCount, maxBytes) && i < |pool| && KeyOf(pool[i]) == key
  }

  lemma RankOfChosen(pool: seq<PooledTransaction>, maxCount: nat, maxBytes: nat, i: nat) returns (k: nat)
    requires i in Chosen(pool, maxCount, maxBytes)
    ensures k < |PackOrder(pool)| && FitsAt(PackOrder(pool), k, maxCount, maxBytes) && PackOrder(pool)[k].idx == i
    ensures i < |pool| && PackOrder(pool)[k] == Candidates(pool)[i]
  {
    var order := PackOrder(pool);
    PackOrderIsPermutation(pool);
    k :| 0 <= k < |order| && FitsAt(order, k, maxCount, maxBytes) && order[k].idx == i;
  }

  lemma RankIsChosen(pool: seq<PooledTransaction>, maxCount: nat, maxBytes: nat, k: nat)
    requires k < |PackOrder(pool)| && FitsAt(PackOrder(pool), k, maxCount, maxBytes)
    ensures var c := PackOrder(pool)[k];
            c.idx in Chosen(pool, maxCount, maxBytes) && c.idx < |pool| && c == Candidates(pool)[c.idx]
  {
    PackOrderIsPermutation(pool);
  }

  lemma SameRankFits(p1: seq<PooledTransaction>, p2: seq<PooledTransaction>, maxCount: nat, maxBytes: nat, k: nat)
    requires multiset(p1) == multiset(p2)
    requires k < |PackOrder(p1)| && FitsAt(PackOrder(p1), k, maxCount, maxBytes)
    ensures k < |PackOrder(p2)| && FitsAt(PackOrder(p2), k, maxCount, maxBytes)
    ensures CandidateKey(PackOrder(p1)[k]) == CandidateKey(PackOrder(p2)[k])
  {
    var o1, o2 := PackOrder(p1), PackOrder(p2);
    SameKeyOrder(p1, p2);
    assert |o1| == |Map(CandidateKey, o1)| == |Map(CandidateKey, o2)| == |o2|;
    SamePacking(o1, o2, k, maxCount, maxBytes);
    assert CandidateKey(o1[k]) == Map(CandidateKey, o1)[k] == Map(CandidateKey, o2)[k] == CandidateKey(o2[k]);
  }

  /** Which keys are selected depends on the transactions, not on their order. */
  lemma SameKeysSelected(p1: seq<PooledTransaction>, p2: seq<PooledTransaction>, maxCount: nat, maxBytes: nat, key: Key)
    requires multiset(p1) == multiset(p2) && KeySelected(p1, maxCount, maxBytes, key)
    ensures KeySelected(p2, maxCount, maxBytes, key)
  {
    var i :| i in Chosen(p1, maxCount, maxBytes) && i < |p1| && KeyOf(p1[i]) == key;
    var k := RankOfChosen(p1, maxCount, maxBytes, i);
    SameRankFits(p1, p2, maxCount, maxBytes, k);
    RankIsChosen(p2, maxCount, maxBytes, k);
  }

  lemma EarlierRankFits(order: seq<Candidate>, k: nat, l: nat, maxCount: nat, maxBytes: nat)
    requires k < l < |order| && order[k].size == order[l].size && FitsAt(order, l, maxCount, maxBytes)
    ensures FitsAt(order, k, maxCount, maxBytes)
  {
    assert order[..l][..k] == order[..k];
    PackGrows(order[..l], k, maxCount, maxBytes);
  }

  /** Of equal rank the earlier arrival is selected. */
  lemma EarlierOfRankSelected(pool: seq<PooledTransaction>, maxCount: nat, maxBytes: nat, i: nat, j: nat)
    requires i < j < |pool| && KeyOf(pool[i]) == KeyOf(pool[j]) && j in Chosen(pool, maxCount, maxBytes)
    ensures i in Chosen(pool, maxCount, maxBytes)
  {
    var k := PositionOf(pool, i);
    var l := RankOfChosen(pool, maxCount, maxBytes, j);
    RanksBefore(pool, k, l);
    EarlierRankFits(PackOrder(pool), k, l, maxCount, maxBytes);
    RankIsChosen(pool, maxCount, maxBytes, k);
  }

  // ---------- one rank turns ----------

  function HasKey(key: Key): PooledTransaction -> bool {
    (tx: PooledTransaction) => KeyOf(tx) == key
  }

  /** Positions are chosen from the front of those that `keep` holds for. */
  ghost predicate FrontChosen<T>(s: seq<T>, n: nat, chosen: set<nat>, keep: T -> bool)
    requires n <= |s|
  {
    forall i: nat, j: nat :: i < j < n && keep(s[i]) && keep(s[j]) && j in chosen ==> i in chosen
  }

  lemma PickStep<T>(s: seq<T>, n: nat, chosen: set<nat>, keep: T -> bool)
    requires n < |s|
    ensures Filter(keep, Pick(s[..n + 1], chosen))
            == Filter(keep, Pick(s[..n], chosen)) + if n in chosen && keep(s[n]) then [s[n]] else []
  {
    PickSnoc(s, n, chosen);
    if n in chosen {
      FilterSnoc(keep, Pick(s[..n], chosen), s[n]);
    } else {
      assert Pick(s[..n], chosen) + [] == Pick(s[..n], chosen);
    }
  }

  lemma FilterStep<T>(s: seq<T>, n: nat, keep: T -> bool)
    requires n < |s|
    ensures Filter(keep, s[..n + 1]) == Filter(keep, s[..n]) + if keep(s[n]) then [s[n]] else []
  {
    assert s[..n + 1][..n] == s[..n];
  }

  lemma {:induction false} NoneLeftBehind<T>(s: seq<T>, n: nat, chosen: set<nat>, keep: T -> bool)
    requires n <= |s| && forall i: nat :: i < n && keep(s[i]) ==> i in chosen
    ensures Filter(keep, Pick(s[..n], Others(s, chosen))) == []
    decreases n
  {
    if n > 0 {
      NoneLeftBehind(s, n - 1, chosen, keep);
      PickStep(s, n - 1, Others(s, chosen), keep);
    } else {
      assert s[..0] == [];
    }
  }

  lemma JoinStep<T>(all: seq<T>, front: seq<T>, rest: seq<T>, x: T, kept: bool, picked: bool)
    requires all == front + rest && (kept && picked ==> rest == [])
    ensures all + (if kept then [x] else [])
            == (front + if picked && kept then [x] else []) + (rest + if !picked && kept then [x] else [])
  {
  }

  /** What `keep` holds for is the chosen part of it followed by the rest of it. */
  lemma {:induction false} FrontThenRest<T>(s: seq<T>, n: nat, chosen: set<nat>, keep: T -> bool)
    requires n <= |s| && FrontChosen(s, n, chosen, keep)
    ensures Filter(keep, s[..n])
            == Filter(keep, Pick(s[..n], chosen)) + Filter(keep, Pick(s[..n], Others(s, chosen)))
    decreases n
  {
    if n > 0 {
      FrontThenRest(s, n - 1, chosen, keep);
      FilterStep(s, n - 1, keep);
      PickStep(s, n - 1, chosen, keep);
      PickStep(s, n - 1, Others(s, chosen), keep);
      if n - 1 in chosen && keep(s[n - 1]) {
        NoneLeftBehind(s, n - 1, chosen, keep);
      }
      JoinStep(Filter(keep, s[..n - 1]), Filter(keep, Pick(s[..n - 1], chosen)),
               Filter(keep, Pick(s[..n - 1], Others(s, chosen))), s[n - 1], keep(s[n - 1]), n - 1 in chosen);
    } else {
      assert s[..0] == [];
    }
  }

  /** The transactions of one rank, in pool order. */
  function Rank(pool: seq<PooledTransaction>, key: Key): seq<PooledTransaction> {
    Filter(HasKey(key), pool)
  }

  lemma RankSplits(c: BatchConfig, pool: seq<PooledTransaction>, key: Key)
    ensures Rank(pool, key) == Rank(TakenAlone(c, BlobPacking, pool), key) + Rank(LeftAlone(c, BlobPacking, pool), key)
  {
    var chosen := Chosen(pool, TargetBatchSize(c, |pool|), c.blobTargetBytes);
    forall i: nat, j: nat | i < j < |pool| && HasKey(key)(pool[i]) && HasKey(key)(pool[j]) && j in chosen
      ensures i in chosen
    {
      EarlierOfRankSelected(pool, TargetBatchSize(c, |pool|), c.blobTargetBytes, i, j);
    }
    FrontThenRest(pool, |pool|, chosen, HasKey(key));
    assert pool[..|pool|] == pool;
  }

  lemma RankTurns(c: BatchConfig, pool: seq<PooledTransaction>, key: Key)
    ensures Rank(LeftAlone(c, BlobPacking, pool) + TakenAlone(c, BlobPacking, pool), key)
            == Rank(LeftAlone(c, BlobPacking, pool), key) + Rank(TakenAlone(c, BlobPacking, pool), key)
  {
    FilterConcat(HasKey(key), LeftAlone(c, BlobPacking, pool), TakenAlone(c, BlobPacking, pool));
  }

  // ---------- standing still ----------

  /** No forced transaction fits, and none that ranks like a selected one. */
  ghost predicate Stuck(c: BatchConfig, q: Backlog) {
    && !SomeFits(c, WrapForced(q.forced))
    && forall key :: KeySelected(q.pool, TargetBatchSize(c, |q.pool|), c.blobTargetBytes, key) ==>
         !SomeFits(c, WrapNormal(Rank(q.pool, key)))
  }

  lemma RankMember(pool: seq<PooledTransaction>, key: Key, tx: PooledTransaction)
    ensures tx in Rank(pool, key) <==> tx in pool && KeyOf(tx) == key
  {
    FilterMembers(HasKey(key), pool);
    assert HasKey(key)(tx) <==> KeyOf(tx) == key;
  }

  lemma FitsAmong(c: BatchConfig, txs: seq<PooledTransaction>)
    ensures SomeFits(c, WrapNormal(txs)) <==> exists tx :: tx in txs && GasFits(c, Normal(tx))
  {
    if SomeFits(c, WrapNormal(txs)) {
      var i :| 0 <= i < |WrapNormal(txs)| && GasFits(c, WrapNormal(txs)[i]);
      assert txs[i] in txs;
    }
    if exists tx :: tx in txs && GasFits(c, Normal(tx)) {
      var tx :| tx in txs && GasFits(c, Normal(tx));
      var i :| 0 <= i < |txs| && txs[i] == tx;
      assert GasFits(c, WrapNormal(txs)[i]);
    }
  }

  lemma TakenIsChosen(c: BatchConfig, pool: seq<PooledTransaction>, tx: PooledTransaction)
    requires tx in TakenAlone(c, BlobPacking, pool)
    ensures tx in pool && KeySelected(pool, TargetBatchSize(c, |pool|), c.blobTargetBytes, KeyOf(tx))
  {
    var chosen := Chosen(pool, TargetBatchSize(c, |pool|), c.blobTargetBytes);
    assert pool[..|pool|] == pool;
    var i := PickedAt(pool, |pool|, chosen, tx);
  }

  lemma TurnKeepsPool(c: BatchConfig, pool: seq<PooledTransaction>)
    ensures var turned := LeftAlone(c, BlobPacking, pool) + TakenAlone(c, BlobPacking, pool);
            multiset(turned) == multiset(pool) && |turned| == |pool|
  {
    TakePartitions(BlobPacking, pool, TargetBatchSize(c, |pool|), c.blobTargetBytes);
  }

  lemma RankFitsKept(c: BatchConfig, p1: seq<PooledTransaction>, p2: seq<PooledTransaction>, key: Key)
    requires multiset(p1) == multiset(p2) && SomeFits(c, WrapNormal(Rank(p1, key)))
    ensures SomeFits(c, WrapNormal(Rank(p2, key)))
  {
    FitsAmong(c, Rank(p1, key));
    FitsAmong(c, Rank(p2, key));
    var tx :| tx in Rank(p1, key) && GasFits(c, Normal(tx));
    RankMember(p1, key, tx);
    RankMember(p2, key, tx);
    assert tx in multiset(p1) && tx in multiset(p2);
  }

  /** A stuck call seals nothing. */
  lemma StuckSealsNothing(c: BatchConfig, q: Backlog, sealed: seq<Transaction>, next: Backlog)
    requires Produces(c, BlobPacking, q, sealed, next) && Stuck(c, q)
    ensures sealed == []
  {
    SealsNothingIff(c, BlobPacking, q, sealed, next);
    var taken := TakenAlone(c, BlobPacking, q.pool);
    FitsAmong(c, taken);
    forall tx | tx in taken ensures !GasFits(c, Normal(tx)) {
      TakenIsChosen(c, q.pool, tx);
      RankMember(q.pool, KeyOf(tx), tx);
      FitsAmong(c, Rank(q.pool, KeyOf(tx)));
    }
  }

  /** And what it leaves is stuck again. */
  lemma StuckStays(c: BatchConfig, q: Backlog, sealed: seq<Transaction>, next: Backlog)
    requires Produces(c, BlobPacking, q, sealed, next) && Stuck(c, q)
    ensures sealed == [] && Stuck(c, next)
  {
    StuckSealsNothing(c, q, sealed, next);
    NothingSealedTurns(c, BlobPacking, q, sealed, next);
    TurnKeepsPool(c, q.pool);
    var target := TargetBatchSize(c, |q.pool|);
    forall key | KeySelected(next.pool, target, c.blobTargetBytes, key)
      ensures !SomeFits(c, WrapNormal(Rank(next.pool, key)))
    {
      SameKeysSelected(next.pool, q.pool, target, c.blobTargetBytes, key);
      if SomeFits(c, WrapNormal(Rank(next.pool, key))) {
        RankFitsKept(c, next.pool, q.pool, key);
      }
    }
  }

  // ---------- moving on ----------

  /** A selected rank with something that fits in it. */
  ghost predicate Alive(c: BatchConfig, pool: seq<PooledTransaction>, key: Key) {
    && KeySelected(pool, TargetBatchSize(c, |pool|), c.blobTargetBytes, key)
    && SomeFits(c, WrapNormal(Rank(pool, key)))
  }

  lemma SelectedRankTaken(c: BatchConfig, pool: seq<PooledTransaction>, key: Key)
    requires KeySelected(pool, TargetBatchSize(c, |pool|), c.blobTargetBytes, key)
    ensures Rank(TakenAlone(c, BlobPacking, pool), key) != []
  {
    var chosen := Chosen(pool, TargetBatchSize(c, |pool|), c.blobTargetBytes);
    var i :| i in chosen && i < |pool| && KeyOf(pool[i]) == key;
    PickHas(pool, chosen, i);
    RankMember(TakenAlone(c, BlobPacking, pool), key, pool[i]);
  }

  lemma RankFitsWithin(c: BatchConfig, txs: seq<PooledTransaction>, key: Key)
    requires !SomeFits(c, WrapNormal(txs))
    ensures !SomeFits(c, WrapNormal(Rank(txs, key)))
  {
    FitsAmong(c, txs);
    FitsAmong(c, Rank(txs, key));
    forall tx | tx in Rank(txs, key) ensures !GasFits(c, Normal(tx)) {
      RankMember(txs, key, tx);
    }
  }

  /** A call that seals nothing moves the rank on, so that its first fitting transaction comes nearer. */
  lemma RankMovesOn(c: BatchConfig, q: Backlog, sealed: seq<Transaction>, next: Backlog, key: Key)
    requires Produces(c, BlobPacking, q, sealed, next) && sealed == [] && Alive(c, q.pool, key)
    ensures Alive(c, next.pool, key)
    ensures FirstFit(c, Rank(next.pool, key)) < FirstFit(c, Rank(q.pool, key))
  {
    SealsNothingIff(c, BlobPacking, q, sealed, next);
    NothingSealedTurns(c, BlobPacking, q, sealed, next);
    TurnKeepsPool(c, q.pool);
    SameKeysSelected(q.pool, next.pool, TargetBatchSize(c, |q.pool|), c.blobTargetBytes, key);
    RankFitsKept(c, q.pool, next.pool, key);
    RankRotates(c, q.pool, key);
  }

  lemma RankRotates(c: BatchConfig, pool: seq<PooledTransaction>, key: Key)
    requires Alive(c, pool, key) && !SomeFits(c, WrapNormal(TakenAlone(c, BlobPacking, pool)))
    ensures FirstFit(c, Rank(LeftAlone(c, BlobPacking, pool) + TakenAlone(c, BlobPacking, pool), key))
            < FirstFit(c, Rank(pool, key))
  {
    RankSplits(c, pool, key);
    RankTurns(c, pool, key);
    SelectedRankTaken(c, pool, key);
    RankFitsWithin(c, TakenAlone(c, BlobPacking, pool), key);
    var front, rest := Rank(TakenAlone(c, BlobPacking, pool), key), Rank(LeftAlone(c, BlobPacking, pool), key);
    assert (front + rest)[..|front|] == front && (front + rest)[|front|..] == rest;
    RotationBringsNearer(c, front + rest, |front|);
  }

  ghost predicate AllEmpty(batches: seq<seq<Transaction>>) {
    forall k :: 0 <= k < |batches| ==> batches[k] == []
  }

  /** While a rank is alive, empty calls run out with the transactions before its first fitting one. */
  lemma {:induction false} EmptyCallsRunOut(c: BatchConfig, states: seq<Backlog>, batches: seq<seq<Transaction>>,
                                            key: Key)
    requires IsDrain(c, BlobPacking, states, batches) && Alive(c, states[0].pool, key) && AllEmpty(batches)
    ensures |batches| <= FirstFit(c, Rank(states[0].pool, key))
    decreases |batches|
  {
    if batches != [] {
      assert ProducesAt(c, BlobPacking, states, batches, 0) && batches[0] == [];
      RankMovesOn(c, states[0], batches[0], states[1], key);
      DrainTail(c, BlobPacking, states, batches);
      EmptyCallsRunOut(c, states[1..], batches[1..], key);
    }
  }

  /** Unless stuck, more calls than there are pooled transactions seal something. */
  lemma UnstuckSeals(c: BatchConfig, states: seq<Backlog>, batches: seq<seq<Transaction>>)
    requires IsDrain(c, BlobPacking, states, batches) && !Stuck(c, states[0]) && |batches| > |states[0].pool|
    ensures !AllEmpty(batches)
  {
    var q := states[0];
    if AllEmpty(batches) {
      assert batches[0] == [] && ProducesAt(c, BlobPacking, states, batches, 0);
      SealsNothingIff(c, BlobPacking, q, batches[0], states[1]);
      var key :| KeySelected(q.pool, TargetBatchSize(c, |q.pool|), c.blobTargetBytes, key)
                 && SomeFits(c, WrapNormal(Rank(q.pool, key)));
      EmptyCallsRunOut(c, states, batches, key);
      FilterMembers(HasKey(key), q.pool);
    }
  }

  // ---------- exactly when ----------

  lemma SomeCall(c: BatchConfig, q: Backlog) returns (sealed: seq<Transaction>, next: Backlog)
    ensures Produces(c, BlobPacking, q, sealed, next)
  {
    var p := PlanBatch(c, BlobPacking, q);
    var ordered := TieOrder.SomeOutput(BlobPacking, UnwrapNormal(p.normal.accepted));
    sealed, next := WrapForced(UnwrapForced(p.forced.accepted)) + WrapNormal(ordered), Requeued(p);
  }

  lemma DrainSnocAt(c: BatchConfig, states: seq<Backlog>, batches: seq<seq<Transaction>>, batch: seq<Transaction>,
                    next: Backlog, k: nat)
    requires IsDrain(c, BlobPacking, states, batches) && Produces(c, BlobPacking, states[|batches|], batch, next)
    requires k <= |batches|
    ensures ProducesAt(c, BlobPacking, states + [next], batches + [batch], k)
  {
    if k < |batches| {
      assert ProducesAt(c, BlobPacking, states, batches, k);
    }
  }

  lemma DrainSnoc(c: BatchConfig, states: seq<Backlog>, batches: seq<seq<Transaction>>, batch: seq<Transaction>,
                  next: Backlog)
    requires IsDrain(c, BlobPacking, states, batches) && Produces(c, BlobPacking, states[|batches|], batch, next)
    ensures IsDrain(c, BlobPacking, states + [next], batches + [batch])
  {
    forall k | 0 <= k < |batches + [batch]| ensures ProducesAt(c, BlobPacking, states + [next], batches + [batch], k) {
      DrainSnocAt(c, states, batches, batch, next, k);
    }
  }

  lemma DrainGoesOn(c: BatchConfig, before: seq<Backlog>, sealed: seq<seq<Transaction>>)
    returns (states: seq<Backlog>, batches: seq<seq<Transaction>>)
    requires IsDrain(c, BlobPacking, before, sealed)
    ensures IsDrain(c, BlobPacking, states, batches) && states[0] == before[0] && |batches| == |sealed| + 1
  {
    var batch, next := SomeCall(c, before[|sealed|]);
    DrainSnoc(c, before, sealed, batch, next);
    states, batches := before + [next], sealed + [batch];
  }

  lemma {:induction false} SomeDrain(c: BatchConfig, q: Backlog, n: nat)
    returns (states: seq<Backlog>, batches: seq<seq<Transaction>>)
    ensures IsDrain(c, BlobPacking, states, batches) && states[0] == q && |batches| == n
    decreases n
  {
    if n == 0 {
      states, batches := [q], [];
    } else {
      var before, sealed := SomeDrain(c, q, n - 1);
      states, batches := DrainGoesOn(c, before, sealed);
    }
  }

  lemma EmptyCons(batches: seq<seq<Transaction>>)
    requires batches != [] && batches[0] == [] && AllEmpty(batches[1..])
    ensures AllEmpty(batches)
  {
    forall k | 0 <= k < |batches| ensures batches[k] == [] {
      if k > 0 {
        assert batches[k] == batches[1..][k - 1];
      }
    }
  }

  lemma {:induction false} StuckDrainIsEmpty(c: BatchConfig, states: seq<Backlog>, batches: seq<seq<Transaction>>)
    requires IsDrain(c, BlobPacking, states, batches) && Stuck(c, states[0])
    ensures AllEmpty(batches)
    decreases |batches|
  {
    if batches != [] {
      assert ProducesAt(c, BlobPacking, states, batches, 0);
      StuckStays(c, states[0], batches[0], states[1]);
      DrainTail(c, BlobPacking, states, batches);
      StuckDrainIsEmpty(c, states[1..], batches[1..]);
      EmptyCons(batches);
    }
  }

  /**
   * Under blob packing and without arrivals, no call ever seals anything exactly when no forced transaction and
   * none that ranks like a selected one is within the gas limit.
   */
  lemma NeverSealsIff(c: BatchConfig, q: Backlog)
    ensures (forall states, batches :: IsDrain(c, BlobPacking, states, batches) && states[0] == q ==> AllEmpty(batches))
            <==> Stuck(c, q)
  {
    if Stuck(c, q) {
      forall states, batches | IsDrain(c, BlobPacking, states, batches) && states[0] == q ensures AllEmpty(batches) {
        StuckDrainIsEmpty(c, states, batches);
      }
    } else {
      var states, batches := SomeDrain(c, q, |q.pool| + 1);
      UnstuckSeals(c, states, batches);
    }
  }

  lemma PairPackOrder(small: PooledTransaction, big: PooledTransaction)
    requires PooledBytes(small) < PooledBytes(big)
    ensures PackOrder([small, big]) == [Candidate(1, big, PooledBytes(big)), Candidate(0, small, PooledBytes(small))]
  {
    var cs := Candidates([small, big]);
    assert cs == [cs[0], cs[1]] && cs[..1] == [cs[0]] && cs[..1][..0] == [];
    assert Sort(PackLess, cs[..1]) == [cs[0]];
  }

  lemma OnlyBigChosen(small: PooledTransaction, big: PooledTransaction, maxBytes: nat, i: nat)
    requires PooledBytes(small) < PooledBytes(big) <= maxBytes < U64_MAX && i in Chosen([small, big], 1, maxBytes)
    ensures i == 1
  {
    var order := PackOrder([small, big]);
    PairPackOrder(small, big);
    assert order[..0] == [] && order[..1] == [order[0]] && order[..1][..0] == [];
    assert FitsAt(order, 0, 1, maxBytes) && !FitsAt(order, 1, 1, maxBytes);
  }

  lemma BigRankUnfit(c: BatchConfig, small: PooledTransaction, big: PooledTransaction)
    requires PooledBytes(small) < PooledBytes(big) && !GasFits(c, Normal(big))
    ensures !SomeFits(c, WrapNormal(Rank([small, big], KeyOf(big))))
  {
    FitsAmong(c, Rank([small, big], KeyOf(big)));
    forall tx | tx in Rank([small, big], KeyOf(big)) ensures !GasFits(c, Normal(tx)) {
      RankMember([small, big], KeyOf(big), tx);
    }
  }

  lemma PairStuck(c: BatchConfig, small: PooledTransaction, big: PooledTransaction)
    requires !c.adaptive && c.maxBatchSize == 1 && PooledBytes(small) < PooledBytes(big) <= c.blobTargetBytes < U64_MAX
    requires !GasFits(c, Normal(big))
    ensures Stuck(c, Backlog([], [small, big]))
  {
    var pool := [small, big];
    forall key | KeySelected(pool, 1, c.blobTargetBytes, key) ensures !SomeFits(c, WrapNormal(Rank(pool, key))) {
      var i :| i in Chosen(pool, 1, c.blobTargetBytes) && i < |pool| && KeyOf(pool[i]) == key;
      OnlyBigChosen(small, big, c.blobTargetBytes, i);
      BigRankUnfit(c, small, big);
    }
  }

  lemma {:induction false} AllEmptyFlattens(batches: seq<seq<Transaction>>, n: nat)
    requires AllEmpty(batches) && n <= |batches|
    ensures FlattenTo(batches, n) == []
  {
    if n > 0 {
      AllEmptyFlattens(batches, n - 1);
    }
  }

  /** From a stuck state on, everything goes on waiting. */
  lemma StuckKeepsWaiting(c: BatchConfig, states: seq<Backlog>, batches: seq<seq<Transaction>>)
    requires IsDrain(c, BlobPacking, states, batches) && Stuck(c, states[0])
    ensures multiset(Pending(states[|batches|])) == multiset(Pending(states[0]))
  {
    StuckDrainIsEmpty(c, states, batches);
    AllEmptyFlattens(batches, |batches|);
    DrainConserves(c, BlobPacking, states, batches);
  }

  /**
   * When a batch takes only one, a larger transaction over the gas limit holds up a smaller one within it: after
   * any number of calls the smaller one still waits.
   */
  lemma LargerHoldsUpSmaller(c: BatchConfig, small: PooledTransaction, big: PooledTransaction, states: seq<Backlog>,
                             batches: seq<seq<Transaction>>)
    requires !c.adaptive && c.maxBatchSize == 1 && PooledBytes(small) < PooledBytes(big) <= c.blobTargetBytes < U64_MAX
    requires GasFits(c, Normal(small)) && !GasFits(c, Normal(big))
    requires IsDrain(c, BlobPacking, states, batches) && states[0] == Backlog([], [small, big])
    ensures Stuck(c, states[0]) && AllEmpty(batches)
    ensures Normal(small) in Pending(states[|batches|])
  {
    PairStuck(c, small, big);
    StuckDrainIsEmpty(c, states, batches);
    StuckKeepsWaiting(c, states, batches);
    assert Pending(states[0])[0] == Normal(small);
    assert Normal(small) in multiset(Pending(states[0])) && Normal(small) in multiset(Pending(states[|batches|]));
  }
}
