/**
 * When blob packing holds nothing up.
 *
 * A rank is selected exactly when packing what ranks ahead of it leaves room. So everything that fits is sealed,
 * whichever of it waits, exactly when what does not fit leaves room for each of it.
 */
module BlobRoom {
  import opened Machine
  import opened Folds
  import opened SequencerTypes
  import opened StableSort
  import opened Policies
  import opened Pool
  import opened PackingProperties
  import opened Batching
  import opened BatchingProperties
  import opened FairProgress
  import opened BlobLivelock
  import opened BlobProgress

  // ---------- what ranks ahead ----------

  function RanksAhead(key: Key): PooledTransaction -> bool {
    (tx: PooledTransaction) => KeyLess(KeyOf(tx), key)
  }

  /** The transactions that rank ahead of `key`, in pool order. */
  function AheadOf(pool: seq<PooledTransaction>, key: Key): seq<PooledTransaction> {
    Filter(RanksAhead(key), pool)
  }

  lemma KeysAreOrdered()
    ensures StrictWeak(KeyLess) && forall x, y :: !KeyLess(x, y) && !KeyLess(y, x) ==> x == y
  {
  }

  lemma {:induction false} AheadInKeys(pool: seq<PooledTransaction>, key: Key)
    ensures Filter(Before(KeyLess, key), Map(KeyOf, pool)) == Map(KeyOf, AheadOf(pool, key))
    decreases |pool|
  {
    if pool != [] {
      var n := |pool| - 1;
      AheadInKeys(pool[..n], key);
      assert Map(KeyOf, pool)[..n] == Map(KeyOf, pool[..n]);
      var ahead := AheadOf(pool[..n], key);
      assert Map(KeyOf, ahead + [pool[n]]) == Map(KeyOf, ahead) + [KeyOf(pool[n])];
      assert ahead + [] == ahead;
    }
  }

  lemma SortedFront<T>(lt: (T, T) -> bool, front: seq<T>, s: seq<T>)
    requires Sorted(lt, s) && front <= s
    ensures Sorted(lt, front)
  {
    assert forall i :: 0 <= i < |front| ==> front[i] == s[i];
  }

  /** The ranks ahead of `key` are those of what ranks ahead of it, on its own. */
  lemma AheadKeys(pool: seq<PooledTransaction>, key: Key)
    ensures Filter(Before(KeyLess, key), Map(CandidateKey, PackOrder(pool)))
            == Map(CandidateKey, PackOrder(AheadOf(pool, key)))
  {
    var keys, ahead := Map(CandidateKey, PackOrder(pool)), AheadOf(pool, key);
    KeysSorted(pool);
    KeysSorted(ahead);
    KeysAreOrdered();
    BeforeComesFirst(KeyLess, keys, key);
    SortedFront(KeyLess, Filter(Before(KeyLess, key), keys), keys);
    KeysOfPool(pool);
    KeysOfPool(ahead);
    FilterPermutation(Before(KeyLess, key), keys, Map(KeyOf, pool));
    AheadInKeys(pool, key);
    TotalOrderUnique(KeyLess, Filter(Before(KeyLess, key), keys), Map(CandidateKey, PackOrder(ahead)));
  }

  // ---------- room ----------

  /** After packing `ahead` there is room for one more of `size` bytes. */
  predicate RoomFor(ahead: seq<PooledTransaction>, maxCount: nat, maxBytes: nat, size: nat) {
    var p := Pack(PackOrder(ahead), maxCount, maxBytes);
    |p.selected| < maxCount && SatAdd(p.used, size) <= maxBytes
  }

  /** Room depends on what ranks ahead, not on its order. */
  lemma SameRoom(a1: seq<PooledTransaction>, a2: seq<PooledTransaction>, maxCount: nat, maxBytes: nat, size: nat)
    requires multiset(a1) == multiset(a2)
    ensures RoomFor(a1, maxCount, maxBytes, size) <==> RoomFor(a2, maxCount, maxBytes, size)
  {
    SameKeyOrder(a1, a2);
    SameKeysPack(PackOrder(a1), PackOrder(a2), maxCount, maxBytes);
  }

  lemma SameKeysPack(o1: seq<Candidate>, o2: seq<Candidate>, maxCount: nat, maxBytes: nat)
    requires Map(CandidateKey, o1) == Map(CandidateKey, o2)
    ensures var p1, p2 := Pack(o1, maxCount, maxBytes), Pack(o2, maxCount, maxBytes);
            |p1.selected| == |p2.selected| && p1.used == p2.used
  {
    assert |o1| == |Map(CandidateKey, o1)| == |o2|;
    SamePacking(o1, o2, |o1|, maxCount, maxBytes);
    assert o1[..|o1|] == o1 && o2[..|o1|] == o2;
  }

  lemma KeyInOrder(pool: seq<PooledTransaction>, tx: PooledTransaction)
    requires tx in pool
    ensures KeyOf(tx) in Map(CandidateKey, PackOrder(pool))
  {
    KeysOfPool(pool);
    var i :| 0 <= i < |pool| && pool[i] == tx;
    assert Map(KeyOf, pool)[i] == KeyOf(tx);
    assert KeyOf(tx) in multiset(Map(KeyOf, pool));
    assert KeyOf(tx) in multiset(Map(CandidateKey, PackOrder(pool)));
  }

  /** Packing what ranks ahead is packing up to the rank. */
  lemma PackedAhead(pool: seq<PooledTransaction>, maxCount: nat, maxBytes: nat, key: Key)
    ensures var m, order, ahead := |AheadOf(pool, key)|, PackOrder(pool), AheadOf(pool, key);
            && m <= |order| && m == |Filter(Before(KeyLess, key), Map(CandidateKey, order))|
            && var p1, p2 := Pack(order[..m], maxCount, maxBytes), Pack(PackOrder(ahead), maxCount, maxBytes);
               |p1.selected| == |p2.selected| && p1.used == p2.used
  {
    var order, ahead := PackOrder(pool), AheadOf(pool, key);
    var keys := Map(CandidateKey, order);
    KeysSorted(pool);
    KeysAreOrdered();
    BeforeComesFirst(KeyLess, keys, key);
    AheadKeys(pool, key);
    SortIsPermutation(PackLess, Candidates(ahead));
    var m := |ahead|;
    assert Map(CandidateKey, order[..m]) == keys[..m];
    SameKeysPack(order[..m], PackOrder(ahead), maxCount, maxBytes);
  }

  /** Where the first of a rank stands, it fits exactly when what ranks ahead leaves room. */
  lemma FitsIffRoom(pool: seq<PooledTransaction>, maxCount: nat, maxBytes: nat, tx: PooledTransaction)
    requires tx in pool
    ensures var m := |AheadOf(pool, KeyOf(tx))|;
            && m < |PackOrder(pool)| && CandidateKey(PackOrder(pool)[m]) == KeyOf(tx)
            && (FitsAt(PackOrder(pool), m, maxCount, maxBytes)
                <==> RoomFor(AheadOf(pool, KeyOf(tx)), maxCount, maxBytes, PooledBytes(tx)))
            && forall j :: 0 <= j < |PackOrder(pool)| && CandidateKey(PackOrder(pool)[j]) == KeyOf(tx) ==> j >= m
  {
    var key, order := KeyOf(tx), PackOrder(pool);
    var keys := Map(CandidateKey, order);
    PackedAhead(pool, maxCount, maxBytes, key);
    KeysSorted(pool);
    KeyInOrder(pool, tx);
    KeysAreOrdered();
    FirstBehind(KeyLess, keys, key);
    forall j | 0 <= j < |order| && CandidateKey(order[j]) == key ensures j >= |AheadOf(pool, key)| {
      assert keys[j] == key;
    }
  }

  lemma SelectedRank(pool: seq<PooledTransaction>, maxCount: nat, maxBytes: nat, key: Key) returns (k: nat)
    requires KeySelected(pool, maxCount, maxBytes, key)
    ensures k < |PackOrder(pool)| && FitsAt(PackOrder(pool), k, maxCount, maxBytes)
    ensures CandidateKey(PackOrder(pool)[k]) == key
  {
    var i :| i in Chosen(pool, maxCount, maxBytes) && i < |pool| && KeyOf(pool[i]) == key;
    k := RankOfChosen(pool, maxCount, maxBytes, i);
  }

  lemma EarlierKeyFits(order: seq<Candidate>, m: nat, k: nat, maxCount: nat, maxBytes: nat)
    requires m <= k < |order| && CandidateKey(order[m]) == CandidateKey(order[k])
    requires FitsAt(order, k, maxCount, maxBytes)
    ensures FitsAt(order, m, maxCount, maxBytes)
  {
    if m < k {
      EarlierRankFits(order, m, k, maxCount, maxBytes);
    }
  }

  lemma SelectedHasRoom(pool: seq<PooledTransaction>, maxCount: nat, maxBytes: nat, tx: PooledTransaction)
    requires tx in pool && KeySelected(pool, maxCount, maxBytes, KeyOf(tx))
    ensures RoomFor(AheadOf(pool, KeyOf(tx)), maxCount, maxBytes, PooledBytes(tx))
  {
    FitsIffRoom(pool, maxCount, maxBytes, tx);
    var k := SelectedRank(pool, maxCount, maxBytes, KeyOf(tx));
    EarlierKeyFits(PackOrder(pool), |AheadOf(pool, KeyOf(tx))|, k, maxCount, maxBytes);
  }

  lemma RoomIsSelected(pool: seq<PooledTransaction>, maxCount: nat, maxBytes: nat, tx: PooledTransaction)
    requires tx in pool && RoomFor(AheadOf(pool, KeyOf(tx)), maxCount, maxBytes, PooledBytes(tx))
    ensures KeySelected(pool, maxCount, maxBytes, KeyOf(tx))
  {
    FitsIffRoom(pool, maxCount, maxBytes, tx);
    var m := |AheadOf(pool, KeyOf(tx))|;
    RankIsChosen(pool, maxCount, maxBytes, m);
    assert KeyOf(pool[PackOrder(pool)[m].idx]) == KeyOf(tx);
  }

  /** A waiting transaction's rank is selected exactly when what ranks ahead of it leaves room. */
  lemma KeySelectedIff(pool: seq<PooledTransaction>, maxCount: nat, maxBytes: nat, tx: PooledTransaction)
    requires tx in pool
    ensures KeySelected(pool, maxCount, maxBytes, KeyOf(tx))
            <==> RoomFor(AheadOf(pool, KeyOf(tx)), maxCount, maxBytes, PooledBytes(tx))
  {
    if KeySelected(pool, maxCount, maxBytes, KeyOf(tx)) {
      SelectedHasRoom(pool, maxCount, maxBytes, tx);
    }
    if RoomFor(AheadOf(pool, KeyOf(tx)), maxCount, maxBytes, PooledBytes(tx)) {
      RoomIsSelected(pool, maxCount, maxBytes, tx);
    }
  }

  // ---------- what does not fit ----------

  function OverGas(c: BatchConfig): PooledTransaction -> bool {
    (tx: PooledTransaction) => !GasFits(c, Normal(tx))
  }

  /** The transactions over the gas limit, in pool order. */
  function OverLimit(c: BatchConfig, pool: seq<PooledTransaction>): seq<PooledTransaction> {
    Filter(OverGas(c), pool)
  }

  ghost predicate AllFit(c: BatchConfig, txs: seq<PooledTransaction>) {
    forall tx :: tx in txs ==> GasFits(c, Normal(tx))
  }

  ghost predicate NoneFit(c: BatchConfig, txs: seq<PooledTransaction>) {
    forall tx :: tx in txs ==> !GasFits(c, Normal(tx))
  }

  lemma PooledCount(q: Backlog, tx: PooledTransaction)
    ensures multiset(Pending(q))[Normal(tx)] == multiset(q.pool)[tx]
  {
    CountWrapNormal(q.pool, tx);
    assert Normal(tx) !in WrapForced(q.forced);
    assert multiset(WrapForced(q.forced))[Normal(tx)] == 0;
  }

  /** What the calls settle in: stuck, with exactly the transactions over the limit that waited at first. */
  lemma SettledIs(c: BatchConfig, q: Backlog, tx: PooledTransaction)
    ensures Stuck(c, Settled(c, q))
    ensures multiset(Settled(c, q).pool)[tx] <= multiset(q.pool)[tx]
    ensures !GasFits(c, Normal(tx)) ==> multiset(Settled(c, q).pool)[tx] == multiset(q.pool)[tx]
  {
    var n := CallsToSettle(c, q);
    var states, batches := SomeDrain(c, q, n);
    CallIsCall(c);
    DrainIsCalls(c, Call(c), states, batches, n);
    SealedUntilStuck(c, states, batches, Normal(tx));
    PooledCount(q, tx);
    PooledCount(states[n], tx);
  }

  lemma OverLimitStays(c: BatchConfig, q: Backlog)
    ensures multiset(OverLimit(c, Settled(c, q).pool)) == multiset(OverLimit(c, q.pool))
  {
    var before, after := OverLimit(c, q.pool), OverLimit(c, Settled(c, q).pool);
    forall tx ensures multiset(after)[tx] == multiset(before)[tx] {
      FilterCount(OverGas(c), q.pool, tx);
      FilterCount(OverGas(c), Settled(c, q).pool, tx);
      SettledIs(c, q, tx);
      assert OverGas(c)(tx) <==> !GasFits(c, Normal(tx));
    }
  }

  // ---------- the highest rank that fits ----------

  ghost predicate TopAmong(c: BatchConfig, pool: seq<PooledTransaction>, top: PooledTransaction) {
    forall tx :: tx in pool && GasFits(c, Normal(tx)) ==> !KeyLess(KeyOf(tx), KeyOf(top))
  }

  lemma {:induction false} TopFitting(c: BatchConfig, pool: seq<PooledTransaction>, some: PooledTransaction)
    returns (top: PooledTransaction)
    requires some in pool && GasFits(c, Normal(some))
    ensures top in pool && GasFits(c, Normal(top)) && TopAmong(c, pool, top)
    decreases |pool|
  {
    var n := |pool| - 1;
    var last := pool[n];
    assert pool == pool[..n] + [last];
    if some in pool[..n] {
      top := TopFitting(c, pool[..n], some);
      if GasFits(c, Normal(last)) && KeyLess(KeyOf(last), KeyOf(top)) {
        top := last;
      }
    } else {
      top := some;
      var earlier := pool[..n];
      if other :| other in earlier && GasFits(c, Normal(other)) {
        top := TopFitting(c, earlier, other);
        if KeyLess(KeyOf(last), KeyOf(top)) {
          top := last;
        }
      }
    }
  }

  /** Ahead of the highest rank that fits there is only what does not fit. */
  lemma AheadOfTop(c: BatchConfig, pool: seq<PooledTransaction>, top: PooledTransaction)
    requires TopAmong(c, pool, top)
    ensures AheadOf(pool, KeyOf(top)) == AheadOf(OverLimit(c, pool), KeyOf(top))
  {
    forall i | 0 <= i < |pool| && RanksAhead(KeyOf(top))(pool[i]) ensures OverGas(c)(pool[i]) {
      assert pool[i] in pool;
    }
    FilterTwice(RanksAhead(KeyOf(top)), OverGas(c), pool);
  }

  lemma StuckHasNoRoom(c: BatchConfig, q: Backlog, tx: PooledTransaction)
    requires Stuck(c, q) && tx in q.pool && GasFits(c, Normal(tx))
    ensures !RoomFor(AheadOf(q.pool, KeyOf(tx)), TargetBatchSize(c, |q.pool|), c.blobTargetBytes, PooledBytes(tx))
  {
    KeySelectedIff(q.pool, TargetBatchSize(c, |q.pool|), c.blobTargetBytes, tx);
    RankMember(q.pool, KeyOf(tx), tx);
    FitsAmong(c, Rank(q.pool, KeyOf(tx)));
  }

  // ---------- exactly when nothing is held up ----------

  /** A pool with `over` over the gas limit and, beside it, any number of each of `fits`. */
  ghost predicate Beside(c: BatchConfig, pool: seq<PooledTransaction>, over: seq<PooledTransaction>,
                         fits: seq<PooledTransaction>)
  {
    && multiset(OverLimit(c, pool)) == multiset(over)
    && forall tx :: tx in pool && GasFits(c, Normal(tx)) ==> tx in fits
  }

  /** Whatever the pool's size makes the target, `over` leaves room for each of `fits`. */
  ghost predicate LeavesRoom(c: BatchConfig, over: seq<PooledTransaction>, fits: seq<PooledTransaction>) {
    forall tx, n: nat :: tx in fits && n > |over| ==> RoomAt(c, over, tx, n)
  }

  ghost predicate RoomAt(c: BatchConfig, over: seq<PooledTransaction>, tx: PooledTransaction, n: nat) {
    RoomFor(AheadOf(over, KeyOf(tx)), TargetBatchSize(c, n), c.blobTargetBytes, PooledBytes(tx))
  }

  lemma SameRoomAt(c: BatchConfig, o1: seq<PooledTransaction>, o2: seq<PooledTransaction>, tx: PooledTransaction,
                   n: nat)
    requires multiset(o1) == multiset(o2)
    ensures RoomAt(c, o1, tx, n) <==> RoomAt(c, o2, tx, n)
  {
    FilterPermutation(RanksAhead(KeyOf(tx)), o1, o2);
    SameRoom(AheadOf(o1, KeyOf(tx)), AheadOf(o2, KeyOf(tx)), TargetBatchSize(c, n), c.blobTargetBytes, PooledBytes(tx));
  }

  lemma StuckLeavesNoRoom(c: BatchConfig, q: Backlog, over: seq<PooledTransaction>, fits: seq<PooledTransaction>,
                          some: PooledTransaction)
    requires Stuck(c, q) && Beside(c, q.pool, over, fits) && some in q.pool && GasFits(c, Normal(some))
    ensures !LeavesRoom(c, over, fits)
  {
    var top := TopFitting(c, q.pool, some);
    AheadOfTop(c, q.pool, top);
    StuckHasNoRoom(c, q, top);
    SameRoomAt(c, OverLimit(c, q.pool), over, top, |q.pool|);
    MoreThanOver(c, q.pool, some);
    assert |multiset(OverLimit(c, q.pool))| == |multiset(over)|;
  }

  lemma {:induction false} MoreThanOver(c: BatchConfig, pool: seq<PooledTransaction>, some: PooledTransaction)
    requires some in pool && GasFits(c, Normal(some))
    ensures |OverLimit(c, pool)| < |pool|
    decreases |pool|
  {
    var n := |pool| - 1;
    assert pool == pool[..n] + [pool[n]];
    FilterMembers(OverGas(c), pool[..n]);
    if some in pool[..n] {
      MoreThanOver(c, pool[..n], some);
    }
  }

  lemma RoomSealsAll(c: BatchConfig, q: Backlog, over: seq<PooledTransaction>, fits: seq<PooledTransaction>,
                     tx: PooledTransaction)
    requires LeavesRoom(c, over, fits) && Beside(c, q.pool, over, fits) && GasFits(c, Normal(tx))
    ensures !WaitsForEver(c, q, Normal(tx))
  {
    var settled := Settled(c, q);
    WaitsForEverIff(c, q, Normal(tx));
    PooledCount(settled, tx);
    SettledIs(c, q, tx);
    if tx in settled.pool {
      SettledBeside(c, q, over, fits);
      StuckLeavesNoRoom(c, settled, over, fits, tx);
    }
    assert Normal(tx) in Pending(settled) ==> multiset(Pending(settled))[Normal(tx)] > 0;
  }

  lemma SettledBeside(c: BatchConfig, q: Backlog, over: seq<PooledTransaction>, fits: seq<PooledTransaction>)
    requires Beside(c, q.pool, over, fits)
    ensures Beside(c, Settled(c, q).pool, over, fits)
  {
    OverLimitStays(c, q);
    forall tx | tx in Settled(c, q).pool && GasFits(c, Normal(tx)) ensures tx in fits {
      SettledIs(c, q, tx);
      assert multiset(Settled(c, q).pool)[tx] > 0;
      assert tx in q.pool;
    }
  }

  // ---------- without room ----------

  function Copies(tx: PooledTransaction, k: nat): (s: seq<PooledTransaction>)
    ensures |s| == k && forall i :: 0 <= i < k ==> s[i] == tx
  {
    seq(k, _ => tx)
  }

  lemma {:induction false} FilterNone(keep: PooledTransaction -> bool, txs: seq<PooledTransaction>)
    requires forall tx :: tx in txs ==> !keep(tx)
    ensures Filter(keep, txs) == []
    decreases |txs|
  {
    if txs != [] {
      FilterNone(keep, txs[..|txs| - 1]);
    }
  }

  lemma OverAndCopies(c: BatchConfig, over: seq<PooledTransaction>, tx: PooledTransaction, k: nat)
    requires NoneFit(c, over) && GasFits(c, Normal(tx))
    ensures OverLimit(c, over + Copies(tx, k)) == over
    ensures AheadOf(over + Copies(tx, k), KeyOf(tx)) == AheadOf(over, KeyOf(tx))
  {
    var copies := Copies(tx, k);
    forall i | 0 <= i < |over| ensures OverGas(c)(over[i]) {
      assert over[i] in over;
    }
    FilterAll(OverGas(c), over);
    FilterNone(OverGas(c), copies);
    FilterNone(RanksAhead(KeyOf(tx)), copies);
    FilterConcat(OverGas(c), over, copies);
    FilterConcat(RanksAhead(KeyOf(tx)), over, copies);
  }

  /** No transaction that fits has its rank selected. */
  ghost predicate NoneSelected(c: BatchConfig, pool: seq<PooledTransaction>) {
    forall tx :: tx in pool && GasFits(c, Normal(tx)) ==> !SelectedIn(c, pool, tx)
  }

  ghost predicate SelectedIn(c: BatchConfig, pool: seq<PooledTransaction>, tx: PooledTransaction) {
    KeySelected(pool, TargetBatchSize(c, |pool|), c.blobTargetBytes, KeyOf(tx))
  }

  lemma NoneSelectedIsStuck(c: BatchConfig, pool: seq<PooledTransaction>)
    requires NoneSelected(c, pool)
    ensures Stuck(c, Backlog([], pool))
  {
    forall key | KeySelected(pool, TargetBatchSize(c, |pool|), c.blobTargetBytes, key)
      ensures !SomeFits(c, WrapNormal(Rank(pool, key)))
    {
      FitsAmong(c, Rank(pool, key));
      forall tx | tx in Rank(pool, key) ensures !GasFits(c, Normal(tx)) {
        RankMember(pool, key, tx);
        assert GasFits(c, Normal(tx)) ==> !SelectedIn(c, pool, tx);
      }
    }
    assert WrapForced([]) == [];
  }

  lemma OnlyCopiesFit(c: BatchConfig, over: seq<PooledTransaction>, tx: PooledTransaction, k: nat)
    requires NoneFit(c, over)
    ensures forall other :: other in over + Copies(tx, k) && GasFits(c, Normal(other)) ==> other == tx
    ensures k > 0 ==> tx in over + Copies(tx, k)
  {
    if k > 0 {
      assert (over + Copies(tx, k))[|over|] == tx;
    }
  }

  /** A pool of `n` transactions: `over` and, beside it, only `tx`. */
  ghost predicate OverPlus(c: BatchConfig, pool: seq<PooledTransaction>, over: seq<PooledTransaction>,
                           tx: PooledTransaction, n: nat)
  {
    && |pool| == n && tx in pool
    && OverLimit(c, pool) == over && AheadOf(pool, KeyOf(tx)) == AheadOf(over, KeyOf(tx))
    && forall other :: other in pool && GasFits(c, Normal(other)) ==> other == tx
  }

  lemma SomeOverPlus(c: BatchConfig, over: seq<PooledTransaction>, tx: PooledTransaction, n: nat)
    returns (pool: seq<PooledTransaction>)
    requires NoneFit(c, over) && GasFits(c, Normal(tx)) && n > |over|
    ensures OverPlus(c, pool, over, tx, n)
  {
    pool := over + Copies(tx, n - |over|);
    OverAndCopies(c, over, tx, n - |over|);
    OnlyCopiesFit(c, over, tx, n - |over|);
  }

  lemma NoRoomNotSelected(c: BatchConfig, pool: seq<PooledTransaction>, over: seq<PooledTransaction>,
                          tx: PooledTransaction, n: nat)
    requires OverPlus(c, pool, over, tx, n) && !RoomAt(c, over, tx, n)
    ensures !SelectedIn(c, pool, tx)
  {
    KeySelectedIff(pool, TargetBatchSize(c, n), c.blobTargetBytes, tx);
  }

  lemma NoRoomIsStuck(c: BatchConfig, pool: seq<PooledTransaction>, over: seq<PooledTransaction>,
                      tx: PooledTransaction, n: nat)
    requires OverPlus(c, pool, over, tx, n) && !RoomAt(c, over, tx, n)
    ensures Stuck(c, Backlog([], pool))
  {
    NoRoomNotSelected(c, pool, over, tx, n);
    assert NoneSelected(c, pool);
    NoneSelectedIsStuck(c, pool);
  }

  lemma StuckWaitsForEver(c: BatchConfig, q: Backlog, tx: Transaction)
    requires Stuck(c, q) && tx in Pending(q)
    ensures WaitsForEver(c, q, tx)
  {
    assert tx in multiset(Pending(q));
    forall states, batches | IsDrain(c, BlobPacking, states, batches) && states[0] == q
      ensures tx in Pending(states[|batches|])
    {
      StuckKeepsWaiting(c, states, batches);
      assert tx in multiset(Pending(states[|batches|]));
    }
  }

  lemma NoRoomHoldsUp(c: BatchConfig, over: seq<PooledTransaction>, fits: seq<PooledTransaction>,
                      tx: PooledTransaction, n: nat)
    returns (q: Backlog)
    requires NoneFit(c, over) && AllFit(c, fits) && tx in fits && n > |over| && !RoomAt(c, over, tx, n)
    ensures Beside(c, q.pool, over, fits) && WaitsForEver(c, q, Normal(tx))
  {
    var pool := SomeOverPlus(c, over, tx, n);
    q := Backlog([], pool);
    NoRoomIsStuck(c, pool, over, tx, n);
    PooledCount(q, tx);
    assert Normal(tx) in multiset(Pending(q));
    StuckWaitsForEver(c, q, Normal(tx));
  }

  /** No fitting transaction of a pool with `over` over the gas limit waits for ever, whichever of `fits` wait too. */
  ghost predicate HoldsNothingUp(c: BatchConfig, over: seq<PooledTransaction>, fits: seq<PooledTransaction>) {
    forall q: Backlog, tx :: Beside(c, q.pool, over, fits) && tx in fits ==> !WaitsForEver(c, q, Normal(tx))
  }

  /**
   * Under blob packing and without arrivals, transactions over the gas limit hold up none of those that fit, however
   * many of each of them wait, exactly when for each of them those that rank ahead of it leave room.
   */
  lemma HoldsNothingUpIff(c: BatchConfig, over: seq<PooledTransaction>, fits: seq<PooledTransaction>)
    requires NoneFit(c, over) && AllFit(c, fits)
    ensures HoldsNothingUp(c, over, fits) <==> LeavesRoom(c, over, fits)
  {
    if LeavesRoom(c, over, fits) {
      forall q: Backlog, tx | Beside(c, q.pool, over, fits) && tx in fits ensures !WaitsForEver(c, q, Normal(tx)) {
        RoomSealsAll(c, q, over, fits, tx);
      }
    } else {
      var tx, n: nat :| tx in fits && n > |over| && !RoomAt(c, over, tx, n);
      var q := NoRoomHoldsUp(c, over, fits, tx, n);
    }
  }
}
