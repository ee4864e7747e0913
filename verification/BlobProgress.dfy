/**
 * What blob packing does seal, and what it leaves waiting for ever.
 *
 * Without arrivals every sequence of calls settles, within a number of calls that depends on the backlog only, in a
 * state that seals nothing any more. What fits a batch is then sealed as often as it waited, except for what is
 * left in that state. Nothing that fits is left exactly when, whichever of it waits, what ranks ahead of it and
 * does not fit leaves it room.
 */
module BlobProgress {
  import opened Machine
  import opened Folds
  import opened SequencerTypes
  import opened StableSort
  import opened Policies
  import opened Pool
  import opened PackingProperties
  import opened Batching
  import opened BatchingProperties
  import opened FairProgress
  import opened BlobLivelock

  // ---------- settling ----------

  /** A turn of the pool, and one call more, for each transaction that fits. */
  function SettleCalls(fit: nat, pool: nat): nat {
    if fit == 0 then 0 else SettleCalls(fit - 1, pool) + pool + 1
  }

  function CallsToSettle(c: BatchConfig, q: Backlog): nat {
    SettleCalls(FitCount(c, Pending(q)), |q.pool|)
  }

  lemma {:induction false} SettleCallsGrow(fit: nat, pool: nat, less: nat, shorter: nat)
    requires less <= fit && shorter <= pool
    ensures SettleCalls(less, shorter) <= SettleCalls(fit, pool)
    decreases fit
  {
    if fit > 0 {
      SettleCallsGrow(fit - 1, pool, if less == 0 then 0 else less - 1, shorter);
    }
  }

  // ---------- call after call ----------

  /** The queues after one call; only the order inside the batch is open. */
  function Call(c: BatchConfig): Backlog -> Backlog {
    (q: Backlog) => Requeued(PlanBatch(c, BlobPacking, q))
  }

  ghost predicate Called(c: BatchConfig, q: Backlog, next: Backlog) {
    exists sealed :: Produces(c, BlobPacking, q, sealed, next)
  }

  /** `step` is what calls do. */
  ghost predicate IsCall(c: BatchConfig, step: Backlog -> Backlog) {
    forall q, next {:trigger Called(c, q, next)} :: Called(c, q, next) <==> next == step(q)
  }

  lemma CallIsCall(c: BatchConfig)
    ensures IsCall(c, Call(c))
  {
    forall q, next ensures Called(c, q, next) <==> next == Call(c)(q) {
      var sealed, only := SomeCall(c, q);
    }
  }

  lemma DrainCalls(c: BatchConfig, step: Backlog -> Backlog, states: seq<Backlog>, batches: seq<seq<Transaction>>,
                   k: nat)
    requires IsCall(c, step) && IsDrain(c, BlobPacking, states, batches) && k < |batches|
    ensures states[k + 1] == step(states[k])
  {
    assert ProducesAt(c, BlobPacking, states, batches, k);
    assert Called(c, states[k], states[k + 1]);
  }

  lemma {:induction false} DrainIsCalls(c: BatchConfig, step: Backlog -> Backlog, states: seq<Backlog>,
                                        batches: seq<seq<Transaction>>, k: nat)
    requires IsCall(c, step) && IsDrain(c, BlobPacking, states, batches) && k <= |batches|
    ensures states[k] == Iterate(step, states[0], k)
    decreases k
  {
    if k > 0 {
      DrainIsCalls(c, step, states, batches, k - 1);
      DrainCalls(c, step, states, batches, k - 1);
    }
  }

  /** What waits after a call, and how much of it fits, compared with before. */
  ghost predicate Shrunk(c: BatchConfig, q: Backlog, next: Backlog) {
    && FitCount(c, Pending(next)) <= FitCount(c, Pending(q))
    && |next.pool| <= |q.pool|
    && multiset(Pending(next)) <= multiset(Pending(q))
  }

  /** One call: what waits loses what it seals, which fits. */
  lemma OneCall(c: BatchConfig, q: Backlog, next: Backlog) returns (sealed: seq<Transaction>)
    requires Called(c, q, next)
    ensures Produces(c, BlobPacking, q, sealed, next) && Shrunk(c, q, next)
    ensures sealed != [] ==> FitCount(c, Pending(next)) < FitCount(c, Pending(q))
  {
    sealed :| Produces(c, BlobPacking, q, sealed, next);
    FitCountMoves(c, BlobPacking, q, sealed, next);
    ProduceConserves(c, BlobPacking, q, sealed, next);
  }

  lemma CallShrinks(c: BatchConfig, step: Backlog -> Backlog, q: Backlog, mid: Backlog)
    requires IsCall(c, step) && Shrunk(c, q, mid)
    ensures Shrunk(c, q, step(mid))
  {
    assert Called(c, mid, step(mid));
    var sealed := OneCall(c, mid, step(mid));
  }

  lemma CallsShrink(c: BatchConfig, step: Backlog -> Backlog, q: Backlog, n: nat)
    requires IsCall(c, step)
    ensures Shrunk(c, q, Iterate(step, q, n))
  {
    var holds := (s: Backlog) => Shrunk(c, q, s);
    forall s | holds(s) ensures holds(step(s)) {
      CallShrinks(c, step, q, s);
    }
    IterateKeeps(step, holds, q, n);
  }

  lemma EmptyCallMovesOn(c: BatchConfig, step: Backlog -> Backlog, q: Backlog, key: Key)
    requires IsCall(c, step) && Alive(c, q.pool, key) && FitCount(c, Pending(step(q))) == FitCount(c, Pending(q))
    ensures Alive(c, step(q).pool, key) && FirstFit(c, Rank(step(q).pool, key)) < FirstFit(c, Rank(q.pool, key))
  {
    assert Called(c, q, step(q));
    var sealed := OneCall(c, q, step(q));
    RankMovesOn(c, q, sealed, step(q), key);
  }

  /** Some call up to the `k`-th one after this seals something. */
  ghost predicate SealsWithin(c: BatchConfig, step: Backlog -> Backlog, q: Backlog, k: nat) {
    FitCount(c, Pending(Iterate(step, q, k + 1))) < FitCount(c, Pending(q))
  }

  /** A selected rank whose first fitting transaction is at most `turns` away. */
  ghost predicate AliveFor(c: BatchConfig, q: Backlog, key: Key, turns: nat) {
    Alive(c, q.pool, key) && FirstFit(c, Rank(q.pool, key)) <= turns
  }

  lemma SealsOrTurns(c: BatchConfig, step: Backlog -> Backlog, q: Backlog, key: Key, turns: nat)
    requires IsCall(c, step) && AliveFor(c, q, key, turns)
    ensures FitCount(c, Pending(step(q))) <= FitCount(c, Pending(q))
    ensures FitCount(c, Pending(step(q))) < FitCount(c, Pending(q))
            || (turns > 0 && AliveFor(c, step(q), key, turns - 1))
  {
    CallShrinks(c, step, q, q);
    if FitCount(c, Pending(step(q))) == FitCount(c, Pending(q)) {
      EmptyCallMovesOn(c, step, q, key);
    }
  }

  ghost function Near(c: BatchConfig, key: Key): (Backlog, nat) -> bool {
    (q: Backlog, turns: nat) => AliveFor(c, q, key, turns)
  }

  ghost function Fitting(c: BatchConfig): Backlog -> nat {
    (q: Backlog) => FitCount(c, Pending(q))
  }

  lemma AliveCountsAt(c: BatchConfig, step: Backlog -> Backlog, key: Key, q: Backlog, turns: nat)
    requires IsCall(c, step)
    ensures CountsAt(step, Near(c, key), Fitting(c), q, turns)
  {
    if AliveFor(c, q, key, turns) {
      SealsOrTurns(c, step, q, key, turns);
    }
  }

  lemma AliveCountsDown(c: BatchConfig, step: Backlog -> Backlog, key: Key)
    requires IsCall(c, step)
    ensures CountsDown(step, Near(c, key), Fitting(c))
  {
    forall q, turns: nat ensures CountsAt(step, Near(c, key), Fitting(c), q, turns) {
      AliveCountsAt(c, step, key, q, turns);
    }
  }

  /** While a rank is alive, some call seals something before the rank has turned to its first fitting one. */
  lemma AliveSeals(c: BatchConfig, step: Backlog -> Backlog, q: Backlog, key: Key, turns: nat) returns (k: nat)
    requires IsCall(c, step) && AliveFor(c, q, key, turns)
    ensures k <= turns && SealsWithin(c, step, q, k)
  {
    AliveCountsDown(c, step, key);
    k := IterateFalls(step, Near(c, key), Fitting(c), q, turns);
    assert Fitting(c)(Iterate(step, q, k + 1)) < Fitting(c)(q);
  }

  lemma ForcedMoves(c: BatchConfig, step: Backlog -> Backlog, q: Backlog)
    requires IsCall(c, step) && SomeFits(c, WrapForced(q.forced))
    ensures FitCount(c, Pending(step(q))) < FitCount(c, Pending(q))
  {
    assert Called(c, q, step(q));
    var sealed := OneCall(c, q, step(q));
    SealsNothingIff(c, BlobPacking, q, sealed, step(q));
  }

  lemma UnstuckMoves(c: BatchConfig, step: Backlog -> Backlog, q: Backlog) returns (k: nat)
    requires IsCall(c, step) && !Stuck(c, q)
    ensures k <= |q.pool| && SealsWithin(c, step, q, k)
  {
    if SomeFits(c, WrapForced(q.forced)) {
      ForcedMoves(c, step, q);
      assert Iterate(step, q, 1) == step(q);
      k := 0;
    } else {
      var key :| KeySelected(q.pool, TargetBatchSize(c, |q.pool|), c.blobTargetBytes, key)
                 && SomeFits(c, WrapNormal(Rank(q.pool, key)));
      FilterMembers(HasKey(key), q.pool);
      k := AliveSeals(c, step, q, key, |q.pool|);
    }
  }

  /** Stuck, with the same transactions waiting. */
  ghost predicate StuckLike(c: BatchConfig, q: Backlog, s: Backlog) {
    Stuck(c, s) && multiset(Pending(s)) == multiset(Pending(q))
  }

  lemma StuckStep(c: BatchConfig, step: Backlog -> Backlog, q: Backlog, s: Backlog)
    requires IsCall(c, step) && StuckLike(c, q, s)
    ensures StuckLike(c, q, step(s))
  {
    assert Called(c, s, step(s));
    var sealed := OneCall(c, s, step(s));
    StuckStays(c, s, sealed, step(s));
    ProduceConserves(c, BlobPacking, s, sealed, step(s));
  }

  lemma StuckLater(c: BatchConfig, step: Backlog -> Backlog, q: Backlog, n: nat)
    requires IsCall(c, step) && Stuck(c, q)
    ensures StuckLike(c, q, Iterate(step, q, n))
  {
    var holds := (s: Backlog) => StuckLike(c, q, s);
    forall s | holds(s) ensures holds(step(s)) {
      StuckStep(c, step, q, s);
    }
    IterateKeeps(step, holds, q, n);
  }

  lemma FewerCallsLeft(c: BatchConfig, q: Backlog, next: Backlog)
    requires Shrunk(c, q, next) && FitCount(c, Pending(next)) < FitCount(c, Pending(q))
    ensures CallsToSettle(c, next) + |q.pool| + 1 <= CallsToSettle(c, q)
  {
    SettleCallsGrow(FitCount(c, Pending(q)) - 1, |q.pool|, FitCount(c, Pending(next)), |next.pool|);
  }

  /** Unless stuck, some calls leave fewer to settle by at least their number. */
  lemma CallsRunOut(c: BatchConfig, step: Backlog -> Backlog, q: Backlog) returns (k: nat)
    requires IsCall(c, step) && !Stuck(c, q)
    ensures FitCount(c, Pending(Iterate(step, q, k))) < FitCount(c, Pending(q))
    ensures CallsToSettle(c, Iterate(step, q, k)) + k <= CallsToSettle(c, q)
  {
    var last := UnstuckMoves(c, step, q);
    k := last + 1;
    CallsShrink(c, step, q, k);
    FewerCallsLeft(c, q, Iterate(step, q, k));
  }

  /** After that many calls nothing moves any more. */
  lemma {:induction false} Settles(c: BatchConfig, step: Backlog -> Backlog, q: Backlog, n: nat)
    requires IsCall(c, step) && n >= CallsToSettle(c, q)
    ensures Stuck(c, Iterate(step, q, n))
    decreases FitCount(c, Pending(q))
  {
    if Stuck(c, q) {
      StuckLater(c, step, q, n);
    } else {
      var k := CallsRunOut(c, step, q);
      Settles(c, step, Iterate(step, q, k), n - k);
      IterateMore(step, q, k, n - k);
    }
  }

  /**
   * Under blob packing, without arrivals and after `CallsToSettle` calls, no further call seals anything; what
   * waited is sealed except for what is left then, and what does not fit was never sealed.
   */
  lemma SealedUntilStuck(c: BatchConfig, states: seq<Backlog>, batches: seq<seq<Transaction>>, tx: Transaction)
    requires IsDrain(c, BlobPacking, states, batches) && |batches| >= CallsToSettle(c, states[0])
    ensures Stuck(c, states[|batches|])
    ensures multiset(Flatten(batches))[tx] + multiset(Pending(states[|batches|]))[tx]
            == multiset(Pending(states[0]))[tx]
    ensures !GasFits(c, tx) ==> multiset(Flatten(batches))[tx] == 0
  {
    CallIsCall(c);
    Settles(c, Call(c), states[0], |batches|);
    DrainIsCalls(c, Call(c), states, batches, |batches|);
    DrainConserves(c, BlobPacking, states, batches);
    if !GasFits(c, tx) && tx in Flatten(batches) {
      AllSealedFit(c, BlobPacking, states, batches, |batches|, tx);
    }
  }

  // ---------- waiting for ever ----------

  /** After any number of calls `tx` still waits. */
  ghost predicate WaitsForEver(c: BatchConfig, q: Backlog, tx: Transaction) {
    forall states, batches :: IsDrain(c, BlobPacking, states, batches) && states[0] == q ==>
      tx in Pending(states[|batches|])
  }

  /** The queues that the calls settle in. */
  function Settled(c: BatchConfig, q: Backlog): Backlog {
    Iterate(Call(c), q, CallsToSettle(c, q))
  }

  lemma WaitedBefore(c: BatchConfig, step: Backlog -> Backlog, q: Backlog, tx: Transaction, n: nat)
    requires IsCall(c, step) && tx in Pending(Iterate(step, q, n))
    ensures tx in Pending(q)
  {
    CallsShrink(c, step, q, n);
    assert tx in multiset(Pending(Iterate(step, q, n)));
    assert tx in multiset(Pending(q));
  }

  lemma StuckWaitsOn(c: BatchConfig, step: Backlog -> Backlog, q: Backlog, tx: Transaction, n: nat)
    requires IsCall(c, step) && Stuck(c, q) && tx in Pending(q)
    ensures tx in Pending(Iterate(step, q, n))
  {
    StuckLater(c, step, q, n);
    assert tx in multiset(Pending(q));
    assert tx in multiset(Pending(Iterate(step, q, n)));
  }

  lemma SettledWaited(c: BatchConfig, step: Backlog -> Backlog, q: Backlog, tx: Transaction, m: nat, n: nat)
    requires IsCall(c, step) && n <= m && tx in Pending(Iterate(step, q, m))
    ensures tx in Pending(Iterate(step, q, n))
  {
    IterateMore(step, q, n, m - n);
    WaitedBefore(c, step, Iterate(step, q, n), tx, m - n);
  }

  lemma SettledWaitsOn(c: BatchConfig, step: Backlog -> Backlog, q: Backlog, tx: Transaction, m: nat, n: nat)
    requires IsCall(c, step) && CallsToSettle(c, q) <= m <= n && tx in Pending(Iterate(step, q, m))
    ensures tx in Pending(Iterate(step, q, n))
  {
    IterateMore(step, q, m, n - m);
    Settles(c, step, q, m);
    StuckWaitsOn(c, step, Iterate(step, q, m), tx, n - m);
  }

  /** A transaction waits for ever exactly when it is left in the queues that the calls settle in. */
  lemma WaitsForEverIff(c: BatchConfig, q: Backlog, tx: Transaction)
    ensures WaitsForEver(c, q, tx) <==> tx in Pending(Settled(c, q))
  {
    CallIsCall(c);
    if tx in Pending(Settled(c, q)) {
      forall states, batches | IsDrain(c, BlobPacking, states, batches) && states[0] == q
        ensures tx in Pending(states[|batches|])
      {
        DrainIsCalls(c, Call(c), states, batches, |batches|);
        if |batches| <= CallsToSettle(c, q) {
          SettledWaited(c, Call(c), q, tx, CallsToSettle(c, q), |batches|);
        } else {
          SettledWaitsOn(c, Call(c), q, tx, CallsToSettle(c, q), |batches|);
        }
      }
    }
    if WaitsForEver(c, q, tx) {
      var states, batches := SomeDrain(c, q, CallsToSettle(c, q));
      DrainIsCalls(c, Call(c), states, batches, |batches|);
    }
  }
}
