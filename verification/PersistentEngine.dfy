/**
 * The deployed engine: `execute_batch` over the byte-keyed store.
 *
 * Run from a store that stands for an account map, it does what the in-memory fold does, so everything
 * proved of that fold holds of the deployed engine; only the leaf encoding named in a diff differs.
 */
module PersistentEngine {
  import opened Machine
  import opened Folds
  import opened Crypto
  import opened Accounts
  import opened ExecutorTypes
  import opened KeyStore
  import opened TxEngine
  import opened EngineHistory
  import G = RollupCore
  import GuestReplay

  datatype StoreProgress = StoreProgress(
    store: Store, root: Hash, executed: seq<Transaction>, diffs: seq<StateDiff>, outcomes: seq<TxOutcome>)

  /** The error of a write, with the store as the writes before it left it. */
  datatype StoreFailure = StoreFailure(error: StateError, store: Store)

  /** The two accounts that the engine reads for a transaction. */
  function Seen(db: Db, tx: Transaction): AccountMap {
    map[tx.from := Lookup(db, tx.from)][tx.to := Lookup(db, tx.to)]
  }

  function View(p: StoreProgress, tx: Transaction): Progress {
    Progress(Seen(p.store.db, tx), p.root, p.executed, p.diffs, p.outcomes)
  }

  /**
   * The two writes of an included transaction, in order; a failed one ends the batch. The tree's own
   * proofs are replaced by the running root, so no answer of the tree appears here.
   */
  function StoreIncluded(p: StoreProgress, tx: Transaction): Result<StoreProgress, StoreFailure>
    requires Spendable(Seen(p.store.db, tx), tx)
  {
    var view := View(p, tx);
    var sender, receiver := NewSender(view.accounts, tx), NewReceiver(view.accounts, tx);
    match SetAccount(p.store, tx.from, sender)
    case Err(e) => Err(StoreFailure(e, p.store))
    case Ok(mid) =>
      match SetAccount(mid, tx.to, receiver)
      case Err(e) => Err(StoreFailure(e, mid))
      case Ok(end) =>
        var d1 := StoredDiff(p.store.db, tx.from, sender, [p.root], Zero);
        var d2 := StoredDiff(mid.db, tx.to, receiver, [FoldDiff(p.root, d1)], Zero);
        Ok(StoreProgress(end, FoldDiff(FoldDiff(p.root, d1), d2), p.executed + [tx], p.diffs + [d1, d2],
                         Included(view, tx).outcomes))
  }

  function StoreStep(v: Verifier, cap: nat, p: StoreProgress, tx: Transaction): Result<StoreProgress, StoreFailure> {
    match Verdict(v, cap, View(p, tx), tx)
    case Some(reason) => Ok(p.(outcomes := Rejected(View(p, tx), tx, reason).outcomes))
    case None => StoreIncluded(p, tx)
  }

  function StoreStepper(v: Verifier, cap: nat): (StoreProgress, Transaction) -> Result<StoreProgress, StoreFailure> {
    (p, tx) => StoreStep(v, cap, p, tx)
  }

  /** A whole batch, from a store and the root that its tree reports. */
  function StoreRun(v: Verifier, cap: nat, store: Store, root: Hash, txs: seq<Transaction>)
    : Result<StoreProgress, StoreFailure>
  {
    Chain(StoreStepper(v, cap), StoreProgress(store, root, [], [], []), txs)
  }

  // ---------- agreement with the in-memory fold ----------

  function Encoded(d: StateDiff): StateDiff {
    d.(leafEncoding := "jmt_valuehash_v1")
  }

  function AllEncoded(diffs: seq<StateDiff>): (encoded: seq<StateDiff>)
    ensures |encoded| == |diffs| && forall i :: 0 <= i < |diffs| ==> encoded[i] == Encoded(diffs[i])
  {
    seq(|diffs|, i requires 0 <= i < |diffs| => Encoded(diffs[i]))
  }

  /** First-write order after one more transfer. */
  function Touch(order: seq<Address>, tx: Transaction): seq<Address> {
    Extend(Extend(order, tx.from), tx.to)
  }

  function Touched(order: seq<Address>, txs: seq<Transaction>): seq<Address> {
    Fold(Touch, order, txs)
  }

  /** The same run, on a store and on a map. */
  ghost predicate Agrees(s: StoreProgress, order: seq<Address>, p: Progress) {
    && Represents(s.store, order, p.accounts)
    && s.root == p.root && s.executed == p.executed && s.outcomes == p.outcomes
    && s.diffs == AllEncoded(p.diffs)
  }

  /** What the engine reads is what the whole map says. */
  lemma SeenAgrees(s: Store, order: seq<Address>, accounts: AccountMap, tx: Transaction)
    requires Represents(s, order, accounts)
    ensures Get(Seen(s.db, tx), tx.from) == Get(accounts, tx.from)
    ensures Get(Seen(s.db, tx), tx.to) == Get(accounts, tx.to)
  {
    ReadsAgree(s, order, accounts, tx.from);
    ReadsAgree(s, order, accounts, tx.to);
  }

  /** Verdict and outcomes depend on the two accounts only. */
  lemma OutcomesAgree(v: Verifier, cap: nat, view: Progress, p: Progress, tx: Transaction)
    requires Get(view.accounts, tx.from) == Get(p.accounts, tx.from)
    requires Get(view.accounts, tx.to) == Get(p.accounts, tx.to)
    requires view.executed == p.executed && view.outcomes == p.outcomes
    ensures Verdict(v, cap, view, tx) == Verdict(v, cap, p, tx)
    ensures forall reason :: Rejected(view, tx, reason).outcomes == Rejected(p, tx, reason).outcomes
    ensures Spendable(view.accounts, tx) == Spendable(p.accounts, tx)
    ensures Spendable(p.accounts, tx) ==>
              && Included(view, tx).outcomes == Included(p, tx).outcomes
              && NewSender(view.accounts, tx) == NewSender(p.accounts, tx)
              && NewReceiver(view.accounts, tx) == NewReceiver(p.accounts, tx)
  {
  }

  lemma EncodedSnoc2(diffs: seq<StateDiff>, d1: StateDiff, d2: StateDiff)
    ensures AllEncoded(diffs + [d1, d2]) == AllEncoded(diffs) + [Encoded(d1), Encoded(d2)]
  {
  }

  /** The two writes of a transfer, and the two diffs they give. */
  lemma WritesAgree(s: Store, order: seq<Address>, p: Progress, tx: Transaction)
    requires Represents(s, order, p.accounts) && Spendable(p.accounts, tx)
    requires |Touch(order, tx)| < U64_MAX
    ensures var sender, receiver := NewSender(p.accounts, tx), NewReceiver(p.accounts, tx);
            && SetAccount(s, tx.from, sender).Ok?
            && var mid := SetAccount(s, tx.from, sender).value;
            && SetAccount(mid, tx.to, receiver).Ok?
            && Represents(SetAccount(mid, tx.to, receiver).value, Touch(order, tx),
                          Transfer(p.accounts, tx))
            && StoredDiff(s.db, tx.from, sender, [p.root], Zero) == Encoded(SenderDiff(p, tx))
            && StoredDiff(mid.db, tx.to, receiver, [FoldDiff(p.root, SenderDiff(p, tx))], Zero)
               == Encoded(ReceiverDiff(p, tx))
  {
    var sender, receiver := NewSender(p.accounts, tx), NewReceiver(p.accounts, tx);
    ReadsAgree(s, order, p.accounts, tx.from);
    SetRefines(s, order, p.accounts, tx.from, sender);
    var mid, accounts := SetAccount(s, tx.from, sender).value, p.accounts[tx.from := sender];
    ReadsAgree(mid, Extend(order, tx.from), accounts, tx.to);
    SetRefines(mid, Extend(order, tx.from), accounts, tx.to, receiver);
  }

  lemma InclusionAgrees(s: StoreProgress, order: seq<Address>, p: Progress, tx: Transaction)
    requires Agrees(s, order, p) && Spendable(p.accounts, tx)
    requires Spendable(Seen(s.store.db, tx), tx)
    requires NewSender(Seen(s.store.db, tx), tx) == NewSender(p.accounts, tx)
    requires NewReceiver(Seen(s.store.db, tx), tx) == NewReceiver(p.accounts, tx)
    requires Included(View(s, tx), tx).outcomes == Included(p, tx).outcomes
    requires |Touch(order, tx)| < U64_MAX
    ensures StoreIncluded(s, tx).Ok?
    ensures Agrees(StoreIncluded(s, tx).value, Touch(order, tx), Included(p, tx))
  {
    WritesAgree(s.store, order, p, tx);
    EncodedSnoc2(p.diffs, SenderDiff(p, tx), ReceiverDiff(p, tx));
  }

  lemma StoreStepAgrees(v: Verifier, cap: nat, s: StoreProgress, order: seq<Address>, p: Progress, tx: Transaction)
    requires Agrees(s, order, p)
    requires Verdict(v, cap, p, tx).None? ==> |Touch(order, tx)| < U64_MAX
    ensures StoreStep(v, cap, s, tx).Ok?
    ensures Agrees(StoreStep(v, cap, s, tx).value,
                   if Verdict(v, cap, p, tx).None? then Touch(order, tx) else order,
                   Step(v, cap, p, tx))
  {
    SeenAgrees(s.store, order, p.accounts, tx);
    OutcomesAgree(v, cap, View(s, tx), p, tx);
    if Verdict(v, cap, p, tx).None? {
      InclusionAgrees(s, order, p, tx);
    }
  }

  /** While indices last, a batch on the store succeeds and agrees with the fold in everything but the leaf encoding. */
  lemma {:induction false} StoreRunAgrees(v: Verifier, cap: nat, store: Store, order: seq<Address>,
                                          accounts: AccountMap, root: Hash, txs: seq<Transaction>)
    requires Represents(store, order, accounts)
    requires |Touched(order, Run(v, cap, Start(accounts, root), txs).executed)| < U64_MAX
    ensures var p := Run(v, cap, Start(accounts, root), txs);
            var r := StoreRun(v, cap, store, root, txs);
            r.Ok? && Agrees(r.value, Touched(order, p.executed), p)
    decreases |txs|
  {
    if txs == [] {
      assert AllEncoded([]) == [];
    } else {
      var n := |txs| - 1;
      var q := Run(v, cap, Start(accounts, root), txs[..n]);
      FoldSnoc(Touch, order, q.executed, txs[n]);
      StoreRunAgrees(v, cap, store, order, accounts, root, txs[..n]);
      var s := StoreRun(v, cap, store, root, txs[..n]).value;
      StoreStepAgrees(v, cap, s, Touched(order, q.executed), q, txs[n]);
    }
  }

  // ---------- any sequence of batches ----------

  /** The store and the included transactions after a sequence of `execute_batch` calls. */
  function StoreBatches(v: Verifier, store: Store, roots: seq<Hash>, batches: seq<SealedBatch>)
    : Result<(Store, seq<Transaction>), StoreFailure>
    requires |roots| == |batches|
    decreases |batches|
  {
    if batches == [] then Ok((store, []))
    else
      var n := |batches| - 1;
      match StoreBatches(v, store, roots[..n], batches[..n])
      case Err(e) => Err(e)
      case Ok((mid, history)) =>
        match StoreRun(v, MaxIncluded(batches[n].id), mid, roots[n], batches[n].txs)
        case Err(e) => Err(e)
        case Ok(p) => Ok((p.store, history + p.executed))
  }

  lemma {:induction false} TouchedGrows(order: seq<Address>, txs: seq<Transaction>)
    ensures |order| <= |Touched(order, txs)|
    decreases |txs|
  {
    if txs != [] {
      TouchedGrows(order, txs[..|txs| - 1]);
    }
  }

  /** Over any sequence of batches the store keeps standing for the accounts of the in-memory engine. */
  lemma {:induction false} StoreBatchesAgree(v: Verifier, store: Store, order: seq<Address>, accounts: AccountMap,
                                             roots: seq<Hash>, batches: seq<SealedBatch>)
    requires |roots| == |batches| && Represents(store, order, accounts)
    requires |Touched(order, RunBatches(v, accounts, roots, batches).1)| < U64_MAX
    ensures var (end, history) := RunBatches(v, accounts, roots, batches);
            var r := StoreBatches(v, store, roots, batches);
            r.Ok? && r.value.1 == history && Represents(r.value.0, Touched(order, history), end)
    decreases |batches|
  {
    if batches != [] {
      var n := |batches| - 1;
      var (mid, history) := RunBatches(v, accounts, roots[..n], batches[..n]);
      var p := RunBatch(v, batches[n].id, mid, roots[n], batches[n].txs);
      FoldConcat(Touch, order, history, p.executed);
      TouchedGrows(Touched(order, history), p.executed);
      StoreBatchesAgree(v, store, order, accounts, roots[..n], batches[..n]);
      var s := StoreBatches(v, store, roots[..n], batches[..n]).value.0;
      StoreRunAgrees(v, MaxIncluded(batches[n].id), s, Touched(order, history), mid, roots[n], batches[n].txs);
    }
  }

  // ---------- the deployed trace at the guest ----------

  /**
   * The guest accepts a deployed trace exactly when no included transaction is a self-transfer below the nonce
   * maximum.
   */
  lemma DeployedTraceAcceptedIff(v: Verifier, batchId: string, store: Store, order: seq<Address>, accounts: AccountMap,
                                 root: Hash, txs: seq<Transaction>)
    requires Represents(store, order, accounts)
    requires |Touched(order, RunBatch(v, batchId, accounts, root, txs).executed)| < U64_MAX
    ensures var r := StoreRun(v, MaxIncluded(batchId), store, root, txs);
            && r.Ok?
            && (G.Accepts(GuestReplay.ToCoreTrace(StoreTrace(batchId, root, r.value)))
                <==> GuestReplay.NoneRewinds(r.value.executed))
  {
    StoreRunAgrees(v, MaxIncluded(batchId), store, order, accounts, root, txs);
    var p := RunBatch(v, batchId, accounts, root, txs);
    GuestReplay.GuestAcceptsIff(v, batchId, accounts, root, txs);
    assert GuestReplay.ToCoreDiffs(AllEncoded(p.diffs)) == GuestReplay.ToCoreDiffs(p.diffs);
  }

  // ---------- the engine ----------

  function StoreTrace(batchId: string, initialRoot: Hash, p: StoreProgress): ExecutionTrace {
    ExecutionTrace(batchId, initialRoot, p.root, p.executed, p.outcomes, p.diffs)
  }

  /** What the tree returns for a write: its path and its root. */
  datatype TreeAnswer = TreeAnswer(path: seq<Hash>, latestRoot: Hash)

  class PersistentTransactionEngine {
    const state: RocksDbStateManager
    const verifier: Verifier

    constructor (state: RocksDbStateManager, verifier: Verifier)
      ensures this.state == state && this.verifier == verifier
    {
      this.state := state;
      this.verifier := verifier;
    }

    /** The writes of one included transaction, up to the first that fails, whatever the tree answers to them. */
    method Write(tx: Transaction, sender: Account, receiver: Account, root: Hash, tree: (TreeAnswer, TreeAnswer))
      returns (r: Result<(StateDiff, StateDiff, Hash), StateError>)
      modifies state
      ensures match SetAccount(old(Store(state.db, state.tree)), tx.from, sender)
              case Err(e) => r == Err(e) && Store(state.db, state.tree) == old(Store(state.db, state.tree))
              case Ok(mid) =>
                match SetAccount(mid, tx.to, receiver)
                case Err(e) => r == Err(e) && Store(state.db, state.tree) == mid
                case Ok(end) =>
                  var d1 := StoredDiff(old(state.db), tx.from, sender, [root], Zero);
                  var d2 := StoredDiff(mid.db, tx.to, receiver, [FoldDiff(root, d1)], Zero);
                  Store(state.db, state.tree) == end && r == Ok((d1, d2, FoldDiff(FoldDiff(root, d1), d2)))
    {
      var first := state.Set(tx.from, sender, tree.0.path, tree.0.latestRoot);
      if first.Err? {
        return Err(first.error);
      }
      var senderDiff := first.value.(merkleProof := [root]);
      var midRoot := FoldDiff(root, senderDiff);
      var second := state.Set(tx.to, receiver, tree.1.path, tree.1.latestRoot);
      if second.Err? {
        return Err(second.error);
      }
      var receiverDiff := second.value.(merkleProof := [midRoot]);
      r := Ok((senderDiff, receiverDiff, FoldDiff(midRoot, receiverDiff)));
    }

    /** The loop body for one transaction, from the progress in local variables. */
    method Execute(tx: Transaction, maxIncluded: nat, root: Hash, executed: seq<Transaction>,
                   diffs: seq<StateDiff>, outcomes: seq<TxOutcome>, tree: (TreeAnswer, TreeAnswer))
      returns (r: Result<(Hash, seq<Transaction>, seq<StateDiff>, seq<TxOutcome>), StateError>)
      modifies state
      ensures match StoreStep(verifier, maxIncluded,
                              StoreProgress(old(Store(state.db, state.tree)), root, executed, diffs, outcomes), tx)
              case Err(f) => r == Err(f.error) && Store(state.db, state.tree) == f.store
              case Ok(p) => r == Ok((p.root, p.executed, p.diffs, p.outcomes)) && Store(state.db, state.tree) == p.store
    {
      var senderPre, receiverPre := state.GetAccount(tx.from), state.GetAccount(tx.to);
      ghost var seen := Seen(state.db, tx);
      assert Get(seen, tx.from) == senderPre && Get(seen, tx.to) == receiverPre;
      var rejection := Decide(verifier, maxIncluded, senderPre, |executed|, tx);
      if rejection.Some? {
        return Ok((root, executed, diffs,
                   outcomes + [Outcome(tx, rejection, senderPre, senderPre, receiverPre, receiverPre)]));
      }
      var newSender := Account(senderPre.balance - tx.amount, SatAdd(senderPre.nonce, 1));
      var newReceiver := Account(SatAdd(receiverPre.balance, tx.amount), receiverPre.nonce);
      assert newSender == NewSender(seen, tx) && newReceiver == NewReceiver(seen, tx);
      var written := Write(tx, newSender, newReceiver, root, tree);
      if written.Err? {
        return Err(written.error);
      }
      var (senderDiff, receiverDiff, nextRoot) := written.value;
      r := Ok((nextRoot, executed + [tx], diffs + [senderDiff, receiverDiff],
               outcomes + [Outcome(tx, None, senderPre, newSender, receiverPre, newReceiver)]));
    }

    /** `initialRoot` is the tree's current root, and `tree` gives its answers to the writes of each transaction. */
    method ExecuteBatch(batchId: string, transactions: seq<Transaction>, initialRoot: Hash,
                        tree: nat -> (TreeAnswer, TreeAnswer))
      returns (r: Result<ExecutionTrace, StateError>)
      modifies state
      ensures match StoreRun(verifier, MaxIncluded(batchId), old(Store(state.db, state.tree)), initialRoot,
                             transactions)
              case Err(f) => r == Err(f.error) && Store(state.db, state.tree) == f.store
              case Ok(p) => r == Ok(StoreTrace(batchId, initialRoot, p)) && Store(state.db, state.tree) == p.store
    {
      var proverRoot := initialRoot;
      var executed: seq<Transaction>, diffs: seq<StateDiff>, outcomes: seq<TxOutcome> := [], [], [];
      var maxIncluded := MaxIncluded(batchId);
      ghost var step := StoreStepper(verifier, maxIncluded);
      ghost var start := StoreProgress(Store(state.db, state.tree), initialRoot, [], [], []);
      for i := 0 to |transactions|
        invariant Chain(step, start, transactions[..i])
                  == Ok(StoreProgress(Store(state.db, state.tree), proverRoot, executed, diffs, outcomes))
      {
        assert transactions[..i + 1][..i] == transactions[..i];
        var next := Execute(transactions[i], maxIncluded, proverRoot, executed, diffs, outcomes, tree(i));
        if next.Err? {
          FirstErrorEnds(step, start, transactions, i + 1);
          return Err(next.error);
        }
        proverRoot, executed, diffs, outcomes := next.value.0, next.value.1, next.value.2, next.value.3;
      }
      assert transactions[..|transactions|] == transactions;
      r := Ok(ExecutionTrace(batchId, initialRoot, proverRoot, executed, outcomes, diffs));
    }
  }
}
