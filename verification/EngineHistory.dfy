/**
 * What holds of every run of the engine.
 *
 * A run over any number of batches is summarised by its history, the included transactions in order.
 * Supply and nonce results are then about histories, however the batches were cut.
 */
module EngineHistory {
  import opened Machine
  import opened Folds
  import opened Crypto
  import opened Accounts
  import opened ExecutorTypes
  import opened TxEngine

  // ---------- histories ----------

  /** A transfer, if its sender can make it. */
  function Move(accounts: AccountMap, tx: Transaction): Result<AccountMap, ()> {
    if Spendable(accounts, tx) then Ok(Transfer(accounts, tx)) else Err(())
  }

  /** Each transaction is spendable where it runs. */
  ghost predicate ValidHistory(accounts: AccountMap, history: seq<Transaction>) {
    Chain(Move, accounts, history).Ok?
  }

  ghost function After(accounts: AccountMap, history: seq<Transaction>): AccountMap
    requires ValidHistory(accounts, history)
  {
    Chain(Move, accounts, history).value
  }

  lemma HistorySnoc(accounts: AccountMap, history: seq<Transaction>, tx: Transaction)
    requires ValidHistory(accounts, history) && Spendable(After(accounts, history), tx)
    ensures ValidHistory(accounts, history + [tx])
    ensures After(accounts, history + [tx]) == Transfer(After(accounts, history), tx)
  {
    assert (history + [tx])[..|history|] == history;
  }

  lemma HistoryUnsnoc(accounts: AccountMap, history: seq<Transaction>)
    requires ValidHistory(accounts, history) && history != []
    ensures var n := |history| - 1;
            && ValidHistory(accounts, history[..n]) && Spendable(After(accounts, history[..n]), history[n])
            && After(accounts, history) == Transfer(After(accounts, history[..n]), history[n])
  {
  }

  lemma HistoryConcat(accounts: AccountMap, h1: seq<Transaction>, h2: seq<Transaction>)
    requires ValidHistory(accounts, h1) && ValidHistory(After(accounts, h1), h2)
    ensures ValidHistory(accounts, h1 + h2)
    ensures After(accounts, h1 + h2) == After(After(accounts, h1), h2)
  {
    ChainConcat(Move, accounts, h1, h2);
  }

  lemma {:induction false} HistoryPrefix(accounts: AccountMap, history: seq<Transaction>, k: nat)
    requires ValidHistory(accounts, history) && k <= |history|
    ensures ValidHistory(accounts, history[..k])
    ensures k < |history| ==> Spendable(After(accounts, history[..k]), history[k])
    decreases |history|
  {
    if k == |history| {
      assert history[..k] == history;
    } else {
      var n := |history| - 1;
      if k < n {
        HistoryPrefix(accounts, history[..n], k);
        assert history[..n][..k] == history[..k];
      }
    }
  }

  lemma HistoryStep(accounts: AccountMap, history: seq<Transaction>, k: nat)
    requires ValidHistory(accounts, history) && k < |history|
    ensures ValidHistory(accounts, history[..k]) && ValidHistory(accounts, history[..k + 1])
    ensures Spendable(After(accounts, history[..k]), history[k])
    ensures After(accounts, history[..k + 1]) == Transfer(After(accounts, history[..k]), history[k])
  {
    HistoryPrefix(accounts, history, k + 1);
    HistoryUnsnoc(accounts, history[..k + 1]);
    assert history[..k + 1][..k] == history[..k];
  }

  /** The state reached is that of the executed transactions, each of them verified. */
  ghost predicate IsHistory(v: Verifier, accounts: AccountMap, p: Progress) {
    && ValidHistory(accounts, p.executed)
    && p.accounts == After(accounts, p.executed)
    && forall tx :: tx in p.executed ==> VerifySignature(v, tx)
  }

  lemma InclusionIsHistory(v: Verifier, accounts: AccountMap, p: Progress, tx: Transaction)
    requires IsHistory(v, accounts, p) && VerifySignature(v, tx) && Spendable(p.accounts, tx)
    ensures IsHistory(v, accounts, Included(p, tx))
  {
    HistorySnoc(accounts, p.executed, tx);
  }

  lemma StepIsHistory(v: Verifier, cap: nat, accounts: AccountMap, p: Progress, tx: Transaction)
    requires IsHistory(v, accounts, p)
    ensures IsHistory(v, accounts, Step(v, cap, p, tx))
  {
    if Verdict(v, cap, p, tx).None? {
      InclusionIsHistory(v, accounts, p, tx);
    }
  }

  /** The state of the engine after a batch is that of its executed transactions, each of them verified. */
  lemma {:induction false} RunIsHistory(v: Verifier, cap: nat, accounts: AccountMap, root: Hash, txs: seq<Transaction>)
    ensures IsHistory(v, accounts, Run(v, cap, Start(accounts, root), txs))
    decreases |txs|
  {
    if txs != [] {
      var n := |txs| - 1;
      RunIsHistory(v, cap, accounts, root, txs[..n]);
      StepIsHistory(v, cap, accounts, Run(v, cap, Start(accounts, root), txs[..n]), txs[n]);
    }
  }

  // ---------- any sequence of batches ----------

  datatype SealedBatch = SealedBatch(id: string, txs: seq<Transaction>)

  /** Accounts and included transactions after a sequence of `execute_batch` calls. */
  function RunBatches(v: Verifier, accounts: AccountMap, roots: seq<Hash>, batches: seq<SealedBatch>)
    : (end: (AccountMap, seq<Transaction>))
    requires |roots| == |batches|
    decreases |batches|
  {
    if batches == [] then (accounts, [])
    else
      var n := |batches| - 1;
      var (mid, history) := RunBatches(v, accounts, roots[..n], batches[..n]);
      var p := RunBatch(v, batches[n].id, mid, roots[n], batches[n].txs);
      (p.accounts, history + p.executed)
  }

  lemma {:induction false} BatchesAreHistory(v: Verifier, accounts: AccountMap, roots: seq<Hash>,
                                             batches: seq<SealedBatch>)
    requires |roots| == |batches|
    ensures var (end, history) := RunBatches(v, accounts, roots, batches);
            ValidHistory(accounts, history) && end == After(accounts, history)
    decreases |batches|
  {
    if batches != [] {
      var n := |batches| - 1;
      BatchesAreHistory(v, accounts, roots[..n], batches[..n]);
      var (mid, history) := RunBatches(v, accounts, roots[..n], batches[..n]);
      RunIsHistory(v, MaxIncluded(batches[n].id), mid, roots[n], batches[n].txs);
      HistoryConcat(accounts, history, RunBatch(v, batches[n].id, mid, roots[n], batches[n].txs).executed);
    }
  }

  // ---------- outcomes ----------

  /** The inputs whose outcome is included, in order. */
  function IncludedInputs(txs: seq<Transaction>, outcomes: seq<TxOutcome>): seq<Transaction>
    requires |txs| == |outcomes|
    decreases |txs|
  {
    if txs == [] then []
    else
      var n := |txs| - 1;
      IncludedInputs(txs[..n], outcomes[..n]) + if outcomes[n].Included() then [txs[n]] else []
  }

  /** One outcome per input; the executed transactions are the included inputs, with two diffs each. */
  ghost predicate Matches(cap: nat, p: Progress, txs: seq<Transaction>) {
    && |p.outcomes| == |txs|
    && |p.diffs| == 2 * |p.executed|
    && |p.executed| <= cap
    && p.executed == IncludedInputs(txs, p.outcomes)
  }

  lemma StepMatches(v: Verifier, cap: nat, p: Progress, txs: seq<Transaction>, tx: Transaction)
    requires Matches(cap, p, txs)
    ensures Matches(cap, Step(v, cap, p, tx), txs + [tx])
  {
    var q := Step(v, cap, p, tx);
    assert (txs + [tx])[..|txs|] == txs && q.outcomes[..|txs|] == p.outcomes;
  }

  lemma {:induction false} OutcomesMatchInputs(v: Verifier, cap: nat, accounts: AccountMap, root: Hash,
                                               txs: seq<Transaction>)
    ensures Matches(cap, Run(v, cap, Start(accounts, root), txs), txs)
    decreases |txs|
  {
    if txs != [] {
      var n := |txs| - 1;
      OutcomesMatchInputs(v, cap, accounts, root, txs[..n]);
      StepMatches(v, cap, Run(v, cap, Start(accounts, root), txs[..n]), txs[..n], txs[n]);
      assert txs[..n] + [txs[n]] == txs;
    }
  }

  lemma StepAppendsVerdict(v: Verifier, cap: nat, p: Progress, tx: Transaction)
    ensures var out := Step(v, cap, p, tx).outcomes;
            |out| == |p.outcomes| + 1 && out[..|p.outcomes|] == p.outcomes
            && out[|p.outcomes|].rejection == Verdict(v, cap, p, tx)
  {
  }

  lemma OutcomesGrow(v: Verifier, cap: nat, p: Progress, txs: seq<Transaction>, i: nat)
    requires i <= |txs|
    ensures Run(v, cap, p, txs[..i]).outcomes <= Run(v, cap, p, txs).outcomes
  {
    var step, log := Stepper(v, cap), (q: Progress) => q.outcomes;
    forall q, tx ensures log(q) <= log(step(q, tx)) {
      StepAppendsVerdict(v, cap, q, tx);
    }
    FoldGrows(step, log, p, txs, i);
  }

  /** The i-th outcome is the verdict on the i-th input in the state reached by the inputs before it. */
  lemma OutcomeAt(v: Verifier, cap: nat, accounts: AccountMap, root: Hash, txs: seq<Transaction>, i: nat)
    requires i < |txs|
    ensures var p := Run(v, cap, Start(accounts, root), txs);
            && |p.outcomes| == |txs|
            && p.outcomes[i].rejection == Verdict(v, cap, Run(v, cap, Start(accounts, root), txs[..i]), txs[i])
  {
    OutcomesMatchInputs(v, cap, accounts, root, txs);
    OutcomesMatchInputs(v, cap, accounts, root, txs[..i]);
    StepAppendsVerdict(v, cap, Run(v, cap, Start(accounts, root), txs[..i]), txs[i]);
    assert txs[..i + 1][..i] == txs[..i];
    OutcomesGrow(v, cap, Start(accounts, root), txs, i + 1);
  }

  /** The reported sender state after an inclusion is the real one unless the transfer is to oneself. */
  lemma SenderPostFaithfulIff(p: Progress, tx: Transaction)
    requires Spendable(p.accounts, tx)
    ensures var q := Included(p, tx);
            q.outcomes[|p.outcomes|].senderPost == Snapshot(tx.from, Get(q.accounts, tx.from))
            <==> tx.from != tx.to || (tx.amount == 0 && tx.nonce == U64_MAX)
  {
    var q := Included(p, tx);
    if tx.from == tx.to {
      assert Get(q.accounts, tx.from) == NewReceiver(p.accounts, tx);
    } else {
      assert Get(q.accounts, tx.from) == NewSender(p.accounts, tx);
    }
  }

  // ---------- the diff log ----------

  function Applied(accounts: AccountMap, d: StateDiff): AccountMap {
    accounts[d.account := Account(d.newBalance, d.newNonce)]
  }

  function Replay(accounts: AccountMap, diffs: seq<StateDiff>): AccountMap
    decreases |diffs|
  {
    if diffs == [] then accounts else Applied(Replay(accounts, diffs[..|diffs| - 1]), diffs[|diffs| - 1])
  }

  ghost predicate OldValuesMatch(accounts: AccountMap, d: StateDiff) {
    Get(accounts, d.account) == Account(d.oldBalance, d.oldNonce)
  }

  ghost predicate FaithfulLog(accounts: AccountMap, diffs: seq<StateDiff>) {
    forall k :: 0 <= k < |diffs| ==> OldValuesMatch(Replay(accounts, diffs[..k]), diffs[k])
  }

  lemma ReplaySnoc(accounts: AccountMap, diffs: seq<StateDiff>, d: StateDiff)
    requires FaithfulLog(accounts, diffs) && OldValuesMatch(Replay(accounts, diffs), d)
    ensures FaithfulLog(accounts, diffs + [d])
    ensures Replay(accounts, diffs + [d]) == Applied(Replay(accounts, diffs), d)
  {
    var longer := diffs + [d];
    assert longer[..|diffs|] == diffs;
    forall k | 0 <= k < |longer| ensures OldValuesMatch(Replay(accounts, longer[..k]), longer[k]) {
      if k < |diffs| {
        assert longer[..k] == diffs[..k];
      }
    }
  }

  /** The diffs so far rebuild the accounts so far, old values matching throughout. */
  ghost predicate Logged(accounts: AccountMap, p: Progress) {
    FaithfulLog(accounts, p.diffs) && Replay(accounts, p.diffs) == p.accounts
  }

  lemma InclusionLogged(accounts: AccountMap, p: Progress, tx: Transaction)
    requires Logged(accounts, p) && Spendable(p.accounts, tx)
    ensures Logged(accounts, Included(p, tx))
  {
    var d1, d2 := SenderDiff(p, tx), ReceiverDiff(p, tx);
    ReplaySnoc(accounts, p.diffs, d1);
    ReplaySnoc(accounts, p.diffs + [d1], d2);
    assert p.diffs + [d1] + [d2] == p.diffs + [d1, d2];
  }

  lemma StepLogged(v: Verifier, cap: nat, accounts: AccountMap, p: Progress, tx: Transaction)
    requires Logged(accounts, p)
    ensures Logged(accounts, Step(v, cap, p, tx))
  {
    if Verdict(v, cap, p, tx).None? {
      InclusionLogged(accounts, p, tx);
    }
  }

  /**
   * Replaying the logged diffs from the initial accounts rebuilds the final accounts, old values matching
   * throughout.
   */
  lemma {:induction false} DiffLogFaithful(v: Verifier, cap: nat, accounts: AccountMap, root: Hash,
                                           txs: seq<Transaction>)
    ensures Logged(accounts, Run(v, cap, Start(accounts, root), txs))
    decreases |txs|
  {
    if txs != [] {
      var n := |txs| - 1;
      DiffLogFaithful(v, cap, accounts, root, txs[..n]);
      StepLogged(v, cap, accounts, Run(v, cap, Start(accounts, root), txs[..n]), txs[n]);
    }
  }
}
