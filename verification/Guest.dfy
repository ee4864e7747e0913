/** The zkVM guest: `LightweightSMT` and the replay of an execution trace. */
module RollupCore {
  import opened Machine
  import opened Folds
  import opened Crypto

  datatype StateDiff = StateDiff(
    account: Address, oldBalance: u64, newBalance: u64, oldNonce: u64, newNonce: u64, merkleProof: seq<Hash>)

  datatype BlockTrace = BlockTrace(batchId: string, initialRoot: Hash, finalRoot: Hash, diffs: seq<StateDiff>)

  /** `InvalidOldBalance` exists in the source and is never raised. */
  datatype VerifyError = InvalidOldBalance | InvalidOldNonce | InvalidDebit | InvalidWitness

  function FoldDiff(previous: Hash, d: StateDiff): Hash {
    Sha256(DiffFold(previous, d.account, d.oldBalance, d.newBalance, d.oldNonce, d.newNonce))
  }

  function Apply(root: Hash, d: StateDiff): Result<Hash, VerifyError> {
    if d.newNonce < d.oldNonce then Err(InvalidOldNonce)
    else if d.newNonce > d.oldNonce && d.newBalance > d.oldBalance then Err(InvalidDebit)
    else if d.merkleProof == [] || d.merkleProof[0] != root then Err(InvalidWitness)
    else Ok(FoldDiff(root, d))
  }

  class LightweightSMT {
    var root: Hash

    constructor (root: Hash)
      ensures this.root == root
    {
      this.root := root;
    }

    /** A refused diff leaves the root alone. */
    method ApplyDiff(d: StateDiff) returns (r: Result<(), VerifyError>)
      modifies this
      ensures match Apply(old(root), d)
              case Ok(next) => r == Ok(()) && root == next
              case Err(e) => r == Err(e) && root == old(root)
    {
      if d.newNonce < d.oldNonce {
        return Err(InvalidOldNonce);
      }
      if d.newNonce > d.oldNonce && d.newBalance > d.oldBalance {
        return Err(InvalidDebit);
      }
      if |d.merkleProof| > 0 {
        if d.merkleProof[0] != root {
          return Err(InvalidWitness);
        }
      } else {
        return Err(InvalidWitness);
      }
      root := FoldDiff(root, d);
      r := Ok(());
    }
  }

  function ApplyAll(root: Hash, diffs: seq<StateDiff>): Result<Hash, VerifyError> {
    Chain(Apply, root, diffs)
  }

  /** The guest commits to the two roots exactly when the whole replay reaches the claimed final root. */
  ghost predicate Accepts(trace: BlockTrace) {
    ApplyAll(trace.initialRoot, trace.diffs) == Ok(trace.finalRoot)
  }

  /** `None` is a guest panic, for which no journal is committed. */
  method GuestMain(trace: BlockTrace) returns (journal: Option<(Hash, Hash)>)
    ensures journal == if Accepts(trace) then Some((trace.initialRoot, trace.finalRoot)) else None
  {
    var state := new LightweightSMT(trace.initialRoot);
    for i := 0 to |trace.diffs|
      invariant ApplyAll(trace.initialRoot, trace.diffs[..i]) == Ok(state.root)
    {
      assert trace.diffs[..i + 1][..i] == trace.diffs[..i];
      var r := state.ApplyDiff(trace.diffs[i]);
      if r.Err? {
        FirstErrorEnds(Apply, trace.initialRoot, trace.diffs, i + 1);
        return None;
      }
    }
    assert trace.diffs[..|trace.diffs|] == trace.diffs;
    if state.root != trace.finalRoot {
      return None;
    }
    journal := Some((trace.initialRoot, trace.finalRoot));
  }

  // ---------- what acceptance means ----------

  ghost function FoldAll(root: Hash, diffs: seq<StateDiff>): Hash
    decreases |diffs|
  {
    if diffs == [] then root else FoldDiff(FoldAll(root, diffs[..|diffs| - 1]), diffs[|diffs| - 1])
  }

  /** No nonce goes down, no debit raises a balance, and the witness names the root before the diff. */
  ghost predicate Sound(root: Hash, diffs: seq<StateDiff>, k: nat)
    requires k < |diffs|
  {
    && diffs[k].oldNonce <= diffs[k].newNonce
    && (diffs[k].oldNonce < diffs[k].newNonce ==> diffs[k].newBalance <= diffs[k].oldBalance)
    && diffs[k].merkleProof != [] && diffs[k].merkleProof[0] == FoldAll(root, diffs[..k])
  }

  /** A replay succeeds exactly when every diff is sound where it stands, and it ends at the fold of all diffs. */
  lemma {:induction false} ReplaySucceedsIff(root: Hash, diffs: seq<StateDiff>)
    ensures ApplyAll(root, diffs).Ok? <==> forall k :: 0 <= k < |diffs| ==> Sound(root, diffs, k)
    ensures ApplyAll(root, diffs).Ok? ==> ApplyAll(root, diffs).value == FoldAll(root, diffs)
    decreases |diffs|
  {
    if diffs != [] {
      var n := |diffs| - 1;
      ReplaySucceedsIff(root, diffs[..n]);
      forall k | 0 <= k < n ensures Sound(root, diffs, k) <==> Sound(root, diffs[..n], k) {
        assert diffs[..n][..k] == diffs[..k];
      }
      assert Sound(root, diffs, n) <==> Apply(FoldAll(root, diffs[..n]), diffs[n]).Ok?;
    }
  }

  // ---------- what a journal binds ----------

  /** A diff without its witness. */
  function Bare(d: StateDiff): StateDiff {
    d.(merkleProof := [])
  }

  function BareAll(diffs: seq<StateDiff>): (bare: seq<StateDiff>)
    ensures |bare| == |diffs| && forall i :: 0 <= i < |diffs| ==> bare[i] == Bare(diffs[i])
  {
    seq(|diffs|, i requires 0 <= i < |diffs| => Bare(diffs[i]))
  }

  lemma BareSnoc(diffs: seq<StateDiff>)
    requires diffs != []
    ensures BareAll(diffs) == BareAll(diffs[..|diffs| - 1]) + [Bare(diffs[|diffs| - 1])]
  {
  }

  ghost function FoldDepth(h: Hash): nat {
    match h
    case Sha256(DiffFold(previous, _, _, _, _, _)) => 1 + FoldDepth(previous)
    case _ => 0
  }

  lemma {:induction false} ApplyAllFolds(root: Hash, diffs: seq<StateDiff>)
    requires ApplyAll(root, diffs).Ok?
    ensures FoldDepth(ApplyAll(root, diffs).value) == FoldDepth(root) + |diffs|
    decreases |diffs|
  {
    if diffs != [] {
      ApplyAllFolds(root, diffs[..|diffs| - 1]);
    }
  }

  /** Two accepted replays between the same two roots applied the same diffs. */
  lemma {:induction false} JournalBindsDiffs(root: Hash, d1: seq<StateDiff>, d2: seq<StateDiff>)
    requires ApplyAll(root, d1).Ok? && ApplyAll(root, d1) == ApplyAll(root, d2)
    ensures BareAll(d1) == BareAll(d2)
    decreases |d1|
  {
    ApplyAllFolds(root, d1);
    ApplyAllFolds(root, d2);
    if d1 != [] {
      var n := |d1| - 1;
      JournalBindsDiffs(root, d1[..n], d2[..n]);
      BareSnoc(d1);
      BareSnoc(d2);
    }
  }
}

/** The seam between the executor's trace and the guest that re-checks it. */
module GuestReplay {
  import opened Machine
  import opened Folds
  import opened Crypto
  import opened Accounts
  import opened TxEngine
  import opened EngineHistory
  import E = ExecutorTypes
  import G = RollupCore
  import Merkle

  function ToCoreDiff(d: E.StateDiff): G.StateDiff {
    G.StateDiff(d.account, d.oldBalance, d.newBalance, d.oldNonce, d.newNonce, d.merkleProof)
  }

  function ToCoreDiffs(diffs: seq<E.StateDiff>): (core: seq<G.StateDiff>)
    ensures |core| == |diffs| && forall i :: 0 <= i < |diffs| ==> core[i] == ToCoreDiff(diffs[i])
  {
    seq(|diffs|, i requires 0 <= i < |diffs| => ToCoreDiff(diffs[i]))
  }

  /** `to_rollup_core_trace` */
  function ToCoreTrace(trace: E.ExecutionTrace): G.BlockTrace {
    G.BlockTrace(trace.batchId, trace.initialRoot, trace.finalRoot, ToCoreDiffs(trace.diffs))
  }

  /** The one family of transfers whose second diff lowers a nonce. */
  ghost predicate Rewinds(tx: E.Transaction) {
    tx.from == tx.to && tx.nonce < U64_MAX
  }

  ghost predicate NoneRewinds(executed: seq<E.Transaction>) {
    forall i :: 0 <= i < |executed| ==> !Rewinds(executed[i])
  }

  function Guest(root: Hash, diffs: seq<E.StateDiff>): Result<Hash, G.VerifyError> {
    G.ApplyAll(root, ToCoreDiffs(diffs))
  }

  lemma GuestSnoc(root: Hash, diffs: seq<E.StateDiff>, d: E.StateDiff)
    ensures Guest(root, diffs + [d]) ==
            match Guest(root, diffs) case Err(e) => Err(e) case Ok(mid) => G.Apply(mid, ToCoreDiff(d))
  {
    assert ToCoreDiffs(diffs + [d])[..|diffs|] == ToCoreDiffs(diffs);
  }

  /** The guest on the two diffs of one inclusion. */
  lemma GuestOnTransfer(p: Progress, tx: E.Transaction)
    requires Spendable(p.accounts, tx)
    ensures G.Apply(p.root, ToCoreDiff(SenderDiff(p, tx))) == Ok(FoldDiff(p.root, SenderDiff(p, tx)))
    ensures G.Apply(FoldDiff(p.root, SenderDiff(p, tx)), ToCoreDiff(ReceiverDiff(p, tx)))
            == if Rewinds(tx) then Err(G.InvalidOldNonce) else Ok(Included(p, tx).root)
  {
  }

  /** The guest's answer so far: the running root, or the refusal of a lowered nonce, decided by `Rewinds` alone. */
  ghost predicate Judged(root: Hash, p: Progress) {
    Guest(root, p.diffs) == if NoneRewinds(p.executed) then Ok(p.root) else Err(G.InvalidOldNonce)
  }

  lemma InclusionJudged(root: Hash, p: Progress, tx: E.Transaction)
    requires Judged(root, p) && Spendable(p.accounts, tx)
    ensures Judged(root, Included(p, tx))
  {
    var d1, d2 := SenderDiff(p, tx), ReceiverDiff(p, tx);
    GuestOnTransfer(p, tx);
    GuestSnoc(root, p.diffs, d1);
    GuestSnoc(root, p.diffs + [d1], d2);
    assert p.diffs + [d1] + [d2] == p.diffs + [d1, d2];
    RewindsSnoc(p.executed, tx);
  }

  lemma StepJudged(v: Verifier, cap: nat, root: Hash, p: Progress, tx: E.Transaction)
    requires Judged(root, p)
    ensures Judged(root, Step(v, cap, p, tx))
  {
    if Verdict(v, cap, p, tx).None? {
      InclusionJudged(root, p, tx);
    }
  }

  /** Replay of any run's diffs: accepted at the run's root, or refused for a lowered nonce. */
  lemma {:induction false} GuestVerdict(v: Verifier, cap: nat, accounts: AccountMap, root: Hash,
                                        txs: seq<E.Transaction>)
    ensures Judged(root, Run(v, cap, Start(accounts, root), txs))
    decreases |txs|
  {
    if txs == [] {
      assert ToCoreDiffs([]) == [];
    } else {
      var n := |txs| - 1;
      GuestVerdict(v, cap, accounts, root, txs[..n]);
      StepJudged(v, cap, root, Run(v, cap, Start(accounts, root), txs[..n]), txs[n]);
    }
  }

  lemma RewindsSnoc(executed: seq<E.Transaction>, tx: E.Transaction)
    ensures NoneRewinds(executed + [tx]) <==> NoneRewinds(executed) && !Rewinds(tx)
  {
    var longer := executed + [tx];
    assert longer[|executed|] == tx;
    assert forall i :: 0 <= i < |executed| ==> longer[i] == executed[i];
  }

  /**
   * The guest accepts a trace exactly when no included transaction is a self-transfer with a nonce below the
   * maximum.
   */
  lemma GuestAcceptsIff(v: Verifier, batchId: string, accounts: AccountMap, root: Hash, txs: seq<E.Transaction>)
    ensures var p := RunBatch(v, batchId, accounts, root, txs);
            G.Accepts(ToCoreTrace(TraceOf(batchId, root, p))) <==> NoneRewinds(p.executed)
  {
    GuestVerdict(v, MaxIncluded(batchId), accounts, root, txs);
  }

  /** A valid self-transfer is included, and its trace is refused. */
  lemma SelfTransferIsRefused(v: Verifier, batchId: string, accounts: AccountMap, root: Hash, tx: E.Transaction)
    requires VerifySignature(v, tx) && Spendable(accounts, tx) && tx.from == tx.to && tx.nonce < U64_MAX
    ensures var p := RunBatch(v, batchId, accounts, root, [tx]);
            p.executed == [tx] && !G.Accepts(ToCoreTrace(TraceOf(batchId, root, p)))
  {
    GuestAcceptsIff(v, batchId, accounts, root, [tx]);
    FoldSnoc(Stepper(v, MaxIncluded(batchId)), Start(accounts, root), [], tx);
    assert [] + [tx] == [tx] && Rewinds([tx][0]);
  }

  // ---------- what an accepted journal says about state ----------

  lemma {:induction false} SameDiffsSameState(accounts: AccountMap, d1: seq<E.StateDiff>, d2: seq<E.StateDiff>)
    requires G.BareAll(ToCoreDiffs(d1)) == G.BareAll(ToCoreDiffs(d2))
    ensures Replay(accounts, d1) == Replay(accounts, d2)
    decreases |d1|
  {
    assert |d1| == |G.BareAll(ToCoreDiffs(d1))| == |G.BareAll(ToCoreDiffs(d2))| == |d2|;
    if d1 != [] {
      var n := |d1| - 1;
      assert G.Bare(ToCoreDiff(d1[n])) == G.BareAll(ToCoreDiffs(d1))[n] == G.Bare(ToCoreDiff(d2[n]));
      forall i | 0 <= i < n
        ensures G.BareAll(ToCoreDiffs(d1[..n]))[i] == G.BareAll(ToCoreDiffs(d2[..n]))[i]
      {
        assert G.BareAll(ToCoreDiffs(d1))[i] == G.BareAll(ToCoreDiffs(d2))[i];
      }
      assert G.BareAll(ToCoreDiffs(d1[..n])) == G.BareAll(ToCoreDiffs(d2[..n]));
      SameDiffsSameState(accounts, d1[..n], d2[..n]);
    }
  }

  /** The guest accepts the trace of this batch, run in memory from `accounts`. */
  ghost predicate AcceptedRun(v: Verifier, id: string, accounts: AccountMap, txs: seq<E.Transaction>) {
    var root := Merkle.Root(accounts);
    G.Accepts(ToCoreTrace(TraceOf(id, root, RunBatch(v, id, accounts, root, txs))))
  }

  ghost function EndOf(v: Verifier, id: string, accounts: AccountMap, txs: seq<E.Transaction>): Progress {
    RunBatch(v, id, accounts, Merkle.Root(accounts), txs)
  }

  /**
   * A journal determines the state change: two accepted in-memory runs, of any batches from any account
   * maps, that commit to the same pair of roots start from the same accounts and end in the same accounts.
   */
  lemma JournalBindsState(v1: Verifier, id1: string, m1: AccountMap, txs1: seq<E.Transaction>,
                          v2: Verifier, id2: string, m2: AccountMap, txs2: seq<E.Transaction>)
    requires AcceptedRun(v1, id1, m1, txs1) && AcceptedRun(v2, id2, m2, txs2)
    requires Merkle.Root(m1) == Merkle.Root(m2) && EndOf(v1, id1, m1, txs1).root == EndOf(v2, id2, m2, txs2).root
    ensures m1 == m2
    ensures EndOf(v1, id1, m1, txs1).accounts == EndOf(v2, id2, m2, txs2).accounts
  {
    var p1, p2 := EndOf(v1, id1, m1, txs1), EndOf(v2, id2, m2, txs2);
    Merkle.RootBindsAccounts(m1, m2);
    DiffLogFaithful(v1, MaxIncluded(id1), m1, Merkle.Root(m1), txs1);
    DiffLogFaithful(v2, MaxIncluded(id2), m2, Merkle.Root(m2), txs2);
    G.JournalBindsDiffs(Merkle.Root(m1), ToCoreDiffs(p1.diffs), ToCoreDiffs(p2.diffs));
    SameDiffsSameState(m1, p1.diffs, p2.diffs);
  }
}
