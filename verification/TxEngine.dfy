/** In-memory account state: reads, writes with their diff, and the root. */
module StateManager {
  import opened Machine
  import opened Crypto
  import opened Accounts
  import opened ExecutorTypes
  import Merkle

  /** The diff of one write, with the given witness. */
  function DiffOf(accounts: AccountMap, address: Address, account: Account, proof: seq<Hash>): StateDiff {
    var before := Get(accounts, address);
    StateDiff(address, before.balance, account.balance, before.nonce, account.nonce, proof, [], "")
  }

  class InMemoryStateManager {
    var accounts: AccountMap

    constructor ()
      ensures accounts == map[]
    {
      accounts := map[];
    }

    function GetAccount(address: Address): (account: Account)
      reads this
    {
      Get(accounts, address)
    }

    method SetAccount(address: Address, account: Account) returns (diff: StateDiff)
      modifies this
      ensures accounts == old(accounts)[address := account]
      ensures diff == DiffOf(old(accounts), address, account, [Sha256(AccountProof(Merkle.Root(accounts), address))])
    {
      var before := GetAccount(address);
      accounts := accounts[address := account];
      var root := Merkle.ComputeRoot(accounts);
      diff := StateDiff(address, before.balance, account.balance, before.nonce, account.nonce,
                        [Sha256(AccountProof(root, address))], [], "");
    }

    method CurrentRoot() returns (root: Hash)
      ensures root == Merkle.Root(accounts)
    {
      root := Merkle.ComputeRoot(accounts);
    }
  }
}

/** `SimpleTransactionEngine::execute_batch` and the fold that specifies it. */
module TxEngine {
  import opened Machine
  import opened Folds
  import opened Crypto
  import opened Accounts
  import opened ExecutorTypes
  import opened StateManager
  import opened Signing
  import Merkle

  /** Address recovery from a preimage and a 65-byte signature, and the unsigned-transaction switch. */
  datatype Verifier = Verifier(recover: (seq<byte>, seq<byte>) -> Option<Address>, allowUnsigned: bool)

  predicate VerifySignature(v: Verifier, tx: Transaction) {
    if tx.signature == [] then v.allowUnsigned
    else |tx.signature| == 65 && v.recover(ExecutorPreimage(tx), tx.signature) == Some(tx.from)
  }

  /** The inclusion cap that two batch id prefixes carry. */
  function MaxIncluded(batchId: string): nat {
    if "large1" <= batchId then 10 else if "large2" <= batchId then 50 else U64_MAX
  }

  function FoldDiff(previous: Hash, d: StateDiff): Hash {
    Sha256(DiffFold(previous, d.account, d.oldBalance, d.newBalance, d.oldNonce, d.newNonce))
  }

  // ---------- one transfer ----------

  predicate Spendable(accounts: AccountMap, tx: Transaction) {
    Get(accounts, tx.from).nonce == tx.nonce && Get(accounts, tx.from).balance >= tx.amount
  }

  function NewSender(accounts: AccountMap, tx: Transaction): Account
    requires Spendable(accounts, tx)
  {
    var pre := Get(accounts, tx.from);
    Account(pre.balance - tx.amount, SatAdd(pre.nonce, 1))
  }

  /** Computed from the receiver before the sender is written, also when both are one account. */
  function NewReceiver(accounts: AccountMap, tx: Transaction): Account {
    var pre := Get(accounts, tx.to);
    Account(SatAdd(pre.balance, tx.amount), pre.nonce)
  }

  function Transfer(accounts: AccountMap, tx: Transaction): AccountMap
    requires Spendable(accounts, tx)
  {
    accounts[tx.from := NewSender(accounts, tx)][tx.to := NewReceiver(accounts, tx)]
  }

  // ---------- a batch as a fold ----------

  datatype Progress = Progress(
    accounts: AccountMap, root: Hash,
    executed: seq<Transaction>, diffs: seq<StateDiff>, outcomes: seq<TxOutcome>)

  function Start(accounts: AccountMap, root: Hash): Progress {
    Progress(accounts, root, [], [], [])
  }

  /** The checks in order, on the sender's account and the number of inclusions so far. */
  function Decide(v: Verifier, cap: nat, sender: Account, included: nat, tx: Transaction): Option<Rejection> {
    if !VerifySignature(v, tx) then Some(InvalidSignature)
    else if sender.nonce != tx.nonce then Some(InvalidNonce)
    else if sender.balance < tx.amount then Some(InsufficientBalance)
    else if included >= cap then Some(BatchFull)
    else None
  }

  function Verdict(v: Verifier, cap: nat, p: Progress, tx: Transaction): Option<Rejection> {
    Decide(v, cap, Get(p.accounts, tx.from), |p.executed|, tx)
  }

  function Snapshot(address: Address, account: Account): AccountSnapshot {
    AccountSnapshot(address, account.balance, account.nonce)
  }

  /** The report on a transaction: the accounts before it and the accounts written for it. */
  function Outcome(tx: Transaction, rejection: Option<Rejection>, senderPre: Account, senderPost: Account,
                   receiverPre: Account, receiverPost: Account): TxOutcome
  {
    TxOutcome(Keccak256(ExecutorPreimage(tx)), rejection, Snapshot(tx.from, senderPre), Snapshot(tx.from, senderPost),
              Snapshot(tx.to, receiverPre), Snapshot(tx.to, receiverPost))
  }

  function Rejected(p: Progress, tx: Transaction, reason: Rejection): Progress {
    var sender, receiver := Get(p.accounts, tx.from), Get(p.accounts, tx.to);
    p.(outcomes := p.outcomes + [Outcome(tx, Some(reason), sender, sender, receiver, receiver)])
  }

  function SenderDiff(p: Progress, tx: Transaction): StateDiff
    requires Spendable(p.accounts, tx)
  {
    DiffOf(p.accounts, tx.from, NewSender(p.accounts, tx), [p.root])
  }

  function ReceiverDiff(p: Progress, tx: Transaction): StateDiff
    requires Spendable(p.accounts, tx)
  {
    DiffOf(p.accounts[tx.from := NewSender(p.accounts, tx)], tx.to, NewReceiver(p.accounts, tx),
           [FoldDiff(p.root, SenderDiff(p, tx))])
  }

  function Included(p: Progress, tx: Transaction): Progress
    requires Spendable(p.accounts, tx)
  {
    var d1, d2 := SenderDiff(p, tx), ReceiverDiff(p, tx);
    Progress(
      Transfer(p.accounts, tx), FoldDiff(FoldDiff(p.root, d1), d2), p.executed + [tx], p.diffs + [d1, d2],
      p.outcomes + [Outcome(tx, None, Get(p.accounts, tx.from), NewSender(p.accounts, tx),
                            Get(p.accounts, tx.to), NewReceiver(p.accounts, tx))])
  }

  function Step(v: Verifier, cap: nat, p: Progress, tx: Transaction): Progress {
    match Verdict(v, cap, p, tx)
    case Some(reason) => Rejected(p, tx, reason)
    case None => Included(p, tx)
  }

  function Stepper(v: Verifier, cap: nat): (Progress, Transaction) -> Progress {
    (p, tx) => Step(v, cap, p, tx)
  }

  function Run(v: Verifier, cap: nat, p: Progress, txs: seq<Transaction>): Progress {
    Fold(Stepper(v, cap), p, txs)
  }

  /** The whole batch, from an account map and the root that the state reports for it. */
  function RunBatch(v: Verifier, batchId: string, accounts: AccountMap, root: Hash, txs: seq<Transaction>): Progress {
    Run(v, MaxIncluded(batchId), Start(accounts, root), txs)
  }

  function TraceOf(batchId: string, initialRoot: Hash, p: Progress): ExecutionTrace {
    ExecutionTrace(batchId, initialRoot, p.root, p.executed, p.outcomes, p.diffs)
  }

  // ---------- the engine ----------

  class SimpleTransactionEngine {
    const state: InMemoryStateManager
    const verifier: Verifier

    constructor (state: InMemoryStateManager, verifier: Verifier)
      ensures this.state == state && this.verifier == verifier
    {
      this.state := state;
      this.verifier := verifier;
    }

    /** The two writes of an included transaction, each witnessed by the root before it. */
    method Write(tx: Transaction, sender: Account, receiver: Account, root: Hash)
      returns (senderDiff: StateDiff, receiverDiff: StateDiff, next: Hash)
      modifies state
      ensures state.accounts == old(state.accounts)[tx.from := sender][tx.to := receiver]
      ensures senderDiff == DiffOf(old(state.accounts), tx.from, sender, [root])
      ensures receiverDiff
              == DiffOf(old(state.accounts)[tx.from := sender], tx.to, receiver, [FoldDiff(root, senderDiff)])
      ensures next == FoldDiff(FoldDiff(root, senderDiff), receiverDiff)
    {
      senderDiff := state.SetAccount(tx.from, sender);
      senderDiff := senderDiff.(merkleProof := [root]);
      next := FoldDiff(root, senderDiff);
      receiverDiff := state.SetAccount(tx.to, receiver);
      receiverDiff := receiverDiff.(merkleProof := [next]);
      next := FoldDiff(next, receiverDiff);
    }

    /** The loop body for one transaction, from the progress in local variables. */
    method Execute(tx: Transaction, maxIncluded: nat, root: Hash, executed: seq<Transaction>,
                   diffs: seq<StateDiff>, outcomes: seq<TxOutcome>)
      returns (next: Hash, executed': seq<Transaction>, diffs': seq<StateDiff>, outcomes': seq<TxOutcome>)
      modifies state
      ensures Progress(state.accounts, next, executed', diffs', outcomes')
              == Step(verifier, maxIncluded, Progress(old(state.accounts), root, executed, diffs, outcomes), tx)
    {
      var senderPre := state.GetAccount(tx.from);
      var receiverPre := state.GetAccount(tx.to);
      var rejection := Decide(verifier, maxIncluded, senderPre, |executed|, tx);
      if rejection.Some? {
        return root, executed, diffs,
               outcomes + [Outcome(tx, rejection, senderPre, senderPre, receiverPre, receiverPre)];
      }
      var newSender := Account(senderPre.balance - tx.amount, SatAdd(senderPre.nonce, 1));
      var newReceiver := Account(SatAdd(receiverPre.balance, tx.amount), receiverPre.nonce);
      var senderDiff, receiverDiff;
      senderDiff, receiverDiff, next := Write(tx, newSender, newReceiver, root);
      diffs' := diffs + [senderDiff, receiverDiff];
      executed' := executed + [tx];
      outcomes' := outcomes + [Outcome(tx, None, senderPre, newSender, receiverPre, newReceiver)];
    }

    method ExecuteBatch(batchId: string, transactions: seq<Transaction>) returns (trace: ExecutionTrace)
      modifies state
      ensures var p := RunBatch(verifier, batchId, old(state.accounts), Merkle.Root(old(state.accounts)), transactions);
              state.accounts == p.accounts && trace == TraceOf(batchId, Merkle.Root(old(state.accounts)), p)
    {
      var initialRoot := state.CurrentRoot();
      var proverRoot := initialRoot;
      var executed: seq<Transaction>, diffs: seq<StateDiff>, outcomes: seq<TxOutcome> := [], [], [];
      ghost var step, start := Stepper(verifier, MaxIncluded(batchId)), Start(state.accounts, initialRoot);
      for i := 0 to |transactions|
        invariant Progress(state.accounts, proverRoot, executed, diffs, outcomes)
                  == Fold(step, start, transactions[..i])
      {
        FoldPrefix(step, start, transactions, i);
        proverRoot, executed, diffs, outcomes :=
          Execute(transactions[i], MaxIncluded(batchId), proverRoot, executed, diffs, outcomes);
      }
      assert transactions[..|transactions|] == transactions;
      trace := ExecutionTrace(batchId, initialRoot, proverRoot, executed, outcomes, diffs);
    }
  }
}
