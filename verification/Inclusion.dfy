/** Nonces: when each (sender, nonce) is included at most once, consecutively and in order. */
module Inclusion {
  import opened Machine
  import opened Crypto
  import opened Accounts
  import opened ExecutorTypes
  import opened TxEngine
  import opened EngineHistory

  /** An inclusion that moves its sender's nonce: no self-transfer, and not at the saturated maximum. */
  predicate Advances(tx: Transaction) {
    tx.from != tx.to && tx.nonce < U64_MAX
  }

  /** The number of the sender's inclusions among the first `n`. */
  function Sent(history: seq<Transaction>, n: nat, sender: Address): nat
    requires n <= |history|
  {
    if n == 0 then 0 else Sent(history, n - 1, sender) + if history[n - 1].from == sender then 1 else 0
  }

  predicate AdvancesFor(tx: Transaction, sender: Address) {
    tx.from == sender && Advances(tx)
  }

  /** The number of those that moved its nonce. */
  function Advanced(history: seq<Transaction>, n: nat, sender: Address): nat
    requires n <= |history|
  {
    if n == 0 then 0 else Advanced(history, n - 1, sender) + if AdvancesFor(history[n - 1], sender) then 1 else 0
  }

  lemma TransferMovesNonce(accounts: AccountMap, tx: Transaction, sender: Address)
    requires Spendable(accounts, tx)
    ensures Get(Transfer(accounts, tx), sender).nonce
            == Get(accounts, sender).nonce + if AdvancesFor(tx, sender) then 1 else 0
  {
  }

  /** In every history a nonce has moved by exactly the inclusions that advance it. */
  lemma {:induction false} NonceAccounting(accounts: AccountMap, history: seq<Transaction>, n: nat, sender: Address)
    requires ValidHistory(accounts, history) && n <= |history|
    ensures ValidHistory(accounts, history[..n])
    ensures Get(After(accounts, history[..n]), sender).nonce
            == Get(accounts, sender).nonce + Advanced(history, n, sender)
    decreases n
  {
    HistoryPrefix(accounts, history, n);
    if n > 0 {
      NonceAccounting(accounts, history, n - 1, sender);
      HistoryStep(accounts, history, n - 1);
      TransferMovesNonce(After(accounts, history[..n - 1]), history[n - 1], sender);
    }
  }

  lemma NonceAt(accounts: AccountMap, history: seq<Transaction>, i: nat)
    requires ValidHistory(accounts, history) && i < |history|
    ensures history[i].nonce == Get(accounts, history[i].from).nonce + Advanced(history, i, history[i].from)
  {
    HistoryPrefix(accounts, history, i);
    NonceAccounting(accounts, history, i, history[i].from);
  }

  lemma {:induction false} AdvancedGrows(history: seq<Transaction>, i: nat, j: nat, sender: Address)
    requires i <= j <= |history|
    ensures Advanced(history, i, sender) <= Advanced(history, j, sender)
    decreases j
  {
    if i < j {
      AdvancedGrows(history, i, j - 1, sender);
    }
  }

  lemma {:induction false} AdvancedIdle(history: seq<Transaction>, i: nat, j: nat, sender: Address)
    requires i <= j <= |history| && forall k :: i <= k < j ==> history[k].from != sender
    ensures Advanced(history, i, sender) == Advanced(history, j, sender)
    decreases j
  {
    if i < j {
      AdvancedIdle(history, i, j - 1, sender);
    }
  }

  lemma {:induction false} AdvancedAtMostSent(history: seq<Transaction>, n: nat, sender: Address)
    requires n <= |history|
    ensures Advanced(history, n, sender) <= Sent(history, n, sender)
    ensures Advanced(history, n, sender) == Sent(history, n, sender)
            <==> forall i :: 0 <= i < n && history[i].from == sender ==> Advances(history[i])
    decreases n
  {
    if n > 0 {
      AdvancedAtMostSent(history, n - 1, sender);
    }
  }

  /** An inclusion carries its sender's initial nonce plus its number exactly when all earlier ones advanced. */
  lemma ConsecutiveNonces(accounts: AccountMap, history: seq<Transaction>, j: nat)
    requires ValidHistory(accounts, history) && j < |history|
    ensures history[j].nonce == Get(accounts, history[j].from).nonce + Sent(history, j, history[j].from)
            <==> forall i :: 0 <= i < j && history[i].from == history[j].from ==> Advances(history[i])
  {
    NonceAt(accounts, history, j);
    AdvancedAtMostSent(history, j, history[j].from);
  }

  // ---------- at most once ----------

  /** No two inclusions share sender and nonce. */
  ghost predicate IncludedOnce(history: seq<Transaction>) {
    forall i, j :: 0 <= i < j < |history| && history[i].from == history[j].from ==> history[i].nonce != history[j].nonce
  }

  /** Only a sender's last inclusion may leave its nonce where it was. */
  ghost predicate OnlyLastStalls(history: seq<Transaction>) {
    forall i, j :: 0 <= i < j < |history| && history[i].from == history[j].from ==> Advances(history[i])
  }

  lemma {:induction false} NextOfSender(history: seq<Transaction>, i: nat, j: nat) returns (next: nat)
    requires i < j < |history| && history[i].from == history[j].from
    ensures i < next <= j && history[next].from == history[i].from
    ensures forall k :: i < k < next ==> history[k].from != history[i].from
    decreases j
  {
    if k :| i < k < j && history[k].from == history[i].from {
      next := NextOfSender(history, i, k);
    } else {
      next := j;
    }
  }

  lemma StallRepeats(accounts: AccountMap, history: seq<Transaction>, i: nat, j: nat)
    requires ValidHistory(accounts, history)
    requires i < j < |history| && history[i].from == history[j].from && !Advances(history[i])
    ensures !IncludedOnce(history)
  {
    var next := NextOfSender(history, i, j);
    NonceAt(accounts, history, i);
    NonceAt(accounts, history, next);
    AdvancedIdle(history, i + 1, next, history[i].from);
  }

  lemma AdvanceOrders(accounts: AccountMap, history: seq<Transaction>, i: nat, j: nat)
    requires ValidHistory(accounts, history)
    requires i < j < |history| && history[i].from == history[j].from && Advances(history[i])
    ensures history[i].nonce < history[j].nonce
  {
    NonceAt(accounts, history, i);
    NonceAt(accounts, history, j);
    AdvancedGrows(history, i + 1, j, history[i].from);
  }

  /**
   * Over any sequence of batches, re-executed ones included, a (sender, nonce) pair is included at most once
   * exactly when no sender goes on after an inclusion that leaves its nonce; then a sender's nonces ascend.
   */
  lemma SingleInclusion(v: Verifier, accounts: AccountMap, roots: seq<Hash>, batches: seq<SealedBatch>)
    requires |roots| == |batches|
    ensures var (end, history) := RunBatches(v, accounts, roots, batches);
            && (IncludedOnce(history) <==> OnlyLastStalls(history))
            && (OnlyLastStalls(history) ==>
                  forall i, j :: 0 <= i < j < |history| && history[i].from == history[j].from ==>
                    history[i].nonce < history[j].nonce)
            && (forall sender: Address ::
                  Get(end, sender).nonce == Get(accounts, sender).nonce + Sent(history, |history|, sender)
                  <==> forall i :: 0 <= i < |history| && history[i].from == sender ==> Advances(history[i]))
  {
    BatchesAreHistory(v, accounts, roots, batches);
    var history := RunBatches(v, accounts, roots, batches).1;
    forall i, j | 0 <= i < j < |history| && history[i].from == history[j].from
      ensures Advances(history[i]) ==> history[i].nonce < history[j].nonce
      ensures !Advances(history[i]) ==> !IncludedOnce(history)
    {
      if Advances(history[i]) {
        AdvanceOrders(accounts, history, i, j);
      } else {
        StallRepeats(accounts, history, i, j);
      }
    }
    forall sender: Address
      ensures Get(After(accounts, history), sender).nonce
              == Get(accounts, sender).nonce + Sent(history, |history|, sender)
              <==> forall i :: 0 <= i < |history| && history[i].from == sender ==> Advances(history[i])
    {
      NonceAccounting(accounts, history, |history|, sender);
      AdvancedAtMostSent(history, |history|, sender);
      assert history[..|history|] == history;
    }
  }

  /** Exactly which included transactions could be included once more right away. */
  lemma ReplayableIff(accounts: AccountMap, tx: Transaction)
    requires Spendable(accounts, tx)
    ensures Spendable(Transfer(accounts, tx), tx)
            <==> tx.from == tx.to || (tx.nonce == U64_MAX && Get(accounts, tx.from).balance >= 2 * tx.amount)
  {
    if tx.from == tx.to {
      assert Get(Transfer(accounts, tx), tx.from) == NewReceiver(accounts, tx);
    } else {
      assert Get(Transfer(accounts, tx), tx.from) == NewSender(accounts, tx);
    }
  }
}
