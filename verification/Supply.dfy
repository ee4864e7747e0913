/** Conservation of the total balance. */
module Supply {
  import opened Machine
  import opened Crypto
  import opened Accounts
  import opened ExecutorTypes
  import opened TxEngine
  import opened EngineHistory

  ghost function Total(accounts: AccountMap): nat
    decreases |accounts|
  {
    if accounts == map[] then 0
    else var a :| a in accounts; accounts[a].balance + Total(accounts - {a})
  }

  /** The total does not depend on which account is taken out first. */
  lemma {:induction false} TotalWithout(accounts: AccountMap, a: Address)
    ensures Total(accounts) == Get(accounts, a).balance + Total(accounts - {a})
    decreases |accounts|
  {
    if a !in accounts {
      assert accounts - {a} == accounts;
    } else {
      var b :| b in accounts && Total(accounts) == accounts[b].balance + Total(accounts - {b});
      if a != b {
        TotalWithout(accounts - {b}, a);
        TotalWithout(accounts - {a}, b);
        assert accounts - {a} - {b} == accounts - {b} - {a};
      }
    }
  }

  lemma TotalWrite(accounts: AccountMap, a: Address, account: Account)
    ensures Total(accounts[a := account]) == Total(accounts) - Get(accounts, a).balance + account.balance
  {
    TotalWithout(accounts, a);
    TotalWithout(accounts[a := account], a);
    assert accounts[a := account] - {a} == accounts - {a};
  }

  lemma TwoBalances(accounts: AccountMap, a: Address, b: Address)
    requires a != b
    ensures Get(accounts, a).balance + Get(accounts, b).balance <= Total(accounts)
  {
    TotalWithout(accounts, a);
    TotalWithout(accounts - {a}, b);
  }

  // ---------- one transfer, every case ----------

  /** What the receiver's saturating addition drops. */
  function Lost(accounts: AccountMap, tx: Transaction): nat {
    if tx.from == tx.to then 0 else SatSub(Get(accounts, tx.to).balance + tx.amount, U64_MAX)
  }

  /** What a self-transfer creates, because its second write starts from the balance before the debit. */
  function Created(accounts: AccountMap, tx: Transaction): nat {
    if tx.from == tx.to then Min(tx.amount, U64_MAX - Get(accounts, tx.to).balance) else 0
  }

  lemma TransferAccounting(accounts: AccountMap, tx: Transaction)
    requires Spendable(accounts, tx)
    ensures Total(Transfer(accounts, tx)) + Lost(accounts, tx) == Total(accounts) + Created(accounts, tx)
  {
    var mid := accounts[tx.from := NewSender(accounts, tx)];
    TotalWrite(accounts, tx.from, NewSender(accounts, tx));
    TotalWrite(mid, tx.to, NewReceiver(accounts, tx));
  }

  // ---------- histories ----------

  ghost function LostOver(accounts: AccountMap, history: seq<Transaction>): nat
    requires ValidHistory(accounts, history)
    decreases |history|
  {
    if history == [] then 0
    else var n := |history| - 1;
         LostOver(accounts, history[..n]) + Lost(After(accounts, history[..n]), history[n])
  }

  ghost function CreatedOver(accounts: AccountMap, history: seq<Transaction>): nat
    requires ValidHistory(accounts, history)
    decreases |history|
  {
    if history == [] then 0
    else var n := |history| - 1;
         CreatedOver(accounts, history[..n]) + Created(After(accounts, history[..n]), history[n])
  }

  /** Exact accounting over any history: nothing else moves the total. */
  lemma {:induction false} SupplyAccounting(accounts: AccountMap, history: seq<Transaction>)
    requires ValidHistory(accounts, history)
    ensures Total(After(accounts, history)) + LostOver(accounts, history)
            == Total(accounts) + CreatedOver(accounts, history)
    decreases |history|
  {
    if history != [] {
      var n := |history| - 1;
      SupplyAccounting(accounts, history[..n]);
      TransferAccounting(After(accounts, history[..n]), history[n]);
    }
  }

  ghost predicate NoSelfTransfer(history: seq<Transaction>) {
    forall i :: 0 <= i < |history| ==> history[i].from != history[i].to
  }

  lemma {:induction false} NoSelfCreatesNothing(accounts: AccountMap, history: seq<Transaction>)
    requires ValidHistory(accounts, history) && NoSelfTransfer(history)
    ensures CreatedOver(accounts, history) == 0
    ensures Total(accounts) <= U64_MAX ==> LostOver(accounts, history) == 0
    decreases |history|
  {
    if history != [] {
      var n := |history| - 1;
      NoSelfCreatesNothing(accounts, history[..n]);
      SupplyAccounting(accounts, history[..n]);
      TwoBalances(After(accounts, history[..n]), history[n].from, history[n].to);
    }
  }

  /**
   * Over any sequence of batches without a self-transfer the total never increases, and it is constant,
   * with no credit ever saturating, when it starts within u64.
   */
  lemma SupplyConserved(v: Verifier, accounts: AccountMap, roots: seq<Hash>, batches: seq<SealedBatch>)
    requires |roots| == |batches|
    requires NoSelfTransfer(RunBatches(v, accounts, roots, batches).1)
    ensures var (end, history) := RunBatches(v, accounts, roots, batches);
            && Total(end) <= Total(accounts)
            && (Total(accounts) <= U64_MAX ==>
                  && Total(end) == Total(accounts)
                  && ValidHistory(accounts, history)
                  && LostOver(accounts, history) == 0)
  {
    BatchesAreHistory(v, accounts, roots, batches);
    var history := RunBatches(v, accounts, roots, batches).1;
    SupplyAccounting(accounts, history);
    NoSelfCreatesNothing(accounts, history);
  }

  /** One transfer within a u64 supply keeps the total exactly when it is not a self-transfer that creates funds. */
  lemma TransferConservesIff(accounts: AccountMap, tx: Transaction)
    requires Spendable(accounts, tx) && Total(accounts) <= U64_MAX
    ensures Total(Transfer(accounts, tx)) == Total(accounts)
            <==> tx.from != tx.to || tx.amount == 0 || Get(accounts, tx.from).balance == U64_MAX
  {
    TransferAccounting(accounts, tx);
    if tx.from != tx.to {
      TwoBalances(accounts, tx.from, tx.to);
    }
  }
}
