/** Admission at the API: the pessimistic state cache, the validator and the handler that uses them. */
module Admission {
  import opened Machine
  import opened SequencerTypes
  import opened Signing
  import opened Pool

  datatype AccountState = AccountState(address: Address, balance: u256, nonce: u64)

  type Cache = map<Address, AccountState>

  /** Address recovery from a preimage and a signature. */
  type Recover = (seq<byte>, seq<byte>) -> Option<Address>

  function GetOrInit(cache: Cache, a: Address): AccountState {
    if a in cache then cache[a] else AccountState(a, 0, 0)
  }

  /** `+= 1` on a u64 in a release build */
  function NextNonce(nonce: u64): u64 {
    if nonce == U64_MAX then 0 else nonce + 1
  }

  /** The nonce wraps as in a release build; an unknown account is created with nonce 1. */
  function WithNonce(cache: Cache, a: Address): Cache {
    if a in cache then
      cache[a := cache[a].(nonce := NextNonce(cache[a].nonce))]
    else cache[a := AccountState(a, 0, 1)]
  }

  /** Saturating at zero; an unknown account has nothing to deduct from. */
  function WithDeduction(cache: Cache, a: Address, amount: u256): Cache {
    if a in cache then cache[a := cache[a].(balance := SatSub(cache[a].balance, amount))] else cache
  }

  class StateCache {
    var accounts: Cache

    constructor ()
      ensures accounts == map[]
    {
      accounts := map[];
    }

    method IncrementNonce(a: Address)
      modifies this
      ensures accounts == WithNonce(old(accounts), a)
    {
      if a in accounts {
        accounts := accounts[a := accounts[a].(nonce := NextNonce(accounts[a].nonce))];
      } else {
        accounts := accounts[a := AccountState(a, 0, 1)];
      }
    }

    method DeductBalance(a: Address, amount: u256)
      modifies this
      ensures accounts == WithDeduction(old(accounts), a, amount)
    {
      if a in accounts {
        accounts := accounts[a := accounts[a].(balance := SatSub(accounts[a].balance, amount))];
      }
    }
  }

  // ---------- validation ----------

  /** The last case is a panic: 256-bit arithmetic on the price or the cost overflowed. */
  datatype ValidationError =
    | InvalidSignature
    | InvalidNonce(expected: u64, got: u64)
    | InsufficientBalance(required: u256, available: u256)
    | CostOverflow

  /** value + gas price * gas limit */
  function Cost(tx: UserTransaction): (cost: nat)
    ensures cost >= tx.value
  {
    tx.value + tx.gasPrice * tx.gasLimit
  }

  function Validate(recover: Recover, cache: Cache, tx: UserTransaction): Result<(), ValidationError> {
    var account := GetOrInit(cache, tx.from);
    if recover(SequencerPreimage(tx), tx.signature) != Some(tx.from) then Err(InvalidSignature)
    else if tx.nonce != account.nonce then Err(InvalidNonce(account.nonce, tx.nonce))
    else if Cost(tx) >= U256_LIMIT then Err(CostOverflow)
    else if account.balance < Cost(tx) then Err(InsufficientBalance(Cost(tx), account.balance))
    else Ok(())
  }

  // ---------- the handler ----------

  datatype Front = Front(cache: Cache, pool: seq<PooledTransaction>)

  function Pooled(tx: UserTransaction, arrivedAt: u64, enteredAt: u64): PooledTransaction {
    PooledTransaction(tx, arrivedAt, enteredAt, SatSub(enteredAt, arrivedAt))
  }

  /** Validate, deduct, increment, add; a refused transaction changes nothing. */
  function Handle(recover: Recover, f: Front, tx: UserTransaction, arrivedAt: u64, enteredAt: u64): Front {
    if Validate(recover, f.cache, tx).Ok? then
      Front(WithNonce(WithDeduction(f.cache, tx.from, Cost(tx)), tx.from), f.pool + [Pooled(tx, arrivedAt, enteredAt)])
    else f
  }

  class ApiServer {
    const stateCache: StateCache
    const txPool: TransactionPool
    const recover: Recover

    constructor (stateCache: StateCache, txPool: TransactionPool, recover: Recover)
      ensures this.stateCache == stateCache && this.txPool == txPool && this.recover == recover
    {
      this.stateCache, this.txPool, this.recover := stateCache, txPool, recover;
    }

    method HandleTransaction(tx: UserTransaction, arrivedAt: u64, enteredAt: u64)
      returns (status: Result<(), ValidationError>)
      modifies stateCache, txPool
      ensures status == Validate(recover, old(stateCache.accounts), tx)
      ensures Front(stateCache.accounts, txPool.transactions)
              == Handle(recover, old(Front(stateCache.accounts, txPool.transactions)), tx, arrivedAt, enteredAt)
    {
      status := Validate(recover, stateCache.accounts, tx);
      if status.Ok? {
        stateCache.DeductBalance(tx.from, Cost(tx));
        stateCache.IncrementNonce(tx.from);
        txPool.Add(Pooled(tx, arrivedAt, enteredAt));
      }
    }
  }
}
