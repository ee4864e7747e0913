/** The sequencer's transactions and the estimates it makes about them. */
module SequencerTypes {
  import opened Machine

  /** The 65-byte r, s, v form of an ECDSA signature. */
  type Signature = s: seq<byte> | |s| == 65 witness seq(65, _ => 0)

  datatype UserTransaction = UserTransaction(
    from: Address, to: Address, value: u256, nonce: u64, gasPrice: u256, gasLimit: u64,
    signature: Signature, timestamp: u64, boostBid: Option<u256>)

  datatype PooledTransaction = PooledTransaction(
    tx: UserTransaction, arrivedAt: u64, poolEntryAt: u64, validationLatencyMs: u64)

  datatype ForcedEventType = Deposit | ForcedExit

  datatype ForcedTransaction = ForcedTransaction(
    txHash: nat, from: Address, to: Address, value: u256, nonce: u64, gasLimit: u64,
    l1TxHash: nat, l1BlockNumber: u64, eventType: ForcedEventType, timestamp: u64)

  datatype Transaction = Normal(pooled: PooledTransaction) | Forced(forced: ForcedTransaction)

  datatype Batch = Batch(batchId: nat, transactions: seq<Transaction>)

  function GasLimit(tx: Transaction): u64 {
    match tx
    case Normal(ptx) => ptx.tx.gasLimit
    case Forced(ftx) => ftx.gasLimit
  }

  /** `to_string` of an unsigned integer */
  function Decimal(n: nat): (s: string)
    ensures s != [] && forall c :: c in s ==> '0' <= c <= '9'
  {
    var digit := ('0' as int + n % 10) as char;
    if n < 10 then [digit] else Decimal(n / 10) + [digit]
  }

  function Digits(n: nat): nat {
    |Decimal(n)|
  }

  function PooledBytes(ptx: PooledTransaction): nat {
    20 + 20 + 32 + 8 + 32 + 8 + 65
    + Digits(ptx.tx.value) + Digits(ptx.tx.gasPrice) + Digits(ptx.tx.nonce)
    + Digits(ptx.tx.gasLimit) + Digits(ptx.tx.timestamp)
    + (match ptx.tx.boostBid case Some(bid) => Digits(bid) case None => 4)
  }

  function ForcedBytes(ftx: ForcedTransaction): nat {
    20 + 20 + 32 + 8 + 32 + 8 + 8
    + Digits(ftx.value) + Digits(ftx.nonce) + Digits(ftx.gasLimit)
    + Digits(ftx.l1BlockNumber) + Digits(ftx.timestamp)
  }
}
