/** What the executor parses from a published batch and what it reports about running it. */
module ExecutorTypes {
  import opened Machine
  import opened Crypto
  import SequencerTypes

  datatype Transaction = Transaction(
    from: Address, to: Address, amount: u64, nonce: u64, signature: seq<byte>,
    gasPrice: u64, gasLimit: u64, timestamp: u64, boostBid: u64)

  datatype WitnessPathElement = WitnessPathElement(siblingHash: Hash, siblingIsLeft: bool)

  datatype StateDiff = StateDiff(
    account: Address, oldBalance: u64, newBalance: u64, oldNonce: u64, newNonce: u64,
    merkleProof: seq<Hash>, witnessPath: seq<WitnessPathElement>, leafEncoding: string)

  datatype AccountSnapshot = AccountSnapshot(address: Address, balance: u64, nonce: u64)

  datatype Rejection = InvalidSignature | InvalidNonce | InsufficientBalance | BatchFull

  datatype TxOutcome = TxOutcome(
    txHash: Digest, rejection: Option<Rejection>,
    senderPre: AccountSnapshot, senderPost: AccountSnapshot,
    receiverPre: AccountSnapshot, receiverPost: AccountSnapshot)
  {
    predicate Included() { rejection.None? }
  }

  datatype ExecutionTrace = ExecutionTrace(
    batchId: string, initialRoot: Hash, finalRoot: Hash,
    executed: seq<Transaction>, outcomes: seq<TxOutcome>, diffs: seq<StateDiff>)

  /** The transaction shape on the wire: pool metadata and L1 provenance are stripped. */
  datatype WireTransaction =
    | WireNormal(tx: SequencerTypes.UserTransaction)
    | WireForced(from: Address, to: Address, value: u256, nonce: u64, gasLimit: u64, timestamp: u64)

  /** `executor_batch_data` */
  function ToWire(tx: SequencerTypes.Transaction): WireTransaction {
    match tx
    case Normal(ptx) => WireNormal(ptx.tx)
    case Forced(f) => WireForced(f.from, f.to, f.value, f.nonce, f.gasLimit, f.timestamp)
  }

  /** The last case is a panic in the executor: `as_u64` on a bid that does not fit. */
  datatype PayloadError = ValueExceedsU64 | GasPriceExceedsU64 | BoostBidPanic

  function Normalize(wire: WireTransaction): Result<Transaction, PayloadError> {
    match wire
    case WireNormal(n) =>
      if n.value > U64_MAX then Err(ValueExceedsU64)
      else if n.gasPrice > U64_MAX then Err(GasPriceExceedsU64)
      else if n.boostBid.Some? && n.boostBid.value > U64_MAX then Err(BoostBidPanic)
      else Ok(Transaction(n.from, n.to, n.value, n.nonce, n.signature, n.gasPrice, n.gasLimit, n.timestamp,
                          if n.boostBid.Some? then n.boostBid.value else 0))
    case WireForced(from, to, value, nonce, gasLimit, timestamp) =>
      if value > U64_MAX then Err(ValueExceedsU64)
      else Ok(Transaction(from, to, value, nonce, [], 0, gasLimit, timestamp, 0))
  }

  /** One transaction that does not fit rejects the whole payload. */
  function NormalizeAll(wires: seq<WireTransaction>): Result<seq<Transaction>, PayloadError> {
    if wires == [] then Ok([])
    else
      match Normalize(wires[0])
      case Err(e) => Err(e)
      case Ok(tx) =>
        match NormalizeAll(wires[1..])
        case Err(e) => Err(e)
        case Ok(rest) => Ok([tx] + rest)
  }

  lemma {:induction false} NormalizeAllAt(wires: seq<WireTransaction>)
    ensures NormalizeAll(wires).Ok? <==> forall i :: 0 <= i < |wires| ==> Normalize(wires[i]).Ok?
    ensures NormalizeAll(wires).Ok? ==>
              && |NormalizeAll(wires).value| == |wires|
              && forall i :: 0 <= i < |wires| ==> Normalize(wires[i]) == Ok(NormalizeAll(wires).value[i])
  {
    if wires != [] {
      NormalizeAllAt(wires[1..]);
      assert forall i :: 0 < i < |wires| ==> wires[i] == wires[1..][i - 1];
    }
  }
}
