/** The 152 bytes that a user signs, as the sequencer and as the executor build them. */
module Signing {
  import opened Machine
  import opened Bytes
  import opened ExecutorTypes
  import S = SequencerTypes

  function BoostOrZero(tx: S.UserTransaction): u256 {
    match tx.boostBid case Some(bid) => bid case None => 0
  }

  /** `UserTransaction::hash` before Keccak */
  function SequencerPreimage(tx: S.UserTransaction): seq<byte> {
    tx.from + tx.to
    + BigEndian(32, tx.value)
    + BigEndian(8, tx.nonce)
    + BigEndian(32, tx.gasPrice)
    + BigEndian(8, tx.timestamp)
    + (match tx.boostBid case Some(bid) => BigEndian(32, bid) case None => Zeros(32))
  }

  /** `u64_to_u256_be` */
  function U64ToU256(v: u64): seq<byte> {
    Zeros(24) + BigEndian(8, v)
  }

  /** `tx_hash_prehash` before Keccak */
  function ExecutorPreimage(tx: Transaction): seq<byte> {
    tx.from + tx.to
    + U64ToU256(tx.amount)
    + BigEndian(8, tx.nonce)
    + U64ToU256(tx.gasPrice)
    + BigEndian(8, tx.timestamp)
    + U64ToU256(tx.boostBid)
  }

  lemma U64ToU256IsBigEndian(v: u64)
    ensures U64ToU256(v) == BigEndian(32, v)
  {
    Widths();
    BigEndianWidens(24, 8, v);
  }

  /** Every payload the executor accepts is verified over the bytes that the sequencer verified. */
  lemma PreimagesAgree(u: S.UserTransaction, tx: Transaction)
    requires Normalize(WireNormal(u)) == Ok(tx)
    ensures SequencerPreimage(u) == ExecutorPreimage(tx)
    ensures |ExecutorPreimage(tx)| == 152
  {
    U64ToU256IsBigEndian(tx.amount);
    U64ToU256IsBigEndian(tx.gasPrice);
    U64ToU256IsBigEndian(tx.boostBid);
    BigEndianOfZero(32);
  }

  /** The seven signed fields; the gas limit and the signature are not among them. */
  ghost predicate SameSignedFields(a: S.UserTransaction, b: S.UserTransaction) {
    && a.from == b.from && a.to == b.to && a.value == b.value && a.nonce == b.nonce
    && a.gasPrice == b.gasPrice && a.timestamp == b.timestamp && BoostOrZero(a) == BoostOrZero(b)
  }

  lemma SplitEqual(a1: seq<byte>, b1: seq<byte>, a2: seq<byte>, b2: seq<byte>)
    requires |b1| == |b2|
    requires a1 + b1 == a2 + b2
    ensures a1 == a2 && b1 == b2
  {
    assert |a1| == |a2| by { assert |a1 + b1| == |a2 + b2|; }
    assert a1 == (a1 + b1)[..|a1|] == (a2 + b2)[..|a2|] == a2;
    assert b1 == (a1 + b1)[|a1|..] == (a2 + b2)[|a2|..] == b2;
  }

  /** The preimage determines exactly the seven signed fields. */
  lemma PreimageInjective(a: S.UserTransaction, b: S.UserTransaction)
    ensures SequencerPreimage(a) == SequencerPreimage(b) <==> SameSignedFields(a, b)
  {
    Widths();
    BigEndianOfZero(32);
    BigEndianInjective(32, a.value, b.value);
    BigEndianInjective(8, a.nonce, b.nonce);
    BigEndianInjective(32, a.gasPrice, b.gasPrice);
    BigEndianInjective(8, a.timestamp, b.timestamp);
    BigEndianInjective(32, BoostOrZero(a), BoostOrZero(b));
    if SequencerPreimage(a) == SequencerPreimage(b) {
      var a6, b6 := a.from + a.to + BigEndian(32, a.value) + BigEndian(8, a.nonce) + BigEndian(32, a.gasPrice),
                    b.from + b.to + BigEndian(32, b.value) + BigEndian(8, b.nonce) + BigEndian(32, b.gasPrice);
      SplitEqual(a6 + BigEndian(8, a.timestamp), BigEndian(32, BoostOrZero(a)),
                 b6 + BigEndian(8, b.timestamp), BigEndian(32, BoostOrZero(b)));
      SplitEqual(a6, BigEndian(8, a.timestamp), b6, BigEndian(8, b.timestamp));
      var a4, b4 := a.from + a.to + BigEndian(32, a.value), b.from + b.to + BigEndian(32, b.value);
      SplitEqual(a4 + BigEndian(8, a.nonce), BigEndian(32, a.gasPrice),
                 b4 + BigEndian(8, b.nonce), BigEndian(32, b.gasPrice));
      SplitEqual(a4, BigEndian(8, a.nonce), b4, BigEndian(8, b.nonce));
      SplitEqual(a.from + a.to, BigEndian(32, a.value), b.from + b.to, BigEndian(32, b.value));
      SplitEqual(a.from, a.to, b.from, b.to);
    }
  }
}
