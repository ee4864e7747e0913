/** Fixed-width integer encodings. */
module Bytes {
  import opened Machine

  /** 256^n */
  function Pow256(n: nat): (p: nat)
    ensures p > 0
  {
    if n == 0 then 1 else 256 * Pow256(n - 1)
  }

  /** `to_be_bytes` / `to_big_endian` into `n` bytes */
  function BigEndian(n: nat, v: nat): (b: seq<byte>)
    ensures |b| == n
  {
    if n == 0 then [] else BigEndian(n - 1, v / 256) + [v % 256]
  }

  /** `from_be_bytes` / `from_big_endian` */
  function FromBigEndian(b: seq<byte>): (v: nat)
    ensures v < Pow256(|b|)
  {
    if b == [] then 0 else 256 * FromBigEndian(b[..|b| - 1]) + b[|b| - 1]
  }

  /** The fixed-width little-endian form that bincode writes */
  function LittleEndian(n: nat, v: nat): (b: seq<byte>)
    ensures |b| == n
  {
    if n == 0 then [] else [v % 256] + LittleEndian(n - 1, v / 256)
  }

  function FromLittleEndian(b: seq<byte>): (v: nat)
    ensures v < Pow256(|b|)
  {
    if b == [] then 0 else b[0] + 256 * FromLittleEndian(b[1..])
  }

  function Zeros(n: nat): (b: seq<byte>) {
    seq(n, _ => 0)
  }

  lemma {:induction false} BigEndianRoundTrip(n: nat, v: nat)
    requires v < Pow256(n)
    ensures FromBigEndian(BigEndian(n, v)) == v
  {
    if n > 0 {
      BigEndianRoundTrip(n - 1, v / 256);
      assert BigEndian(n, v)[..n - 1] == BigEndian(n - 1, v / 256);
    }
  }

  lemma {:induction false} FromBigEndianInjective(a: seq<byte>, b: seq<byte>)
    requires |a| == |b|
    requires FromBigEndian(a) == FromBigEndian(b)
    ensures a == b
  {
    if a != [] {
      var n := |a| - 1;
      FromBigEndianInjective(a[..n], b[..n]);
      assert a == a[..n] + [a[n]] && b == b[..n] + [b[n]];
    }
  }

  lemma {:induction false} LittleEndianRoundTrip(n: nat, v: nat)
    requires v < Pow256(n)
    ensures FromLittleEndian(LittleEndian(n, v)) == v
  {
    if n > 0 {
      LittleEndianRoundTrip(n - 1, v / 256);
      assert LittleEndian(n, v)[1..] == LittleEndian(n - 1, v / 256);
    }
  }

  lemma BigEndianInjective(n: nat, v: nat, w: nat)
    requires v < Pow256(n) && w < Pow256(n)
    ensures BigEndian(n, v) == BigEndian(n, w) <==> v == w
  {
    BigEndianRoundTrip(n, v);
    BigEndianRoundTrip(n, w);
  }

  lemma {:induction false} BigEndianOfZero(n: nat)
    ensures BigEndian(n, 0) == Zeros(n)
  {
    if n > 0 {
      BigEndianOfZero(n - 1);
      assert Zeros(n) == Zeros(n - 1) + [0];
    }
  }

  /** A value that fits `n` bytes is zero-extended by a wider encoding. */
  lemma {:induction false} BigEndianWidens(extra: nat, n: nat, v: nat)
    requires v < Pow256(n)
    ensures BigEndian(extra + n, v) == Zeros(extra) + BigEndian(n, v)
    decreases n
  {
    if n == 0 {
      BigEndianOfZero(extra);
    } else {
      BigEndianWidens(extra, n - 1, v / 256);
    }
  }

  lemma Widths()
    ensures Pow256(8) == TWO_64
    ensures Pow256(32) == 0x1_0000000000000000_0000000000000000_0000000000000000_0000000000000000
  {
    assert Pow256(16) == TWO_64 * TWO_64 by {
      assert Pow256(4) == 0x1_0000_0000;
      assert Pow256(8) == TWO_64;
      assert Pow256(12) == 0x1_0000_0000 * TWO_64;
    }
    assert Pow256(20) == 0x1_0000_0000 * Pow256(16);
    assert Pow256(24) == 0x1_0000_0000 * Pow256(20);
    assert Pow256(28) == 0x1_0000_0000 * Pow256(24);
  }
}
