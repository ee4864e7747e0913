/** Machine integers and the two wrapper datatypes used throughout the model. */
module Machine {

  const U64_MAX: nat := 0xFFFF_FFFF_FFFF_FFFF
  const TWO_64: nat := 0x1_0000_0000_0000_0000
  const U256_LIMIT: nat := 0x1_0000000000000000_0000000000000000_0000000000000000_0000000000000000

  type byte = x: int | 0 <= x < 0x100
  type u64 = x: int | 0 <= x < 0x1_0000_0000_0000_0000
  type u256 = x: int | 0 <= x < 0x1_0000000000000000_0000000000000000_0000000000000000_0000000000000000

  /** A 20-byte account address. */
  type Address = a: seq<byte> | |a| == 20 witness seq(20, _ => 0)

  datatype Option<+T> = None | Some(value: T)

  datatype Result<+T, +E> = Ok(value: T) | Err(error: E)

  /** `saturating_add` of 64-bit unsigned integers; `usize` is taken to be 64 bits wide */
  function SatAdd(a: nat, b: nat): u64 {
    if a + b > U64_MAX then U64_MAX else a + b
  }

  /** `saturating_sub` on any unsigned width */
  function SatSub(a: nat, b: nat): nat {
    if a < b then 0 else a - b
  }

  function Min(a: int, b: int): int {
    if a <= b then a else b
  }
}
