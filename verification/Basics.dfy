/** Shared vocabulary: optional values, SQL-style results, and the signed casts that the
    storage layer applies to unsigned chain numbers. */
module Basics {
  datatype Option<+T> = None | Some(value: T)

  datatype Result<+T, +E> = Ok(value: T) | Err(error: E)

  newtype byte = b: int | 0 <= b < 256

  const TWO_32: int := 0x1_0000_0000
  const TWO_63: int := 0x8000_0000_0000_0000
  const TWO_64: int := 0x1_0000_0000_0000_0000

  type u64 = n: int | 0 <= n < 0x1_0000_0000_0000_0000
  type u32 = n: int | 0 <= n < 0x1_0000_0000

  /** `x as i64` for an unsigned 64-bit `x`: the two's-complement reading of the same bits. */
  function AsI64(x: u64): int {
    if x < TWO_63 then x else x - TWO_64
  }

  /** `x as u64` for a signed 64-bit `x`. */
  function AsU64(x: int): u64
    requires -TWO_63 <= x < TWO_63
  {
    if x < 0 then x + TWO_64 else x
  }

  function AsI32(x: u32): int {
    if x < 0x8000_0000 then x else x - TWO_32
  }

  function AsU32(x: int): u32
    requires -0x8000_0000 <= x < 0x8000_0000
  {
    if x < 0 then x + TWO_32 else x
  }

  function Pow2(w: nat): nat {
    if w == 0 then 1 else 2 * Pow2(w - 1)
  }

  lemma EightMore(w: nat)
    ensures Pow2(w + 8) == 256 * Pow2(w)
  {
    assert Pow2(w + 4) == 16 * Pow2(w) by {
      assert Pow2(w + 2) == 4 * Pow2(w);
    }
    assert Pow2(w + 6) == 4 * Pow2(w + 4);
  }
}
