/** Fixed-width integers of the C++ sources and the bitwise operators used on them.
    The operators are defined bit by bit on naturals, so no bit-vector is needed. */
module Bits {

  type byte = x: int | 0 <= x < 0x100
  type u16 = x: int | 0 <= x < 0x1_0000
  type u32 = x: int | 0 <= x < 0x1_0000_0000
  type u64 = x: int | 0 <= x < 0x1_0000_0000_0000_0000

  const U32_MAX: u32 := 0xFFFF_FFFF
  const U64_MAX: u64 := 0xFFFF_FFFF_FFFF_FFFF
  const U64_RANGE: int := 0x1_0000_0000_0000_0000
  const INT_MAX: int := 0x7FFF_FFFF

  /** A millisecond in the nanoseconds of the clock. */
  const MS := 1_000_000

  function Min(a: int, b: int): int { if a <= b then a else b }
  function Max(a: int, b: int): int { if a >= b then a else b }
  function Clamp(x: int, lo: int, hi: int): int
    requires lo <= hi
  {
    Max(lo, Min(x, hi))
  }
  function Abs(x: int): nat { if x < 0 then -x else x }
  function One(b: bool): nat { if b then 1 else 0 }

  lemma NonNegativeProduct(a: int, b: int)
    requires a >= 0 && b >= 0
    ensures a * b >= 0
  {
  }

  function Wrap8(x: int): (r: byte) { x % 0x100 }
  function Wrap16(x: int): (r: u16) { x % 0x1_0000 }
  function Wrap32(x: int): (r: u32) { x % 0x1_0000_0000 }
  function Wrap64(x: int): (r: u64) { x % U64_RANGE }

  function BitOr(a: nat, b: nat): nat
    decreases a + b
  {
    if a == 0 && b == 0 then 0
    else (if a % 2 == 1 || b % 2 == 1 then 1 else 0) + 2 * BitOr(a / 2, b / 2)
  }

  function BitXor(a: nat, b: nat): nat
    decreases a + b
  {
    if a == 0 && b == 0 then 0
    else (if a % 2 != b % 2 then 1 else 0) + 2 * BitXor(a / 2, b / 2)
  }

  function Pow2(k: nat): nat { if k == 0 then 1 else 2 * Pow2(k - 1) }

  /** Or-ing a value shifted past the other operand is addition. */
  lemma {:induction false} OrShifted(low: nat, high: nat, k: nat)
    requires low < Pow2(k)
    ensures BitOr(low, high * Pow2(k)) == low + high * Pow2(k)
    decreases k
  {
    if k == 0 {
      OrZero(high);
    } else {
      var shifted := high * Pow2(k);
      assert shifted == 2 * (high * Pow2(k - 1));
      OrShifted(low / 2, high, k - 1);
    }
  }

  /** The two bytes of a 16-bit value, or-ed back together. */
  lemma OrBytes(low: nat, high: nat)
    requires low < 256
    ensures BitOr(low, high * 256) == low + high * 256
  {
    assert Pow2(4) == 16;
    OrShifted(low, high, 8);
  }

  lemma {:induction false} OrZero(b: nat)
    ensures BitOr(0, b) == b
  {
    if b != 0 { OrZero(b / 2); }
  }

  lemma {:induction false} OrIsZero(a: nat, b: nat)
    ensures BitOr(a, b) == 0 <==> a == 0 && b == 0
    decreases a + b
  {
    if a != 0 || b != 0 { OrIsZero(a / 2, b / 2); }
  }

  lemma {:induction false} XorIsZero(a: nat, b: nat)
    ensures BitXor(a, b) == 0 <==> a == b
    decreases a + b
  {
    if a != 0 || b != 0 { XorIsZero(a / 2, b / 2); }
  }
}
