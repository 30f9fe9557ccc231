/** The NEON lane operations the colour treatment uses, one value per lane.
    Every operation wraps at its lane width, as the hardware does; none is assumed not to overflow. */
module Lanes {
  import opened Bits

  function Dup<T>(n: nat, v: T): (r: seq<T>) { seq(n, _ => v) }
  function Low<T>(v: seq<T>): (r: seq<T>) { v[..|v| / 2] }
  function High<T>(v: seq<T>): (r: seq<T>) { v[|v| / 2..] }
  function Combine<T>(low: seq<T>, high: seq<T>): (r: seq<T>) { low + high }

  function MaxU8(a: seq<byte>, b: seq<byte>): (r: seq<byte>)
    requires |a| == |b|
  {
    seq(|a|, k requires 0 <= k < |a| => if a[k] >= b[k] then a[k] else b[k])
  }

  function MinU8(a: seq<byte>, b: seq<byte>): (r: seq<byte>)
    requires |a| == |b|
  {
    seq(|a|, k requires 0 <= k < |a| => if a[k] <= b[k] then a[k] else b[k])
  }

  function SubU8(a: seq<byte>, b: seq<byte>): (r: seq<byte>)
    requires |a| == |b|
  {
    seq(|a|, k requires 0 <= k < |a| => Wrap8((a[k] as int) - b[k]))
  }

  /** `vmaxvq_u8`: the largest lane. */
  function MaxAcross(a: seq<byte>): (r: byte)
    requires |a| > 0
    ensures r in a
    ensures forall k :: 0 <= k < |a| ==> a[k] <= r
  {
    if |a| == 1 then a[0]
    else
      var rest := MaxAcross(a[1..]);
      if a[0] >= rest then a[0] else rest
  }

  /** `vminvq_u8`: the smallest lane. */
  function MinAcross(a: seq<byte>): (r: byte)
    requires |a| > 0
    ensures r in a
    ensures forall k :: 0 <= k < |a| ==> r <= a[k]
  {
    if |a| == 1 then a[0]
    else
      var rest := MinAcross(a[1..]);
      if a[0] <= rest then a[0] else rest
  }

  /** `vcltq_u8`: all ones where a < b, else all zeros. */
  function LessU8(a: seq<byte>, b: seq<byte>): (r: seq<byte>)
    requires |a| == |b|
    ensures |r| == |a| && forall k :: 0 <= k < |r| ==> r[k] == 0 || r[k] == 0xFF
  {
    seq(|a|, k requires 0 <= k < |a| => if a[k] < b[k] then 0xFF else 0)
  }

  /** `vbslq_u8` with a comparison mask: a where the mask is set, else b. */
  function SelectU8(mask: seq<byte>, a: seq<byte>, b: seq<byte>): (r: seq<byte>)
    requires |mask| == |a| == |b|
    requires forall k :: 0 <= k < |mask| ==> mask[k] == 0 || mask[k] == 0xFF
  {
    seq(|a|, k requires 0 <= k < |a| => if mask[k] == 0xFF then a[k] else b[k])
  }

  /** `vqtbl4q_u8`: 64-entry lookup that gives 0 for an index out of range. */
  function Lookup64(table: seq<byte>, index: seq<byte>): (r: seq<byte>)
    requires |table| == 64
    ensures |r| == |index|
  {
    seq(|index|, k requires 0 <= k < |index| => if index[k] < 64 then table[index[k]] else 0)
  }

  function WidenU8(a: seq<byte>): (r: seq<u16>) { seq(|a|, k requires 0 <= k < |a| => a[k]) }
  function NarrowU16(a: seq<u16>): (r: seq<byte>) { seq(|a|, k requires 0 <= k < |a| => Wrap8(a[k])) }
  function NarrowU32(a: seq<u32>): (r: seq<u16>) { seq(|a|, k requires 0 <= k < |a| => Wrap16(a[k])) }

  function MulLongU8(a: seq<byte>, b: seq<byte>): (r: seq<u16>)
    requires |a| == |b|
  {
    seq(|a|, k requires 0 <= k < |a| => Wrap16((a[k] as int) * b[k]))
  }

  function MulAccLongU8(acc: seq<u16>, a: seq<byte>, b: seq<byte>): (r: seq<u16>)
    requires |acc| == |a| == |b|
  {
    seq(|a|, k requires 0 <= k < |a| => Wrap16((acc[k] as int) + (a[k] as int) * b[k]))
  }

  function AddU16(a: seq<u16>, b: seq<u16>): (r: seq<u16>)
    requires |a| == |b|
  {
    seq(|a|, k requires 0 <= k < |a| => Wrap16((a[k] as int) + b[k]))
  }

  function SubU16(a: seq<u16>, b: seq<u16>): (r: seq<u16>)
    requires |a| == |b|
  {
    seq(|a|, k requires 0 <= k < |a| => Wrap16((a[k] as int) - b[k]))
  }

  function ShiftRight7U16(a: seq<u16>): (r: seq<u16>) { seq(|a|, k requires 0 <= k < |a| => a[k] / 128) }
  function ShiftLeft8U16(a: seq<u16>): (r: seq<u16>) {
    seq(|a|, k requires 0 <= k < |a| => Wrap16((a[k] as int) * 256))
  }

  function OrU16(a: seq<u16>, b: seq<u16>): (r: seq<u16>)
    requires |a| == |b|
  {
    seq(|a|, k requires 0 <= k < |a| => Wrap16(BitOr(a[k], b[k])))
  }

  function MulLongU16(a: seq<u16>, b: seq<u16>): (r: seq<u32>)
    requires |a| == |b|
  {
    seq(|a|, k requires 0 <= k < |a| => Wrap32((a[k] as int) * b[k]))
  }

  function MulAccLongU16(acc: seq<u32>, a: seq<u16>, b: seq<u16>): (r: seq<u32>)
    requires |acc| == |a| == |b|
  {
    seq(|a|, k requires 0 <= k < |a| => Wrap32((acc[k] as int) + (a[k] as int) * b[k]))
  }

  function AddU32(a: seq<u32>, b: seq<u32>): (r: seq<u32>)
    requires |a| == |b|
  {
    seq(|a|, k requires 0 <= k < |a| => Wrap32((a[k] as int) + b[k]))
  }

  function DivU32(a: seq<u32>, divisor: u32): (r: seq<u32>)
    requires divisor > 0
  {
    seq(|a|, k requires 0 <= k < |a| => Quotient(a[k], divisor))
  }

  function Quotient(a: u32, divisor: u32): (q: u32)
    requires divisor > 0
  {
    assert 0 <= a / divisor <= a;
    a / divisor
  }
}
