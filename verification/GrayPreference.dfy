/** Colour treatment of packed RGBA: the gray fade with its 16-pixel vector path, and the vivid step. */
module GrayPreference {
  import Raster
  import opened Bits
  import L = Lanes

  datatype Preference = Off | Balanced | Stronger
  type Fade = p: Preference | p != Off witness Balanced

  datatype Pixel = Pixel(r: byte, g: byte, b: byte, a: byte)

  function LowEdge(f: Fade): (low: byte) { if f == Balanced then 8 else 16 }
  function HighEdge(f: Fade): (high: byte) { if f == Balanced then 24 else 40 }
  function Width(f: Fade): (w: int)
    ensures w == 16 || w == 24
  {
    HighEdge(f) as int - LowEdge(f)
  }
  function Denominator(f: Fade): (d: u32) { if f == Balanced then 4096 else 13824 }

  /** Smoothstep numerator over the fade, as the table holds it. */
  function Weight(f: Fade, spread: byte): (w: u32)
    ensures w <= Denominator(f)
    ensures spread <= LowEdge(f) ==> w == 0
    ensures spread >= HighEdge(f) ==> w == Denominator(f)
  {
    var t := Clamp((spread as int) - LowEdge(f), 0, Width(f));
    SmoothstepBounds(t, Width(f));
    t * t * (3 * Width(f) - 2 * t)
  }

  lemma SmoothstepBounds(t: int, w: int)
    requires 0 <= t <= w
    requires w == 16 || w == 24
    ensures 0 <= t * t * (3 * w - 2 * t) <= w * w * w
  {
    NonNegativeProduct(t, t);
    NonNegativeProduct(t * t, 3 * w - 2 * t);
    NonNegativeProduct(w - t, w - t);
    NonNegativeProduct((w - t) * (w - t), w + 2 * t);
    if w == 16 { Smoothstep16(t); } else { Smoothstep24(t); }
  }

  lemma Smoothstep16(t: int)
    ensures 16 * 16 * 16 - t * t * (48 - 2 * t) == (16 - t) * (16 - t) * (16 + 2 * t)
  {
    assert (16 - t) * (16 - t) == 256 - 32 * t + t * t;
  }

  lemma Smoothstep24(t: int)
    ensures 24 * 24 * 24 - t * t * (72 - 2 * t) == (24 - t) * (24 - t) * (24 + 2 * t)
  {
    assert (24 - t) * (24 - t) == 576 - 48 * t + t * t;
  }

  function Luma(r: int, g: int, b: int): (y: int) { (38 * r + 75 * g + 15 * b + 64) / 128 }

  /** One faded channel: the weighted mean of luma and channel, rounded to nearest. */
  function Mix(d: int, w: int, luma: int, c: int): (r: int)
    requires d > 0
  {
    ((d - w) * luma + d / 2 + w * c) / d
  }

  function Spread(p: Pixel): (s: byte) {
    Max(Max(p.r, p.g), p.b) - Min(Min(p.r, p.g), p.b)
  }

  /** The scalar treatment of one pixel: the reference the vector path must reproduce. */
  function Faded(f: Fade, p: Pixel): (q: Pixel) {
    var s := Spread(p);
    if s == 0 || s >= HighEdge(f) then p
    else
      var y := Luma(p.r, p.g, p.b);
      var d, w := Denominator(f), Weight(f, s);
      LumaIsByte(p.r, p.g, p.b);
      MixBetween(d, w, y, p.r); MixBetween(d, w, y, p.g); MixBetween(d, w, y, p.b);
      Pixel(Mix(d, w, y, p.r), Mix(d, w, y, p.g), Mix(d, w, y, p.b), p.a)
  }

  lemma LumaIsByte(r: byte, g: byte, b: byte)
    ensures 0 <= Luma(r, g, b) < 256
    ensures Min(Min(r, g), b) <= Luma(r, g, b) <= Max(Max(r, g), b)
  {
  }

  /** A faded channel never leaves the interval between itself and luma. */
  lemma MixBetween(d: int, w: int, y: int, c: int)
    requires d > 0 && 0 <= w <= d
    ensures Min(y, c) <= Mix(d, w, y, c) <= Max(y, c)
  {
    var n := (d - w) * y + d / 2 + w * c;
    var lo, hi := Min(y, c), Max(y, c);
    assert (d - w) * y >= (d - w) * lo && w * c >= w * lo;
    assert (d - w) * y <= (d - w) * hi && w * c <= w * hi;
    assert (d - w) * lo + w * lo == d * lo && (d - w) * hi + w * hi == d * hi;
    DivideBetween(n, d, lo, hi);
  }

  lemma DivideBetween(n: int, d: int, lo: int, hi: int)
    requires d > 0
    requires d * lo <= n < d * hi + d
    ensures lo <= n / d <= hi
  {
    var q := n / d;
    assert d * q <= n < d * q + d;
    assert q + 1 <= lo ==> d * q + d <= d * lo by { if q + 1 <= lo { Raster.MulMonotone(q + 1, lo, d); } }
    assert hi + 1 <= q ==> d * hi + d <= d * q by { if hi + 1 <= q { Raster.MulMonotone(hi + 1, q, d); } }
  }

  // ---------- whole buffers ----------

  function PixelAt(s: seq<byte>, i: nat): (p: Pixel)
    requires 4 * i + 4 <= |s|
  {
    Pixel(s[4 * i], s[4 * i + 1], s[4 * i + 2], s[4 * i + 3])
  }

  function Channel(p: Pixel, c: int): (v: byte) {
    if c == 0 then p.r else if c == 1 then p.g else if c == 2 then p.b else p.a
  }

  /** A packed RGBA buffer with every pixel replaced. */
  function MapPixels(s: seq<byte>, t: Pixel -> Pixel): (r: seq<byte>)
    requires |s| % 4 == 0
    ensures |r| == |s|
  {
    seq(|s|, k requires 0 <= k < |s| => MappedByte(s, t, k))
  }

  function MappedByte(s: seq<byte>, t: Pixel -> Pixel, k: nat): (v: byte)
    requires |s| % 4 == 0 && k < |s|
  {
    Channel(t(PixelAt(s, k / 4)), k % 4)
  }

  lemma ChannelOf(s: seq<byte>, k: nat)
    requires |s| % 4 == 0 && k < |s|
    ensures Channel(PixelAt(s, k / 4), k % 4) == s[k]
  {
  }

  lemma MapPixelsAt(s: seq<byte>, t: Pixel -> Pixel, i: nat)
    requires |s| % 4 == 0 && 4 * i + 4 <= |s|
    ensures PixelAt(MapPixels(s, t), i) == t(PixelAt(s, i))
  {
    MappedByteAt(s, t, i, 0); MappedByteAt(s, t, i, 1); MappedByteAt(s, t, i, 2); MappedByteAt(s, t, i, 3);
    hide MappedByte;
    var m := MapPixels(s, t);
    assert m[4 * i] == MappedByte(s, t, 4 * i + 0);
  }

  lemma MappedByteAt(s: seq<byte>, t: Pixel -> Pixel, i: nat, c: nat)
    requires |s| % 4 == 0 && 4 * i + 4 <= |s| && c < 4
    ensures MappedByte(s, t, 4 * i + c) == Channel(t(PixelAt(s, i)), c)
  {
    assert (4 * i + c) / 4 == i && (4 * i + c) % 4 == c;
  }

  /** A buffer is the mapped one as soon as it agrees pixel by pixel. */
  lemma MapPixelsUnique(s: seq<byte>, t: Pixel -> Pixel, m: seq<byte>)
    requires |s| % 4 == 0 && |m| == |s|
    requires forall i :: 0 <= i < |s| / 4 ==> PixelAt(m, i) == t(PixelAt(s, i))
    ensures m == MapPixels(s, t)
  {
    forall k | 0 <= k < |s| ensures m[k] == MapPixels(s, t)[k] {
      ChannelOf(m, k);
      assert PixelAt(m, k / 4) == t(PixelAt(s, k / 4));
      assert MappedByte(s, t, k) == m[k];
    }
  }

  function FadedBuffer(f: Fade, s: seq<byte>): (r: seq<byte>)
    requires |s| % 4 == 0
    ensures |r| == |s|
  {
    MapPixels(s, p => Faded(f, p))
  }

  // ---------- the 16-pixel vector path ----------

  /** `WeightBytes`: one byte of each of the first 64 weights. */
  function WeightBytes(f: Fade, high: bool): (table: seq<byte>)
    ensures |table| == 64
  {
    seq(64, i requires 0 <= i < 64 => Wrap8(if high then Weight(f, i) / 256 else Weight(f, i)))
  }

  /** `vld4q_u8`: one channel of sixteen pixels. */
  function Deinterleave(block: seq<byte>, c: nat): (lanes: seq<byte>)
    requires |block| == 64 && c < 4
    ensures |lanes| == 16
  {
    seq(16, k requires 0 <= k < 16 => block[4 * k + c])
  }

  /** `vst4q_u8`. */
  function Interleave(r: seq<byte>, g: seq<byte>, b: seq<byte>, a: seq<byte>): (block: seq<byte>)
    requires |r| == |g| == |b| == |a| == 16
  {
    seq(64, k requires 0 <= k < 64 =>
      if k % 4 == 0 then r[k / 4] else if k % 4 == 1 then g[k / 4] else if k % 4 == 2 then b[k / 4] else a[k / 4])
  }

  function LumaLanes(r: seq<byte>, g: seq<byte>, b: seq<byte>): (luma: seq<u16>)
    requires |r| == |g| == |b|
    ensures |luma| == |r|
  {
    var red := L.MulLongU8(r, L.Dup(|r|, 38));
    var green := L.MulAccLongU8(red, g, L.Dup(|r|, 75));
    var blue := L.MulAccLongU8(green, b, L.Dup(|r|, 15));
    L.ShiftRight7U16(L.AddU16(blue, L.Dup(|r|, 64)))
  }

  /** `vmull_u16`, `vmlal_u16`, rounding, division and narrowing of one half register. */
  function BlendHalf(d: u32, channel: seq<u16>, luma: seq<u16>, neutral: seq<u16>, weight: seq<u16>): (r: seq<u16>)
    requires d > 0
    requires |channel| == |luma| == |neutral| == |weight|
  {
    var scaled := L.MulAccLongU16(L.MulLongU16(luma, neutral), channel, weight);
    L.NarrowU32(L.DivU32(L.AddU32(scaled, L.Dup(|channel|, d / 2)), d))
  }

  function Blend(d: u32, channel: seq<u16>, luma: seq<u16>, weight: seq<u16>): (r: seq<u16>)
    requires 0 < d < 0x1_0000
    requires |channel| == |luma| == |weight|
    ensures |r| == |channel|
  {
    var neutral := L.SubU16(L.Dup(|weight|, d), weight);
    L.Combine(BlendHalf(d, L.Low(channel), L.Low(luma), L.Low(neutral), L.Low(weight)),
              BlendHalf(d, L.High(channel), L.High(luma), L.High(neutral), L.High(weight)))
  }

  /** The 16-bit weights of eight spreads, put together from the two byte tables. */
  function WeightLanes(low: seq<byte>, high: seq<byte>): (w: seq<u16>)
    requires |low| == |high|
    ensures |w| == |low|
  {
    L.OrU16(L.WidenU8(low), L.ShiftLeft8U16(L.WidenU8(high)))
  }

  function BlendChannel(f: Fade, channel: seq<byte>, luma0: seq<u16>, luma1: seq<u16>,
                        weights0: seq<u16>, weights1: seq<u16>, mask: seq<byte>): (r: seq<byte>)
    requires |channel| == |mask| == 16
    requires |luma0| == |luma1| == |weights0| == |weights1| == 8
    requires forall k :: 0 <= k < 16 ==> mask[k] == 0 || mask[k] == 0xFF
  {
    var d := Denominator(f);
    var lower := Blend(d, L.WidenU8(L.Low(channel)), luma0, weights0);
    var upper := Blend(d, L.WidenU8(L.High(channel)), luma1, weights1);
    L.SelectU8(mask, L.Combine(L.NarrowU16(lower), L.NarrowU16(upper)), channel)
  }

  function GrayLanes(r: seq<byte>, g: seq<byte>, b: seq<byte>): (gray: seq<byte>)
    requires |r| == |g| == |b| == 16
    ensures |gray| == 16
  {
    L.Combine(L.NarrowU16(LumaLanes(L.Low(r), L.Low(g), L.Low(b))),
              L.NarrowU16(LumaLanes(L.High(r), L.High(g), L.High(b))))
  }

  function BlendedChannel(f: Fade, channel: seq<byte>, r: seq<byte>, g: seq<byte>, b: seq<byte>): (result: seq<byte>)
    requires |channel| == |r| == |g| == |b| == 16
    ensures |result| == 16
  {
    var spread := SpreadLanes(r, g, b);
    var mask := L.LessU8(spread, L.Dup(16, HighEdge(f)));
    var luma0, luma1 := LumaLanes(L.Low(r), L.Low(g), L.Low(b)), LumaLanes(L.High(r), L.High(g), L.High(b));
    var low, high := L.Lookup64(WeightBytes(f, false), spread), L.Lookup64(WeightBytes(f, true), spread);
    BlendChannel(f, channel, luma0, luma1,
                 WeightLanes(L.Low(low), L.Low(high)), WeightLanes(L.High(low), L.High(high)), mask)
  }

  /** One iteration of `ApplyVectors`: skip, all-gray shortcut, or table-weighted blend under the mask. */
  function VectorBlock(f: Fade, block: seq<byte>): (result: seq<byte>)
    requires |block| == 64
    ensures |result| == 64
  {
    var r, g, b, a := Deinterleave(block, 0), Deinterleave(block, 1), Deinterleave(block, 2), Deinterleave(block, 3);
    var spread := SpreadLanes(r, g, b);
    var maxSpread := L.MaxAcross(spread);
    if maxSpread == 0 || L.MinAcross(spread) >= HighEdge(f) then block
    else if maxSpread <= LowEdge(f) then
      var gray := GrayLanes(r, g, b);
      Interleave(gray, gray, gray, a)
    else
      Interleave(BlendedChannel(f, r, r, g, b), BlendedChannel(f, g, r, g, b), BlendedChannel(f, b, r, g, b), a)
  }

  function SpreadLanes(r: seq<byte>, g: seq<byte>, b: seq<byte>): (s: seq<byte>)
    requires |r| == |g| == |b| == 16
    ensures |s| == 16
  {
    L.SubU8(L.MaxU8(L.MaxU8(r, g), b), L.MinU8(L.MinU8(r, g), b))
  }

  // ---------- every lane of a block is the scalar treatment of its pixel ----------

  lemma LumaLane(r: seq<byte>, g: seq<byte>, b: seq<byte>, k: nat)
    requires |r| == |g| == |b| && k < |r|
    ensures LumaLanes(r, g, b)[k] == Luma(r[k], g[k], b[k])
  {
    var red := L.MulLongU8(r, L.Dup(|r|, 38));
    assert red[k] == 38 * (r[k] as int);
    var green := L.MulAccLongU8(red, g, L.Dup(|r|, 75));
    assert green[k] == 38 * (r[k] as int) + 75 * (g[k] as int);
    var blue := L.MulAccLongU8(green, b, L.Dup(|r|, 15));
    assert blue[k] == 38 * (r[k] as int) + 75 * (g[k] as int) + 15 * (b[k] as int);
    var sum := L.AddU16(blue, L.Dup(|r|, 64));
    assert sum[k] == (blue[k] as int) + 64;
  }

  lemma SpreadLane(block: seq<byte>, k: nat)
    requires |block| == 64 && k < 16
    ensures SpreadLanes(Deinterleave(block, 0), Deinterleave(block, 1), Deinterleave(block, 2))[k]
         == Spread(PixelAt(block, k))
  {
  }

  lemma RecombineBytes(low: int, high: int)
    requires 0 <= low < 256 && 0 <= high < 256
    ensures Wrap16(BitOr(low, Wrap16(high * 256))) == low + 256 * high
  {
    OrBytes(low, high);
    hide BitOr;
    assert Wrap16(high * 256) == high * 256;
  }

  lemma TableWeight(f: Fade, spread: byte)
    requires spread < 64
    ensures Wrap16(BitOr(WeightBytes(f, false)[spread], Wrap16((WeightBytes(f, true)[spread] as int) * 256)))
         == Weight(f, spread)
  {
    hide Weight, BitOr, Wrap16;
    var w: int := Weight(f, spread);
    RecombineBytes(w % 256, w / 256);
    assert WeightBytes(f, false)[spread] as int == w % 256;
    assert WeightBytes(f, true)[spread] as int == w / 256;
  }

  lemma WeightLane(f: Fade, spread: seq<byte>, k: nat)
    requires k < |spread|
    ensures WeightLanes(L.Lookup64(WeightBytes(f, false), spread), L.Lookup64(WeightBytes(f, true), spread))[k]
         == if spread[k] < 64 then Weight(f, spread[k]) else 0
  {
    var s := spread[k];
    if s < 64 { TableWeight(f, s); } else { OrZero(0); }
    hide Weight, WeightBytes, BitOr, Wrap16, WeightLanes, L.Lookup64;
    var low, high := L.Lookup64(WeightBytes(f, false), spread), L.Lookup64(WeightBytes(f, true), spread);
    LookupLane(WeightBytes(f, false), spread, k);
    LookupLane(WeightBytes(f, true), spread, k);
    WeightLanesLane(low, high, k);
  }

  lemma LookupLane(table: seq<byte>, index: seq<byte>, k: nat)
    requires |table| == 64 && k < |index|
    ensures |L.Lookup64(table, index)| == |index|
    ensures L.Lookup64(table, index)[k] == if index[k] < 64 then table[index[k]] else 0
  {
  }

  lemma WeightLanesLane(low: seq<byte>, high: seq<byte>, k: nat)
    requires |low| == |high| && k < |low|
    ensures WeightLanes(low, high)[k] == Wrap16(BitOr(low[k], Wrap16((high[k] as int) * 256)))
  {
    hide BitOr, Wrap16;
  }

  /** The 32-bit arithmetic of one blended lane never wraps. */
  lemma BlendScalar(d: u32, w: int, y: int, c: int)
    requires 0 < d < 0x1_0000 && 0 <= w <= d && 0 <= y < 256 && 0 <= c < 256
    ensures Wrap16(L.Quotient(Wrap32((Wrap32((Wrap32(y * (d - w)) as int) + c * w) as int) + d / 2), d))
      == Mix(d, w, y, c)
  {
    MulBound(y, d - w);
    MulBound(c, w);
    MixBetween(d, w, y, c);
    var product, scaled := y * (d - w), c * w;
    assert Mix(d, w, y, c) == (product + d / 2 + scaled) / d by {
      assert product == (d - w) * y && scaled == w * c;
    }
    NoWrap(product, scaled, d, Mix(d, w, y, c));
  }

  lemma NoWrap(product: int, scaled: int, d: u32, q: int)
    requires 0 <= product <= 0xFF_0000 && 0 <= scaled <= 0xFF_0000 && 0 < d < 0x1_0000
    requires q == (product + d / 2 + scaled) / d && 0 <= q < 256
    ensures Wrap16(L.Quotient(Wrap32((Wrap32((Wrap32(product) as int) + scaled) as int) + d / 2), d)) == q
  {
    NoWrap32(product, scaled, d / 2);
    hide Wrap32;
    assert Wrap16(q) == q;
  }

  lemma NoWrap32(product: int, scaled: int, half: int)
    requires 0 <= product <= 0xFF_0000 && 0 <= scaled <= 0xFF_0000 && 0 <= half < 0x8000
    ensures Wrap32((Wrap32((Wrap32(product) as int) + scaled) as int) + half) == product + scaled + half
  {
    assert Wrap32(product) == product;
    assert Wrap32(product + scaled) == product + scaled;
  }

  lemma BlendHalfLane(d: u32, channel: seq<u16>, luma: seq<u16>, neutral: seq<u16>, weight: seq<u16>, k: nat)
    requires |channel| == |luma| == |neutral| == |weight| && k < |channel|
    requires 0 < d < 0x1_0000 && weight[k] <= d && neutral[k] == d - weight[k]
    requires channel[k] < 256 && luma[k] < 256
    ensures BlendHalf(d, channel, luma, neutral, weight)[k] == Mix(d, weight[k], luma[k], channel[k])
  {
    BlendScalar(d, weight[k], luma[k], channel[k]);
    hide Mix, Wrap16, Wrap32, L.Quotient;
  }

  lemma MulBound(x: int, y: int)
    requires 0 <= x <= 255 && 0 <= y <= 0x1_0000
    ensures 0 <= x * y <= 255 * 0x1_0000
  {
    assert x * y <= 255 * y;
  }

  lemma BlendLane(d: u32, channel: seq<u16>, luma: seq<u16>, weight: seq<u16>, k: nat)
    requires |channel| == |luma| == |weight| == 8 && k < 8
    requires 0 < d < 0x1_0000 && weight[k] <= d && channel[k] < 256 && luma[k] < 256
    ensures Blend(d, channel, luma, weight)[k] == Mix(d, weight[k], luma[k], channel[k])
  {
    var neutral := L.SubU16(L.Dup(|weight|, d), weight);
    if k < 4 {
      BlendHalfLane(d, L.Low(channel), L.Low(luma), L.Low(neutral), L.Low(weight), k);
    } else {
      BlendHalfLane(d, L.High(channel), L.High(luma), L.High(neutral), L.High(weight), k - 4);
    }
  }

  lemma NarrowedLane(lower: seq<u16>, upper: seq<u16>, k: nat)
    requires |lower| == |upper| == 8 && k < 16 && (lower + upper)[k] < 256
    ensures L.Combine(L.NarrowU16(lower), L.NarrowU16(upper))[k] == (lower + upper)[k]
  {
  }

  lemma WidenedLane(channel: seq<byte>, k: nat)
    requires |channel| == 16 && k < 16
    ensures var low, high := L.WidenU8(L.Low(channel)), L.WidenU8(L.High(channel));
            |low| == |high| == 8 && (if k < 8 then low[k] else high[k - 8]) == channel[k]
  {
  }

  /** The two blended halves, narrowed and put together. */
  lemma BlendedHalves(d: u32, channel: seq<byte>, luma0: seq<u16>, luma1: seq<u16>, weights0: seq<u16>,
      weights1: seq<u16>, k: nat)
    requires |channel| == 16 && k < 16 && |luma0| == |luma1| == |weights0| == |weights1| == 8
    requires 0 < d < 0x1_0000 && (luma0 + luma1)[k] < 256 && (weights0 + weights1)[k] <= d
    ensures var low, high := L.WidenU8(L.Low(channel)), L.WidenU8(L.High(channel));
            && |low| == |high| == 8
            && L.Combine(L.NarrowU16(Blend(d, low, luma0, weights0)), L.NarrowU16(Blend(d, high, luma1, weights1)))[k]
               == Mix(d, (weights0 + weights1)[k], (luma0 + luma1)[k], channel[k])
  {
    MixBetween(d, (weights0 + weights1)[k], (luma0 + luma1)[k], channel[k]);
    WidenedLane(channel, k);
    hide Mix, Blend, L.WidenU8, L.Low, L.High, L.Combine, L.NarrowU16;
    var low, high := L.WidenU8(L.Low(channel)), L.WidenU8(L.High(channel));
    if k < 8 { BlendLane(d, low, luma0, weights0, k); } else { BlendLane(d, high, luma1, weights1, k - 8); }
    NarrowedLane(Blend(d, low, luma0, weights0), Blend(d, high, luma1, weights1), k);
  }

  /** What one lane of `BlendChannel` holds, given what its inputs hold there. */
  lemma BlendChannelLane(f: Fade, channel: seq<byte>, luma0: seq<u16>, luma1: seq<u16>,
                         weights0: seq<u16>, weights1: seq<u16>, mask: seq<byte>, y: byte, w: u16, k: nat)
    requires |channel| == |mask| == 16 && k < 16
    requires |luma0| == |luma1| == |weights0| == |weights1| == 8
    requires forall j :: 0 <= j < 16 ==> mask[j] == 0 || mask[j] == 0xFF
    requires (luma0 + luma1)[k] == y && (weights0 + weights1)[k] == w && w <= Denominator(f)
    ensures BlendChannel(f, channel, luma0, luma1, weights0, weights1, mask)[k]
         == if mask[k] == 0xFF then Mix(Denominator(f), w, y, channel[k]) else channel[k]
  {
    var d := Denominator(f);
    BlendedHalves(d, channel, luma0, luma1, weights0, weights1, k);
    var lower := Blend(d, L.WidenU8(L.Low(channel)), luma0, weights0);
    var upper := Blend(d, L.WidenU8(L.High(channel)), luma1, weights1);
    var blended := L.Combine(L.NarrowU16(lower), L.NarrowU16(upper));
    hide Mix, Blend, L.SelectU8;
    SelectLane(mask, blended, channel, k);
  }

  lemma SelectLane(mask: seq<byte>, a: seq<byte>, b: seq<byte>, k: nat)
    requires |mask| == |a| == |b| && k < |a|
    requires forall j :: 0 <= j < |mask| ==> mask[j] == 0 || mask[j] == 0xFF
    ensures L.SelectU8(mask, a, b)[k] == if mask[k] == 0xFF then a[k] else b[k]
  {
  }

  /** A pixel whose spread is at most the low edge becomes its luma, also when its channels are equal. */
  lemma FadedNeutral(f: Fade, p: Pixel)
    requires Spread(p) <= LowEdge(f)
    ensures 0 <= Luma(p.r, p.g, p.b) < 256
    ensures var y: byte := Luma(p.r, p.g, p.b); Faded(f, p) == Pixel(y, y, y, p.a)
  {
    LumaIsByte(p.r, p.g, p.b);
    var y, d := Luma(p.r, p.g, p.b), Denominator(f);
    MixNothing(d, y, p.r); MixNothing(d, y, p.g); MixNothing(d, y, p.b);
  }

  lemma MixNothing(d: int, y: int, c: int)
    requires d > 0
    ensures Mix(d, 0, y, c) == y
  {
    DivideBetween(d * y + d / 2, d, y, y);
  }

  lemma InterleaveAt(r: seq<byte>, g: seq<byte>, b: seq<byte>, a: seq<byte>, k: nat)
    requires |r| == |g| == |b| == |a| == 16 && k < 16
    ensures PixelAt(Interleave(r, g, b, a), k) == Pixel(r[k], g[k], b[k], a[k])
  {
  }

  lemma LumaHalves(r: seq<byte>, g: seq<byte>, b: seq<byte>, k: nat)
    requires |r| == |g| == |b| == 16 && k < 16
    ensures (LumaLanes(L.Low(r), L.Low(g), L.Low(b)) + LumaLanes(L.High(r), L.High(g), L.High(b)))[k]
         == Luma(r[k], g[k], b[k])
  {
    hide LumaLanes, Luma;
    if k < 8 {
      LumaLane(L.Low(r), L.Low(g), L.Low(b), k);
    } else {
      LumaLane(L.High(r), L.High(g), L.High(b), k - 8);
    }
  }

  lemma LookupHalves(table: seq<byte>, index: seq<byte>)
    requires |table| == 64
    ensures L.Low(L.Lookup64(table, index)) == L.Lookup64(table, L.Low(index))
    ensures L.High(L.Lookup64(table, index)) == L.Lookup64(table, L.High(index))
  {
  }

  lemma WeightHalves(f: Fade, spread: seq<byte>, k: nat)
    requires |spread| == 16 && k < 16
    ensures var low, high := L.Lookup64(WeightBytes(f, false), spread), L.Lookup64(WeightBytes(f, true), spread);
            (WeightLanes(L.Low(low), L.Low(high)) + WeightLanes(L.High(low), L.High(high)))[k]
            == if spread[k] < 64 then Weight(f, spread[k]) else 0
  {
    LookupHalves(WeightBytes(f, false), spread);
    LookupHalves(WeightBytes(f, true), spread);
    if k < 8 { WeightLane(f, L.Low(spread), k); } else { WeightLane(f, L.High(spread), k - 8); }
  }

  lemma GrayLane(r: seq<byte>, g: seq<byte>, b: seq<byte>, k: nat)
    requires |r| == |g| == |b| == 16 && k < 16
    ensures GrayLanes(r, g, b)[k] == Luma(r[k], g[k], b[k])
  {
    LumaIsByte(r[k], g[k], b[k]);
    LumaHalves(r, g, b, k);
    hide LumaLanes, Luma;
    var luma0, luma1 := LumaLanes(L.Low(r), L.Low(g), L.Low(b)), LumaLanes(L.High(r), L.High(g), L.High(b));
    assert GrayLanes(r, g, b)[k] == Wrap8((luma0 + luma1)[k]);
  }

  /** The masked, table-weighted mean is the scalar one, also where the scalar loop skips the pixel. */
  lemma MaskedMix(f: Fade, p: Pixel, c: byte)
    requires c == p.r || c == p.g || c == p.b
    ensures var s, y := Spread(p), Luma(p.r, p.g, p.b);
            (if s < HighEdge(f) then Mix(Denominator(f), if s < 64 then Weight(f, s) else 0, y, c) else c)
            == if 0 < s < HighEdge(f) then Mix(Denominator(f), Weight(f, s), y, c) else c
  {
    if Spread(p) == 0 {
      EqualChannels(p);
      MixNothing(Denominator(f), Luma(p.r, p.g, p.b), c);
    }
    hide Mix, Luma;
  }

  /** The mask is set where the spread is below the high edge. */
  lemma MaskLane(f: Fade, spread: seq<byte>, k: nat)
    requires |spread| == 16 && k < 16
    ensures var mask := L.LessU8(spread, L.Dup(16, HighEdge(f)));
            && |mask| == 16 && (forall j :: 0 <= j < 16 ==> mask[j] == 0 || mask[j] == 0xFF)
            && mask[k] == if spread[k] < HighEdge(f) then 0xFF else 0
  {
  }

  lemma BlendedLane(f: Fade, channel: seq<byte>, r: seq<byte>, g: seq<byte>, b: seq<byte>, p: Pixel, k: nat)
    requires |channel| == |r| == |g| == |b| == 16 && k < 16
    requires p.r == r[k] && p.g == g[k] && p.b == b[k] && SpreadLanes(r, g, b)[k] == Spread(p)
    requires channel[k] == p.r || channel[k] == p.g || channel[k] == p.b
    ensures BlendedChannel(f, channel, r, g, b)[k]
         == if 0 < Spread(p) < HighEdge(f)
            then Mix(Denominator(f), Weight(f, Spread(p)), Luma(p.r, p.g, p.b), channel[k])
            else channel[k]
  {
    var spread := SpreadLanes(r, g, b);
    MaskLane(f, spread, k);
    LumaIsByte(p.r, p.g, p.b);
    LumaHalves(r, g, b, k);
    WeightHalves(f, spread, k);
    MaskedMix(f, p, channel[k]);
    hide LumaLanes, WeightLanes, L.Lookup64, L.LessU8, L.Dup, L.Low, L.High, SpreadLanes, BlendChannel,
      Weight, WeightBytes, Luma, Mix,
      Spread;
    var mask := L.LessU8(spread, L.Dup(16, HighEdge(f)));
    var luma0, luma1 := LumaLanes(L.Low(r), L.Low(g), L.Low(b)), LumaLanes(L.High(r), L.High(g), L.High(b));
    var low, high := L.Lookup64(WeightBytes(f, false), spread), L.Lookup64(WeightBytes(f, true), spread);
    var weights0, weights1 := WeightLanes(L.Low(low), L.Low(high)), WeightLanes(L.High(low), L.High(high));
    var y, w := Luma(p.r, p.g, p.b), if Spread(p) < 64 then Weight(f, Spread(p)) else 0;
    BlendChannelLane(f, channel, luma0, luma1, weights0, weights1, mask, y, w, k);
  }

  lemma EqualChannels(p: Pixel)
    requires Spread(p) == 0
    ensures p.r == p.g == p.b == Luma(p.r, p.g, p.b)
  {
  }

  lemma GrayBlock(f: Fade, block: seq<byte>, gray: seq<byte>, k: nat)
    requires |block| == 64 && |gray| == 16 && k < 16
    requires var p := PixelAt(block, k); Spread(p) <= LowEdge(f) && gray[k] == Luma(p.r, p.g, p.b)
    ensures PixelAt(Interleave(gray, gray, gray, Deinterleave(block, 3)), k) == Faded(f, PixelAt(block, k))
  {
    FadedNeutral(f, PixelAt(block, k));
    InterleaveAt(gray, gray, gray, Deinterleave(block, 3), k);
  }

  /** The pixel's channels sit in lane k of the four registers. */
  lemma PixelOfBlock(block: seq<byte>, k: nat)
    requires |block| == 64 && k < 16
    ensures PixelAt(block, k)
         == Pixel(Deinterleave(block, 0)[k], Deinterleave(block, 1)[k],
                  Deinterleave(block, 2)[k], Deinterleave(block, 3)[k])
  {
  }

  /** A pixel is the faded one as soon as its channels are. */
  lemma FadedChannels(f: Fade, p: Pixel, q: Pixel)
    requires q.a == p.a
    requires var s, y := Spread(p), Luma(p.r, p.g, p.b);
             if 0 < s < HighEdge(f) then
               && q.r == Mix(Denominator(f), Weight(f, s), y, p.r) && q.g == Mix(Denominator(f), Weight(f, s), y, p.g)
               && q.b == Mix(Denominator(f), Weight(f, s), y, p.b)
             else q.r == p.r && q.g == p.g && q.b == p.b
    ensures q == Faded(f, p)
  {
    hide Mix, Luma, Weight;
  }

  lemma BlendedBlock(f: Fade, block: seq<byte>, k: nat)
    requires |block| == 64 && k < 16
    ensures var r, g := Deinterleave(block, 0), Deinterleave(block, 1);
            var b, a := Deinterleave(block, 2), Deinterleave(block, 3);
            PixelAt(Interleave(BlendedChannel(f, r, r, g, b), BlendedChannel(f, g, r, g, b),
                               BlendedChannel(f, b, r, g, b), a), k)
            == Faded(f, PixelAt(block, k))
  {
    var r, g, b, a := Deinterleave(block, 0), Deinterleave(block, 1), Deinterleave(block, 2), Deinterleave(block, 3);
    var p := PixelAt(block, k);
    PixelOfBlock(block, k);
    SpreadLane(block, k);
    hide Deinterleave, PixelAt, BlendedChannel, Interleave, Faded, Spread, Luma, Mix, Weight, SpreadLanes;
    BlendedLane(f, r, r, g, b, p, k);
    BlendedLane(f, g, r, g, b, p, k);
    BlendedLane(f, b, r, g, b, p, k);
    var red, green, blue := BlendedChannel(f, r, r, g, b), BlendedChannel(f, g, r, g, b), BlendedChannel(f, b, r, g, b);
    InterleaveAt(red, green, blue, a, k);
    FadedChannels(f, p, PixelAt(Interleave(red, green, blue, a), k));
  }

  lemma FadedSkips(f: Fade, p: Pixel)
    ensures Spread(p) == 0 || Spread(p) >= HighEdge(f) ==> Faded(f, p) == p
  {
  }

  lemma SpreadBetween(block: seq<byte>, k: nat)
    requires |block| == 64 && k < 16
    ensures var spread := SpreadLanes(Deinterleave(block, 0), Deinterleave(block, 1), Deinterleave(block, 2));
            L.MinAcross(spread) <= Spread(PixelAt(block, k)) <= L.MaxAcross(spread)
  {
    var spread := SpreadLanes(Deinterleave(block, 0), Deinterleave(block, 1), Deinterleave(block, 2));
    var s := spread[k];
    SpreadLane(block, k);
    assert L.MinAcross(spread) <= s <= L.MaxAcross(spread);
  }

  lemma GrayLaneOfBlock(block: seq<byte>, k: nat)
    requires |block| == 64 && k < 16
    ensures var p := PixelAt(block, k);
            GrayLanes(Deinterleave(block, 0), Deinterleave(block, 1), Deinterleave(block, 2))[k] == Luma(p.r, p.g, p.b)
  {
    PixelOfBlock(block, k);
    hide Deinterleave, PixelAt, GrayLanes, Luma;
    GrayLane(Deinterleave(block, 0), Deinterleave(block, 1), Deinterleave(block, 2), k);
  }

  lemma BlockLane(f: Fade, block: seq<byte>, k: nat)
    requires |block| == 64 && k < 16
    ensures PixelAt(VectorBlock(f, block), k) == Faded(f, PixelAt(block, k))
  {
    hide *;
    var r, g, b := Deinterleave(block, 0), Deinterleave(block, 1), Deinterleave(block, 2);
    SpreadBetween(block, k);
    FadedSkips(f, PixelAt(block, k));
    GrayLaneOfBlock(block, k);
    BlockLaneCases(f, block, SpreadLanes(r, g, b), GrayLanes(r, g, b), k);
  }

  lemma BlockLaneCases(f: Fade, block: seq<byte>, spread: seq<byte>, gray: seq<byte>, k: nat)
    requires |block| == 64 && |spread| == |gray| == 16 && k < 16
    requires spread == SpreadLanes(Deinterleave(block, 0), Deinterleave(block, 1), Deinterleave(block, 2))
    requires gray == GrayLanes(Deinterleave(block, 0), Deinterleave(block, 1), Deinterleave(block, 2))
    requires L.MinAcross(spread) <= Spread(PixelAt(block, k)) <= L.MaxAcross(spread)
    requires var p := PixelAt(block, k); gray[k] == Luma(p.r, p.g, p.b)
    requires var p := PixelAt(block, k); Spread(p) == 0 || Spread(p) >= HighEdge(f) ==> Faded(f, p) == p
    ensures PixelAt(VectorBlock(f, block), k) == Faded(f, PixelAt(block, k))
  {
    hide Faded, Luma, Spread, Interleave, BlendedChannel, GrayLanes, SpreadLanes, PixelAt, Deinterleave;
    if L.MaxAcross(spread) == 0 || L.MinAcross(spread) >= HighEdge(f) {
    } else if L.MaxAcross(spread) <= LowEdge(f) {
      GrayBlock(f, block, gray, k);
    } else {
      BlendedBlock(f, block, k);
    }
  }

  /** The vector path refines the scalar treatment: a 16-pixel block comes out byte for byte the same. */
  lemma VectorBlockRefinesScalar(f: Fade, block: seq<byte>)
    requires |block| == 64
    ensures VectorBlock(f, block) == FadedBuffer(f, block)
  {
    forall k | 0 <= k < 16 ensures PixelAt(VectorBlock(f, block), k) == Faded(f, PixelAt(block, k)) {
      BlockLane(f, block, k);
    }
    MapPixelsUnique(block, p => Faded(f, p), VectorBlock(f, block));
  }

  // ---------- the loops over the buffer ----------

  lemma MapPixelsConcat(a: seq<byte>, b: seq<byte>, t: Pixel -> Pixel)
    requires |a| % 4 == 0 && |b| % 4 == 0
    ensures MapPixels(a + b, t) == MapPixels(a, t) + MapPixels(b, t)
  {
    var n := |a| / 4;
    forall k | 0 <= k < |a| + |b|
      ensures MappedByte(a + b, t, k) == (MapPixels(a, t) + MapPixels(b, t))[k]
    {
      if k < |a| {
        assert PixelAt(a + b, k / 4) == PixelAt(a, k / 4);
      } else {
        assert k / 4 - n == (k - |a|) / 4;
        assert PixelAt(a + b, k / 4) == PixelAt(b, (k - |a|) / 4);
      }
    }
  }

  function Spliced(s: seq<byte>, i: nat, block: seq<byte>): (r: seq<byte>)
    requires i + |block| <= |s|
    ensures |r| == |s|
  {
    s[..i] + block + s[i + |block|..]
  }

  /** `now` is `was` with exactly the bytes from start to i treated. */
  ghost predicate Treated(was: seq<byte>, now: seq<byte>, start: nat, i: nat, t: Pixel -> Pixel) {
    && |was| % 4 == 0 && start % 4 == 0 && i % 4 == 0 && start <= i <= |was|
    && now == was[..start] + MapPixels(was[start..i], t) + was[i..]
  }

  lemma TreatedStart(was: seq<byte>, start: nat, t: Pixel -> Pixel)
    requires |was| % 4 == 0 && start % 4 == 0 && start <= |was|
    ensures Treated(was, was, start, start, t)
  {
  }

  lemma TreatedRoom(was: seq<byte>, now: seq<byte>, start: nat, i: nat, t: Pixel -> Pixel)
    requires Treated(was, now, start, i, t) && i < |was|
    ensures i + 4 <= |was|
  {
  }

  lemma TreatedStep(was: seq<byte>, now: seq<byte>, start: nat, i: nat, n: nat, t: Pixel -> Pixel)
    requires Treated(was, now, start, i, t) && n % 4 == 0 && i + n <= |was|
    ensures |now| == |was| && now[i..i + n] == was[i..i + n]
    ensures Treated(was, Spliced(now, i, MapPixels(was[i..i + n], t)), start, i + n, t)
  {
    hide MapPixels;
    MapPixelsConcat(was[start..i], was[i..i + n], t);
    assert was[start..i] + was[i..i + n] == was[start..i + n];
    assert now[..i] == was[..start] + MapPixels(was[start..i], t);
    assert now[i + n..] == was[i + n..];
  }

  lemma TreatedTwice(a: seq<byte>, b: seq<byte>, c: seq<byte>, i: nat, t: Pixel -> Pixel)
    requires Treated(a, b, 0, i, t) && Treated(b, c, i, |b|, t)
    ensures c == MapPixels(a, t)
  {
    hide MapPixels;
    assert a[0..i] == a[..i] && b[i..|b|] == b[i..];
    assert b[..i] == MapPixels(a[..i], t) && b[i..] == a[i..];
    MapPixelsConcat(a[..i], a[i..], t);
    assert a[..i] + a[i..] == a;
  }

  /** `ApplyVectors`: 64-byte blocks from the start; fewer than 64 bytes are left untouched. */
  method ApplyVectors(f: Fade, rgba: array<byte>) returns (i: nat)
    requires rgba.Length % 4 == 0
    modifies rgba
    ensures i <= rgba.Length < i + 64
    ensures Treated(old(rgba[..]), rgba[..], 0, i, p => Faded(f, p))
  {
    ghost var was, t := rgba[..], (p: Pixel) => Faded(f, p);
    i := 0;
    TreatedStart(was, 0, t);
    hide VectorBlock, MapPixels, Faded, Treated, Spliced;
    while rgba.Length - i >= 64
      invariant i <= rgba.Length
      invariant Treated(was, rgba[..], 0, i, t)
    {
      TreatedStep(was, rgba[..], 0, i, 64, t);
      assert rgba[i..i + 64] == rgba[..][i..i + 64];
      VectorBlockRefinesScalar(f, was[i..i + 64]);
      StoreBlock(rgba, i, VectorBlock(f, rgba[i..i + 64]));
      i := i + 64;
    }
  }

  /** `vst4q_u8` back into the span. */
  method StoreBlock(rgba: array<byte>, i: nat, block: seq<byte>)
    requires i + |block| <= rgba.Length
    modifies rgba
    ensures rgba[..] == Spliced(old(rgba[..]), i, block)
  {
    forall k | 0 <= k < |block| {
      rgba[i + k] := block[k];
    }
  }

  /** The scalar loop of `Apply`, from a pixel boundary to the end. */
  method ApplyScalar(f: Fade, rgba: array<byte>, start: nat)
    requires rgba.Length % 4 == 0 && start % 4 == 0 && start <= rgba.Length
    modifies rgba
    ensures Treated(old(rgba[..]), rgba[..], start, rgba.Length, p => Faded(f, p))
  {
    ghost var was, t := rgba[..], (p: Pixel) => Faded(f, p);
    var i := start;
    TreatedStart(was, start, t);
    hide MapPixels, Faded, Treated, Spliced, PixelAt, Bytes;
    while i < rgba.Length
      invariant start <= i <= rgba.Length
      invariant Treated(was, rgba[..], start, i, t)
    {
      TreatedRoom(was, rgba[..], start, i, t);
      TreatedStep(was, rgba[..], start, i, 4, t);
      SinglePixel(was[i..i + 4], t);
      FadePixel(f, rgba, i);
      i := i + 4;
    }
  }

  function Bytes(p: Pixel): (s: seq<byte>) { [p.r, p.g, p.b, p.a] }

  lemma SinglePixel(one: seq<byte>, t: Pixel -> Pixel)
    requires |one| == 4
    ensures MapPixels(one, t) == Bytes(t(PixelAt(one, 0)))
  {
    MapPixelsAt(one, t, 0);
    var m, q := MapPixels(one, t), t(PixelAt(one, 0));
    assert PixelAt(m, 0) == q;
    assert m == Bytes(PixelAt(m, 0));
  }

  lemma MixFromNeutral(d: int, w: int, luma: int, c: int, neutral: int)
    requires d > 0 && 0 <= w <= d && 0 <= luma < 256 && 0 <= c < 256
    requires neutral == (d - w) * luma + d / 2
    ensures (neutral + w * c) / d == Mix(d, w, luma, c)
    ensures 0 <= Mix(d, w, luma, c) < 256
  {
    MixBetween(d, w, luma, c);
  }

  /** One iteration of the scalar loop, in place. */
  method FadePixel(f: Fade, rgba: array<byte>, i: nat)
    requires i + 4 <= rgba.Length
    modifies rgba
    ensures rgba[..] == Spliced(old(rgba[..]), i, Bytes(Faded(f, PixelAt(old(rgba[..])[i..i + 4], 0))))
  {
    ghost var was := rgba[..];
    var red, green, blue := rgba[i], rgba[i + 1], rgba[i + 2];
    ghost var p := PixelAt(was[i..i + 4], 0);
    var spread: byte := Max(Max(red, green), blue) - Min(Min(red, green), blue);
    if spread == 0 || spread >= HighEdge(f) {
      assert was[i..i + 4] == Bytes(p);
      assert was == was[..i] + was[i..i + 4] + was[i + 4..];
      return;
    }
    var luma := Luma(red, green, blue);
    LumaIsByte(red, green, blue);
    var d: int, w: int := Denominator(f), Weight(f, spread);
    var neutral := (d - w) * luma + d / 2;
    ghost var q := Faded(f, p);
    assert q.r == Mix(d, w, luma, p.r) && q.g == Mix(d, w, luma, p.g) && q.b == Mix(d, w, luma, p.b) && q.a == p.a;
    hide Mix, Weight, Luma, Faded, Spread;
    var c := 0;
    while c < 3
      invariant 0 <= c <= 3
      invariant forall k :: 0 <= k < c ==> rgba[i + k] == Channel(q, k)
      invariant forall k :: 0 <= k < rgba.Length && !(i <= k < i + c) ==> rgba[k] == was[k]
    {
      var value: int := rgba[i + c];
      assert value == Channel(p, c);
      MixFromNeutral(d, w, luma, value, neutral);
      rgba[i + c] := (neutral + w * value) / d;
      c := c + 1;
    }
    assert rgba[i + 0] == Channel(q, 0) && rgba[i + 1] == Channel(q, 1) && rgba[i + 2] == Channel(q, 2);
    assert rgba[i + 3] == was[i + 3] == p.a == q.a;
    assert rgba[i..i + 4] == Bytes(q);
    assert rgba[..] == rgba[..i] + rgba[i..i + 4] + rgba[i + 4..];
    assert rgba[..i] == was[..i] && rgba[i + 4..] == was[i + 4..];
  }

  /** `Apply` where the vector unit exists: blocks first, then the scalar tail. */
  method Apply(f: Fade, rgba: array<byte>)
    requires rgba.Length % 4 == 0
    modifies rgba
    ensures rgba[..] == FadedBuffer(f, old(rgba[..]))
  {
    ghost var was := rgba[..];
    var i := ApplyVectors(f, rgba);
    ghost var blocks := rgba[..];
    ApplyScalar(f, rgba, i);
    TreatedTwice(was, blocks, rgba[..], i, p => Faded(f, p));
  }

  /** `Apply` on every other target: the scalar loop alone. */
  method ApplyPortable(f: Fade, rgba: array<byte>)
    requires rgba.Length % 4 == 0
    modifies rgba
    ensures rgba[..] == FadedBuffer(f, old(rgba[..]))
  {
    ghost var was := rgba[..];
    TreatedStart(was, 0, p => Faded(f, p));
    ApplyScalar(f, rgba, 0);
    TreatedTwice(was, was, rgba[..], 0, p => Faded(f, p));
  }

  /** Both targets of `ApplyGrayPreference`; a span that is not whole pixels is left alone. */
  method ApplyGrayPreference(rgba: array<byte>, preference: Preference, vectors: bool)
    modifies rgba
    ensures rgba[..] == GrayTreated(preference, old(rgba[..]))
  {
    if rgba.Length % 4 != 0 || preference == Off { return; }
    if vectors { Apply(preference, rgba); } else { ApplyPortable(preference, rgba); }
  }

  function GrayTreated(preference: Preference, s: seq<byte>): (r: seq<byte>)
    ensures |r| == |s|
  {
    if |s| % 4 != 0 || preference == Off then s else FadedBuffer(preference, s)
  }

  // ---------- what the treatments do to a colour ----------

  function Peak(p: Pixel): (m: byte) { Max(Max(p.r, p.g), p.b) }
  function Base(p: Pixel): (m: byte) { Min(Min(p.r, p.g), p.b) }

  lemma MixKeepsOrder(d: int, w: int, y: int, c1: int, c2: int)
    requires d > 0 && 0 <= w <= d && c1 <= c2
    ensures Mix(d, w, y, c1) <= Mix(d, w, y, c2)
  {
    var base := (d - w) * y + d / 2;
    Raster.MulMonotone(c1, c2, w);
    DivideMonotone(base + w * c1, base + w * c2, d);
  }

  lemma DivideMonotone(m: int, n: int, d: int)
    requires d > 0 && m <= n
    ensures m / d <= n / d
  {
    var q := n / d;
    assert d * q <= n < d * q + d;
    var low := m / d;
    assert d * low <= m < d * low + d;
    assert q + 1 <= low ==> d * q + d <= d * low by { if q + 1 <= low { Raster.MulMonotone(q + 1, low, d); } }
  }

  lemma FadedChannel(f: Fade, p: Pixel, c: int)
    requires 0 <= c < 3
    ensures Channel(Faded(f, p), c)
         == if 0 < Spread(p) < HighEdge(f)
           then Mix(Denominator(f), Weight(f, Spread(p)), Luma(p.r, p.g, p.b), Channel(p, c))
            else Channel(p, c)
    ensures Faded(f, p).a == p.a
  {
    hide Mix, Luma, Weight;
  }

  lemma LumaOfPixel(p: Pixel, c: int)
    requires 0 <= c < 3
    ensures Base(p) <= Luma(p.r, p.g, p.b) <= Peak(p) && Base(p) <= Channel(p, c) <= Peak(p)
  {
    LumaIsByte(p.r, p.g, p.b);
    hide Luma;
  }

  /** The gray fade pulls every channel toward luma without passing it, never swaps two channels,
      so it never widens the spread, and leaves alpha alone. */
  lemma FadeContracts(f: Fade, p: Pixel, c: int, k: int)
    requires 0 <= c < 3 && 0 <= k < 3
    ensures var y, q := Luma(p.r, p.g, p.b), Faded(f, p);
            && Min(y, Channel(p, c)) <= Channel(q, c) <= Max(y, Channel(p, c))
            && (Channel(p, c) <= Channel(p, k) ==> Channel(q, c) <= Channel(q, k))
            && Base(p) <= Channel(q, c) <= Peak(p)
            && q.a == p.a
  {
    FadedChannel(f, p, c);
    FadedChannel(f, p, k);
    LumaOfPixel(p, c);
    var y, d, w := Luma(p.r, p.g, p.b), Denominator(f), Weight(f, Spread(p));
    hide Faded, Mix, Luma, Weight, Spread, Channel, Base, Peak;
    MixBetween(d, w, y, Channel(p, c));
    if Channel(p, c) <= Channel(p, k) { MixKeepsOrder(d, w, y, Channel(p, c), Channel(p, k)); }
  }

  /** What `ApplyVividColor` takes off a channel. */
  function Reduction(minimum: int, spread: int, below: int): (r: int)
    requires spread > 24
  {
    (minimum * Min(spread - 24, 40) * below + 160 * spread / 2) / (160 * spread)
  }

  lemma ReductionBounds(minimum: int, spread: int, below: int)
    requires spread > 24 && 0 <= below <= spread && 0 <= minimum
    ensures 0 <= Reduction(minimum, spread, below) <= minimum
    ensures below == 0 ==> Reduction(minimum, spread, below) == 0
  {
    var strength, d := Min(spread - 24, 40), 160 * spread;
    var n := minimum * strength * below;
    assert 0 <= n by { NonNegativeProduct(minimum * strength, below) by { NonNegativeProduct(minimum, strength); } }
    assert n <= minimum * strength * spread by {
      NonNegativeProduct(minimum, strength);
      Raster.MulMonotone(below, spread, minimum * strength);
    }
    assert minimum * strength * spread <= minimum * 40 * spread by { ScaleStrength(minimum, strength, spread); }
    assert d * minimum == 160 * (minimum * spread) by { assert 160 * spread * minimum == 160 * (minimum * spread); }
    assert minimum * 40 * spread == 40 * (minimum * spread);
    NonNegativeProduct(minimum, spread);
    DivideBetween(n + d / 2, d, 0, minimum);
    if below == 0 { assert n == 0; DivideBetween(d / 2, d, 0, 0); }
  }

  lemma ScaleStrength(m: int, strength: int, spread: int)
    requires m >= 0 && spread >= 0 && strength <= 40
    ensures m * strength * spread <= m * 40 * spread
  {
    Raster.MulMonotone(strength, 40, m);
    Raster.MulMonotone(m * strength, m * 40, spread);
  }

  lemma ReductionGrows(minimum: int, spread: int, near: int, far: int)
    requires spread > 24 && 0 <= near <= far && 0 <= minimum
    ensures Reduction(minimum, spread, near) <= Reduction(minimum, spread, far)
  {
    var strength, d := Min(spread - 24, 40), 160 * spread;
    Raster.MulMonotone(near, far, minimum * strength) by { NonNegativeProduct(minimum, strength); }
    DivideMonotone(minimum * strength * near + d / 2, minimum * strength * far + d / 2, d);
  }

  /** The vivid treatment of one pixel. */
  function Vivid(p: Pixel): (q: Pixel) {
    var s := Spread(p);
    if s <= 24 || Base(p) == 0 then p
    else
      VividChannelIsByte(p, p.r); VividChannelIsByte(p, p.g); VividChannelIsByte(p, p.b);
      Pixel(VividChannel(p, p.r), VividChannel(p, p.g), VividChannel(p, p.b), p.a)
  }

  function VividChannel(p: Pixel, c: int): (v: int)
    requires Spread(p) > 24
  {
    c - Reduction(Base(p), Spread(p), Peak(p) - c)
  }

  lemma VividChannelIsByte(p: Pixel, c: byte)
    requires Spread(p) > 24 && Base(p) <= c <= Peak(p)
    ensures 0 <= VividChannel(p, c) <= c
    ensures c == Peak(p) ==> VividChannel(p, c) == c
  {
    ReductionBounds(Base(p), Spread(p), Peak(p) - c);
  }

  /** Vivid keeps the peak, never underflows, keeps channels strictly apart and only widens the spread. */
  lemma VividSpreadsColor(p: Pixel, c: int, k: int)
    requires 0 <= c < 3 && 0 <= k < 3
    ensures var q := Vivid(p);
            && 0 <= Channel(q, c) <= Channel(p, c)
            && (Channel(p, c) == Peak(p) ==> Channel(q, c) == Peak(p))
            && (Channel(p, c) < Channel(p, k) ==>
                  Channel(q, k) - Channel(q, c) >= Channel(p, k) - Channel(p, c))
            && Spread(q) >= Spread(p) && q.a == p.a
  {
    if Spread(p) > 24 && Base(p) != 0 {
      VividChannelIsByte(p, p.r); VividChannelIsByte(p, p.g); VividChannelIsByte(p, p.b);
      var near, far := Peak(p) - Channel(p, k), Peak(p) - Channel(p, c);
      if near <= far { ReductionGrows(Base(p), Spread(p), near, far); }
      hide Reduction;
    }
  }

  function VividBuffer(s: seq<byte>): (r: seq<byte>)
    ensures |r| == |s|
  {
    if |s| % 4 != 0 then s else MapPixels(s, p => Vivid(p))
  }

  method ApplyVividColor(rgba: array<byte>)
    modifies rgba
    ensures rgba[..] == VividBuffer(old(rgba[..]))
  {
    if rgba.Length % 4 != 0 { return; }
    ghost var was, t := rgba[..], (p: Pixel) => Vivid(p);
    var i := 0;
    TreatedStart(was, 0, t);
    hide MapPixels, Vivid, Treated, Spliced, PixelAt, Bytes;
    while i < rgba.Length
      invariant 0 <= i <= rgba.Length
      invariant Treated(was, rgba[..], 0, i, t)
    {
      TreatedRoom(was, rgba[..], 0, i, t);
      TreatedStep(was, rgba[..], 0, i, 4, t);
      SinglePixel(was[i..i + 4], t);
      VividPixel(rgba, i);
      i := i + 4;
    }
    TreatedStart(rgba[..], |was|, t);
    TreatedTwice(was, rgba[..], rgba[..], |was|, t);
  }

  method VividPixel(rgba: array<byte>, i: nat)
    requires i + 4 <= rgba.Length
    modifies rgba
    ensures rgba[..] == Spliced(old(rgba[..]), i, Bytes(Vivid(PixelAt(old(rgba[..])[i..i + 4], 0))))
  {
    ghost var was := rgba[..];
    ghost var p := PixelAt(was[i..i + 4], 0);
    var maximum: int := Max(Max(rgba[i], rgba[i + 1]), rgba[i + 2]);
    var minimum: int := Min(Min(rgba[i], rgba[i + 1]), rgba[i + 2]);
    var spread := maximum - minimum;
    if spread <= 24 || minimum == 0 {
      assert was[i..i + 4] == Bytes(p);
      assert was == was[..i] + was[i..i + 4] + was[i + 4..];
      return;
    }
    ghost var q := Vivid(p);
    assert q.r == VividChannel(p, p.r) && q.g == VividChannel(p, p.g) && q.b == VividChannel(p, p.b) && q.a == p.a;
    hide Reduction, Vivid;
    var c := 0;
    while c < 3
      invariant 0 <= c <= 3
      invariant forall k :: 0 <= k < c ==> rgba[i + k] == Channel(q, k)
      invariant forall k :: 0 <= k < rgba.Length && !(i <= k < i + c) ==> rgba[k] == was[k]
    {
      var value: int := rgba[i + c];
      assert value == Channel(p, c);
      VividChannelIsByte(p, value);
      rgba[i + c] := value - Reduction(minimum, spread, maximum - value);
      c := c + 1;
    }
    assert rgba[i + 0] == Channel(q, 0) && rgba[i + 1] == Channel(q, 1) && rgba[i + 2] == Channel(q, 2);
    assert rgba[i + 3] == was[i + 3] == p.a == q.a;
    assert rgba[i..i + 4] == Bytes(q);
    assert rgba[..] == rgba[..i] + rgba[i..i + 4] + rgba[i + 4..];
    assert rgba[..i] == was[..i] && rgba[i + 4..] == was[i + 4..];
  }
}
