/** Source-over of a sleep image on the retained page, in the 16-level panel domain. */
module Overlay {
  import opened Bits

  datatype OverlayResult = Composited | RejectedBytes | RejectedPanelGray
  datatype Output = Output(result: OverlayResult, panelGray: seq<byte>, rgba: seq<byte>)

  predicate PanelLevel(p: byte) { p % 16 == 0 }

  predicate PanelGray(pixels: seq<byte>) {
    forall i :: 0 <= i < |pixels| ==> PanelLevel(pixels[i])
  }

  function Quantized(gray: int): (level: byte)
    requires 0 <= gray <= 255
  {
    Min(15, (gray + 8) / 16) * 16
  }

  /** 255 times the exact blend. */
  function Exact(fg: byte, bg: byte, alpha: byte): int {
    (fg as int) * alpha + (bg as int) * (255 - alpha)
  }

  function Rounded(x: int): int { (x + 127) / 255 }

  /** The panel byte 0xN0 as the full-range gray 0xNN. */
  function Expanded(bg: byte): (g: byte)
    requires PanelLevel(bg)
  {
    (bg as int) + bg / 16
  }

  lemma ExactBetween(fg: byte, bg: byte, alpha: byte)
    ensures 255 * Min(fg, bg) <= Exact(fg, bg, alpha) <= 255 * Max(fg, bg)
    ensures alpha == 255 ==> Exact(fg, bg, alpha) == 255 * (fg as int)
    ensures alpha == 0 ==> Exact(fg, bg, alpha) == 255 * (bg as int)
  {
    var lo, hi := Min(fg, bg), Max(fg, bg);
    assert Exact(fg, bg, alpha) - 255 * lo == (fg - lo) * alpha + (bg - lo) * (255 - alpha);
    assert 255 * hi - Exact(fg, bg, alpha) == (hi - fg) * alpha + (hi - bg) * (255 - alpha);
    Products(fg - lo, alpha, bg - lo);
    Products(hi - fg, alpha, hi - bg);
  }

  lemma Products(a: int, alpha: byte, b: int)
    requires a >= 0 && b >= 0
    ensures a * alpha + b * (255 - alpha) >= 0
  {
    NonNegativeProduct(a, alpha);
    NonNegativeProduct(b, 255 - alpha);
  }

  /** Rounding to the nearest integer keeps integer bounds and errs by at most 127/255. */
  lemma RoundedNear(x: int, lo: int, hi: int)
    requires 255 * lo <= x <= 255 * hi
    ensures lo <= Rounded(x) <= hi && -127 <= 255 * Rounded(x) - x <= 127
  {
  }

  /** The panel byte of a blend. */
  function BlendedGray(fg: byte, bg: byte, alpha: byte): (level: byte) {
    ExactBetween(fg, bg, alpha);
    RoundedNear(Exact(fg, bg, alpha), Min(fg, bg), Max(fg, bg));
    Quantized(Rounded(Exact(fg, bg, alpha)))
  }

  function BlendedChannel(fg: byte, bg: byte, alpha: byte): (value: byte) {
    ExactBetween(fg, bg, alpha);
    RoundedNear(Exact(fg, bg, alpha), Min(fg, bg), Max(fg, bg));
    Rounded(Exact(fg, bg, alpha))
  }

  /** Quantizing picks a nearest panel level. */
  lemma QuantizedIsNearest(gray: int, level: byte)
    requires 0 <= gray <= 255 && PanelLevel(level)
    ensures PanelLevel(Quantized(gray))
    ensures Abs(Quantized(gray) - gray) <= Abs(level - gray)
    ensures gray <= level ==> Quantized(gray) <= level
    ensures gray >= level ==> Quantized(gray) >= level
  {
    var k := level / 16;
    assert level == 16 * k && 0 <= k <= 15;
  }

  /** The blend is a panel level between foreground and background, exact at both ends of alpha,
      and within 8 + 127/255 of the exact blend. */
  lemma BlendBounds(fg: byte, bg: byte, alpha: byte)
    requires PanelLevel(fg) && PanelLevel(bg)
    ensures var q := BlendedGray(fg, bg, alpha);
            && PanelLevel(q) && Min(fg, bg) <= q <= Max(fg, bg)
            && (alpha == 255 ==> q == fg) && (alpha == 0 ==> q == bg)
            && Abs(255 * (q as int) - Exact(fg, bg, alpha)) <= 255 * 8 + 127
  {
    ExactBetween(fg, bg, alpha);
    RoundedNear(Exact(fg, bg, alpha), Min(fg, bg), Max(fg, bg));
    var r := Rounded(Exact(fg, bg, alpha));
    QuantizedIsNearest(r, fg);
    QuantizedIsNearest(r, bg);
    QuantizedNear(r, Max(fg, bg));
  }

  lemma QuantizedNear(gray: int, top: byte)
    requires 0 <= gray <= top && PanelLevel(top)
    ensures Abs(Quantized(gray) - gray) <= 8
  {
  }

  /** More coverage never moves the result away from the foreground. */
  lemma BlendMonotone(fg: byte, bg: byte, low: byte, high: byte)
    requires low <= high
    ensures fg >= bg ==> BlendedGray(fg, bg, low) <= BlendedGray(fg, bg, high)
    ensures fg <= bg ==> BlendedGray(fg, bg, low) >= BlendedGray(fg, bg, high)
  {
    assert Exact(fg, bg, high) - Exact(fg, bg, low) == ((fg as int) - bg) * (high - low);
    if fg >= bg { NonNegativeProduct(fg - bg, high - low); }
    if fg <= bg {
      NonNegativeProduct(bg - fg, high - low);
      assert ((fg as int) - bg) * (high - low) == -((bg - fg) * (high - low));
    }
    QuantizedMonotone(fg, bg, low, high);
  }

  lemma QuantizedMonotone(fg: byte, bg: byte, low: byte, high: byte)
    ensures Exact(fg, bg, low) <= Exact(fg, bg, high) ==> BlendedGray(fg, bg, low) <= BlendedGray(fg, bg, high)
    ensures Exact(fg, bg, low) >= Exact(fg, bg, high) ==> BlendedGray(fg, bg, low) >= BlendedGray(fg, bg, high)
  {
    hide Exact;
  }

  // ---------- whole images ----------

  predicate ValidBytes(fg: seq<byte>, alpha: seq<byte>, bg: seq<byte>, rgba: seq<byte>) {
    && fg != [] && |fg| == |alpha| == |bg|
    && (rgba == [] || (|rgba| / 4 == |fg| && |rgba| % 4 == 0))
  }

  predicate Accepted(fg: seq<byte>, alpha: seq<byte>, bg: seq<byte>, rgba: seq<byte>) {
    ValidBytes(fg, alpha, bg, rgba) && PanelGray(fg) && PanelGray(bg)
  }

  function BlendedAt(fg: seq<byte>, alpha: seq<byte>, bg: seq<byte>, i: nat): byte
    requires i < |fg| == |alpha| == |bg|
  {
    BlendedGray(fg[i], bg[i], alpha[i])
  }

  function ColorAt(alpha: seq<byte>, bg: seq<byte>, rgba: seq<byte>, i: nat): byte
    requires i < |rgba| == 4 * |alpha| && |alpha| == |bg| && PanelGray(bg)
  {
    if i % 4 == 3 then 255 else BlendedChannel(rgba[i], Expanded(bg[i / 4]), alpha[i / 4])
  }

  function Composite(fg: seq<byte>, alpha: seq<byte>, bg: seq<byte>, rgba: seq<byte>): (out: Output) {
    if !ValidBytes(fg, alpha, bg, rgba) then Output(RejectedBytes, [], [])
    else if !PanelGray(fg) || !PanelGray(bg) then Output(RejectedPanelGray, [], [])
    else
      Output(Composited,
             seq(|fg|, i requires 0 <= i < |fg| => BlendedAt(fg, alpha, bg, i)),
             seq(|rgba|, i requires 0 <= i < |rgba| => ColorAt(alpha, bg, rgba, i)))
  }

  /** What a composited image keeps of its two sources: panel gray, pixelwise between them, the image where
      alpha is full, the page where it is empty; colours opaque. */
  lemma CompositeBounds(fg: seq<byte>, alpha: seq<byte>, bg: seq<byte>, rgba: seq<byte>)
    requires Accepted(fg, alpha, bg, rgba)
    ensures var out := Composite(fg, alpha, bg, rgba);
            && |out.panelGray| == |fg| && PanelGray(out.panelGray) && |out.rgba| == |rgba|
            && (forall i :: 0 <= i < |fg| ==> Min(fg[i], bg[i]) <= out.panelGray[i] <= Max(fg[i], bg[i]))
            && (forall i :: 0 <= i < |fg| && alpha[i] == 255 ==> out.panelGray[i] == fg[i])
            && (forall i :: 0 <= i < |fg| && alpha[i] == 0 ==> out.panelGray[i] == bg[i])
            && (forall i :: 0 <= i < |rgba| && i % 4 == 3 ==> out.rgba[i] == 255)
            && (forall i :: 0 <= i < |rgba| && i % 4 != 3 && alpha[i / 4] == 255 ==> out.rgba[i] == rgba[i])
            && (forall i :: 0 <= i < |rgba| && i % 4 != 3 && alpha[i / 4] == 0 ==> out.rgba[i] == Expanded(bg[i / 4]))
  {
    var out := Composite(fg, alpha, bg, rgba);
    hide BlendedGray, BlendedChannel;
    forall i | 0 <= i < |fg|
      ensures PanelLevel(out.panelGray[i]) && Min(fg[i], bg[i]) <= out.panelGray[i] <= Max(fg[i], bg[i])
      ensures (alpha[i] == 255 ==> out.panelGray[i] == fg[i]) && (alpha[i] == 0 ==> out.panelGray[i] == bg[i])
    {
      assert PanelLevel(fg[i]) && PanelLevel(bg[i]);
      BlendBounds(fg[i], bg[i], alpha[i]);
    }
    forall i | 0 <= i < |rgba| && i % 4 != 3
      ensures alpha[i / 4] == 255 ==> out.rgba[i] == rgba[i]
      ensures alpha[i / 4] == 0 ==> out.rgba[i] == Expanded(bg[i / 4])
    {
      ChannelEnds(rgba[i], Expanded(bg[i / 4]), alpha[i / 4]);
    }
  }

  lemma ChannelEnds(fg: byte, bg: byte, alpha: byte)
    ensures var c := BlendedChannel(fg, bg, alpha);
            Min(fg, bg) <= c <= Max(fg, bg) && (alpha == 255 ==> c == fg) && (alpha == 0 ==> c == bg)
  {
    ExactBetween(fg, bg, alpha);
    RoundedNear(Exact(fg, bg, alpha), Min(fg, bg), Max(fg, bg));
  }

  /** Or-ing in the high nibble expands a panel byte. */
  lemma OrExpands(bg: byte)
    requires PanelLevel(bg)
    ensures BitOr(bg / 16, bg) == Expanded(bg)
  {
    assert Pow2(4) == 16;
    OrShifted(bg / 16, bg / 16, 4);
  }

  method IsPanelGray(pixels: seq<byte>) returns (ok: bool)
    ensures ok <==> PanelGray(pixels)
  {
    for i := 0 to |pixels|
      invariant forall k :: 0 <= k < i ==> PanelLevel(pixels[k])
    {
      if pixels[i] % 16 != 0 { return false; }
    }
    return true;
  }

  method ComposeSleepImageOverlay(fg: seq<byte>, alpha: seq<byte>, bg: seq<byte>, rgba: seq<byte>)
    returns (out: Output)
    ensures out == Composite(fg, alpha, bg, rgba)
    ensures out.result == RejectedBytes <==> !ValidBytes(fg, alpha, bg, rgba)
    ensures out.result == Composited <==> Accepted(fg, alpha, bg, rgba)
  {
    if fg == [] || |fg| != |alpha| || |fg| != |bg| || (rgba != [] && (|rgba| / 4 != |fg| || |rgba| % 4 != 0)) {
      return Output(RejectedBytes, [], []);
    }
    var fgOk := IsPanelGray(fg);
    var bgOk := IsPanelGray(bg);
    if !fgOk || !bgOk { return Output(RejectedPanelGray, [], []); }
    var gray := new byte[|fg|];
    var color := new byte[|rgba|];
    hide BlendedGray, ColorAt, PanelGray;
    for index := 0 to |fg|
      invariant forall k :: 0 <= k < index ==> gray[k] == BlendedAt(fg, alpha, bg, k)
      invariant rgba != [] ==> forall k :: 0 <= k < 4 * index ==> color[k] == ColorAt(alpha, bg, rgba, k)
    {
      gray[index] := BlendPixel(fg[index], bg[index], alpha[index]);
      if rgba != [] { ColorPixel(alpha, bg, rgba, color, index); }
    }
    assert gray[..] == Composite(fg, alpha, bg, rgba).panelGray;
    assert color[..] == Composite(fg, alpha, bg, rgba).rgba;
    return Output(Composited, gray[..], color[..]);
  }

  /** The colour part of one pixel. */
  method ColorPixel(alpha: seq<byte>, bg: seq<byte>, rgba: seq<byte>, color: array<byte>, index: nat)
    requires color.Length == |rgba| == 4 * |alpha| && |alpha| == |bg| && PanelGray(bg) && index < |alpha|
    requires forall k :: 0 <= k < 4 * index ==> color[k] == ColorAt(alpha, bg, rgba, k)
    modifies color
    ensures forall k :: 0 <= k < 4 * index + 4 ==> color[k] == ColorAt(alpha, bg, rgba, k)
  {
    var background := Expand(bg[index]);
    hide ColorAt, PanelGray, Expanded, BlendedChannel;
    for channel := 0 to 3
      invariant forall k :: 0 <= k < 4 * index + channel ==> color[k] == ColorAt(alpha, bg, rgba, k)
    {
      ColorIndex(alpha, bg, rgba, index, channel);
      color[4 * index + channel] := BlendColor(rgba[4 * index + channel], background, alpha[index]);
    }
    ColorIndex(alpha, bg, rgba, index, 3);
    color[4 * index + 3] := 255;
  }

  method Expand(bg: byte) returns (g: byte)
    requires PanelLevel(bg)
    ensures g == Expanded(bg)
  {
    OrExpands(bg);
    g := BitOr(bg / 16, bg);
  }

  lemma ColorIndex(alpha: seq<byte>, bg: seq<byte>, rgba: seq<byte>, index: nat, channel: nat)
    requires |rgba| == 4 * |alpha| && |alpha| == |bg| && PanelGray(bg) && index < |alpha| && channel < 4
    ensures ColorAt(alpha, bg, rgba, 4 * index + channel) ==
            if channel == 3 then 255 else BlendedChannel(rgba[4 * index + channel], Expanded(bg[index]), alpha[index])
  {
    assert (4 * index + channel) / 4 == index && (4 * index + channel) % 4 == channel;
  }

  method BlendPixel(fg: byte, bg: byte, alpha: byte) returns (q: byte)
    ensures q == BlendedGray(fg, bg, alpha)
  {
    var inverse := 255 - alpha;
    ExactBetween(fg, bg, alpha);
    RoundedNear(Exact(fg, bg, alpha), Min(fg, bg), Max(fg, bg));
    var blended := ((fg as int) * alpha + (bg as int) * inverse + 127) / 255;
    var level := Min(15, (blended + 8) / 16);
    q := level * 16;
  }

  method BlendColor(fg: byte, bg: byte, alpha: byte) returns (c: byte)
    ensures c == BlendedChannel(fg, bg, alpha)
  {
    ExactBetween(fg, bg, alpha);
    RoundedNear(Exact(fg, bg, alpha), Min(fg, bg), Max(fg, bg));
    c := ((fg as int) * alpha + (bg as int) * (255 - alpha) + 127) / 255;
  }
}
