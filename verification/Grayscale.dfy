/** Conversion of a mapped RGBA or BGRA source to panel gray, with rotation. */
module Grayscale {
  import opened Bits
  import opened Raster
  import opened Wrappers

  datatype Layout = Rgba8888 | Bgra8888
  datatype Rotation = Unrotated | Clockwise | CounterClockwise

  datatype Source = Source(pixels: Option<seq<byte>>, width: int, height: int, stride: int, layout: Layout) {
    predicate IsValid() {
      pixels.Some? && width > 0 && height > 0 && stride >= width
    }
    /** The memory a caller of the C++ function must own: every row up to its last pixel. */
    predicate Readable() {
      IsValid() ==> |pixels.value| >= (Area(stride, height - 1) + width) * 4
    }
  }

  datatype Gray = Gray(width: int, height: int, pixels: seq<byte>)
  const SIZE_MAX := U64_MAX

  lemma PixelInBuffer(s: Source, x: int, y: int)
    requires s.IsValid() && s.Readable() && 0 <= x < s.width && 0 <= y < s.height
    ensures 0 <= 4 * At(x, y, s.stride) && 4 * At(x, y, s.stride) + 4 <= |s.pixels.value|
  {
    MulMonotone(y, s.height - 1, s.stride);
    MulMonotone(0, y, s.stride);
  }

  function RedAt(s: Source, x: int, y: int): (v: byte)
    requires s.IsValid() && s.Readable() && 0 <= x < s.width && 0 <= y < s.height
  {
    PixelInBuffer(s, x, y);
    s.pixels.value[4 * At(x, y, s.stride) + if s.layout == Rgba8888 then 0 else 2]
  }

  function GreenAt(s: Source, x: int, y: int): (v: byte)
    requires s.IsValid() && s.Readable() && 0 <= x < s.width && 0 <= y < s.height
  {
    PixelInBuffer(s, x, y);
    s.pixels.value[4 * At(x, y, s.stride) + 1]
  }

  function BlueAt(s: Source, x: int, y: int): (v: byte)
    requires s.IsValid() && s.Readable() && 0 <= x < s.width && 0 <= y < s.height
  {
    PixelInBuffer(s, x, y);
    s.pixels.value[4 * At(x, y, s.stride) + if s.layout == Rgba8888 then 2 else 0]
  }

  /** `(38 * R + 75 * G + 15 * B) >> 7`, then the high nibble. */
  function PanelGray(r: int, g: int, b: int): (v: int)
    requires 0 <= r < 256 && 0 <= g < 256 && 0 <= b < 256
    ensures 0 <= v <= 240 && v % 16 == 0
  {
    var luma := (38 * r + 75 * g + 15 * b) / 128;
    luma - luma % 16
  }

  function SourceGray(s: Source, x: int, y: int): (v: byte)
    requires s.IsValid() && s.Readable() && 0 <= x < s.width && 0 <= y < s.height
  {
    PanelGray(RedAt(s, x, y), GreenAt(s, x, y), BlueAt(s, x, y))
  }

  // ---------- geometry of a rotation ----------

  function OutWidth(w: int, h: int, rot: Rotation): int { if rot == Unrotated then w else h }
  function OutHeight(w: int, h: int, rot: Rotation): int { if rot == Unrotated then h else w }

  function DestX(x: int, y: int, h: int, rot: Rotation): int {
    match rot case Unrotated => x case Clockwise => h - 1 - y case CounterClockwise => y
  }
  function DestY(x: int, y: int, w: int, rot: Rotation): int {
    match rot case Unrotated => y case Clockwise => x case CounterClockwise => w - 1 - x
  }

  /** Where the converted pixel (dx, dy) comes from: the inverse of the two functions above. */
  function OriginX(dx: int, dy: int, w: int, rot: Rotation): int {
    match rot case Unrotated => dx case Clockwise => dy case CounterClockwise => w - 1 - dy
  }
  function OriginY(dx: int, dy: int, h: int, rot: Rotation): int {
    match rot case Unrotated => dy case Clockwise => h - 1 - dx case CounterClockwise => dx
  }

  /** Index of the converted pixel that source pixel i becomes, and back. */
  function DestIndex(i: int, w: int, h: int, rot: Rotation): int
    requires w > 0
  {
    At(DestX(Col(i, w), Row(i, w), h, rot), DestY(Col(i, w), Row(i, w), w, rot), OutWidth(w, h, rot))
  }
  function OriginIndex(j: int, w: int, h: int, rot: Rotation): int
    requires w > 0 && h > 0
  {
    var ow := OutWidth(w, h, rot);
    At(OriginX(Col(j, ow), Row(j, ow), w, rot), OriginY(Col(j, ow), Row(j, ow), h, rot), w)
  }

  lemma OutArea(w: int, h: int, rot: Rotation)
    ensures Area(OutWidth(w, h, rot), OutHeight(w, h, rot)) == Area(w, h)
  {
  }

  lemma OriginOfDest(i: int, w: int, h: int, rot: Rotation)
    requires w > 0 && h > 0 && 0 <= i < Area(w, h)
    ensures 0 <= DestIndex(i, w, h, rot) < Area(w, h)
    ensures OriginIndex(DestIndex(i, w, h, rot), w, h, rot) == i
    ensures Col(DestIndex(i, w, h, rot), OutWidth(w, h, rot)) == DestX(Col(i, w), Row(i, w), h, rot)
    ensures Row(DestIndex(i, w, h, rot), OutWidth(w, h, rot)) == DestY(Col(i, w), Row(i, w), w, rot)
  {
    SplitBounds(i, w, h);
    OutArea(w, h, rot);
    var x, y := Col(i, w), Row(i, w);
    AtBounds(DestX(x, y, h, rot), DestY(x, y, w, rot), OutWidth(w, h, rot), OutHeight(w, h, rot));
    hide At, Col, Row, Area;
  }

  lemma DestOfOrigin(j: int, w: int, h: int, rot: Rotation)
    requires w > 0 && h > 0 && 0 <= j < Area(w, h)
    ensures 0 <= OriginIndex(j, w, h, rot) < Area(w, h)
    ensures DestIndex(OriginIndex(j, w, h, rot), w, h, rot) == j
    ensures var ow := OutWidth(w, h, rot);
            && Col(OriginIndex(j, w, h, rot), w) == OriginX(Col(j, ow), Row(j, ow), w, rot)
            && Row(OriginIndex(j, w, h, rot), w) == OriginY(Col(j, ow), Row(j, ow), h, rot)
            && 0 <= OriginX(Col(j, ow), Row(j, ow), w, rot) < w
            && 0 <= OriginY(Col(j, ow), Row(j, ow), h, rot) < h
  {
    OutArea(w, h, rot);
    var ow := OutWidth(w, h, rot);
    SplitBounds(j, ow, OutHeight(w, h, rot));
    AtBounds(OriginX(Col(j, ow), Row(j, ow), w, rot), OriginY(Col(j, ow), Row(j, ow), h, rot), w, h);
    hide At, Col, Row, Area;
  }

  /** One converted pixel, read off the source position it comes from. */
  function ConvertedAt(s: Source, rot: Rotation, j: int): (v: byte)
    requires s.IsValid() && s.Readable() && 0 <= j < Area(s.width, s.height)
  {
    var ow := OutWidth(s.width, s.height, rot);
    DestOfOrigin(j, s.width, s.height, rot);
    SourceGray(s, OriginX(Col(j, ow), Row(j, ow), s.width, rot), OriginY(Col(j, ow), Row(j, ow), s.height, rot))
  }

  /** The converted image, defined by gathering. */
  function Converted(s: Source, rot: Rotation): (g: Gray)
    requires s.IsValid() && s.Readable()
    ensures |g.pixels| == Area(s.width, s.height) == Area(g.width, g.height)
    ensures g.width == OutWidth(s.width, s.height, rot) && g.height == OutHeight(s.width, s.height, rot)
    ensures forall j :: 0 <= j < |g.pixels| ==> g.pixels[j] == ConvertedAt(s, rot, j)
  {
    AreaNonNegative(s.width, s.height);
    OutArea(s.width, s.height, rot);
    Gray(OutWidth(s.width, s.height, rot), OutHeight(s.width, s.height, rot),
         seq(Area(s.width, s.height), j requires 0 <= j < Area(s.width, s.height) => ConvertedAt(s, rot, j)))
  }

  predicate CanAllocatePixels(w: int, h: int) {
    w > 0 && h > 0 && w <= SIZE_MAX / h
  }

  /** The panel-native path: both loops contiguous, layout chosen outside. */
  method ConvertRows(s: Source) returns (output: seq<byte>)
    requires s.IsValid() && s.Readable()
    ensures output == Converted(s, Unrotated).pixels
  {
    var w, h := s.width, s.height;
    AreaNonNegative(w, h);
    var buffer := new byte[Area(w, h)];
    ScatterStart(s, Unrotated, buffer[..]);
    hide Scattered, SourceGray, At;
    for y := 0 to h
      invariant Scattered(s, Unrotated, buffer[..], 0, y)
    {
      for x := 0 to w
        invariant Scattered(s, Unrotated, buffer[..], x, y)
      {
        ghost var was := buffer[..];
        ScatterIndex(s, Unrotated, x, y);
        ScatterStep(s, Unrotated, was, x, y);
        buffer[At(x, y, w)] := SourceGray(s, x, y);
        assert buffer[..] == was[At(x, y, w) := SourceGray(s, x, y)];
      }
      RowDone(s, Unrotated, buffer[..], y);
    }
    ScatteredAll(s, Unrotated, buffer[..]);
    return buffer[..];
  }

  /** The general loop: every source pixel is scattered to its rotated place. */
  method ConvertScattered(s: Source, rot: Rotation) returns (output: seq<byte>)
    requires s.IsValid() && s.Readable()
    ensures output == Converted(s, rot).pixels
  {
    var w, h := s.width, s.height;
    AreaNonNegative(w, h);
    var buffer := new byte[Area(w, h)];
    ScatterStart(s, rot, buffer[..]);
    hide Scattered, SourceGray, At;
    for y := 0 to h
      invariant Scattered(s, rot, buffer[..], 0, y)
    {
      for x := 0 to w
        invariant Scattered(s, rot, buffer[..], x, y)
      {
        var destination := At(DestX(x, y, h, rot), DestY(x, y, w, rot), OutWidth(w, h, rot));
        ghost var was := buffer[..];
        ScatterIndex(s, rot, x, y);
        ScatterStep(s, rot, was, x, y);
        buffer[destination] := SourceGray(s, x, y);
        assert buffer[..] == was[destination := SourceGray(s, x, y)];
      }
      RowDone(s, rot, buffer[..], y);
    }
    ScatteredAll(s, rot, buffer[..]);
    return buffer[..];
  }

  /** Every cell whose origin the loop has passed already holds its converted pixel. */
  ghost predicate Scattered(s: Source, rot: Rotation, buffer: seq<byte>, x: int, y: int)
    requires s.IsValid() && s.Readable()
  {
    && |buffer| == Area(s.width, s.height)
    && forall j :: 0 <= j < |buffer| && OriginIndex(j, s.width, s.height, rot) < At(x, y, s.width)
         ==> buffer[j] == ConvertedAt(s, rot, j)
  }

  lemma ScatterStart(s: Source, rot: Rotation, buffer: seq<byte>)
    requires s.IsValid() && s.Readable() && |buffer| == Area(s.width, s.height)
    ensures Scattered(s, rot, buffer, 0, 0)
  {
    forall j | 0 <= j < |buffer| ensures OriginIndex(j, s.width, s.height, rot) >= 0 {
      DestOfOrigin(j, s.width, s.height, rot);
    }
  }

  lemma RowDone(s: Source, rot: Rotation, buffer: seq<byte>, y: int)
    requires s.IsValid() && s.Readable() && Scattered(s, rot, buffer, s.width, y)
    ensures Scattered(s, rot, buffer, 0, y + 1)
  {
    assert At(s.width, y, s.width) == At(0, y + 1, s.width);
  }

  lemma ScatterIndex(s: Source, rot: Rotation, x: int, y: int)
    requires s.IsValid() && s.Readable() && 0 <= x < s.width && 0 <= y < s.height
    ensures var d := At(DestX(x, y, s.height, rot), DestY(x, y, s.width, rot), OutWidth(s.width, s.height, rot));
            0 <= d < Area(s.width, s.height)
            && OriginIndex(d, s.width, s.height, rot) == At(x, y, s.width)
            && ConvertedAt(s, rot, d) == SourceGray(s, x, y)
  {
    AtBounds(x, y, s.width, s.height);
    OriginOfDest(At(x, y, s.width), s.width, s.height, rot);
    hide At, Col, Row, Area, SourceGray;
  }

  lemma ScatterStep(s: Source, rot: Rotation, was: seq<byte>, x: int, y: int)
    requires s.IsValid() && s.Readable() && 0 <= x < s.width && 0 <= y < s.height
    requires Scattered(s, rot, was, x, y)
    ensures var d := At(DestX(x, y, s.height, rot), DestY(x, y, s.width, rot), OutWidth(s.width, s.height, rot));
            0 <= d < |was| && Scattered(s, rot, was[d := SourceGray(s, x, y)], x + 1, y)
  {
    ScatterIndex(s, rot, x, y);
    var w, h := s.width, s.height;
    var d := At(DestX(x, y, h, rot), DestY(x, y, w, rot), OutWidth(w, h, rot));
    var next := was[d := SourceGray(s, x, y)];
    forall j | 0 <= j < |next| && OriginIndex(j, w, h, rot) < At(x + 1, y, w)
      ensures next[j] == ConvertedAt(s, rot, j)
    {
      if OriginIndex(j, w, h, rot) == At(x, y, w) {
        DestOfOrigin(j, w, h, rot);
        DestOfOrigin(d, w, h, rot);
      }
      assert At(x + 1, y, w) == At(x, y, w) + 1;
    }
  }

  lemma ScatteredAll(s: Source, rot: Rotation, buffer: seq<byte>)
    requires s.IsValid() && s.Readable() && Scattered(s, rot, buffer, 0, s.height)
    ensures buffer == Converted(s, rot).pixels
  {
    assert At(0, s.height, s.width) == Area(s.width, s.height);
    forall j | 0 <= j < |buffer| ensures buffer[j] == ConvertedAt(s, rot, j) {
      DestOfOrigin(j, s.width, s.height, rot);
    }
  }

  /** `ConvertToGrayscale`: nothing for an invalid source or an overflowing size, else the converted image. */
  method ConvertToGrayscale(s: Source, rot: Rotation) returns (result: Option<Gray>)
    requires s.Readable()
    ensures result.Some? <==> s.IsValid() && CanAllocatePixels(s.width, s.height)
    ensures result.Some? ==> result.value == Converted(s, rot)
  {
    if !s.IsValid() { return None; }
    var ow, oh := OutWidth(s.width, s.height, rot), OutHeight(s.width, s.height, rot);
    AllocationIsSymmetric(s.width, s.height);
    if !CanAllocatePixels(ow, oh) { return None; }
    var output;
    if rot == Unrotated { output := ConvertRows(s); } else { output := ConvertScattered(s, rot); }
    return Some(Gray(ow, oh, output));
  }

  lemma AllocationIsSymmetric(w: int, h: int)
    requires w > 0 && h > 0
    ensures CanAllocatePixels(w, h) <==> CanAllocatePixels(h, w)
    ensures CanAllocatePixels(w, h) <==> Area(w, h) <= SIZE_MAX
  {
    FitsByDivision(w, h);
    FitsByDivision(h, w);
    assert w * h == h * w;
  }

  lemma FitsByDivision(w: int, h: int)
    requires w > 0 && h > 0
    ensures w <= SIZE_MAX / h <==> w * h <= SIZE_MAX
  {
    var q := SIZE_MAX / h;
    assert q * h <= SIZE_MAX < q * h + h;
    assert w <= q ==> w * h <= q * h by { if w <= q { MulMonotone(w, q, h); } }
    assert q + 1 <= w ==> q * h + h <= w * h by { if q + 1 <= w { MulMonotone(q + 1, w, h); } }
  }

  /** `TransformRect`: damage carried into the converted image; an invalid rectangle gives the empty one. */
  function TransformRect(r: Rect, w: int, h: int, rot: Rotation): (t: Rect) {
    if !r.IsValid() || w <= 0 || h <= 0 || r.right > w || r.bottom > h then EMPTY
    else match rot
      case Unrotated => r
      case Clockwise => Rect(h - r.bottom, r.left, h - r.top, r.right)
      case CounterClockwise => Rect(r.top, w - r.right, r.bottom, w - r.left)
  }

  predicate Inside(x: int, y: int, r: Rect) { r.left <= x < r.right && r.top <= y < r.bottom }

  /** A pixel lies in a rectangle exactly when its converted position lies in the transformed one. */
  lemma TransformFollowsPixels(r: Rect, w: int, h: int, rot: Rotation, x: int, y: int)
    requires r.IsValid() && r.right <= w && r.bottom <= h
    ensures TransformRect(r, w, h, rot).IsValid()
    ensures TransformRect(r, w, h, rot).right <= OutWidth(w, h, rot)
         && TransformRect(r, w, h, rot).bottom <= OutHeight(w, h, rot)
    ensures Inside(x, y, r) <==> Inside(DestX(x, y, h, rot), DestY(x, y, w, rot), TransformRect(r, w, h, rot))
  {
  }

  function Inverse(rot: Rotation): Rotation {
    match rot case Unrotated => Unrotated case Clockwise => CounterClockwise case CounterClockwise => Clockwise
  }

  /** Rotating a valid rectangle and rotating it back gives it back. */
  lemma TransformRoundTrip(r: Rect, w: int, h: int, rot: Rotation)
    requires r.IsValid() && r.right <= w && r.bottom <= h
    ensures TransformRect(TransformRect(r, w, h, rot), OutWidth(w, h, rot), OutHeight(w, h, rot), Inverse(rot)) == r
  {
  }
}
