/** The difference of two panel images: counts, the tight box, and what rotation does to them. */
module GrayscaleDelta {
  import opened Bits
  import opened Raster
  import opened Wrappers
  import opened G = Grayscale

  datatype Delta = Delta(changed: int, lighter: int, darker: int, total: int, box: Rect)
  datatype Fidelity = Fidelity(comparable: bool, exact: bool, differing: int, box: Rect)

  function Differing(p: seq<byte>, q: seq<byte>, n: int): (d: set<int>)
    requires 0 <= n <= |p| == |q|
  {
    set i | 0 <= i < n && p[i] != q[i]
  }

  function Lightened(p: seq<byte>, q: seq<byte>, n: int): (d: set<int>)
    requires 0 <= n <= |p| == |q|
  {
    set i | 0 <= i < n && q[i] > p[i]
  }

  function Darkened(p: seq<byte>, q: seq<byte>, n: int): (d: set<int>)
    requires 0 <= n <= |p| == |q|
  {
    set i | 0 <= i < n && q[i] < p[i]
  }

  /** Which pixels of a pair a count is about. */
  datatype Kind = Any | Lighter | Darker

  function Listed(k: Kind, p: seq<byte>, q: seq<byte>): (d: set<int>)
    requires |p| == |q|
  {
    match k
    case Any => Differing(p, q, |p|)
    case Lighter => Lightened(p, q, |p|)
    case Darker => Darkened(p, q, |p|)
  }

  ghost predicate Covers(d: set<int>, w: int, b: Rect)
    requires w > 0
  {
    forall i :: i in d ==> b.left <= Col(i, w) < b.right && b.top <= Row(i, w) < b.bottom
  }

  ghost predicate Touches(d: set<int>, w: int, b: Rect)
    requires w > 0
  {
    && (exists i :: i in d && Col(i, w) == b.left) && (exists i :: i in d && Col(i, w) == b.right - 1)
    && (exists i :: i in d && Row(i, w) == b.top) && (exists i :: i in d && Row(i, w) == b.bottom - 1)
  }

  /** The least rectangle holding every listed pixel; the empty rectangle for none. */
  ghost predicate TightBox(d: set<int>, w: int, b: Rect)
    requires w > 0
  {
    if d == {} then b == EMPTY else Covers(d, w, b) && Touches(d, w, b)
  }

  /** What a scan of two images must report. */
  ghost predicate IsDelta(p: seq<byte>, q: seq<byte>, w: int, delta: Delta)
    requires |p| == |q| && w > 0
  {
    && delta.total == |p|
    && delta.changed == |Listed(Any, p, q)|
    && delta.lighter == |Listed(Lighter, p, q)|
    && delta.darker == |Listed(Darker, p, q)|
    && TightBox(Listed(Any, p, q), w, delta.box)
  }

  /** No rectangle that covers the pixels is smaller on any side. */
  lemma TightBoxIsLeast(d: set<int>, w: int, b: Rect, c: Rect)
    requires w > 0 && d != {} && TightBox(d, w, b) && Covers(d, w, c)
    ensures c.left <= b.left && c.top <= b.top && b.right <= c.right && b.bottom <= c.bottom
  {
    var l, r :| l in d && Col(l, w) == b.left && r in d && Col(r, w) == b.right - 1;
    var t, u :| t in d && Row(t, w) == b.top && u in d && Row(u, w) == b.bottom - 1;
  }

  lemma TightBoxIsUnique(d: set<int>, w: int, b: Rect, c: Rect)
    requires w > 0 && TightBox(d, w, b) && TightBox(d, w, c)
    ensures b == c
  {
    if d != {} {
      TightBoxIsLeast(d, w, b, c);
      TightBoxIsLeast(d, w, c, b);
    }
  }

  lemma ScanStep(p: seq<byte>, q: seq<byte>, n: int)
    requires 0 <= n < |p| == |q|
    ensures n !in Differing(p, q, n) && n !in Lightened(p, q, n) && n !in Darkened(p, q, n)
    ensures Differing(p, q, n + 1) == if p[n] != q[n] then Differing(p, q, n) + {n} else Differing(p, q, n)
    ensures Lightened(p, q, n + 1) == if q[n] > p[n] then Lightened(p, q, n) + {n} else Lightened(p, q, n)
    ensures Darkened(p, q, n + 1) == if q[n] < p[n] then Darkened(p, q, n) + {n} else Darkened(p, q, n)
  {
  }

  /** The running box of a scan: nothing yet, or tight around what was seen. */
  ghost predicate RunningBox(d: set<int>, w: int, b: Rect, nothing: Rect)
    requires w > 0
  {
    if d == {} then b == nothing else Covers(d, w, b) && Touches(d, w, b)
  }

  function Extended(b: Rect, x: int, y: int): Rect {
    Rect(Min(b.left, x), Min(b.top, y), Max(b.right, x + 1), Max(b.bottom, y + 1))
  }

  lemma ExtendBox(d: set<int>, w: int, b: Rect, nothing: Rect, i: int)
    requires w > 0 && RunningBox(d, w, b, nothing)
    requires nothing.left > Col(i, w) && nothing.top > Row(i, w) && nothing.right <= Col(i, w)
      && nothing.bottom <= Row(i, w)
    ensures RunningBox(d + {i}, w, Extended(b, Col(i, w), Row(i, w)), nothing)
  {
    var e, f := d + {i}, Extended(b, Col(i, w), Row(i, w));
    assert i in e;
    if d != {} {
      var l, r :| l in d && Col(l, w) == b.left && r in d && Col(r, w) == b.right - 1;
      var t, u :| t in d && Row(t, w) == b.top && u in d && Row(u, w) == b.bottom - 1;
      assert l in e && r in e && t in e && u in e;
    }
  }

  /** The overflow-safe size test both scans share. */
  predicate FitsGeometry(bytes: int, w: int, h: int): (fits: bool)
    requires 0 <= bytes <= SIZE_MAX && w > 0 && h > 0
    ensures fits <==> Area(w, h) == bytes
  {
    FitsByDivision(w, h);
    w <= SIZE_MAX / h && w * h == bytes
  }

  /** `MeasureGrayscaleDelta`: one flat scan; nothing when the byte count does not fit the geometry. */
  method MeasureGrayscaleDelta(previous: Option<seq<byte>>, current: Option<seq<byte>>, bytes: nat, w: int, h: int)
    returns (result: Option<Delta>)
    requires previous.Some? ==> |previous.value| == bytes
    requires current.Some? ==> |current.value| == bytes
    requires bytes <= SIZE_MAX
    ensures result.Some? <==> previous.Some? && current.Some? && w > 0 && h > 0 && Area(w, h) == bytes
    ensures result.Some? ==> IsDelta(previous.value, current.value, w, result.value)
  {
    if previous.None? || current.None? || w <= 0 || h <= 0 { return None; }
    if !FitsGeometry(bytes, w, h) { return None; }
    var p, q := previous.value, current.value;
    var changed, lighter, darker := 0, 0, 0;
    var box := Rect(w, h, 0, 0);
    hide Measured, FitsGeometry, Extended;
    MeasureBegins(p, q, w, h);
    for index := 0 to bytes
      invariant Measured(p, q, w, h, index, changed, lighter, darker, box)
    {
      MeasureStep(p, q, w, h, index, changed, lighter, darker, box);
      if p[index] != q[index] {
        changed := changed + 1;
        if q[index] > p[index] { lighter := lighter + 1; } else { darker := darker + 1; }
        box := Extended(box, Col(index, w), Row(index, w));
      }
    }
    MeasureEnds(p, q, w, h, changed, lighter, darker, box);
    if changed == 0 { box := EMPTY; }
    return Some(Delta(changed, lighter, darker, bytes, box));
  }

  /** State of the flat scan after the first n pixels. */
  ghost predicate Measured(p: seq<byte>, q: seq<byte>, w: int, h: int, n: int,
                           changed: int, lighter: int, darker: int, box: Rect)
    requires |p| == |q| && w > 0
  {
    && 0 <= n <= |p| && changed == |Differing(p, q, n)|
    && lighter == |Lightened(p, q, n)| && darker == |Darkened(p, q, n)|
    && RunningBox(Differing(p, q, n), w, box, Rect(w, h, 0, 0))
  }

  lemma MeasureBegins(p: seq<byte>, q: seq<byte>, w: int, h: int)
    requires |p| == |q| && w > 0
    ensures Measured(p, q, w, h, 0, 0, 0, 0, Rect(w, h, 0, 0))
  {
    assert Differing(p, q, 0) == {} == Lightened(p, q, 0) == Darkened(p, q, 0);
  }

  lemma MeasureStep(p: seq<byte>, q: seq<byte>, w: int, h: int, n: int,
                    changed: int, lighter: int, darker: int, box: Rect)
    requires |p| == |q| == Area(w, h) && w > 0 && h > 0 && n < |p|
    requires Measured(p, q, w, h, n, changed, lighter, darker, box)
    ensures if p[n] == q[n] then Measured(p, q, w, h, n + 1, changed, lighter, darker, box)
            else if q[n] > p[n] then
              Measured(p, q, w, h, n + 1, changed + 1, lighter + 1, darker, Extended(box, Col(n, w), Row(n, w)))
            else Measured(p, q, w, h, n + 1, changed + 1, lighter, darker + 1, Extended(box, Col(n, w), Row(n, w)))
  {
    ScanStep(p, q, n);
    SplitBounds(n, w, h);
    ExtendBox(Differing(p, q, n), w, box, Rect(w, h, 0, 0), n);
    hide RunningBox, Col, Row, Area, Extended;
  }

  lemma MeasureEnds(p: seq<byte>, q: seq<byte>, w: int, h: int,
                    changed: int, lighter: int, darker: int, box: Rect)
    requires |p| == |q| && w > 0 && Measured(p, q, w, h, |p|, changed, lighter, darker, box)
    ensures IsDelta(p, q, w, Delta(changed, lighter, darker, |p|, if changed == 0 then EMPTY else box))
  {
  }

  /** `CompareGrayscaleFidelity`: nested row and column scan with inclusive running corners. */
  method CompareGrayscaleFidelity(source: Gray, snapshot: Gray) returns (result: Fidelity)
    requires |source.pixels| <= SIZE_MAX && source.width <= INT_MAX && source.height <= INT_MAX
    ensures result.comparable <==> Comparable(source, snapshot)
    ensures !result.comparable ==> result == Fidelity(false, false, 0, EMPTY)
    ensures result.comparable ==>
      && result.differing == |Differing(source.pixels, snapshot.pixels, |source.pixels|)|
      && (result.exact <==> source.pixels == snapshot.pixels)
      && TightBox(Differing(source.pixels, snapshot.pixels, |source.pixels|), source.width, result.box)
  {
    result := Fidelity(false, false, 0, EMPTY);
    var w, h := source.width, source.height;
    if w <= 0 || h <= 0 || w != snapshot.width || h != snapshot.height || |source.pixels| != |snapshot.pixels| {
      return;
    }
    var n := |source.pixels|;
    if !FitsGeometry(n, w, h) { return; }
    var differing, box := ScanNested(source.pixels, snapshot.pixels, w, h);
    NoneDiffering(source.pixels, snapshot.pixels);
    if differing == 0 { return Fidelity(true, true, 0, EMPTY); }
    return Fidelity(true, false, differing, box);
  }

  /** The nested loops; the box is meaningful only when something differs. */
  method ScanNested(p: seq<byte>, q: seq<byte>, w: int, h: int) returns (differing: int, box: Rect)
    requires 0 < w <= INT_MAX && 0 < h <= INT_MAX && |p| == |q| == Area(w, h)
    ensures differing == |Differing(p, q, |p|)|
    ensures TightBox(Differing(p, q, |p|), w, if differing == 0 then EMPTY else box)
  {
    differing := 0;
    var minX, minY, maxX, maxY := INT_MAX, INT_MAX, -1, -1;
    ScanBegins(p, q, w);
    LastAt(w, h);
    hide Scanned, At, Area, Col, Row, TightBox, Extended, Min, Max, Differing;
    for y := 0 to h
      invariant Scanned(p, q, w, At(0, y, w), differing, Rect(minX, minY, maxX + 1, maxY + 1))
    {
      for x := 0 to w
        invariant Scanned(p, q, w, At(x, y, w), differing, Rect(minX, minY, maxX + 1, maxY + 1))
      {
        differing, minX, minY, maxX, maxY := ScanPixel(p, q, w, h, x, y, differing, minX, minY, maxX, maxY);
      }
      RowEnd(w, y);
    }
    box := Rect(minX, minY, maxX + 1, maxY + 1);
    ScanEnds(p, q, w, differing, box);
  }

  /** One iteration of the inner loop. */
  method ScanPixel(p: seq<byte>, q: seq<byte>, w: int, h: int, x: int, y: int,
                   differing: int, minX: int, minY: int, maxX: int, maxY: int)
    returns (more: int, left: int, top: int, right: int, bottom: int)
    requires |p| == |q| == Area(w, h) && 0 <= x < w <= INT_MAX && 0 <= y < h <= INT_MAX
    requires Scanned(p, q, w, At(x, y, w), differing, Rect(minX, minY, maxX + 1, maxY + 1))
    ensures Scanned(p, q, w, At(x + 1, y, w), more, Rect(left, top, right + 1, bottom + 1))
  {
    PixelStep(p, q, w, h, x, y, differing, minX, minY, maxX, maxY);
    hide Scanned, At, Area, Min, Max;
    var offset := At(x, y, w);
    if p[offset] == q[offset] { return differing, minX, minY, maxX, maxY; }
    return differing + 1, Min(minX, x), Min(minY, y), Max(maxX, x), Max(maxY, y);
  }

  /** What that iteration does in both of its branches. */
  lemma PixelStep(p: seq<byte>, q: seq<byte>, w: int, h: int, x: int, y: int,
                  differing: int, minX: int, minY: int, maxX: int, maxY: int)
    requires |p| == |q| == Area(w, h) && 0 <= x < w <= INT_MAX && 0 <= y < h <= INT_MAX
    requires Scanned(p, q, w, At(x, y, w), differing, Rect(minX, minY, maxX + 1, maxY + 1))
    ensures 0 <= At(x, y, w) < |p|
    ensures if p[At(x, y, w)] != q[At(x, y, w)]
            then Scanned(p, q, w, At(x + 1, y, w), differing + 1,
                         Rect(Min(minX, x), Min(minY, y), Max(maxX, x) + 1, Max(maxY, y) + 1))
            else Scanned(p, q, w, At(x + 1, y, w), differing, Rect(minX, minY, maxX + 1, maxY + 1))
  {
    AtBounds(x, y, w, h);
    NextAt(x, y, w);
    InclusiveCorners(minX, minY, maxX, maxY, x, y);
    hide Scanned, At, Col, Row, Area, Extended, Min, Max;
    ScanContinues(p, q, w, At(x, y, w), differing, Rect(minX, minY, maxX + 1, maxY + 1));
  }

  lemma InclusiveCorners(minX: int, minY: int, maxX: int, maxY: int, x: int, y: int)
    ensures Extended(Rect(minX, minY, maxX + 1, maxY + 1), x, y)
         == Rect(Min(minX, x), Min(minY, y), Max(maxX, x) + 1, Max(maxY, y) + 1)
  {
  }

  const NOTHING := Rect(INT_MAX, INT_MAX, 0, 0)

  /** State of the nested scan after the first n pixels. */
  ghost predicate Scanned(p: seq<byte>, q: seq<byte>, w: int, n: int, differing: int, box: Rect)
    requires |p| == |q| && w > 0
  {
    0 <= n <= |p| && differing == |Differing(p, q, n)| && RunningBox(Differing(p, q, n), w, box, NOTHING)
  }

  lemma ScanBegins(p: seq<byte>, q: seq<byte>, w: int)
    requires |p| == |q| && w > 0
    ensures Scanned(p, q, w, At(0, 0, w), 0, NOTHING)
  {
    assert At(0, 0, w) == 0 && Differing(p, q, 0) == {};
  }

  lemma ScanContinues(p: seq<byte>, q: seq<byte>, w: int, n: int, differing: int, box: Rect)
    requires |p| == |q| && 0 < w && Scanned(p, q, w, n, differing, box) && n < |p|
    requires 0 <= Col(n, w) < INT_MAX && 0 <= Row(n, w) < INT_MAX
    ensures if p[n] != q[n] then Scanned(p, q, w, n + 1, differing + 1, Extended(box, Col(n, w), Row(n, w)))
            else Scanned(p, q, w, n + 1, differing, box)
  {
    hide Covers, Touches;
    ScanStep(p, q, n);
    ExtendBox(Differing(p, q, n), w, box, NOTHING, n);
  }

  lemma ScanEnds(p: seq<byte>, q: seq<byte>, w: int, differing: int, box: Rect)
    requires |p| == |q| && w > 0 && Scanned(p, q, w, |p|, differing, box)
    ensures differing == |Differing(p, q, |p|)|
    ensures TightBox(Differing(p, q, |p|), w, if differing == 0 then EMPTY else box)
  {
  }

  predicate Comparable(a: Gray, b: Gray) {
    && a.width > 0 && a.height > 0 && a.width == b.width && a.height == b.height
    && |a.pixels| == |b.pixels| == Area(a.width, a.height)
  }

  lemma RowEnd(w: int, y: int)
    ensures At(w, y, w) == At(0, y + 1, w)
  {
  }

  lemma NextAt(x: int, y: int, w: int)
    ensures At(x + 1, y, w) == At(x, y, w) + 1
  {
  }

  lemma LastAt(w: int, h: int)
    ensures At(0, h, w) == Area(w, h)
  {
  }

  lemma NoneDiffering(p: seq<byte>, q: seq<byte>)
    requires |p| == |q|
    ensures |Differing(p, q, |p|)| == 0 <==> p == q
  {
    if p != q {
      var i :| 0 <= i < |p| && p[i] != q[i];
      assert i in Differing(p, q, |p|);
    }
  }

  /** The flat scan and the nested scan of the same pair agree on count and box, and the flat scan's
      two directions add up to its count. */
  lemma ScansAgree(source: Gray, snapshot: Gray, delta: Delta, fidelity: Fidelity)
    requires Comparable(source, snapshot)
    requires IsDelta(source.pixels, snapshot.pixels, source.width, delta)
    requires fidelity.differing == |Differing(source.pixels, snapshot.pixels, |source.pixels|)|
    requires TightBox(Differing(source.pixels, snapshot.pixels, |source.pixels|), source.width, fidelity.box)
    ensures delta.changed == fidelity.differing && delta.box == fidelity.box
    ensures delta.lighter + delta.darker == delta.changed
  {
    var p, q := source.pixels, snapshot.pixels;
    TightBoxIsUnique(Differing(p, q, |p|), source.width, delta.box, fidelity.box);
    DirectionsAddUp(p, q);
  }

  lemma DirectionsAddUp(p: seq<byte>, q: seq<byte>)
    requires |p| == |q|
    ensures |Lightened(p, q, |p|)| + |Darkened(p, q, |p|)| == |Differing(p, q, |p|)|
  {
    assert Lightened(p, q, |p|) + Darkened(p, q, |p|) == Differing(p, q, |p|);
    assert Lightened(p, q, |p|) !! Darkened(p, q, |p|);
  }

  datatype Direction = Unavailable | AllLighter | AllDarker | Mixed

  /** `ClassifyDeltaDirection`. */
  function DirectionOf(d: Delta): (r: Direction) {
    if d.changed == 0 || d.lighter + d.darker != d.changed then Unavailable
    else if d.lighter == d.changed then AllLighter
    else if d.darker == d.changed then AllDarker
    else Mixed
  }

  /** For a measured pair the direction says exactly how the pixels moved. */
  lemma DirectionMeans(p: seq<byte>, q: seq<byte>, w: int, delta: Delta)
    requires |p| == |q| && w > 0 && IsDelta(p, q, w, delta)
    ensures DirectionOf(delta) == Unavailable <==> p == q
    ensures DirectionOf(delta) == AllLighter <==> p != q && forall i :: 0 <= i < |p| ==> q[i] >= p[i]
    ensures DirectionOf(delta) == AllDarker <==> p != q && forall i :: 0 <= i < |p| ==> q[i] <= p[i]
  {
    DirectionsAddUp(p, q);
    NoneDiffering(p, q);
    NoneListed(p, q);
    hide TightBox;
  }

  lemma NoneListed(p: seq<byte>, q: seq<byte>)
    requires |p| == |q|
    ensures |Lightened(p, q, |p|)| == 0 <==> forall i :: 0 <= i < |p| ==> q[i] <= p[i]
    ensures |Darkened(p, q, |p|)| == 0 <==> forall i :: 0 <= i < |p| ==> q[i] >= p[i]
  {
    assert forall i :: 0 <= i < |p| && q[i] > p[i] ==> i in Lightened(p, q, |p|);
    assert forall i :: 0 <= i < |p| && q[i] < p[i] ==> i in Darkened(p, q, |p|);
    assert |Lightened(p, q, |p|)| == 0 ==> Lightened(p, q, |p|) == {};
    assert |Darkened(p, q, |p|)| == 0 ==> Darkened(p, q, |p|) == {};
    if forall i :: 0 <= i < |p| ==> q[i] <= p[i] { assert Lightened(p, q, |p|) == {}; }
    if forall i :: 0 <= i < |p| ==> q[i] >= p[i] { assert Darkened(p, q, |p|) == {}; }
  }

  // ---------- image pairs for a wanted difference ----------

  function Blank(n: nat): (s: seq<byte>)
    ensures |s| == n
  {
    seq(n, _ => 0)
  }

  /** The image with the listed pixels set. */
  ghost function Marked(p: seq<byte>, d: set<int>): (q: seq<byte>)
    ensures |q| == |p|
  {
    seq(|p|, i requires 0 <= i < |p| => if i in d then 1 else p[i])
  }

  /** Setting black pixels makes the pair whose difference is exactly them. */
  lemma MarkedDelta(p: seq<byte>, d: set<int>, w: int, box: Rect)
    requires w > 0 && TightBox(d, w, box) && forall i :: i in d ==> 0 <= i < |p| && p[i] == 0
    ensures IsDelta(p, Marked(p, d), w, Delta(|d|, |d|, 0, |p|, box))
  {
    var q := Marked(p, d);
    assert Differing(p, q, |p|) == d && Lightened(p, q, |p|) == d && Darkened(p, q, |p|) == {};
    hide TightBox;
  }

  lemma {:induction false} TightBoxExists(d: set<int>, w: int) returns (box: Rect)
    requires w > 0 && d != {}
    ensures TightBox(d, w, box)
  {
    var i := Element(d);
    var x, y := Col(i, w), Row(i, w);
    var nothing := Rect(x + 1, y + 1, x, y);
    var b := nothing;
    if d - {i} != {} { b := TightBoxExists(d - {i}, w); }
    ExtendBox(d - {i}, w, b, nothing, i);
    assert d - {i} + {i} == d;
    box := Extended(b, x, y);
  }

  /** Two opposite corners of a rectangle. */
  function Corners(b: Rect, w: int): (d: set<int>) {
    {At(b.left, b.top, w), At(b.right - 1, b.bottom - 1, w)}
  }

  lemma CornersBox(b: Rect, w: int, h: int)
    requires w > 0 && h > 0 && b.IsValid() && b.right <= w && b.bottom <= h
    ensures TightBox(Corners(b, w), w, b) && 1 <= |Corners(b, w)| <= 2
    ensures forall i :: i in Corners(b, w) ==> 0 <= i < Area(w, h)
  {
    AtBounds(b.left, b.top, w, h);
    AtBounds(b.right - 1, b.bottom - 1, w, h);
    var i, j := At(b.left, b.top, w), At(b.right - 1, b.bottom - 1, w);
    hide At, Col, Row, Area;
    assert i in Corners(b, w) && j in Corners(b, w);
    assert Corners(b, w) == {i} + ({j} - {i});
  }

  // ---------- measuring commutes with rotation ----------

  /** A rotated conversion holds at j what the unrotated one holds at j's origin. */
  lemma ConvertedFollows(s: Source, rot: Rotation, j: int)
    requires s.IsValid() && s.Readable() && 0 <= j < Area(s.width, s.height)
    ensures 0 <= OriginIndex(j, s.width, s.height, rot) < Area(s.width, s.height)
    ensures Converted(s, rot).pixels[j] == Converted(s, Unrotated).pixels[OriginIndex(j, s.width, s.height, rot)]
  {
    DestOfOrigin(j, s.width, s.height, rot);
    hide OriginIndex, SourceGray;
  }

  ghost predicate SameSize(a: Source, b: Source) {
    a.IsValid() && a.Readable() && b.IsValid() && b.Readable() && a.width == b.width && a.height == b.height
  }

  lemma ListedFollows(k: Kind, a: Source, b: Source, rot: Rotation, j: int)
    requires SameSize(a, b) && 0 <= j < Area(a.width, a.height)
    ensures j in Listed(k, Converted(a, rot).pixels, Converted(b, rot).pixels)
       <==> OriginIndex(j, a.width, a.height, rot) in Listed(k, Converted(a, Unrotated).pixels,
         Converted(b, Unrotated).pixels)
  {
    ConvertedFollows(a, rot, j);
    ConvertedFollows(b, rot, j);
    hide Converted, OriginIndex;
  }

  lemma ListedInRange(k: Kind, p: seq<byte>, q: seq<byte>, j: int)
    requires |p| == |q| && j in Listed(k, p, q)
    ensures 0 <= j < |p|
  {
  }

  lemma CountRotates(k: Kind, a: Source, b: Source, rot: Rotation)
    requires SameSize(a, b)
    ensures |Listed(k, Converted(a, rot).pixels, Converted(b, rot).pixels)|
         == |Listed(k, Converted(a, Unrotated).pixels, Converted(b, Unrotated).pixels)|
  {
    var w, h := a.width, a.height;
    var turned := Listed(k, Converted(a, rot).pixels, Converted(b, rot).pixels);
    var plain := Listed(k, Converted(a, Unrotated).pixels, Converted(b, Unrotated).pixels);
    var f, g := (j: int) => OriginIndex(j, w, h, rot), (i: int) => DestIndex(i, w, h, rot);
    ListedTurned(k, a, b, rot);
    hide Listed, Converted;
    forall j | j in turned ensures f(j) in plain && g(f(j)) == j {
      DestOfOrigin(j, w, h, rot);
    }
    forall i | i in plain ensures g(i) in turned && f(g(i)) == i {
      OriginOfDest(i, w, h, rot);
    }
    BijectionCardinality(turned, plain, f, g);
  }

  lemma TightBoxWithin(d: set<int>, w: int, h: int, b: Rect)
    requires w > 0 && h > 0 && d != {} && TightBox(d, w, b)
    requires forall i :: i in d ==> 0 <= i < Area(w, h)
    ensures b.IsValid() && b.right <= w && b.bottom <= h
  {
    var l, r :| l in d && Col(l, w) == b.left && r in d && Col(r, w) == b.right - 1;
    var t, u :| t in d && Row(t, w) == b.top && u in d && Row(u, w) == b.bottom - 1;
    SplitBounds(l, w, h); SplitBounds(r, w, h); SplitBounds(t, w, h); SplitBounds(u, w, h);
  }

  ghost predicate Turned(plain: set<int>, turned: set<int>, w: int, h: int, rot: Rotation)
    requires w > 0 && h > 0
  {
    && (forall i :: i in plain ==> 0 <= i < Area(w, h))
    && (forall j :: j in turned ==> 0 <= j < Area(w, h))
    && (forall i {:trigger DestIndex(i, w, h, rot)} :: i in plain ==> DestIndex(i, w, h, rot) in turned)
    && (forall j {:trigger OriginIndex(j, w, h, rot)} :: j in turned ==> OriginIndex(j, w, h, rot) in plain)
  }

  lemma TurnedTouches(plain: set<int>, turned: set<int>, w: int, h: int, rot: Rotation, b: Rect)
    requires w > 0 && h > 0 && Turned(plain, turned, w, h, rot)
    requires Touches(plain, w, b) && b.IsValid() && b.right <= w && b.bottom <= h
    ensures Touches(turned, OutWidth(w, h, rot), TransformRect(b, w, h, rot))
  {
    var l, r :| l in plain && Col(l, w) == b.left && r in plain && Col(r, w) == b.right - 1;
    var t, u :| t in plain && Row(t, w) == b.top && u in plain && Row(u, w) == b.bottom - 1;
    OriginOfDest(l, w, h, rot); OriginOfDest(r, w, h, rot); OriginOfDest(t, w, h, rot); OriginOfDest(u, w, h, rot);
    hide DestIndex, OriginIndex, Col, Row, Area;
    var dl, dr, dt, du := DestIndex(l, w, h, rot), DestIndex(r, w, h, rot), DestIndex(t, w, h, rot),
      DestIndex(u, w, h, rot);
    assert dl in turned && dr in turned && dt in turned && du in turned;
  }

  lemma TurnedCovers(plain: set<int>, turned: set<int>, w: int, h: int, rot: Rotation, b: Rect)
    requires w > 0 && h > 0 && Turned(plain, turned, w, h, rot)
    requires Covers(plain, w, b) && b.IsValid() && b.right <= w && b.bottom <= h
    ensures Covers(turned, OutWidth(w, h, rot), TransformRect(b, w, h, rot))
  {
    hide DestIndex, OriginIndex, Col, Row, Area, TransformRect;
    var ow, c := OutWidth(w, h, rot), TransformRect(b, w, h, rot);
    forall j | j in turned
      ensures c.left <= Col(j, ow) < c.right && c.top <= Row(j, ow) < c.bottom
    {
      DestOfOrigin(j, w, h, rot);
      var i := OriginIndex(j, w, h, rot);
      assert i in plain;
      OriginOfDest(i, w, h, rot);
      TransformFollowsPixels(b, w, h, rot, Col(i, w), Row(i, w));
    }
  }

  /** The tight box of rotated pixels is the transformed tight box, for none of them too. */
  lemma BoxRotates(plain: set<int>, turned: set<int>, w: int, h: int, rot: Rotation, b: Rect)
    requires w > 0 && h > 0 && Turned(plain, turned, w, h, rot)
    requires TightBox(plain, w, b)
    ensures TightBox(turned, OutWidth(w, h, rot), TransformRect(b, w, h, rot))
  {
    if plain == {} {
      if turned != {} {
        var j := Element(turned);
        DestOfOrigin(j, w, h, rot);
      }
    } else {
      TightBoxWithin(plain, w, h, b);
      TurnedTouches(plain, turned, w, h, rot, b);
      TurnedCovers(plain, turned, w, h, rot, b);
    }
  }

  lemma ListedTurned(k: Kind, a: Source, b: Source, rot: Rotation)
    requires SameSize(a, b)
    ensures Turned(Listed(k, Converted(a, Unrotated).pixels, Converted(b, Unrotated).pixels),
                   Listed(k, Converted(a, rot).pixels, Converted(b, rot).pixels), a.width, a.height, rot)
  {
    var w, h := a.width, a.height;
    var turned := Listed(k, Converted(a, rot).pixels, Converted(b, rot).pixels);
    var plain := Listed(k, Converted(a, Unrotated).pixels, Converted(b, Unrotated).pixels);
    forall j | j in turned ensures 0 <= j < Area(w, h) {
      ListedInRange(k, Converted(a, rot).pixels, Converted(b, rot).pixels, j);
    }
    forall i | i in plain ensures 0 <= i < Area(w, h) {
      ListedInRange(k, Converted(a, Unrotated).pixels, Converted(b, Unrotated).pixels, i);
    }
    hide Listed, Converted, DestIndex, OriginIndex;
    forall j {:trigger OriginIndex(j, w, h, rot)} | j in turned ensures OriginIndex(j, w, h, rot) in plain {
      ListedFollows(k, a, b, rot, j);
    }
    forall i {:trigger DestIndex(i, w, h, rot)} | i in plain ensures DestIndex(i, w, h, rot) in turned {
      OriginOfDest(i, w, h, rot);
      ListedFollows(k, a, b, rot, DestIndex(i, w, h, rot));
    }
  }

  /** Measuring commutes with rotation: the rotated pair has the same counts, and its box is the
      transformed box, whatever the strides and layouts of the two sources. */
  lemma MeasureCommutesWithRotation(a: Source, b: Source, rot: Rotation, delta: Delta)
    requires SameSize(a, b)
    requires IsDelta(Converted(a, Unrotated).pixels, Converted(b, Unrotated).pixels, a.width, delta)
    ensures IsDelta(Converted(a, rot).pixels, Converted(b, rot).pixels, OutWidth(a.width, a.height, rot),
                    delta.(box := TransformRect(delta.box, a.width, a.height, rot)))
  {
    CountRotates(Any, a, b, rot);
    CountRotates(Lighter, a, b, rot);
    CountRotates(Darker, a, b, rot);
    ListedTurned(Any, a, b, rot);
    var turned := Listed(Any, Converted(a, rot).pixels, Converted(b, rot).pixels);
    var plain := Listed(Any, Converted(a, Unrotated).pixels, Converted(b, Unrotated).pixels);
    hide Converted, Listed, Turned, TightBox;
    BoxRotates(plain, turned, a.width, a.height, rot, delta.box);
  }
}
