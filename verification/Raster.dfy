/** Rectangles, row-major indexing, and counting through a bijection. */
module Raster {
  datatype Rect = Rect(left: int, top: int, right: int, bottom: int) {
    predicate IsValid() { left >= 0 && top >= 0 && right > left && bottom > top }
  }
  const EMPTY := Rect(0, 0, 0, 0)

  function At(x: int, y: int, w: int): (i: int) { y * w + x }
  function Col(i: int, w: int): (x: int)
    requires w > 0
  {
    i % w
  }
  function Row(i: int, w: int): (y: int)
    requires w > 0
  {
    i / w
  }
  function Area(w: int, h: int): (n: int) { w * h }

  lemma MulMonotone(a: int, b: int, w: int)
    requires a <= b && w >= 0
    ensures a * w <= b * w
  {
  }

  lemma AreaNonNegative(w: int, h: int)
    requires w >= 0 && h >= 0
    ensures Area(w, h) >= 0
  {
  }

  lemma DivUnique(q: int, r: int, w: int)
    requires 0 <= r < w
    ensures (q * w + r) / w == q && (q * w + r) % w == r
  {
    var n := q * w + r;
    var p := n / w;
    assert p * w <= n < p * w + w;
    assert p + 1 <= q ==> p * w + w <= q * w by { if p + 1 <= q { MulMonotone(p + 1, q, w); } }
    assert q + 1 <= p ==> q * w + w <= p * w by { if q + 1 <= p { MulMonotone(q + 1, p, w); } }
  }

  lemma AtBounds(x: int, y: int, w: int, h: int)
    requires 0 <= x < w && 0 <= y < h
    ensures 0 <= At(x, y, w) < Area(w, h)
    ensures Col(At(x, y, w), w) == x && Row(At(x, y, w), w) == y
  {
    DivUnique(y, x, w);
    MulMonotone(y + 1, h, w);
    assert y * w >= 0 by { MulMonotone(0, y, w); }
  }

  lemma SplitBounds(i: int, w: int, h: int)
    requires w > 0 && 0 <= i < Area(w, h)
    ensures 0 <= Col(i, w) < w && 0 <= Row(i, w) < h
    ensures At(Col(i, w), Row(i, w), w) == i
  {
    var y := i / w;
    assert y * w + i % w == i;
    assert h <= y ==> h * w <= y * w by { if h <= y { MulMonotone(h, y, w); } }
    assert y <= -1 ==> y * w <= -w by { if y <= -1 { MulMonotone(y, -1, w); } }
  }

  /** Two finite sets with mutually inverse maps between them have the same size. */
  lemma {:induction false} BijectionCardinality(a: set<int>, b: set<int>, f: int -> int, g: int -> int)
    requires forall x :: x in a ==> f(x) in b && g(f(x)) == x
    requires forall y :: y in b ==> g(y) in a && f(g(y)) == y
    ensures |a| == |b|
  {
    if a == {} {
      if b != {} {
        var y := Element(b);
      }
    } else {
      var x := Element(a);
      BijectionCardinality(a - {x}, b - {f(x)}, f, g);
    }
  }

  lemma Element<T>(s: set<T>) returns (x: T)
    requires s != {}
    ensures x in s
  {
    x :| x in s;
  }
}
