/** Boxes, overlap and distances: the pure arithmetic under the tracker and the anomaly monitor. */
module Geometry {

  function Min(a: real, b: real): real { if a <= b then a else b }

  function Max(a: real, b: real): real { if a >= b then a else b }

  datatype Point = Point(x: real, y: real) {
    function Minus(q: Point): Point { Point(x - q.x, y - q.y) }

    function Times(k: real): Point { Point(k * x, k * y) }

    /** Change of resolution: horizontal factor `sx`, vertical factor `sy`. */
    function Scaled(sx: real, sy: real): Point { Point(sx * x, sy * y) }
  }

  const ORIGIN := Point(0.0, 0.0)

  datatype Box = Box(x1: real, y1: real, x2: real, y2: real) {
    function Center(): Point { Point((x1 + x2) / 2.0, (y1 + y2) / 2.0) }

    function Shift(v: Point): Box { Box(x1 + v.x, y1 + v.y, x2 + v.x, y2 + v.y) }

    function Area(): real { Max(0.0, x2 - x1) * Max(0.0, y2 - y1) }

    function Scaled(sx: real, sy: real): Box { Box(sx * x1, sy * y1, sx * x2, sy * y2) }

    /** A box that encloses something. */
    predicate Solid() { x1 < x2 && y1 < y2 }
  }

  /** Length that the intervals [a1, a2] and [b1, b2] have in common. */
  function Common(a1: real, a2: real, b1: real, b2: real): real {
    Max(0.0, Min(a2, b2) - Max(a1, b1))
  }

  /** Area of the intersection of two boxes. */
  function Inter(a: Box, b: Box): real {
    Common(a.x1, a.x2, b.x1, b.x2) * Common(a.y1, a.y2, b.y1, b.y2)
  }

  /** Intersection over union. */
  function Iou(a: Box, b: Box): real {
    var inter := Inter(a, b);
    if inter <= 0.0 then 0.0
    else
      var union := a.Area() + b.Area() - inter;
      if union > 0.0 then inter / union else 0.0
  }

  /** Two boxes share interior points. */
  predicate Overlaps(a: Box, b: Box) {
    Max(a.x1, b.x1) < Min(a.x2, b.x2) && Max(a.y1, b.y1) < Min(a.y2, b.y2)
  }

  // ----- overlap -----

  lemma MulMono(a: real, b: real, c: real, d: real)
    requires 0.0 <= a <= c && 0.0 <= b <= d
    ensures 0.0 <= a * b <= c * d
  {
    assert a * b <= c * b;
    assert c * b <= c * d;
  }

  lemma MulStrict(a: real, b: real, c: real, d: real)
    requires 0.0 < a <= c && 0.0 < b <= d
    ensures 0.0 < a * b <= c * d
    ensures a * b == c * d ==> a == c && b == d
  {
    assert a * b <= c * b;
    assert c * b <= c * d;
    if a < c {
      assert a * b < c * b;
    }
    if b < d {
      assert c * b < c * d;
    }
  }

  lemma InterBounds(a: Box, b: Box)
    ensures 0.0 <= Inter(a, b) <= a.Area()
    ensures Inter(a, b) <= b.Area()
    ensures Inter(a, b) > 0.0 <==> Overlaps(a, b)
  {
    var w := Max(0.0, Min(a.x2, b.x2) - Max(a.x1, b.x1));
    var h := Max(0.0, Min(a.y2, b.y2) - Max(a.y1, b.y1));
    MulMono(w, h, Max(0.0, a.x2 - a.x1), Max(0.0, a.y2 - a.y1));
    MulMono(w, h, Max(0.0, b.x2 - b.x1), Max(0.0, b.y2 - b.y1));
    if w > 0.0 && h > 0.0 {
      assert w * h > 0.0;
    } else {
      assert w * h == 0.0;
    }
  }

  lemma DivBounds(p: real, q: real)
    requires 0.0 < p <= q
    ensures 0.0 < p / q <= 1.0
    ensures p / q == 1.0 <==> p == q
  {
    assert (p / q) * q == p;
    MulOrder(p / q, q);
  }

  lemma MulOrder(r: real, q: real)
    requires q > 0.0
    ensures r * q > 0.0 <==> r > 0.0
    ensures r * q > q <==> r > 1.0
    ensures r * q == q <==> r == 1.0
  {
    if r <= 0.0 { assert r * q <= 0.0; } else { assert r * q > 0.0; }
    if r > 1.0 { assert r * q > q; }
    if r < 1.0 { assert r * q < q; }
  }

  /** IoU is a similarity in [0, 1]; it is positive exactly on boxes that overlap. */
  lemma IouRange(a: Box, b: Box)
    ensures 0.0 <= Iou(a, b) <= 1.0
    ensures Iou(a, b) > 0.0 <==> Overlaps(a, b)
  {
    InterBounds(a, b);
    if Inter(a, b) > 0.0 {
      DivBounds(Inter(a, b), a.Area() + b.Area() - Inter(a, b));
    }
  }

  /** Only a box and itself are fully similar. */
  lemma IouOneIff(a: Box, b: Box)
    ensures Iou(a, b) == 1.0 <==> a == b && a.Solid()
  {
    InterBounds(a, b);
    if Inter(a, b) > 0.0 {
      var w, h := Min(a.x2, b.x2) - Max(a.x1, b.x1), Min(a.y2, b.y2) - Max(a.y1, b.y1);
      DivBounds(Inter(a, b), a.Area() + b.Area() - Inter(a, b));
      MulStrict(w, h, a.x2 - a.x1, a.y2 - a.y1);
      MulStrict(w, h, b.x2 - b.x1, b.y2 - b.y1);
    } else if a == b && a.Solid() {
      assert Overlaps(a, b);
    }
  }

  // ----- change of resolution -----

  lemma ScaleMaxMin(s: real, a: real, b: real)
    requires s > 0.0
    ensures Max(s * a, s * b) == s * Max(a, b)
    ensures Min(s * a, s * b) == s * Min(a, b)
  {
    if a < b { assert s * a < s * b; }
    if a > b { assert s * a > s * b; }
  }

  lemma ScaleSpan(s: real, a: real, b: real)
    requires s > 0.0
    ensures Max(0.0, s * b - s * a) == s * Max(0.0, b - a)
  {
    ScaleMaxMin(s, 0.0, b - a);
    assert s * (b - a) == s * b - s * a;
  }

  lemma ScaledProduct(sx: real, sy: real, w: real, h: real, w2: real, h2: real)
    requires w2 == sx * w && h2 == sy * h
    ensures w2 * h2 == (sx * sy) * (w * h)
  {
    assert w2 * h2 == (sx * w) * (sy * h);
  }

  lemma AreaScaled(a: Box, sx: real, sy: real)
    requires sx > 0.0 && sy > 0.0
    ensures a.Scaled(sx, sy).Area() == (sx * sy) * a.Area()
  {
    ScaleSpan(sx, a.x1, a.x2);
    ScaleSpan(sy, a.y1, a.y2);
    var b := a.Scaled(sx, sy);
    ScaledProduct(sx, sy, Max(0.0, a.x2 - a.x1), Max(0.0, a.y2 - a.y1), Max(0.0, b.x2 - b.x1), Max(0.0, b.y2 - b.y1));
  }

  lemma CommonScaled(s: real, a1: real, a2: real, b1: real, b2: real, c1: real, c2: real, d1: real, d2: real)
    requires s > 0.0
    requires c1 == s * a1 && c2 == s * a2 && d1 == s * b1 && d2 == s * b2
    ensures Common(c1, c2, d1, d2) == s * Common(a1, a2, b1, b2)
  {
    ScaleMaxMin(s, a1, b1);
    ScaleMaxMin(s, a2, b2);
    ScaleSpan(s, Max(a1, b1), Min(a2, b2));
  }

  lemma InterScaled(a: Box, b: Box, sx: real, sy: real)
    requires sx > 0.0 && sy > 0.0
    ensures Inter(a.Scaled(sx, sy), b.Scaled(sx, sy)) == (sx * sy) * Inter(a, b)
  {
    hide Common;
    var c, d := a.Scaled(sx, sy), b.Scaled(sx, sy);
    CommonScaled(sx, a.x1, a.x2, b.x1, b.x2, c.x1, c.x2, d.x1, d.x2);
    CommonScaled(sy, a.y1, a.y2, b.y1, b.y2, c.y1, c.y2, d.y1, d.y2);
    ScaledProduct(sx, sy, Common(a.x1, a.x2, b.x1, b.x2), Common(a.y1, a.y2, b.y1, b.y2),
                  Common(c.x1, c.x2, d.x1, d.x2), Common(c.y1, c.y2, d.y1, d.y2));
  }

  lemma RatioScaled(k: real, p: real, q: real)
    requires k > 0.0 && q > 0.0
    ensures k * q > 0.0 && (k * p) / (k * q) == p / q
  {
    var r := p / q;
    assert r * q == p;
    assert k * p == r * (k * q);
  }

  /** IoU is a ratio of areas: it does not see the resolution. */
  lemma IouScaled(a: Box, b: Box, sx: real, sy: real)
    requires sx > 0.0 && sy > 0.0
    ensures Iou(a.Scaled(sx, sy), b.Scaled(sx, sy)) == Iou(a, b)
  {
    hide Inter, Box.Area;
    var k := sx * sy;
    assert k > 0.0;
    InterScaled(a, b, sx, sy);
    AreaScaled(a, sx, sy);
    AreaScaled(b, sx, sy);
    InterBounds(a, b);
    RatioOfAreas(k, Inter(a, b), a.Area(), b.Area());
  }

  lemma RatioOfAreas(k: real, i: real, p: real, q: real)
    requires k > 0.0 && 0.0 <= i <= p && i <= q
    ensures k * i > 0.0 <==> i > 0.0
    ensures i > 0.0 ==> p + q - i > 0.0 && k * p + k * q - k * i > 0.0
    ensures i > 0.0 ==> (k * i) / (k * p + k * q - k * i) == i / (p + q - i)
  {
    assert k * p + k * q - k * i == k * (p + q - i);
    MulOrder(i, k);
    if i > 0.0 {
      RatioScaled(k, i, p + q - i);
    }
  }

  // ----- distance to a segment -----

  function Dot(p: Point, q: Point): real { p.x * q.x + p.y * q.y }

  function Sq(x: real): real { x * x }

  /** Squared length of a vector. */
  function NormSq(p: Point): real { Sq(p.x) + Sq(p.y) }

  /** Squared Euclidean distance. */
  function DistanceSq(p: Point, q: Point): real { Sq(p.x - q.x) + Sq(p.y - q.y) }

  function Between(a: real, b: real, t: real): real { a + t * (b - a) }

  /** The point of the line through `a` and `b` at parameter `t`. */
  function Along(a: Point, b: Point, t: real): Point {
    Point(Between(a.x, b.x, t), Between(a.y, b.y, t))
  }

  /** The parameter the monitor projects `p` to: 0 on a degenerate segment, else clamped to [0, 1]. */
  function ClampedParameter(p: Point, a: Point, b: Point): real {
    var d := b.Minus(a);
    if d.x == d.y && d.y == 0.0 then 0.0
    else
      NonDegenerate(d);
      Max(0.0, Min(1.0, Dot(p.Minus(a), d) / NormSq(d)))
  }

  /** Square of the distance the monitor computes from `p` to the segment `a`-`b`. */
  function SegmentDistanceSq(p: Point, a: Point, b: Point): real {
    DistanceSq(p, Along(a, b, ClampedParameter(p, a, b)))
  }

  lemma PositiveProduct(a: real, b: real, p: real)
    requires a > 0.0 && b > 0.0 && p == a * b
    ensures p > 0.0
  {
  }

  /** Comparing a quotient is comparing with a product. */
  lemma QuotientOrder(x: real, m: real, c: real)
    requires m > 0.0
    ensures x / m > c <==> x > c * m
    ensures x / m < c <==> x < c * m
  {
    var q := x / m;
    assert q * m == x;
    if q > c {
      PositiveProduct(q - c, m, (q - c) * m);
    } else if q < c {
      PositiveProduct(c - q, m, (c - q) * m);
    }
  }

  lemma SqSign(x: real)
    ensures Sq(x) >= 0.0
    ensures x != 0.0 ==> Sq(x) > 0.0
  {
    if x > 0.0 { PositiveProduct(x, x, Sq(x)); }
    if x < 0.0 { PositiveProduct(-x, -x, Sq(x)); }
  }

  lemma NonDegenerate(d: Point)
    requires d.x != 0.0 || d.y != 0.0
    ensures NormSq(d) > 0.0
  {
    SqSign(d.x);
    SqSign(d.y);
  }

  /** Slope of a squared difference along one coordinate, between parameters that add up to `k`. */
  function Slope1(e: real, d: real, k: real): real { k * Sq(d) - 2.0 * (e * d) }

  lemma CoordinateGap(p: real, a: real, b: real, t: real, u: real, w: real, k: real, at: real, au: real)
    returns (g: real)
    requires w == u - t && k == u + t && at == Between(a, b, t) && au == Between(a, b, u)
    ensures g == Slope1(p - a, b - a, k)
    ensures Sq(p - au) - Sq(p - at) == w * g
  {
    g := Slope1(p - a, b - a, k);
    SquareGap(p - a, b - a, t, u, p - at, p - au);
  }

  lemma SquareGap(e: real, d: real, t: real, u: real, f: real, g: real)
    requires f == e - t * d && g == e - u * d
    ensures Sq(g) - Sq(f) == (u - t) * Slope1(e, d, u + t)
  {
  }

  lemma Distribute(k: real, p: real, q: real, s: real)
    requires s == p + q
    ensures k * s == k * p + k * q
  {
  }

  function Slope(e: Point, d: Point, k: real): real { Slope1(e.x, d.x, k) + Slope1(e.y, d.y, k) }

  lemma SlopeForm(e: Point, d: Point, k: real)
    ensures Slope(e, d, k) == k * NormSq(d) - 2.0 * Dot(e, d)
  {
    Distribute(k, Sq(d.x), Sq(d.y), NormSq(d));
  }

  /** How moving along a line changes the squared distance to it. */
  lemma DistanceGap(p: Point, a: Point, b: Point, t: real, u: real, w: real, k: real) returns (s: real)
    requires w == u - t && k == u + t
    ensures s == Slope(p.Minus(a), b.Minus(a), k)
    ensures DistanceSq(p, Along(a, b, u)) - DistanceSq(p, Along(a, b, t)) == w * s
  {
    hide Sq, Between, Slope1;
    var v, z := Along(a, b, t), Along(a, b, u);
    var g := CoordinateGap(p.x, a.x, b.x, t, u, w, k, v.x, z.x);
    var h := CoordinateGap(p.y, a.y, b.y, t, u, w, k, v.y, z.y);
    s := g + h;
    Distribute(w, g, h, s);
    assert DistanceSq(p, z) == Sq(p.x - z.x) + Sq(p.y - z.y);
    assert DistanceSq(p, v) == Sq(p.x - v.x) + Sq(p.y - v.y);
    assert w * s == w * g + w * h;
    assert Sq(p.x - z.x) - Sq(p.x - v.x) == w * g;
    assert Sq(p.y - z.y) - Sq(p.y - v.y) == w * h;
    assert DistanceSq(p, z) - DistanceSq(p, v) == w * g + w * h;
    assert DistanceSq(p, z) - DistanceSq(p, v) == w * s;
  }

  lemma ProductSign(a: real, b: real, p: real)
    requires p == a * b
    requires (a >= 0.0 && b >= 0.0) || (a <= 0.0 && b <= 0.0)
    ensures p >= 0.0
  {
  }

  /** The clamped quotient minimises the quadratic on [0, 1]. */
  lemma ClampIsBest(m: real, n: real, t: real, u: real)
    requires n > 0.0 && 0.0 <= u <= 1.0
    requires t == Max(0.0, Min(1.0, m / n))
    ensures (u - t) * ((u + t) * n - 2.0 * m) >= 0.0
  {
    var r := m / n;
    assert r * n == m;
    var g := (u + t) * n - 2.0 * m;
    assert g == (u + t - 2.0 * r) * n;
    if u > t {
      ProductSign(u + t - 2.0 * r, n, g);
    } else if u < t {
      ProductSign(2.0 * r - u - t, n, -g);
    }
    ProductSign(u - t, g, (u - t) * g);
  }

  lemma DegenerateSegment(a: Point, b: Point, t: real, u: real)
    requires b.Minus(a) == ORIGIN
    ensures Along(a, b, t) == Along(a, b, u)
  {
    assert b == a;
    BetweenSame(a.x, t);
    BetweenSame(a.x, u);
    BetweenSame(a.y, t);
    BetweenSame(a.y, u);
  }

  lemma BetweenSame(a: real, t: real)
    ensures Between(a, a, t) == a
  {
  }

  /** The clamped projection is the nearest point: the distance is attained on the segment and no
      point of the segment is closer, degenerate segments included. */
  lemma SegmentDistanceIsMinimum(p: Point, a: Point, b: Point)
    ensures 0.0 <= ClampedParameter(p, a, b) <= 1.0
    ensures forall u | 0.0 <= u <= 1.0 :: SegmentDistanceSq(p, a, b) <= DistanceSq(p, Along(a, b, u))
  {
    hide DistanceSq, NormSq, Dot, Along, Slope;
    var t := ClampedParameter(p, a, b);
    var d := b.Minus(a);
    forall u | 0.0 <= u <= 1.0
      ensures DistanceSq(p, Along(a, b, t)) <= DistanceSq(p, Along(a, b, u))
    {
      if d.x == 0.0 && d.y == 0.0 {
        DegenerateSegment(a, b, t, u);
      } else {
        NonDegenerate(d);
        var s := DistanceGap(p, a, b, t, u, u - t, u + t);
        SlopeForm(p.Minus(a), d, u + t);
        ClampIsBest(Dot(p.Minus(a), d), NormSq(d), t, u);
      }
    }
  }
}
