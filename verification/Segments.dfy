/** A crossing compares sides of the whole line. When does the step meet the segment that is drawn? */
module Segments {
  import opened Geometry
  import opened Scene

  /** The step p->q and the segment a->b have a point in common, strictly between their end points. */
  ghost predicate Meets(p: Point, q: Point, a: Point, b: Point) {
    exists s: real, u: real :: 0.0 < s < 1.0 && 0.0 < u < 1.0 && Along(p, q, s) == Along(a, b, u)
  }

  /** They have a point in common, end points included. */
  ghost predicate Touches(p: Point, q: Point, a: Point, b: Point) {
    exists s: real, u: real :: 0.0 <= s <= 1.0 && 0.0 <= u <= 1.0 && Along(p, q, s) == Along(a, b, u)
  }

  predicate SameSide(x: real, y: real) { (x > 0.0 && y > 0.0) || (x < 0.0 && y < 0.0) }

  predicate Opposite(x: real, y: real) { (x > 0.0 && y < 0.0) || (x < 0.0 && y > 0.0) }

  // ----- cross products -----

  function Cross(u: Point, v: Point): real { u.x * v.y - u.y * v.x }

  lemma SidesAsCross(p: Point, q: Point, a: Point, b: Point)
    ensures var e, d, f := b.Minus(a), q.Minus(p), p.Minus(a);
            && Side(p, a, b) == Cross(e, f) && Side(q, a, b) == Cross(e, f) + Cross(e, d)
            && Side(a, p, q) == -Cross(d, f) && Side(b, p, q) == -Cross(d, f) - Cross(e, d)
  {
  }

  /** Three plane vectors are dependent, with their cross products as coefficients. */
  lemma Dependent(e: Point, d: Point, f: Point)
    ensures Cross(e, f) * d.x - Cross(e, d) * f.x - Cross(d, f) * e.x == 0.0
    ensures Cross(e, f) * d.y - Cross(e, d) * f.y - Cross(d, f) * e.y == 0.0
  {
  }

  /** One coordinate of the point where the two lines meet. */
  lemma MeetingCoordinate(p: real, q: real, a: real, b: real, n: real, x: real, y: real)
    requires n != 0.0 && x * (q - p) + n * (p - a) - y * (b - a) == 0.0
    ensures Between(p, q, x / n) == Between(a, b, y / n)
  {
    var s, u := x / n, y / n;
    assert s * n == x && u * n == y;
    assert n * (s * (q - p) + (p - a) - u * (b - a)) == 0.0;
  }

  lemma FactorBelowOne(r: real, x: real, n: real)
    requires r * n == x && 0.0 < x < n
    ensures 0.0 < r < 1.0
  {
    if r <= 0.0 {
      NotPositive(r, n);
    } else if r >= 1.0 {
      NotPositive(1.0 - r, n);
    }
  }

  lemma NotPositive(r: real, n: real)
    requires r <= 0.0 && n > 0.0
    ensures r * n <= 0.0
  {
  }

  lemma NegatedFactor(r: real, n: real, m: real)
    requires m == -n
    ensures r * m == -(r * n)
  {
  }

  lemma ProperFraction(x: real, n: real)
    requires n != 0.0 && ((0.0 < x < n) || (n < x < 0.0))
    ensures 0.0 < x / n < 1.0
  {
    var r := x / n;
    if n > 0.0 {
      FactorBelowOne(r, x, n);
    } else {
      NegatedFactor(r, n, -n);
      FactorBelowOne(r, -x, -n);
    }
  }

  /** Where the lines meet, when the step changes sides of the line a->b. */
  lemma LinesMeet(p: Point, q: Point, a: Point, b: Point)
    requires Side(p, a, b) - Side(q, a, b) != 0.0
    ensures var n := Side(p, a, b) - Side(q, a, b);
            Along(p, q, Side(p, a, b) / n) == Along(a, b, -Side(a, p, q) / n)
  {
    hide Side, Cross, Between;
    var n := Side(p, a, b) - Side(q, a, b);
    var e, d, f := b.Minus(a), q.Minus(p), p.Minus(a);
    SidesAsCross(p, q, a, b);
    Dependent(e, d, f);
    MeetingCoordinate(p.x, q.x, a.x, b.x, n, Side(p, a, b), -Side(a, p, q));
    MeetingCoordinate(p.y, q.y, a.y, b.y, n, Side(p, a, b), -Side(a, p, q));
  }

  /** A common point at parameter `u` of the segment tells the sides of the end points. */
  lemma SidesOfEnds(p: Point, q: Point, a: Point, b: Point, s: real, u: real)
    requires Along(p, q, s) == Along(a, b, u)
    ensures var n := Side(p, a, b) - Side(q, a, b);
            Side(a, p, q) == -(u * n) && Side(b, p, q) == n - u * n
  {
    var e, d, f := b.Minus(a), q.Minus(p), p.Minus(a);
    SidesAsCross(p, q, a, b);
    assert f.x == u * e.x - s * d.x && f.y == u * e.y - s * d.y;
    CrossCombined(e, d, f, s, u);
  }

  lemma CrossCombined(e: Point, d: Point, f: Point, s: real, u: real)
    requires f.x == u * e.x - s * d.x && f.y == u * e.y - s * d.y
    ensures Cross(d, f) == -(u * Cross(e, d))
  {
    assert d.x * f.y == d.x * (u * e.y) - d.x * (s * d.y);
    assert d.y * f.x == d.y * (u * e.x) - d.y * (s * d.x);
  }

  lemma ProductSigns(u: real, n: real)
    requires 0.0 < u < 1.0 && n != 0.0
    ensures Opposite(-(u * n), n - u * n)
  {
    if n > 0.0 {
      assert u * n > 0.0 && u * n < n;
    } else {
      assert u * n < 0.0 && u * n > n;
    }
  }

  lemma SideGap(p: Point, q: Point, a: Point, b: Point)
    ensures Side(b, p, q) - Side(a, p, q) == Side(p, a, b) - Side(q, a, b)
  {
    hide Side, Cross;
    SidesAsCross(p, q, a, b);
  }

  lemma OppositeMeets(p: Point, q: Point, a: Point, b: Point)
    requires Opposite(Side(p, a, b), Side(q, a, b)) && Opposite(Side(a, p, q), Side(b, p, q))
    ensures Meets(p, q, a, b)
  {
    hide Side, Along;
    SideGap(p, q, a, b);
    var n, x, y := Side(p, a, b) - Side(q, a, b), Side(p, a, b), -Side(a, p, q);
    ProperFraction(x, n);
    ProperFraction(y, n);
    LinesMeet(p, q, a, b);
    assert Along(p, q, x / n) == Along(a, b, y / n);
  }

  lemma MeetsOpposite(p: Point, q: Point, a: Point, b: Point)
    requires Opposite(Side(p, a, b), Side(q, a, b)) && Meets(p, q, a, b)
    ensures Opposite(Side(a, p, q), Side(b, p, q))
  {
    hide Side, Along;
    var s: real, u: real :| 0.0 < s < 1.0 && 0.0 < u < 1.0 && Along(p, q, s) == Along(a, b, u);
    var n := Side(p, a, b) - Side(q, a, b);
    SidesOfEnds(p, q, a, b, s, u);
    ProductSigns(u, n);
  }

  /** A step that changes sides of the line meets the segment between its end points exactly when the end points are
      on opposite sides of the step. */
  lemma MeetsIff(p: Point, q: Point, a: Point, b: Point)
    requires Opposite(Side(p, a, b), Side(q, a, b))
    ensures Meets(p, q, a, b) <==> Opposite(Side(a, p, q), Side(b, p, q))
  {
    hide Side, Meets;
    if Meets(p, q, a, b) {
      MeetsOpposite(p, q, a, b);
    }
    if Opposite(Side(a, p, q), Side(b, p, q)) {
      OppositeMeets(p, q, a, b);
    }
  }

  lemma ClosedFraction(x: real, n: real)
    requires n != 0.0 && ((0.0 <= x <= n) || (n <= x <= 0.0))
    ensures 0.0 <= x / n <= 1.0
  {
    if x == 0.0 {
      assert x / n == 0.0;
    } else if x == n {
      assert x / n == 1.0;
    } else {
      ProperFraction(x, n);
    }
  }

  lemma ClosedSigns(u: real, n: real, x: real, y: real)
    requires 0.0 <= u <= 1.0 && x == -(u * n) && y == n - u * n
    ensures !SameSide(x, y)
  {
    if n >= 0.0 {
      assert 0.0 <= u * n <= n;
    } else {
      assert n <= u * n <= 0.0;
    }
  }

  lemma NotSameTouches(p: Point, q: Point, a: Point, b: Point)
    requires Opposite(Side(p, a, b), Side(q, a, b)) && !SameSide(Side(a, p, q), Side(b, p, q))
    ensures Touches(p, q, a, b)
  {
    hide Side, Along;
    SideGap(p, q, a, b);
    var n, x, y := Side(p, a, b) - Side(q, a, b), Side(p, a, b), -Side(a, p, q);
    ClosedFraction(x, n);
    ClosedFraction(y, n);
    LinesMeet(p, q, a, b);
    assert Along(p, q, x / n) == Along(a, b, y / n);
  }

  lemma TouchesNotSame(p: Point, q: Point, a: Point, b: Point)
    requires Touches(p, q, a, b)
    ensures !SameSide(Side(a, p, q), Side(b, p, q))
  {
    hide Side, Along, SameSide;
    var s: real, u: real :| 0.0 <= s <= 1.0 && 0.0 <= u <= 1.0 && Along(p, q, s) == Along(a, b, u);
    var n := Side(p, a, b) - Side(q, a, b);
    SidesOfEnds(p, q, a, b, s, u);
    ClosedSigns(u, n, Side(a, p, q), Side(b, p, q));
  }

  /** ... and it touches the segment, end points included, exactly when these are not on the same side of the step. */
  lemma TouchesIff(p: Point, q: Point, a: Point, b: Point)
    requires Opposite(Side(p, a, b), Side(q, a, b))
    ensures Touches(p, q, a, b) <==> !SameSide(Side(a, p, q), Side(b, p, q))
  {
    hide Side, Touches;
    if Touches(p, q, a, b) {
      TouchesNotSame(p, q, a, b);
    }
    if !SameSide(Side(a, p, q), Side(b, p, q)) {
      NotSameTouches(p, q, a, b);
    }
  }

  /** The same for the counting line: a counted step passes between the end points of the drawn line exactly when these
      are on opposite sides of the step, and touches the drawn line exactly when they are not on the same side. */
  lemma CrossedBetweenEndsIff(settings: Settings, g: SceneGeometry, prev: Point, cur: Point)
    requires CrossedLine(settings, g, prev, cur)
    ensures Meets(prev, cur, g.line.0, g.line.1) <==> Opposite(Side(g.line.0, prev, cur), Side(g.line.1, prev, cur))
    ensures Touches(prev, cur, g.line.0, g.line.1) <==> !SameSide(Side(g.line.0, prev, cur), Side(g.line.1, prev, cur))
  {
    hide Meets, Touches;
    MeetsIff(prev, cur, g.line.0, g.line.1);
    TouchesIff(prev, cur, g.line.0, g.line.1);
  }
}
