/** Configuration, and the counting line in pixel coordinates. */
module Scene {
  import opened Geometry

  datatype Settings = Settings(
    trackerIouThreshold: real,
    trackerMaxAge: nat,
    trackerMinHits: int,
    countingLine: (Point, Point),     // normalized coordinates
    countDirection: string,
    stallSeconds: real,
    sizeDeviation: real,
    doubleCountSeconds: real,
    lowConfidenceWindow: nat,
    lowConfidenceThr: real
  ) {
    /** What the pipeline needs of its configuration: a confidence window to average over. */
    predicate Valid() { lowConfidenceWindow >= 1 }
  }

  /** The configuration that the program ships with. */
  const SHIPPED := Settings(0.25, 15, 2, (Point(0.169, 0.506), Point(0.469, 0.356)), "forward", 8.0, 0.6, 0.6, 30, 0.3)

  /** The counting line for one frame size. */
  datatype SceneGeometry = SceneGeometry(w: nat, h: nat, line: (Point, Point))

  function ForResolution(settings: Settings, w: nat, h: nat): SceneGeometry {
    var (p, q) := settings.countingLine;
    SceneGeometry(w, h, (p.Scaled(w as real, h as real), q.Scaled(w as real, h as real)))
  }

  /** Cross product: its sign says on which side of the line a->b the point `p` is. */
  function Side(p: Point, a: Point, b: Point): real {
    (b.x - a.x) * (p.y - a.y) - (b.y - a.y) * (p.x - a.x)
  }

  function SideOf(g: SceneGeometry, p: Point): real {
    Side(p, g.line.0, g.line.1)
  }

  /** Does the step from `prev` to `cur` cross the counting line in the configured direction? */
  function CrossedLine(settings: Settings, g: SceneGeometry, prev: Point, cur: Point): bool {
    var sidePrev := SideOf(g, prev);
    var sideCur := SideOf(g, cur);
    if sidePrev == 0.0 || sideCur == 0.0 then false
    else if (sidePrev > 0.0) == (sideCur > 0.0) then false
    else if settings.countDirection == "forward" then sidePrev > 0.0 && sideCur < 0.0
    else sidePrev < 0.0 && sideCur > 0.0
  }

  /** Signed height over the counting line, positive before a bag has crossed it in the configured direction. */
  function Height(settings: Settings, g: SceneGeometry, p: Point): real {
    if settings.countDirection == "forward" then SideOf(g, p) else -SideOf(g, p)
  }

  lemma CrossedLineMeaning(settings: Settings, g: SceneGeometry, prev: Point, cur: Point)
    ensures CrossedLine(settings, g, prev, cur) <==> Height(settings, g, prev) > 0.0 > Height(settings, g, cur)
  {
  }

  // ----- change of resolution -----

  lemma CrossProductScaled(sx: real, sy: real, u: real, v: real, s: real, t: real, u2: real, v2: real, s2: real, t2: real)
    requires u2 == sx * u && v2 == sy * v && s2 == sy * s && t2 == sx * t
    ensures u2 * v2 - s2 * t2 == (sx * sy) * (u * v - s * t)
  {
    ScaledProduct(sx, sy, u, v, u2, v2);
    ScaledProduct(sy, sx, s, t, s2, t2);
    assert (sy * sx) * (s * t) == (sx * sy) * (s * t);
    Distribute(sx * sy, u * v, -(s * t), u * v - s * t);
  }

  /** Sides scale by an area, so they keep their sign. */
  lemma SideScaled(p: Point, a: Point, b: Point, sx: real, sy: real)
    ensures Side(p.Scaled(sx, sy), a.Scaled(sx, sy), b.Scaled(sx, sy)) == (sx * sy) * Side(p, a, b)
  {
    var p2, a2, b2 := p.Scaled(sx, sy), a.Scaled(sx, sy), b.Scaled(sx, sy);
    Distribute(sx, b.x, -a.x, b.x - a.x);
    Distribute(sy, p.y, -a.y, p.y - a.y);
    Distribute(sy, b.y, -a.y, b.y - a.y);
    Distribute(sx, p.x, -a.x, p.x - a.x);
    CrossProductScaled(sx, sy, b.x - a.x, p.y - a.y, b.y - a.y, p.x - a.x,
                       b2.x - a2.x, p2.y - a2.y, b2.y - a2.y, p2.x - a2.x);
  }
}
