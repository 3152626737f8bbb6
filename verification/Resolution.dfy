/** Resolution independence of a whole run: the same video at another resolution, with the detections scaled
    accordingly, yields the same tracks (scaled), the same counts, events and anomalies, frame by frame. */
module Resolution {
  import opened Seqs
  import opened Geometry
  import opened Assignment
  import opened Scene
  import opened Tracking
  import opened Counting
  import opened Monitoring

  /** Horizontal and vertical factor of a change of resolution. */
  datatype Zoom = Zoom(x: real, y: real) {
    predicate Valid() { x > 0.0 && y > 0.0 }

    function Area(): real { x * y }
  }

  // ----- boxes, detections, tracks -----

  function ZoomDetection(z: Zoom, d: Detection): Detection { Detection(d.bbox.Scaled(z.x, z.y), d.score) }

  function ZoomDetections(z: Zoom, ds: seq<Detection>): (r: seq<Detection>)
    ensures |r| == |ds|
  {
    seq(|ds|, i requires 0 <= i < |ds| => ZoomDetection(z, ds[i]))
  }

  function ZoomTrack(z: Zoom, t: Trajectory): Trajectory {
    t.(sightings := ZoomDetections(z, t.sightings), bbox := t.bbox.Scaled(z.x, z.y), velocity := t.velocity.Scaled(z.x, z.y))
  }

  function ZoomTracks(z: Zoom, ts: seq<Trajectory>): (r: seq<Trajectory>)
    ensures |r| == |ts|
  {
    seq(|ts|, i requires 0 <= i < |ts| => ZoomTrack(z, ts[i]))
  }

  function ZoomState(z: Zoom, st: TrackerState): TrackerState { TrackerState(ZoomTracks(z, st.tracks), st.nextId) }

  lemma MidpointScaled(s: real, a: real, b: real)
    ensures (s * a + s * b) / 2.0 == s * ((a + b) / 2.0)
  {
  }

  lemma CenterScaled(z: Zoom, b: Box)
    ensures b.Scaled(z.x, z.y).Center() == b.Center().Scaled(z.x, z.y)
  {
    MidpointScaled(z.x, b.x1, b.x2);
    MidpointScaled(z.y, b.y1, b.y2);
  }

  lemma ShiftScaled(z: Zoom, b: Box, v: Point)
    ensures b.Scaled(z.x, z.y).Shift(v.Scaled(z.x, z.y)) == b.Shift(v).Scaled(z.x, z.y)
  {
    Distribute(z.x, b.x1, v.x, b.x1 + v.x);
    Distribute(z.x, b.x2, v.x, b.x2 + v.x);
    Distribute(z.y, b.y1, v.y, b.y1 + v.y);
    Distribute(z.y, b.y2, v.y, b.y2 + v.y);
  }

  lemma MinusScaled(z: Zoom, p: Point, q: Point)
    ensures p.Scaled(z.x, z.y).Minus(q.Scaled(z.x, z.y)) == p.Minus(q).Scaled(z.x, z.y)
  {
    Distribute(z.x, p.x, -q.x, p.x - q.x);
    Distribute(z.y, p.y, -q.y, p.y - q.y);
  }

  lemma SeenScaled(z: Zoom, t: Trajectory, d: Detection)
    ensures ZoomTrack(z, t).Seen(ZoomDetection(z, d)) == ZoomTrack(z, t.Seen(d))
  {
    hide Box.Center, Box.Scaled, Point.Scaled, Point.Minus;
    CenterScaled(z, d.bbox);
    CenterScaled(z, t.bbox);
    MinusScaled(z, d.Center(), t.bbox.Center());
    assert ZoomDetections(z, t.sightings + [d]) == ZoomDetections(z, t.sightings) + [ZoomDetection(z, d)];
  }

  lemma MissedScaled(z: Zoom, t: Trajectory)
    ensures ZoomTrack(z, t).Missed() == ZoomTrack(z, t.Missed())
    ensures ZoomTrack(z, t).Predicted() == t.Predicted().Scaled(z.x, z.y)
  {
    hide Box.Scaled, Point.Scaled, Box.Shift;
    ShiftScaled(z, t.bbox, t.velocity);
  }

  lemma BornScaled(z: Zoom, id: nat, d: Detection)
    ensures Born(id, ZoomDetection(z, d)) == ZoomTrack(z, Born(id, d))
  {
    assert ORIGIN.Scaled(z.x, z.y) == ORIGIN;
    assert ZoomDetections(z, [d]) == [ZoomDetection(z, d)];
  }

  // ----- one update -----

  lemma CostScaled(z: Zoom, ts: seq<Trajectory>, ds: seq<Detection>)
    requires z.Valid()
    ensures CostMatrix(ZoomTracks(z, ts), ZoomDetections(z, ds)) == CostMatrix(ts, ds)
  {
    hide Iou, Box.Scaled, Box.Shift;
    var a, b := CostMatrix(ZoomTracks(z, ts), ZoomDetections(z, ds)), CostMatrix(ts, ds);
    forall i | 0 <= i < |ts|
      ensures a[i] == b[i]
    {
      MissedScaled(z, ts[i]);
      forall j | 0 <= j < |ds|
        ensures a[i][j] == b[i][j]
      {
        IouScaled(ts[i].Predicted(), ds[j].bbox, z.x, z.y);
      }
    }
  }

  /** The solver sees the same matrix, so it makes the same assignment. */
  lemma MatchingScaled(settings: Settings, solve: Solver, z: Zoom, ts: seq<Trajectory>, ds: seq<Detection>)
    requires z.Valid()
    ensures Matching(settings, solve, ZoomTracks(z, ts), ZoomDetections(z, ds)) == Matching(settings, solve, ts, ds)
    ensures Spare(settings, solve, ZoomTracks(z, ts), ZoomDetections(z, ds)) == Spare(settings, solve, ts, ds)
  {
    hide CostMatrix, Gated;
    CostScaled(z, ts, ds);
  }

  lemma AdvancedScaled(settings: Settings, solve: Solver, z: Zoom, st: TrackerState, ds: seq<Detection>)
    requires z.Valid()
    ensures Advanced(settings, solve, ZoomState(z, st), ZoomDetections(z, ds)) == ZoomTracks(z, Advanced(settings, solve, st, ds))
  {
    hide Matching, Spare, ZoomTrack, ZoomDetection, Born;
    MatchingScaled(settings, solve, z, st.tracks, ds);
    var a := Advanced(settings, solve, ZoomState(z, st), ZoomDetections(z, ds));
    var b := Advanced(settings, solve, st, ds);
    var kept, spare := Matching(settings, solve, st.tracks, ds), Spare(settings, solve, st.tracks, ds);
    forall i | 0 <= i < |b|
      ensures a[i] == ZoomTrack(z, b[i])
    {
      if i < |st.tracks| {
        AgedScaled(z, st.tracks[i]);
        if i in kept {
          SeenScaled(z, st.tracks[i].Aged(), ds[kept[i]]);
        } else {
          MissedScaled(z, st.tracks[i].Aged());
        }
      } else {
        BornScaled(z, st.nextId + (i - |st.tracks|), ds[spare[i - |st.tracks|]]);
      }
    }
  }

  lemma AgedScaled(z: Zoom, t: Trajectory)
    ensures ZoomTrack(z, t).Aged() == ZoomTrack(z, t.Aged())
  {
  }

  lemma {:induction false} FilterScaled(p: Trajectory -> bool, z: Zoom, ts: seq<Trajectory>)
    requires forall t: Trajectory :: p(ZoomTrack(z, t)) == p(t)
    ensures Filter(p, ZoomTracks(z, ts)) == ZoomTracks(z, Filter(p, ts))
  {
    hide ZoomTrack;
    if ts == [] {
    } else {
      var n := |ts| - 1;
      FilterScaled(p, z, ts[..n]);
      assert ZoomTracks(z, ts)[..n] == ZoomTracks(z, ts[..n]);
      assert ZoomTracks(z, Filter(p, ts[..n]) + [ts[n]]) == ZoomTracks(z, Filter(p, ts[..n])) + [ZoomTrack(z, ts[n])];
    }
  }

  // ----- counting -----

  /** `g2` is `g` at the other resolution. */
  ghost predicate Zoomed(z: Zoom, g: SceneGeometry, g2: SceneGeometry) {
    && g2.w as real == z.x * g.w as real && g2.h as real == z.y * g.h as real
    && g2.line.0 == g.line.0.Scaled(z.x, z.y) && g2.line.1 == g.line.1.Scaled(z.x, z.y)
  }

  lemma SameCrossing(settings: Settings, z: Zoom, g: SceneGeometry, g2: SceneGeometry, p: Point, q: Point)
    requires z.Valid() && Zoomed(z, g, g2)
    ensures CrossedLine(settings, g2, p.Scaled(z.x, z.y), q.Scaled(z.x, z.y)) == CrossedLine(settings, g, p, q)
  {
    hide Side, Point.Scaled;
    SideScaled(p, g.line.0, g.line.1, z.x, z.y);
    SideScaled(q, g.line.0, g.line.1, z.x, z.y);
    SameSign(z, SideOf(g, p), SideOf(g2, p.Scaled(z.x, z.y)));
    SameSign(z, SideOf(g, q), SideOf(g2, q.Scaled(z.x, z.y)));
  }

  lemma SameSign(z: Zoom, a: real, b: real)
    requires z.Valid() && b == z.x * z.y * a
    ensures (a > 0.0 <==> b > 0.0) && (a < 0.0 <==> b < 0.0)
  {
    var k := z.x * z.y;
    assert k > 0.0;
    SignOfProduct(k, a);
  }

  lemma SignOfProduct(k: real, a: real)
    requires k > 0.0
    ensures (k * a > 0.0 <==> a > 0.0) && (k * a < 0.0 <==> a < 0.0)
  {
    if a > 0.0 {
      assert k * a > 0.0;
    } else if a < 0.0 {
      assert k * a < 0.0;
    }
  }

  lemma ToCountScaled(settings: Settings, z: Zoom, g: SceneGeometry, g2: SceneGeometry, t: Trajectory)
    requires z.Valid() && Zoomed(z, g, g2)
    ensures ToCount(settings, g2, ZoomTrack(z, t)) == ToCount(settings, g, t)
    ensures Marked(settings, g2, ZoomTrack(z, t)) == ZoomTrack(z, Marked(settings, g, t))
  {
    hide CrossedLine, Zoomed, Box.Scaled, Point.Scaled, Box.Center;
    var n := |t.sightings|;
    if n >= 2 {
      CenterScaled(z, t.sightings[n - 2].bbox);
      CenterScaled(z, t.sightings[n - 1].bbox);
      SameCrossing(settings, z, g, g2, t.sightings[n - 2].Center(), t.sightings[n - 1].Center());
    }
  }

  function ZoomEvent(z: Zoom, ev: CrossingEvent): CrossingEvent { ev.(area := Times(z.Area(), ev.area)) }

  function ZoomEvents(z: Zoom, evs: seq<CrossingEvent>): (r: seq<CrossingEvent>)
    ensures |r| == |evs|
  {
    seq(|evs|, k requires 0 <= k < |evs| => ZoomEvent(z, evs[k]))
  }

  lemma EventScaled(z: Zoom, t: Trajectory, frame: nat)
    requires z.Valid()
    ensures EventFor(ZoomTrack(z, t), frame) == ZoomEvent(z, EventFor(t, frame))
  {
    hide Box.Area, Box.Scaled;
    AreaScaled(Last(t.sightings).bbox, z.x, z.y);
  }

  lemma {:induction false} CrossingsScaled(settings: Settings, z: Zoom, g: SceneGeometry, g2: SceneGeometry,
                                           ts: seq<Trajectory>, frame: nat)
    requires z.Valid() && Zoomed(z, g, g2)
    ensures Crossings(settings, g2, ZoomTracks(z, ts), frame) == ZoomEvents(z, Crossings(settings, g, ts, frame))
    ensures MarkAll(settings, g2, ZoomTracks(z, ts)) == ZoomTracks(z, MarkAll(settings, g, ts))
  {
    hide ToCount, Marked, Zoomed, ZoomTrack, EventFor, ZoomEvent;
    forall i | 0 <= i < |ts|
      ensures Marked(settings, g2, ZoomTrack(z, ts[i])) == ZoomTrack(z, Marked(settings, g, ts[i]))
      ensures ToCount(settings, g2, ZoomTrack(z, ts[i])) == ToCount(settings, g, ts[i])
      ensures EventFor(ZoomTrack(z, ts[i]), frame) == ZoomEvent(z, EventFor(ts[i], frame))
    {
      ToCountScaled(settings, z, g, g2, ts[i]);
      EventScaled(z, ts[i], frame);
    }
    if ts == [] {
    } else {
      var n := |ts| - 1;
      CrossingsScaled(settings, z, g, g2, ts[..n], frame);
      assert ZoomTracks(z, ts)[..n] == ZoomTracks(z, ts[..n]);
    }
  }

  // ----- sizes -----

  function Times(k: real, x: real): real { k * x }

  function ZoomReals(k: real, s: seq<real>): (r: seq<real>)
    ensures |r| == |s|
  {
    seq(|s|, i requires 0 <= i < |s| => Times(k, s[i]))
  }

  lemma OrderScaled(k: real, a: real, b: real)
    requires k > 0.0
    ensures Times(k, a) <= Times(k, b) <==> a <= b
  {
    SignOfProduct(k, a - b);
    Distribute(k, a, -b, a - b);
  }

  lemma ZoomCons(k: real, x: real, s: seq<real>)
    ensures ZoomReals(k, [x] + s) == [Times(k, x)] + ZoomReals(k, s)
  {
  }

  lemma {:induction false} InsertScaled(k: real, x: real, s: seq<real>)
    requires k > 0.0
    ensures Insert(Times(k, x), ZoomReals(k, s)) == ZoomReals(k, Insert(x, s))
  {
    hide Times, ZoomReals;
    if s == [] {
      ZoomCons(k, x, s);
      assert ZoomReals(k, s) == [] && [x] + s == [x];
    } else {
      var z, tail := ZoomReals(k, s), ZoomReals(k, s[1..]);
      ZoomCons(k, s[0], s[1..]);
      assert [s[0]] + s[1..] == s;
      assert z == [Times(k, s[0])] + tail;
      assert z[1..] == tail;
      OrderScaled(k, x, s[0]);
      if x <= s[0] {
        ZoomCons(k, x, s);
      } else {
        InsertScaled(k, x, s[1..]);
        ZoomCons(k, s[0], Insert(x, s[1..]));
      }
    }
  }

  lemma {:induction false} SortedScaled(k: real, s: seq<real>)
    requires k > 0.0
    ensures Sorted(ZoomReals(k, s)) == ZoomReals(k, Sorted(s))
  {
    hide Times, Insert, Ascending;
    if s == [] {
    } else {
      var init, last := s[..|s| - 1], s[|s| - 1];
      SortedScaled(k, init);
      assert ZoomReals(k, s)[..|s| - 1] == ZoomReals(k, init);
      InsertScaled(k, last, Sorted(init));
    }
  }

  lemma AbsScaled(k: real, d: real, e: real)
    requires k > 0.0 && e == k * d
    ensures Abs(e) == k * Abs(d)
  {
    SignOfProduct(k, d);
  }

  lemma RatioKept(k: real, p: real, q: real, p2: real, q2: real)
    requires k > 0.0 && q > 0.0 && p2 == k * p && q2 == k * q
    ensures q2 > 0.0 && p2 / q2 == p / q
  {
    RatioScaled(k, p, q);
  }

  lemma DeviationScaled(k: real, a: real, m: real)
    requires k > 0.0 && m > 0.0
    ensures Times(k, m) > 0.0 && Abs(Times(k, a) - Times(k, m)) / Times(k, m) == Abs(a - m) / m
  {
    Distribute(k, a, -m, a - m);
    var d, e := a - m, Times(k, a) - Times(k, m);
    AbsScaled(k, d, e);
    RatioKept(k, Abs(d), m, Abs(e), Times(k, m));
  }

  lemma MedianScaled(k: real, window: seq<real>)
    requires k > 0.0 && window != []
    ensures Median(ZoomReals(k, window)) == Times(k, Median(window))
  {
    hide Sorted;
    SortedScaled(k, window);
  }

  lemma SizeScaled(settings: Settings, k: real, window: seq<real>, area: real)
    requires k > 0.0
    ensures SizeRaised(settings, ZoomReals(k, window), Times(k, area)) == SizeRaised(settings, window, area)
  {
    hide Abs, Median, Times;
    if |window| >= MIN_SIZES {
      MedianScaled(k, window);
      var m := Median(window);
      TimesSign(k, m);
      if m > 0.0 {
        DeviationScaled(k, area, m);
      }
    }
  }

  lemma TimesSign(k: real, m: real)
    requires k > 0.0
    ensures Times(k, m) > 0.0 <==> m > 0.0
  {
    SignOfProduct(k, m);
  }

  lemma SuffixScaled(k: real, s: seq<real>, x: real, n: nat)
    ensures Suffix(ZoomReals(k, s) + [Times(k, x)], n) == ZoomReals(k, Suffix(s + [x], n))
  {
    hide Times;
    assert ZoomReals(k, s + [x]) == ZoomReals(k, s) + [Times(k, x)];
  }

  // ----- distance to the line, for equal factors -----

  lemma AlongScaled(s: real, a: Point, b: Point, t: real)
    ensures Along(a.Scaled(s, s), b.Scaled(s, s), t) == Along(a, b, t).Scaled(s, s)
  {
    var a2, b2 := a.Scaled(s, s), b.Scaled(s, s);
    BetweenScaled(s, a.x, b.x, t, a2.x, b2.x);
    BetweenScaled(s, a.y, b.y, t, a2.y, b2.y);
  }

  lemma DistanceScaled(s: real, p: Point, q: Point)
    ensures DistanceSq(p.Scaled(s, s), q.Scaled(s, s)) == Times(Sq(s), DistanceSq(p, q))
  {
    hide Sq;
    var p2, q2 := p.Scaled(s, s), q.Scaled(s, s);
    SquareScaled(s, p.x, q.x, p2.x, q2.x);
    SquareScaled(s, p.y, q.y, p2.y, q2.y);
    Distribute(Sq(s), Sq(p.x - q.x), Sq(p.y - q.y), DistanceSq(p, q));
  }

  lemma SegmentScaled(s: real, p: Point, a: Point, b: Point)
    requires s > 0.0
    ensures SegmentDistanceSq(p.Scaled(s, s), a.Scaled(s, s), b.Scaled(s, s)) == Times(Sq(s), SegmentDistanceSq(p, a, b))
  {
    hide ClampedParameter, Along, DistanceSq, Times, Sq, Point.Scaled;
    ParameterScaled(s, p, a, b);
    AlongScaled(s, a, b, ClampedParameter(p, a, b));
    DistanceScaled(s, p, Along(a, b, ClampedParameter(p, a, b)));
  }

  lemma SquareScaled(s: real, p: real, q: real, p2: real, q2: real)
    requires p2 == s * p && q2 == s * q
    ensures Sq(p2 - q2) == Sq(s) * Sq(p - q)
  {
    SquareOfProduct(s, p - q, p2 - q2);
  }

  lemma SquareOfProduct(s: real, x: real, y: real)
    requires y == s * x
    ensures Sq(y) == Sq(s) * Sq(x)
  {
    ScaledProduct(s, s, x, x, y, y);
  }

  lemma BetweenScaled(s: real, a: real, b: real, t: real, a2: real, b2: real)
    requires a2 == s * a && b2 == s * b
    ensures Between(a2, b2, t) == s * Between(a, b, t)
  {
  }

  lemma DotScaled(s: real, p: Point, q: Point)
    ensures Dot(p.Scaled(s, s), q.Scaled(s, s)) == Sq(s) * Dot(p, q)
  {
    var p2, q2 := p.Scaled(s, s), q.Scaled(s, s);
    ScaledProduct(s, s, p.x, q.x, p2.x, q2.x);
    ScaledProduct(s, s, p.y, q.y, p2.y, q2.y);
    Distribute(Sq(s), p.x * q.x, p.y * q.y, Dot(p, q));
  }

  lemma NormScaled(s: real, p: Point)
    ensures NormSq(p.Scaled(s, s)) == Sq(s) * NormSq(p)
  {
    var p2 := p.Scaled(s, s);
    SquareOfProduct(s, p.x, p2.x);
    SquareOfProduct(s, p.y, p2.y);
    Distribute(Sq(s), Sq(p.x), Sq(p.y), NormSq(p));
  }

  lemma ParameterScaled(s: real, p: Point, a: Point, b: Point)
    requires s > 0.0
    ensures ClampedParameter(p.Scaled(s, s), a.Scaled(s, s), b.Scaled(s, s)) == ClampedParameter(p, a, b)
  {
    hide Dot, NormSq, Sq;
    var z := Zoom(s, s);
    var d, e := b.Minus(a), p.Minus(a);
    MinusScaled(z, b, a);
    MinusScaled(z, p, a);
    var d2, e2 := b.Scaled(s, s).Minus(a.Scaled(s, s)), p.Scaled(s, s).Minus(a.Scaled(s, s));
    assert d2 == d.Scaled(s, s) && e2 == e.Scaled(s, s);
    ZeroScaled(s, d.x, d2.x);
    ZeroScaled(s, d.y, d2.y);
    if d.x != 0.0 || d.y != 0.0 {
      NonDegenerate(d);
      DotScaled(s, e, d);
      NormScaled(s, d);
      SqSign(s);
      RatioKept(Sq(s), Dot(e, d), NormSq(d), Dot(e2, d2), NormSq(d2));
    }
  }

  lemma ZeroScaled(s: real, x: real, y: real)
    requires s > 0.0 && y == s * x
    ensures y == 0.0 <==> x == 0.0
  {
    SignOfProduct(s, x);
  }

  lemma SidesScaled(s: real, w: nat, h: nat, w2: nat, h2: nat)
    requires s > 0.0 && w2 as real == s * w as real && h2 as real == s * h as real
    ensures (if w2 >= h2 then w2 else h2) as real == s * (if w >= h then w else h) as real
  {
    OrderScaled(s, h as real, w as real);
  }

  lemma ReachScaled(s: real, side: real, side2: real)
    requires s > 0.0 && side2 == s * side
    ensures 0.15 * side2 > 0.0 <==> 0.15 * side > 0.0
    ensures Sq(0.15 * side2) == Times(Sq(s), Sq(0.15 * side))
  {
    SignOfProduct(s, side);
    SquareOfProduct(s, 0.15 * side, 0.15 * side2);
  }

  lemma NearLineScaled(s: real, g: SceneGeometry, g2: SceneGeometry, p: Point)
    requires s > 0.0 && Zoomed(Zoom(s, s), g, g2)
    ensures NearLine(g2, p.Scaled(s, s)) == NearLine(g, p)
  {
    hide Sq, SegmentDistanceSq, Times;
    SidesScaled(s, g.w, g.h, g2.w, g2.h);
    var side, side2 := (if g.w >= g.h then g.w else g.h) as real, (if g2.w >= g2.h then g2.w else g2.h) as real;
    ReachScaled(s, side, side2);
    SegmentScaled(s, p, g.line.0, g.line.1);
    SqSign(s);
    OrderScaled(Sq(s), Sq(0.15 * side), SegmentDistanceSq(p, g.line.0, g.line.1));
  }
}
