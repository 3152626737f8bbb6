/** Lost-track records across resolutions: they agree on all runs exactly when both axes are scaled alike, or when the
    configuration never makes such a record. */
module ResolutionLogs {
  import opened Seqs
  import opened Geometry
  import opened Assignment
  import opened Scene
  import opened Tracking
  import opened Monitoring
  import opened Pipeline
  import opened CountTheorems
  import opened MonitorLog
  import opened LostTracks
  import opened Confirmation
  import opened ParkedRuns
  import opened Resolution
  import opened ResolutionRun

  // ----- a point straight beside the leftmost or above the topmost end of a segment -----

  lemma SqMonotone(x: real, y: real)
    requires 0.0 <= x && 0.0 <= y
    ensures Sq(x) < Sq(y) <==> x < y
  {
    if x < y {
      PositiveProduct(y - x, y + x, Sq(y) - Sq(x));
    } else if y < x {
      PositiveProduct(x - y, x + y, Sq(x) - Sq(y));
    }
  }

  lemma SqFurther(x: real, y: real)
    requires x <= -y && 0.0 <= y
    ensures Sq(x) >= Sq(y)
  {
    SqMonotone(-x, y);
    assert Sq(-x) == Sq(x);
  }

  lemma BetweenAtLeast(a: real, b: real, t: real)
    requires 0.0 <= t <= 1.0
    ensures Between(a, b, t) >= Min(a, b)
  {
    if a <= b {
      ProductSign(t, b - a, t * (b - a));
    } else {
      ProductSign(1.0 - t, a - b, (1.0 - t) * (a - b));
      assert Between(a, b, t) == b + (1.0 - t) * (a - b);
    }
  }

  lemma EndPoints(a: Point, b: Point)
    ensures Along(a, b, 0.0) == a && Along(a, b, 1.0) == b
  {
  }

  /** Left of the leftmost end point, the distance to the segment is the distance to that end point. */
  lemma LeftOfSegment(a: Point, b: Point, e: Point, k: real)
    requires (e == a || e == b) && e.x == Min(a.x, b.x) && k >= 0.0
    ensures SegmentDistanceSq(Point(e.x - k, e.y), a, b) == Sq(k)
  {
    hide ClampedParameter, Between, Sq;
    var p := Point(e.x - k, e.y);
    SegmentDistanceIsMinimum(p, a, b);
    EndPoints(a, b);
    var q := Along(a, b, ClampedParameter(p, a, b));
    BetweenAtLeast(a.x, b.x, ClampedParameter(p, a, b));
    SqFurther(p.x - q.x, k);
    SqSign(p.y - q.y);
    assert DistanceSq(p, e) == Sq(k) by { SqOfNegative(k); }
  }

  lemma SqOfNegative(k: real)
    ensures Sq(-k) == Sq(k) && Sq(0.0) == 0.0
  {
  }

  /** The same above the topmost end point. */
  lemma AboveSegment(a: Point, b: Point, e: Point, k: real)
    requires (e == a || e == b) && e.y == Min(a.y, b.y) && k >= 0.0
    ensures SegmentDistanceSq(Point(e.x, e.y - k), a, b) == Sq(k)
  {
    hide ClampedParameter, Between, Sq;
    var p := Point(e.x, e.y - k);
    SegmentDistanceIsMinimum(p, a, b);
    EndPoints(a, b);
    var q := Along(a, b, ClampedParameter(p, a, b));
    BetweenAtLeast(a.y, b.y, ClampedParameter(p, a, b));
    SqFurther(p.y - q.y, k);
    SqSign(p.x - q.x);
    assert DistanceSq(p, e) == Sq(k) by { SqOfNegative(k); }
  }

  // ----- where the two resolutions disagree -----

  function Reach(g: SceneGeometry): real { 0.15 * (if g.w >= g.h then g.w else g.h) as real }

  lemma NearAtDistance(g: SceneGeometry, p: Point, k: real)
    requires k >= 0.0 && SegmentDistanceSq(p, g.line.0, g.line.1) == Sq(k)
    ensures NearLine(g, p) <==> k < Reach(g)
  {
    hide SegmentDistanceSq, Sq;
    if Reach(g) >= 0.0 {
      SqMonotone(k, Reach(g));
    }
  }

  lemma ScaledMin(s: real, a: real, b: real)
    requires s > 0.0
    ensures Min(s * a, s * b) == s * Min(a, b)
  {
    ScaleMaxMin(s, a, b);
  }

  /** At distance `k` left of the line the two resolutions compare `k` and `z.x * k` with their own reach. */
  lemma BothLeft(z: Zoom, g: SceneGeometry, g2: SceneGeometry, k: real) returns (p: Point)
    requires z.Valid() && Zoomed(z, g, g2) && k >= 0.0
    ensures NearLine(g, p) <==> k < Reach(g)
    ensures NearLine(g2, p.Scaled(z.x, z.y)) <==> z.x * k < Reach(g2)
  {
    hide NearLine, SegmentDistanceSq, Reach;
    var (a, b) := g.line;
    var e := if a.x <= b.x then a else b;
    p := Point(e.x - k, e.y);
    LeftOfSegment(a, b, e, k);
    NearAtDistance(g, p, k);
    ScaledMin(z.x, a.x, b.x);
    assert p.Scaled(z.x, z.y) == Point(e.Scaled(z.x, z.y).x - z.x * k, e.Scaled(z.x, z.y).y);
    LeftOfSegment(g2.line.0, g2.line.1, e.Scaled(z.x, z.y), z.x * k);
    NearAtDistance(g2, p.Scaled(z.x, z.y), z.x * k);
  }

  lemma BothAbove(z: Zoom, g: SceneGeometry, g2: SceneGeometry, k: real) returns (p: Point)
    requires z.Valid() && Zoomed(z, g, g2) && k >= 0.0
    ensures NearLine(g, p) <==> k < Reach(g)
    ensures NearLine(g2, p.Scaled(z.x, z.y)) <==> z.y * k < Reach(g2)
  {
    hide NearLine, SegmentDistanceSq, Reach;
    var (a, b) := g.line;
    var e := if a.y <= b.y then a else b;
    p := Point(e.x, e.y - k);
    AboveSegment(a, b, e, k);
    NearAtDistance(g, p, k);
    ScaledMin(z.y, a.y, b.y);
    assert p.Scaled(z.x, z.y) == Point(e.Scaled(z.x, z.y).x, e.Scaled(z.x, z.y).y - z.y * k);
    AboveSegment(g2.line.0, g2.line.1, e.Scaled(z.x, z.y), z.y * k);
    NearAtDistance(g2, p.Scaled(z.x, z.y), z.y * k);
  }

  /** Between two different reaches there is a distance that only one of them covers. */
  lemma Separating(s: real, r: real, r2: real) returns (k: real)
    requires s > 0.0 && r > 0.0 && r2 > 0.0 && r2 != s * r
    ensures k >= 0.0 && (k < r <==> !(s * k < r2))
  {
    if s * r < r2 {
      k := r;
    } else {
      k := r2 / s;
      assert s * k == r2;
      if k >= r {
        assert s * k >= s * r;
      }
    }
  }

  /** Unless both axes are scaled alike, some point is near the line at one resolution only. */
  lemma NearDiffers(z: Zoom, g: SceneGeometry, g2: SceneGeometry) returns (p: Point)
    requires z.Valid() && Zoomed(z, g, g2) && z.x != z.y && Reach(g) > 0.0 && Reach(g2) > 0.0
    ensures NearLine(g, p) != NearLine(g2, p.Scaled(z.x, z.y))
  {
    hide NearLine, Reach, Zoomed;
    if Reach(g2) != z.x * Reach(g) {
      var k := Separating(z.x, Reach(g), Reach(g2));
      p := BothLeft(z, g, g2, k);
    } else {
      assert Reach(g2) != z.y * Reach(g) by { FactorsDiffer(z.x, z.y, Reach(g)); }
      var k := Separating(z.y, Reach(g), Reach(g2));
      p := BothAbove(z, g, g2, k);
    }
  }

  lemma FactorsDiffer(s: real, t: real, r: real)
    requires s != t && r > 0.0
    ensures s * r != t * r
  {
    if s < t { assert s * r < t * r; } else { assert s * r > t * r; }
  }

  // ----- runs -----

  lemma {:induction false} WaitZoomed(z: Zoom, d: Detection, hits: nat, misses: nat)
    requires hits >= 1
    ensures ZoomFrames(z, WaitFrames(d, hits, misses)) == WaitFrames(ZoomDetection(z, d), hits, misses)
  {
    if misses > 0 {
      WaitZoomed(z, d, hits, misses - 1);
      ZoomAppend(z, WaitFrames(d, hits, misses - 1), []);
      assert ZoomDetections(z, []) == [];
    } else if hits > 1 {
      WaitZoomed(z, d, hits - 1, 0);
      ZoomAppend(z, WaitFrames(d, hits - 1, 0), [d]);
      assert ZoomDetections(z, [d]) == [ZoomDetection(z, d)];
    } else {
      ZoomAppend(z, [], [d]);
      assert [] + [[d]] == [[d]] && ZoomFrames(z, []) == [];
      assert ZoomDetections(z, [d]) == [ZoomDetection(z, d)];
    }
  }

  lemma ZoomAppend(z: Zoom, frames: seq<seq<Detection>>, dets: seq<Detection>)
    ensures ZoomFrames(z, frames + [dets]) == ZoomFrames(z, frames) + [ZoomDetections(z, dets)]
  {
  }

  /** A box of two by two pixels around `p`. */
  function Around(p: Point): Detection { Detection(Box(p.x - 1.0, p.y - 1.0, p.x + 1.0, p.y + 1.0), 0.9) }

  lemma AroundScaled(z: Zoom, p: Point)
    requires z.Valid()
    ensures Around(p).bbox.Solid() && Around(p).Center() == p
    ensures ZoomDetection(z, Around(p)).bbox.Solid()
    ensures ZoomDetection(z, Around(p)).Center() == p.Scaled(z.x, z.y)
  {
    CenterScaled(z, Around(p).bbox);
    var b := Around(p).bbox;
    assert z.x * b.x1 < z.x * b.x2 && z.y * b.y1 < z.y * b.y2;
  }

  /** Runs with the same log remember the same lost ids. */
  lemma SameLogSameIds(env: Env, env2: Env, frames: seq<seq<Detection>>, frames2: seq<seq<Detection>>, id: nat)
    requires Run(env, frames).monitor.log == Run(env2, frames2).monitor.log
    ensures id in Run(env, frames).monitor.reported <==> id in Run(env2, frames2).monitor.reported
  {
    hide Run, Recorded, NoRepeat;
    ReportedOnce(env, frames);
    ReportedOnce(env2, frames2);
  }

  /** A parked box in the place where the two resolutions disagree: lost in one run, not in the other. */
  lemma LogsDiffer(env: Env, env2: Env, z: Zoom, p: Point)
    requires z.Valid() && env2.settings == env.settings && env.settings.trackerIouThreshold <= 1.0
    requires NearLine(env.geometry, p) != NearLine(env2.geometry, p.Scaled(z.x, z.y))
    ensures var frames := WaitFrames(Around(p), Required(env.settings), env.settings.trackerMaxAge);
            Run(env2, ZoomFrames(z, frames)).monitor.log != Run(env, frames).monitor.log
  {
    hide Run, NearLine, WaitFrames, Around, ZoomFrames, ZoomDetection;
    var d, r, age := Around(p), Required(env.settings), env.settings.trackerMaxAge;
    AroundScaled(z, p);
    WaitZoomed(z, d, r, age);
    var frames, frames2 := WaitFrames(d, r, age), WaitFrames(ZoomDetection(z, d), r, age);
    if NearLine(env.geometry, p) {
      WaitingIsLost(env, d);
      WaitingNotLost(env2, ZoomDetection(z, d), r, age);
    } else {
      WaitingNotLost(env, d, r, age);
      WaitingIsLost(env2, ZoomDetection(z, d));
    }
    if Run(env2, frames2).monitor.log == Run(env, frames).monitor.log {
      SameLogSameIds(env, env2, frames, frames2, 1);
    }
  }

  // ----- when no record is ever made -----

  lemma NoneLost(log: seq<Anomaly>)
    requires Filter(IsLost(), log) == []
    ensures Filter(NotLost(), log) == log
  {
    hide Filter;
    forall i | 0 <= i < |log|
      ensures NotLost()(log[i])
    {
      if IsLost()(log[i]) {
        assert log[i] in Filter(IsLost(), log);
      }
    }
    FilterAll(NotLost(), log);
  }

  /** Without confirmed tracks, or without a reach, nothing is recorded as lost. */
  lemma NeverLost(env: Env, frames: seq<seq<Detection>>)
    requires env.settings.trackerIouThreshold > 1.0 || Reach(env.geometry) <= 0.0
    ensures Filter(IsLost(), Run(env, frames).monitor.log) == []
  {
    hide Run, Filter, SegmentDistanceSq;
    var records := LostRecorded(Run(env, frames).monitor);
    if records != [] {
      LostIsSound(env, frames, 0);
      var before := frames[..records[0].frame + 1];
      if env.settings.trackerIouThreshold > 1.0 {
        NeverMatched(env, before);
      }
      assert false;
    }
  }

  // ----- exactly when -----

  /** The same run at two resolutions makes the same log, on all videos, exactly when both axes are scaled alike, or
      the threshold is out of reach, or the picture is empty. */
  lemma LogsAgreeIff(settings: Settings, solve: Solver, fps: Rate, w: nat, h: nat, w2: nat, h2: nat, z: Zoom)
    requires z.Valid() && w2 as real == z.x * w as real && h2 as real == z.y * h as real
    ensures var env, env2 := Env(settings, solve, ForResolution(settings, w, h), fps),
                             Env(settings, solve, ForResolution(settings, w2, h2), fps);
            (forall frames: seq<seq<Detection>> ::
               Run(env2, ZoomFrames(z, frames)).monitor.log == Run(env, frames).monitor.log)
            <==> z.x == z.y || settings.trackerIouThreshold > 1.0 || (w == 0 && h == 0)
  {
    hide Run, SameTracking, NearLine, ZoomFrames;
    var env, env2 := Env(settings, solve, ForResolution(settings, w, h), fps),
                     Env(settings, solve, ForResolution(settings, w2, h2), fps);
    SizesScaled(w, h, w2, h2, z);
    LineScaled(settings, z, w, h, w2, h2);
    if z.x == z.y || settings.trackerIouThreshold > 1.0 || (w == 0 && h == 0) {
      forall frames: seq<seq<Detection>>
        ensures Run(env2, ZoomFrames(z, frames)).monitor.log == Run(env, frames).monitor.log
      {
        ResolutionIndependence(settings, solve, fps, w, h, w2, h2, z, frames);
        if z.x != z.y {
          NeverLost(env, frames);
          NeverLost(env2, ZoomFrames(z, frames));
          NoneLost(Run(env, frames).monitor.log);
          NoneLost(Run(env2, ZoomFrames(z, frames)).monitor.log);
        }
      }
    } else {
      var p := NearDiffers(z, env.geometry, env2.geometry);
      LogsDiffer(env, env2, z, p);
    }
  }

  lemma SizesScaled(w: nat, h: nat, w2: nat, h2: nat, z: Zoom)
    requires z.Valid() && w2 as real == z.x * w as real && h2 as real == z.y * h as real
    ensures w == 0 <==> w2 == 0
    ensures h == 0 <==> h2 == 0
  {
  }
}
