/** Which way a bag must go to be counted. The configuration calls the direction towards the near, bottom-left side of
    the line the counted one; with the shipped line that is the side where the cross product is positive. */
module Direction {
  import opened Geometry
  import opened Assignment
  import opened Scene
  import opened Tracking
  import opened Counting
  import opened Monitoring
  import opened Pipeline
  import opened ExactCount
  import opened CountTheorems
  import opened Segments
  import opened Bags
  import opened BagCount
  import opened Lanes
  import opened Resolution
  import opened ResolutionRun

  // ----- steps -----

  /** Every step that counts goes from the negative to the positive side of the line. */
  ghost predicate CountsTowardPositive(settings: Settings, g: SceneGeometry) {
    forall p: Point, q: Point | CrossedLine(settings, g, p, q) :: SideOf(g, p) < 0.0 < SideOf(g, q)
  }

  /** The point at `k` normals from the first end point of the line, on the positive side for positive `k`. */
  function Beside(a: Point, b: Point, k: real): Point { Point(a.x - k * (b.y - a.y), a.y + k * (b.x - a.x)) }

  lemma BesideSide(a: Point, b: Point, k: real)
    ensures Side(Beside(a, b, k), a, b) == k * NormSq(b.Minus(a))
  {
    var dx, dy := b.x - a.x, b.y - a.y;
    assert dx * (k * dx) == k * Sq(dx) && dy * (k * dy) == k * Sq(dy);
    Distribute(k, Sq(dx), Sq(dy), NormSq(b.Minus(a)));
  }

  lemma PointLineHasNoSides(a: Point, p: Point)
    ensures Side(p, a, a) == 0.0
  {
  }

  lemma StepDirectionIff(settings: Settings, g: SceneGeometry)
    ensures CountsTowardPositive(settings, g) <==> settings.countDirection != "forward" || g.line.0 == g.line.1
  {
    hide Side;
    var (a, b) := g.line;
    if a == b {
      forall p
        ensures SideOf(g, p) == 0.0
      {
        PointLineHasNoSides(a, p);
      }
    } else if settings.countDirection == "forward" {
      var p, q := Beside(a, b, 1.0), Beside(a, b, -1.0);
      BesideSide(a, b, 1.0);
      BesideSide(a, b, -1.0);
      NonDegenerate(b.Minus(a));
      assert CrossedLine(settings, g, p, q);
    }
  }

  // ----- the shipped line -----

  ghost predicate HasShippedLine(settings: Settings, g: SceneGeometry, w: nat, h: nat) {
    w > 0 && h > 0 && settings.countingLine == SHIPPED.countingLine && g == ForResolution(settings, w, h)
  }

  /** Side of the shipped line in normalized coordinates. */
  function Tilt(x: real, y: real): real { 0.3 * (y - 0.506) + 0.15 * (x - 0.169) }

  function FrameArea(w: nat, h: nat): real { w as real * h as real }

  lemma ShippedSide(settings: Settings, g: SceneGeometry, w: nat, h: nat, x: real, y: real)
    requires HasShippedLine(settings, g, w, h)
    ensures SideOf(g, Point(x * w as real, y * h as real)) == FrameArea(w, h) * Tilt(x, y)
    ensures FrameArea(w, h) > 0.0
  {
    var (a, b) := SHIPPED.countingLine;
    SideScaled(Point(x, y), a, b, w as real, h as real);
    assert Side(Point(x, y), a, b) == Tilt(x, y);
  }

  lemma ProductKeepsSign(a: real, k: real, p: real)
    requires a > 0.0 && p == a * k
    ensures k > 0.0 ==> p > 0.0
    ensures k < 0.0 ==> p < 0.0
  {
  }

  lemma ShippedSign(settings: Settings, g: SceneGeometry, w: nat, h: nat, x: real, y: real)
    requires HasShippedLine(settings, g, w, h)
    ensures Tilt(x, y) > 0.0 ==> SideOf(g, Point(x * w as real, y * h as real)) > 0.0
    ensures Tilt(x, y) < 0.0 ==> SideOf(g, Point(x * w as real, y * h as real)) < 0.0
  {
    hide SideOf, HasShippedLine, Tilt, FrameArea;
    ShippedSide(settings, g, w, h, x, y);
    ProductKeepsSign(FrameArea(w, h), Tilt(x, y), SideOf(g, Point(x * w as real, y * h as real)));
  }

  lemma Sized(settings: Settings, g: SceneGeometry, w: nat, h: nat)
    requires HasShippedLine(settings, g, w, h)
    ensures w > 0 && h > 0 && g.line.0.x < g.line.1.x
  {
    assert g.line.0.x == w as real * 0.169 && g.line.1.x == w as real * 0.469;
  }

  lemma Tilts()
    ensures Tilt(0.0, 1.0) > 0.0 && Tilt(0.359, 0.028) < 0.0 && Tilt(0.672, 0.042) < 0.0
  {
  }

  /** The near, bottom-left corner of the picture is on the positive side of the shipped line, the opening at the top
      where the belt comes from is on the negative side, and going down is going towards the positive side. */
  lemma NearIsPositive(settings: Settings, g: SceneGeometry, w: nat, h: nat)
    requires HasShippedLine(settings, g, w, h)
    ensures SideOf(g, Point(0.0 * w as real, 1.0 * h as real)) > 0.0
    ensures SideOf(g, Point(0.359 * w as real, 0.028 * h as real)) < 0.0
    ensures SideOf(g, Point(0.672 * w as real, 0.042 * h as real)) < 0.0
    ensures forall p: Point, q: Point | p.x == q.x && p.y < q.y :: SideOf(g, p) < SideOf(g, q)
  {
    hide SideOf, HasShippedLine, Tilt;
    Tilts();
    ShippedSign(settings, g, w, h, 0.0, 1.0);
    ShippedSign(settings, g, w, h, 0.359, 0.028);
    ShippedSign(settings, g, w, h, 0.672, 0.042);
    Sized(settings, g, w, h);
    forall p: Point, q: Point | p.x == q.x && p.y < q.y
      ensures SideOf(g, p) < SideOf(g, q)
    {
      DownIsPositive(g, p, q);
    }
  }

  lemma DownIsPositive(g: SceneGeometry, p: Point, q: Point)
    requires p.x == q.x && p.y < q.y && g.line.1.x > g.line.0.x
    ensures SideOf(g, p) < SideOf(g, q)
  {
    var (a, b) := g.line;
    Distribute(b.x - a.x, p.y - a.y, q.y - p.y, q.y - a.y);
    assert (b.x - a.x) * (q.y - p.y) > 0.0;
  }

  /** With the shipped line, at any resolution, every counted step goes to the near side unless the direction is the
      shipped one, "forward". */
  lemma ShippedStepIff(settings: Settings, g: SceneGeometry, w: nat, h: nat)
    requires HasShippedLine(settings, g, w, h)
    ensures CountsTowardPositive(settings, g) <==> settings.countDirection != "forward"
  {
    StepDirectionIff(settings, g);
    assert g.line.0.x == 0.169 * w as real && g.line.1.x == 0.469 * w as real;
  }

  // ----- runs -----

  /** The event was raised by a step from the negative to the positive side. */
  ghost predicate RaisedTowardPositive(env: Env, tracks: seq<Trajectory>, ev: CrossingEvent) {
    exists i :: 0 <= i < |tracks| && FirstCrossing(env.settings, env.geometry, tracks[i], ev)
      && var s := tracks[i].sightings;
         |s| >= 2 && SideOf(env.geometry, s[|s| - 2].Center()) < 0.0 < SideOf(env.geometry, s[|s| - 1].Center())
  }

  ghost predicate AllTowardPositive(env: Env, frames: seq<seq<Detection>>) {
    forall k | 0 <= k < |Run(env, frames).events| ::
      var ev := Run(env, frames).events[k];
      ev.frame < |frames| && RaisedTowardPositive(env, Run(env, frames[..ev.frame + 1]).tracker.tracks, ev)
  }

  lemma FirstCrossingStep(settings: Settings, g: SceneGeometry, t: Trajectory, ev: CrossingEvent)
    requires FirstCrossing(settings, g, t, ev)
    ensures var s := t.sightings;
            |s| >= 2
            && if settings.countDirection == "forward"
               then SideOf(g, s[|s| - 2].Center()) > 0.0 > SideOf(g, s[|s| - 1].Center())
               else SideOf(g, s[|s| - 2].Center()) < 0.0 < SideOf(g, s[|s| - 1].Center())
  {
    hide Side, HasCrossed;
  }

  lemma BackwardRaises(env: Env, tracks: seq<Trajectory>, ev: CrossingEvent)
    requires Explained(env, tracks, ev) && env.settings.countDirection != "forward"
    ensures RaisedTowardPositive(env, tracks, ev)
  {
    hide FirstCrossing, SideOf;
    var i :| 0 <= i < |tracks| && FirstCrossing(env.settings, env.geometry, tracks[i], ev);
    FirstCrossingStep(env.settings, env.geometry, tracks[i], ev);
  }

  lemma ForwardDoesNot(env: Env, tracks: seq<Trajectory>, ev: CrossingEvent)
    requires env.settings.countDirection == "forward"
    ensures !RaisedTowardPositive(env, tracks, ev)
  {
    hide FirstCrossing, SideOf;
    forall i | 0 <= i < |tracks| && FirstCrossing(env.settings, env.geometry, tracks[i], ev)
      ensures |tracks[i].sightings| >= 2
      ensures var s := tracks[i].sightings; SideOf(env.geometry, s[|s| - 2].Center()) > 0.0
    {
      FirstCrossingStep(env.settings, env.geometry, tracks[i], ev);
    }
  }

  lemma RunsTowardPositive(env: Env, frames: seq<seq<Detection>>)
    requires env.settings.countDirection != "forward"
    ensures AllTowardPositive(env, frames)
  {
    hide Run, RaisedTowardPositive, Explained;
    forall k | 0 <= k < |Run(env, frames).events|
      ensures var ev := Run(env, frames).events[k];
              ev.frame < |frames| && RaisedTowardPositive(env, Run(env, frames[..ev.frame + 1]).tracker.tracks, ev)
    {
      EventIsFirstCrossing(env, frames, k);
      var ev := Run(env, frames).events[k];
      BackwardRaises(env, Run(env, frames[..ev.frame + 1]).tracker.tracks, ev);
    }
  }

  lemma RunsTowardNegative(env: Env, frames: seq<seq<Detection>>)
    requires env.settings.countDirection == "forward" && Run(env, frames).count >= 1
    ensures !AllTowardPositive(env, frames)
  {
    hide Run, RaisedTowardPositive;
    ExactlyOnce(env, frames);
    var ev := Run(env, frames).events[0];
    if ev.frame < |frames| {
      ForwardDoesNot(env, Run(env, frames[..ev.frame + 1]).tracker.tracks, ev);
    }
  }

  function ShippedEnv(solve: Solver, fps: Rate, direction: string, w: nat, h: nat): Env {
    var settings := SHIPPED.(countDirection := direction);
    Env(settings, solve, ForResolution(settings, w, h), fps)
  }

  /** Some run counts a bag, at every resolution. */
  lemma SomethingCounted(solve: Solver, fps: Rate, w: nat, h: nat) returns (frames: seq<seq<Detection>>)
    requires w > 0 && h > 0
    ensures Run(ShippedEnv(solve, fps, "forward", w, h), frames).count == 1
  {
    hide Run, SameMonitor, LaneWorld, ForResolution, ZoomFrames;
    var base := LaneWorld([Rising(319.0, 441.0)], 0.9, 2).frames;
    var z := Zoom(w as real / 1000.0, h as real / 1000.0);
    OneBagPasses(Env(SHIPPED, solve, Thousand(), fps));
    ResolutionIndependence(SHIPPED, solve, fps, 1000, 1000, w, h, z, base);
    frames := ZoomFrames(z, base);
    assert SHIPPED.(countDirection := "forward") == SHIPPED;
  }

  /** With the shipped configuration at any resolution: on all runs every count is for a step towards the near side,
      exactly when the direction is anything but "forward". */
  lemma ShippedRunsIff(solve: Solver, fps: Rate, direction: string, w: nat, h: nat)
    requires w > 0 && h > 0
    ensures (forall frames: seq<seq<Detection>> :: AllTowardPositive(ShippedEnv(solve, fps, direction, w, h), frames))
       <==> direction != "forward"
  {
    hide AllTowardPositive, Run;
    var env := ShippedEnv(solve, fps, direction, w, h);
    if direction != "forward" {
      forall frames: seq<seq<Detection>>
        ensures AllTowardPositive(env, frames)
      {
        RunsTowardPositive(env, frames);
      }
    } else {
      var frames := SomethingCounted(solve, fps, w, h);
      RunsTowardNegative(env, frames);
    }
  }

  // ----- counts over bags -----

  /** When all bags move towards the positive side or along the line, "forward" counts none of them. */
  lemma ForwardCountsNoneOfThese(env: Env, w: World)
    requires Consistent(w) && Followable(env.settings, w) && env.settings.countDirection == "forward"
    requires forall b | 0 <= b < |w.bags| :: Climb(env.geometry.line.0, env.geometry.line.1, w.bags[b].velocity) >= 0.0
    ensures Run(env, w.frames).count == 0
  {
    hide Run, Consistent, Followable, Passes, OffLine, InTime, Climb;
    CountIsCountableBags(env, w);
    forall b: nat | b < |w.bags|
      ensures !Countable(env.settings, env.geometry, w, b, |w.frames|)
    {
      if Passes(env.settings, env.geometry, w, b, |w.frames|) {
        PassingDescends(env.settings, env.geometry, w, b, |w.frames|);
        assert false;
      }
    }
    assert CountableBags(env.settings, env.geometry, w) == {};
  }

  // ----- a bag that travels with the belt -----

  /** A bag of 100 by 100 pixels at (x, y) that comes down by 20 pixels a frame. */
  function Falling(x: real, y: real): Bag {
    Bag(Box(x - 50.0, y - 50.0, x + 50.0, y + 50.0), Point(0.0, 20.0), 0)
  }

  function WithTheBelt(): World { LaneWorld([Falling(319.0, 421.0)], 0.9, 2) }

  lemma FallingSide(settings: Settings, f: int)
    ensures SideOf(Thousand(), BagAt(Falling(319.0, 421.0), f).Center()) == 300.0 * (20.0 * f as real - 10.0)
  {
    assert Thousand().line == (Point(169.0, 506.0), Point(469.0, 356.0));
    assert BagAt(Falling(319.0, 421.0), f).Center() == Point(319.0, 421.0 + 20.0 * f as real);
  }

  lemma FallingInLanes(settings: Settings)
    requires settings.trackerIouThreshold == 0.25
    ensures InLanes(settings, [Falling(319.0, 421.0)])
  {
    var b := Falling(319.0, 421.0);
    assert BagAt(b, 1) == Box(269.0, 391.0, 369.0, 491.0);
    assert Inter(b.box, BagAt(b, 1)) == 8000.0;
    assert b.box.Area() == 10000.0 && BagAt(b, 1).Area() == 10000.0;
    assert Iou(b.box, BagAt(b, 1)) == 2.0 / 3.0;
  }

  lemma FallingCountable(settings: Settings)
    requires settings.trackerMinHits == 2
    ensures LaneCountable(settings, Thousand(), Falling(319.0, 421.0), 2) <==> settings.countDirection != "forward"
  {
    hide Falling, BagAt, SideOf, Thousand;
    FallingSide(settings, 0);
    FallingSide(settings, 1);
  }

  /** One bag, two frames inside the picture, coming down over the middle of the drawn line: not counted with the
      shipped configuration, and counted with any other direction. */
  lemma BeltBagIsMissed(env: Env, direction: string)
    requires env.settings == SHIPPED.(countDirection := direction) && env.geometry == Thousand()
    ensures LineInside(env.geometry)
    ensures var f: seq<seq<Detection>> := WithTheBelt().frames;
            && InFrame(env.geometry, f[0][0].bbox) && InFrame(env.geometry, f[1][0].bbox)
            && Meets(f[0][0].Center(), f[1][0].Center(), env.geometry.line.0, env.geometry.line.1)
    ensures Run(env, WithTheBelt().frames).count == if direction == "forward" then 0 else 1
  {
    LineInFrame();
    BeltBagSeen();
    hide Run, BagHeight, Iou, Falling, LaneCountable, LineInside, Meets, InFrame, Thousand;
    var b := Falling(319.0, 421.0);
    FallingInLanes(env.settings);
    LaneCount(env, [b], 0.9, 2);
    FallingCountable(env.settings);
    assert (set i: nat | i < 1 && LaneCountable(env.settings, env.geometry, [b][i], 2))
        == if direction == "forward" then {} else {0};
  }

  lemma BeltBagSeen()
    ensures var f: seq<seq<Detection>> := WithTheBelt().frames;
            && |f| == 2 && |f[0]| == 1 == |f[1]|
            && InFrame(Thousand(), f[0][0].bbox) && InFrame(Thousand(), f[1][0].bbox)
            && Meets(f[0][0].Center(), f[1][0].Center(), Thousand().line.0, Thousand().line.1)
  {
    BeltStepMeets();
    hide Meets, Thousand;
    BeltBoxes();
    assert Thousand().w == 1000 == Thousand().h by { ThousandSize(); }
  }

  lemma ThousandSize()
    ensures Thousand().w == 1000 == Thousand().h
  {
  }

  lemma BeltBoxes()
    ensures var f: seq<seq<Detection>> := WithTheBelt().frames;
            && |f| == 2 && |f[0]| == 1 == |f[1]|
            && f[0][0].bbox == Box(269.0, 371.0, 369.0, 471.0) && f[1][0].bbox == Box(269.0, 391.0, 369.0, 491.0)
            && f[0][0].Center() == Point(319.0, 421.0) && f[1][0].Center() == Point(319.0, 441.0)
  {
  }

  lemma BeltStepMeets()
    ensures Meets(Point(319.0, 421.0), Point(319.0, 441.0), Thousand().line.0, Thousand().line.1)
  {
    assert Thousand().line == (Point(169.0, 506.0), Point(469.0, 356.0));
    hide Meets;
    MeetsIff(Point(319.0, 421.0), Point(319.0, 441.0), Thousand().line.0, Thousand().line.1);
  }
}
