/** Worlds that can be followed: any number of bags side by side, each at its own speed in its own lane, and seen in
    every frame. On such worlds the count is a formula, and three of them show what the shipped counting line does. */
module Lanes {
  import opened Geometry
  import opened Scene
  import opened Tracking
  import opened Pipeline
  import opened CountTheorems
  import opened Bags
  import opened BagCount
  import opened Segments

  function LaneWorld(bags: seq<Bag>, score: real, n: nat): World {
    World(bags,
          seq(n, f => seq(|bags|, b => b)),
          seq(n, f => seq(|bags|, b requires 0 <= b < |bags| => Detection(BagAt(bags[b], f), score))))
  }

  /** The bags move along their lanes, overlap themselves from their first frame to their second, and their lanes do
      not overlap. */
  ghost predicate OwnLanes(settings: Settings, bags: seq<Bag>) {
    && 0.0 < settings.trackerIouThreshold <= 1.0
    && (forall b | 0 <= b < |bags| ::
          bags[b].velocity.x == 0.0
          && Iou(bags[b].box, BagAt(bags[b], bags[b].first + 1)) >= settings.trackerIouThreshold)
    && (forall b, c | 0 <= b < |bags| && 0 <= c < |bags| && b != c ::
          bags[b].box.x2 <= bags[c].box.x1 || bags[c].box.x2 <= bags[b].box.x1)
  }

  /** ... and they start together. */
  ghost predicate InLanes(settings: Settings, bags: seq<Bag>) {
    OwnLanes(settings, bags) && forall b | 0 <= b < |bags| :: bags[b].first == 0
  }

  lemma StaysInLane(b: Bag, f: int)
    requires b.velocity.x == 0.0
    ensures BagAt(b, f).x1 == b.box.x1 && BagAt(b, f).x2 == b.box.x2
  {
  }

  lemma LanesApart(a: Box, b: Box)
    requires a.x2 <= b.x1 || b.x2 <= a.x1
    ensures Iou(a, b) == 0.0
  {
    hide Iou;
    IouRange(a, b);
    assert !Overlaps(a, b);
  }

  lemma LaneFrame(bags: seq<Bag>, score: real, n: nat, f: nat)
    requires f < n && forall b | 0 <= b < |bags| :: bags[b].first == 0
    ensures var w := LaneWorld(bags, score, n);
            FrameConsistent(w, f) && forall b: nat | b < |bags| :: b in w.labels[f]
  {
    hide BagAt;
    var w := LaneWorld(bags, score, n);
    forall b: nat | b < |bags|
      ensures b in w.labels[f]
    {
      assert w.labels[f][b] == b;
    }
  }

  lemma {:induction false} NeverMissed(bags: seq<Bag>, score: real, n: nat, b: nat, f: nat)
    requires f <= n && b < |bags|
    ensures Gap(LaneWorld(bags, score, n), b, f) == 0
  {
    if f == 0 {
    } else {
      assert LaneWorld(bags, score, n).labels[f - 1][b] == b;
    }
  }

  lemma LanesConsistent(bags: seq<Bag>, score: real, n: nat)
    requires forall b | 0 <= b < |bags| :: bags[b].first == 0
    ensures Consistent(LaneWorld(bags, score, n))
  {
    hide BagAt, FrameConsistent;
    forall f: nat | f < n
      ensures FrameConsistent(LaneWorld(bags, score, n), f)
      ensures forall b: nat | b < |bags| :: b in LaneWorld(bags, score, n).labels[f]
    {
      LaneFrame(bags, score, n, f);
    }
  }

  lemma LanesStayApart(settings: Settings, bags: seq<Bag>, b: nat, j: nat, f: nat)
    requires OwnLanes(settings, bags) && b < |bags| && j < |bags| && b != j
    ensures Iou(ExpectedAt(bags[b], f), BagAt(bags[j], f)) == 0.0
  {
    hide Iou, BagAt;
    StaysInLane(bags[b], f);
    StaysInLane(bags[j], f);
    LanesApart(ExpectedAt(bags[b], f), BagAt(bags[j], f));
  }

  /** Lanes can be followed, whatever the number of bags, their sizes, their speeds and the length of the video. */
  lemma LanesFollowable(settings: Settings, bags: seq<Bag>, score: real, n: nat)
    requires InLanes(settings, bags)
    ensures Consistent(LaneWorld(bags, score, n)) && Followable(settings, LaneWorld(bags, score, n))
  {
    LanesConsistent(bags, score, n);
    hide Iou, BagAt, Consistent, ExpectedAt, Gap;
    var w := LaneWorld(bags, score, n);
    forall b: nat, f: nat | b < |bags| && f < n
      ensures Gap(w, b, f) == 0
    {
      NeverMissed(bags, score, n, b, f);
    }
    forall b: nat, f: nat, j: nat | b < |bags| && 0 < f < n && j < |bags| && j != b
      ensures Iou(ExpectedAt(bags[b], f), w.frames[f][j].bbox) == 0.0
    {
      LanesStayApart(settings, bags, b, j, f);
    }
  }

  lemma {:induction false} LaneSightings(bags: seq<Bag>, score: real, n: nat, b: nat, k: nat)
    requires Consistent(LaneWorld(bags, score, n)) && b < |bags| && k <= n
    ensures var s := SightingsOf(LaneWorld(bags, score, n), b, k);
            |s| == k && forall f | 0 <= f < k :: s[f] == Detection(BagAt(bags[b], f), score)
  {
    hide BagAt, Consistent;
    if k == 0 {
    } else {
      var w := LaneWorld(bags, score, n);
      LaneSightings(bags, score, n, b, k - 1);
      assert w.labels[k - 1][b] == b;
      DetectionAt(w, k - 1, b);
    }
  }

  /** A bag in a lane is countable by its heights in the frames. */
  ghost predicate LaneCountable(settings: Settings, g: SceneGeometry, b: Bag, n: nat) {
    && n >= Required(settings)
    && BagHeight(settings, g, b, 0) > 0.0 > BagHeight(settings, g, b, n - 1)
    && (forall f | 0 <= f < n :: BagHeight(settings, g, b, f) != 0.0)
    && BagHeight(settings, g, b, Required(settings) - 2) > 0.0
  }

  lemma CountableInLane(settings: Settings, g: SceneGeometry, bags: seq<Bag>, score: real, n: nat, b: nat)
    requires Consistent(LaneWorld(bags, score, n)) && b < |bags|
    ensures Countable(settings, g, LaneWorld(bags, score, n), b, n) <==> LaneCountable(settings, g, bags[b], n)
  {
    hide BagAt, Consistent, SightingsOf, Height;
    LaneSightings(bags, score, n, b, n);
    var s := SightingsOf(LaneWorld(bags, score, n), b, n);
    var h := Heights(settings, g, s);
    assert forall f | 0 <= f < n :: h[f] == BagHeight(settings, g, bags[b], f);
  }

  /** The count over lanes, as a formula on the heights of the bags. */
  lemma LaneCount(env: Env, bags: seq<Bag>, score: real, n: nat)
    requires InLanes(env.settings, bags)
    ensures Run(env, LaneWorld(bags, score, n).frames).count
         == |set b: nat | b < |bags| && LaneCountable(env.settings, env.geometry, bags[b], n)|
  {
    hide Run, Countable, LaneCountable, Consistent, InLanes, Followable;
    var w := LaneWorld(bags, score, n);
    LanesFollowable(env.settings, bags, score, n);
    CountIsCountableBags(env, w);
    var counted := set b: nat | b < |bags| && LaneCountable(env.settings, env.geometry, bags[b], n);
    forall b: nat
      ensures b in CountableBags(env.settings, env.geometry, w) <==> b in counted
    {
      if b < |bags| {
        CountableInLane(env.settings, env.geometry, bags, score, n, b);
        FirstInLane(env.settings, env.geometry, bags, score, n, b);
      }
    }
    assert CountableBags(env.settings, env.geometry, w) == counted;
  }

  lemma FirstInLane(settings: Settings, g: SceneGeometry, bags: seq<Bag>, score: real, n: nat, b: nat)
    requires InLanes(settings, bags) && b < |bags|
    ensures LaneCountable(settings, g, bags[b], n) ==> bags[b].first < |LaneWorld(bags, score, n).frames|
  {
  }

  // ----- the shipped counting line -----

  /** A bag of 100 by 100 pixels at (x, y) that goes up, away from the camera, by 20 pixels a frame. */
  function Rising(x: real, y: real): Bag {
    Bag(Box(x - 50.0, y - 50.0, x + 50.0, y + 50.0), Point(0.0, -20.0), 0)
  }

  function Thousand(): SceneGeometry { ForResolution(SHIPPED, 1000, 1000) }

  lemma RisingHeight(x: real, y: real, f: int)
    ensures BagHeight(SHIPPED, Thousand(), Rising(x, y), f) == 300.0 * (y - 20.0 * f as real - 506.0) + 150.0 * (x - 169.0)
  {
    assert Thousand().line == (Point(169.0, 506.0), Point(469.0, 356.0));
    assert BagAt(Rising(x, y), f).Center() == Point(x, y - 20.0 * f as real);
  }

  /** Two thirds of the bag overlap in successive frames. */
  lemma RisingOverlap(x: real, y: real)
    ensures Iou(Rising(x, y).box, BagAt(Rising(x, y), 1)) == 2.0 / 3.0
  {
    var b := Rising(x, y);
    assert BagAt(b, 1) == Box(x - 50.0, y - 70.0, x + 50.0, y + 30.0);
    assert Inter(b.box, BagAt(b, 1)) == 8000.0;
    assert b.box.Area() == 10000.0 && BagAt(b, 1).Area() == 10000.0;
  }

  predicate InFrame(g: SceneGeometry, b: Box) { 0.0 <= b.x1 && b.x2 <= g.w as real && 0.0 <= b.y1 && b.y2 <= g.h as real }

  /** The counting line lies inside the frame. */
  predicate LineInside(g: SceneGeometry) {
    var (a, b) := g.line;
    && 0.0 < a.x < g.w as real && 0.0 < a.y < g.h as real && 0.0 < b.x < g.w as real && 0.0 < b.y < g.h as real
  }

  lemma LineInFrame()
    ensures LineInside(Thousand())
  {
  }

  lemma RisingInLanes(x: real, y: real, x': real, y': real)
    requires x + 100.0 <= x'
    ensures InLanes(SHIPPED, [Rising(x, y)]) && InLanes(SHIPPED, [Rising(x, y), Rising(x', y')])
  {
    hide Iou, BagAt;
    RisingOverlap(x, y);
    RisingOverlap(x', y');
  }

  /** A rising bag is upstream in the first frame and downstream in the second. */
  lemma PassesInTwo(x: real, y: real)
    requires 0.0 < 300.0 * (y - 506.0) + 150.0 * (x - 169.0) < 6000.0
    ensures LaneCountable(SHIPPED, Thousand(), Rising(x, y), 2)
  {
    hide BagHeight, Rising;
    RisingHeight(x, y, 0);
    RisingHeight(x, y, 1);
  }

  lemma OneBagPasses(env: Env)
    requires env.settings == SHIPPED && env.geometry == Thousand()
    ensures Run(env, LaneWorld([Rising(319.0, 441.0)], 0.9, 2).frames).count == 1
  {
    hide Run, BagHeight, Iou, Rising, LaneCountable;
    var a := Rising(319.0, 441.0);
    RisingInLanes(319.0, 441.0, 560.0, 320.0);
    LaneCount(env, [a], 0.9, 2);
    PassesInTwo(319.0, 441.0);
    assert (set i: nat | i < 1 && LaneCountable(SHIPPED, Thousand(), [a][i], 2)) == {0};
  }

  function TwoRising(): World { LaneWorld([Rising(319.0, 441.0), Rising(560.0, 320.0)], 0.9, 2) }

  /** Two bags that move away from the camera, two frames, centers inside the shipped region of interest: one goes over
      the line, the other goes by beyond its end points; both are counted. */
  lemma TwoBagsPass(env: Env)
    requires env.settings == SHIPPED && env.geometry == Thousand()
    ensures LineInside(env.geometry)
    ensures forall f, j | 0 <= f < 2 && 0 <= j < 2 :: InFrame(env.geometry, TwoRising().frames[f][j].bbox)
    ensures Run(env, TwoRising().frames).count == 2
  {
    LineInFrame();
    TwoBagsInFrame();
    hide Run, LineInside, BagHeight, Iou, Rising, LaneCountable;
    var a, b := Rising(319.0, 441.0), Rising(560.0, 320.0);
    RisingInLanes(319.0, 441.0, 560.0, 320.0);
    LaneCount(env, [a, b], 0.9, 2);
    PassesInTwo(319.0, 441.0);
    PassesInTwo(560.0, 320.0);
    assert (set i: nat | i < 2 && LaneCountable(SHIPPED, Thousand(), [a, b][i], 2)) == {0, 1};
  }

  lemma SideOfRise(a: Point, x: real, y: real)
    ensures Side(a, Point(x, y), Point(x, y - 20.0)) == 20.0 * (a.x - x)
  {
  }

  /** A step of 20 pixels up at `x` meets the drawn line between its end points exactly when it goes over the line
      and `x` is between those of the end points. */
  lemma RisingMeets(x: real, y: real)
    requires CrossedLine(SHIPPED, Thousand(), Point(x, y), Point(x, y - 20.0))
    ensures Meets(Point(x, y), Point(x, y - 20.0), Thousand().line.0, Thousand().line.1) <==> 169.0 < x < 469.0
  {
    var (a, b) := Thousand().line;
    assert a.x == 169.0 && b.x == 469.0;
    hide Meets, CrossedLine, Side, Thousand;
    CrossedBetweenEndsIff(SHIPPED, Thousand(), Point(x, y), Point(x, y - 20.0));
    SideOfRise(a, x, y);
    SideOfRise(b, x, y);
  }

  lemma RisingCrosses(x: real, y: real)
    requires 0.0 < 300.0 * (y - 506.0) + 150.0 * (x - 169.0) < 6000.0
    ensures CrossedLine(SHIPPED, Thousand(), Point(x, y), Point(x, y - 20.0))
  {
    assert Thousand().line == (Point(169.0, 506.0), Point(469.0, 356.0));
  }

  /** The step of the first bag meets the drawn line, that of the second does not. */
  lemma OneBeyondTheEnds(env: Env)
    requires env.settings == SHIPPED && env.geometry == Thousand()
    ensures var (a, b) := env.geometry.line;
            var f: seq<seq<Detection>> := TwoRising().frames;
            && Meets(f[0][0].Center(), f[1][0].Center(), a, b)
            && CrossedLine(SHIPPED, env.geometry, f[0][1].Center(), f[1][1].Center())
            && !Meets(f[0][1].Center(), f[1][1].Center(), a, b)
  {
    TwoRisingCenters();
    hide Meets, CrossedLine, TwoRising;
    RisingCrosses(319.0, 441.0);
    RisingCrosses(560.0, 320.0);
    RisingMeets(319.0, 441.0);
    RisingMeets(560.0, 320.0);
  }

  lemma TwoRisingCenters()
    ensures |TwoRising().frames| == 2 && |TwoRising().frames[0]| == 2 == |TwoRising().frames[1]|
    ensures TwoRising().frames[0][0].Center() == Point(319.0, 441.0)
    ensures TwoRising().frames[1][0].Center() == Point(319.0, 421.0)
    ensures TwoRising().frames[0][1].Center() == Point(560.0, 320.0)
    ensures TwoRising().frames[1][1].Center() == Point(560.0, 300.0)
  {
  }

  lemma TwoBagsInFrame()
    ensures forall f, j | 0 <= f < 2 && 0 <= j < 2 :: InFrame(Thousand(), TwoRising().frames[f][j].bbox)
  {
  }

  function OverTheLine(): World { LaneWorld([Rising(319.0, 451.0)], 0.9, 3) }

  /** One bag, three frames, all inside the picture: before the line, on it and behind it. It is not counted. */
  lemma OnTheLineIsMissed(env: Env)
    requires env.settings == SHIPPED && env.geometry == Thousand()
    ensures LineInside(env.geometry)
    ensures forall f | 0 <= f < 3 :: InFrame(env.geometry, OverTheLine().frames[f][0].bbox)
    ensures Height(SHIPPED, env.geometry, OverTheLine().frames[0][0].Center()) > 0.0
    ensures Height(SHIPPED, env.geometry, OverTheLine().frames[2][0].Center()) < 0.0
    ensures Run(env, OverTheLine().frames).count == 0
  {
    LineInFrame();
    OverTheLineFrames();
    hide Run, LineInside, Height, Iou, Rising, BagAt, BagHeight, OverTheLine, LaneCountable;
    var a := Rising(319.0, 451.0);
    RisingInLanes(319.0, 451.0, 560.0, 320.0);
    LaneCount(env, [a], 0.9, 3);
    NotCountableOnLine();
    assert (set i: nat | i < 1 && LaneCountable(SHIPPED, Thousand(), [a][i], 3)) == {};
    assert OverTheLine() == LaneWorld([a], 0.9, 3) by { OverTheLineIs(); }
  }

  lemma OverTheLineIs()
    ensures OverTheLine() == LaneWorld([Rising(319.0, 451.0)], 0.9, 3)
  {
  }

  lemma NotCountableOnLine()
    ensures !LaneCountable(SHIPPED, Thousand(), Rising(319.0, 451.0), 3)
  {
    hide BagHeight, Rising;
    RisingHeight(319.0, 451.0, 1);
  }

  lemma OverTheLineFrames()
    ensures forall f | 0 <= f < 3 :: InFrame(Thousand(), OverTheLine().frames[f][0].bbox)
    ensures Height(SHIPPED, Thousand(), OverTheLine().frames[0][0].Center()) > 0.0
    ensures Height(SHIPPED, Thousand(), OverTheLine().frames[2][0].Center()) < 0.0
  {
    var a := Rising(319.0, 451.0);
    assert forall f | 0 <= f < 3 :: OverTheLine().frames[f][0].bbox == BagAt(a, f);
    assert InFrame(Thousand(), BagAt(a, 0)) && InFrame(Thousand(), BagAt(a, 1)) && InFrame(Thousand(), BagAt(a, 2));
    hide Height, Rising;
    RisingHeight(319.0, 451.0, 0);
    RisingHeight(319.0, 451.0, 2);
  }
}
