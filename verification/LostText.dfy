/** The text of a lost-track record says that the track disappeared without being counted. The record is made while the
    track is still listed, so it can be matched again and counted: exactly when does no run do that? */
module LostText {
  import opened Seqs
  import opened Geometry
  import opened Assignment
  import opened Scene
  import opened Tracking
  import opened Counting
  import opened Monitoring
  import opened Pipeline
  import opened Identity
  import opened ExactCount
  import opened CountTheorems
  import opened Leftovers
  import opened LostTracks
  import opened ParkedRuns
  import opened Direction
  import opened ResolutionLogs

  /** The id was reported as lost before frame `n`, was not counted then, and was counted later. */
  ghost predicate LostThenCounted(env: Env, frames: seq<seq<Detection>>, n: nat, id: nat) {
    && n <= |frames|
    && id in Run(env, frames[..n]).monitor.reported
    && !Reported(Run(env, frames[..n]).events, id)
    && Reported(Run(env, frames).events, id)
  }

  // ----- when nothing is ever counted -----

  ghost predicate NoneCounted(ts: seq<Trajectory>) { forall i | 0 <= i < |ts| :: !ts[i].counted }

  /** The track that an event names is counted. */
  lemma NamedIsCounted(env: Env, frames: seq<seq<Detection>>) returns (t: Trajectory)
    requires Run(env, frames).events != []
    ensures (t in Run(env, frames).tracker.tracks || t in Run(env, frames).retired) && t.counted
  {
    hide Run;
    var s := Run(env, frames);
    ExactlyOnce(env, frames);
    var id := s.events[0].trackId;
    assert Reported(s.events, id);
    EveryIdHasATrack(env, frames, id);
    t :| (t in s.tracker.tracks || t in s.retired) && t.id == id;
    var all := if t in s.tracker.tracks then s.tracker.tracks else s.retired;
    var i :| 0 <= i < |all| && all[i] == t;
  }

  /** A run without counted tracks has no events. */
  lemma NoEventsWithoutCount(env: Env, frames: seq<seq<Detection>>)
    requires NoneCounted(Run(env, frames).tracker.tracks) && NoneCounted(Run(env, frames).retired)
    ensures Run(env, frames).events == []
  {
    hide Run;
    if Run(env, frames).events != [] {
      var t := NamedIsCounted(env, frames);
      assert false;
    }
  }

  lemma UncountedUnlessCrossed(env: Env, frames: seq<seq<Detection>>)
    requires forall i | 0 <= i < |Run(env, frames).tracker.tracks| ::
               !HasCrossed(env.settings, env.geometry, Run(env, frames).tracker.tracks[i].sightings)
    requires forall i | 0 <= i < |Run(env, frames).retired| ::
               !HasCrossed(env.settings, env.geometry, Run(env, frames).retired[i].sightings)
    ensures Run(env, frames).events == []
  {
    hide Run, HasCrossed;
    CountedIffCrossed(env, frames);
    NoEventsWithoutCount(env, frames);
  }

  /** Over a line that is a point nothing crosses. */
  lemma PointLineCountsNothing(env: Env, frames: seq<seq<Detection>>)
    requires env.geometry.line.0 == env.geometry.line.1
    ensures Run(env, frames).events == []
  {
    hide Run;
    forall s: seq<Detection>
      ensures !HasCrossed(env.settings, env.geometry, s)
    {
      NothingCrossesPoint(env.settings, env.geometry, s);
    }
    UncountedUnlessCrossed(env, frames);
  }

  lemma NothingCrossesPoint(settings: Settings, g: SceneGeometry, s: seq<Detection>)
    requires g.line.0 == g.line.1
    ensures !HasCrossed(settings, g, s)
  {
    hide Side;
    forall k: nat
      ensures !CrossesAt(settings, g, s, k)
    {
      if 1 <= k < |s| {
        PointLineHasNoSides(g.line.0, s[k].Center());
        PointLineHasNoSides(g.line.0, s[k - 1].Center());
      }
    }
  }

  // ----- when a match needs full overlap -----

  /** Every sighting has the box where the track is, and the track does not move. */
  ghost predicate Still(t: Trajectory) {
    t.velocity == ORIGIN && forall k | 0 <= k < |t.sightings| :: t.sightings[k].bbox == t.bbox
  }

  ghost predicate AllStill(ts: seq<Trajectory>) { forall i | 0 <= i < |ts| :: Still(ts[i]) }

  lemma FullMatchOnly(settings: Settings, solve: Solver, tracks: seq<Trajectory>, dets: seq<Detection>, i: nat)
    requires settings.trackerIouThreshold >= 1.0 && i in Matching(settings, solve, tracks, dets)
    ensures var j := Matching(settings, solve, tracks, dets)[i];
            i < |tracks| && j < |dets| && dets[j].bbox == tracks[i].Predicted()
  {
    hide Iou, Gated;
    var j := Matching(settings, solve, tracks, dets)[i];
    assert IsOptimal(CostMatrix(tracks, dets), |tracks|, |dets|, solve(CostMatrix(tracks, dets)));
    CostAt(tracks, dets, i, j);
    IouRange(tracks[i].Predicted(), dets[j].bbox);
    IouOneIff(tracks[i].Predicted(), dets[j].bbox);
  }

  lemma StillCarried(t: Trajectory, d: Detection)
    requires Still(t)
    ensures Still(t.Aged().Missed())
    ensures d.bbox == t.Predicted() ==> Still(t.Aged().Seen(d))
  {
  }

  lemma StillBorn(id: nat, d: Detection)
    ensures Still(Born(id, d))
  {
  }

  lemma AdvancedStill(settings: Settings, solve: Solver, st: TrackerState, dets: seq<Detection>)
    requires settings.trackerIouThreshold >= 1.0 && AllStill(st.tracks)
    ensures AllStill(Advanced(settings, solve, st, dets))
  {
    hide Matching, Spare, Still;
    var all := Advanced(settings, solve, st, dets);
    var kept, spare := Matching(settings, solve, st.tracks, dets), Spare(settings, solve, st.tracks, dets);
    forall i | 0 <= i < |all|
      ensures Still(all[i])
    {
      if i < |st.tracks| {
        if i in kept {
          FullMatchOnly(settings, solve, st.tracks, dets, i);
          StillCarried(st.tracks[i], dets[kept[i]]);
        } else {
          StillCarried(st.tracks[i], Detection(st.tracks[i].bbox, 0.0));
        }
      } else {
        StillBorn(st.nextId + (i - |st.tracks|), dets[spare[i - |st.tracks|]]);
      }
    }
  }

  lemma StillFilter(p: Trajectory -> bool, ts: seq<Trajectory>)
    requires AllStill(ts)
    ensures AllStill(Filter(p, ts))
  {
    hide Still, Filter;
    var r := Filter(p, ts);
    forall i | 0 <= i < |r|
      ensures Still(r[i])
    {
      assert r[i] in r;
    }
  }

  lemma StillMarked(settings: Settings, g: SceneGeometry, ts: seq<Trajectory>)
    requires AllStill(ts)
    ensures AllStill(MarkAll(settings, g, ts))
  {
    hide ToCount;
  }

  lemma {:induction false} AlwaysStill(env: Env, frames: seq<seq<Detection>>)
    requires env.settings.trackerIouThreshold >= 1.0
    ensures AllStill(Run(env, frames).tracker.tracks) && AllStill(Run(env, frames).retired)
  {
    hide FrameStep, AllStill;
    if frames == [] {
      NobodyMoves();
    } else {
      var n := |frames| - 1;
      AlwaysStill(env, frames[..n]);
      StillStep(env, Run(env, frames[..n]), n, frames[n]);
    }
  }

  lemma NobodyMoves()
    ensures AllStill([])
  {
  }

  lemma StillStep(env: Env, s: RunState, frame: nat, dets: seq<Detection>)
    requires env.settings.trackerIouThreshold >= 1.0 && AllStill(s.tracker.tracks) && AllStill(s.retired)
    ensures var t := FrameStep(env, s, frame, dets); AllStill(t.tracker.tracks) && AllStill(t.retired)
  {
    hide Still, Advanced, Filter, MarkAll, Crossings, ObserveFrame, ObserveCrossings;
    var all := Advanced(env.settings, env.solve, s.tracker, dets);
    AdvancedStill(env.settings, env.solve, s.tracker, dets);
    StillFilter(StillAlive(env.settings), all);
    StillFilter(Expired(env.settings), all);
    StillMarked(env.settings, env.geometry, Filter(StillAlive(env.settings), all));
  }

  lemma StillNotCrossed(settings: Settings, g: SceneGeometry, t: Trajectory)
    requires Still(t)
    ensures !HasCrossed(settings, g, t.sightings)
  {
    forall k: nat
      ensures !CrossesAt(settings, g, t.sightings, k)
    {
      if 1 <= k < |t.sightings| {
        assert t.sightings[k - 1].bbox == t.sightings[k].bbox;
        CrossedLineMeaning(settings, g, t.sightings[k - 1].Center(), t.sightings[k].Center());
      }
    }
  }

  /** From threshold 1 on nothing that moves is matched, so nothing is counted. */
  lemma FullThresholdCountsNothing(env: Env, frames: seq<seq<Detection>>)
    requires env.settings.trackerIouThreshold >= 1.0
    ensures Run(env, frames).events == []
  {
    hide Run, Still, HasCrossed;
    AlwaysStill(env, frames);
    forall t: Trajectory | Still(t)
      ensures !HasCrossed(env.settings, env.geometry, t.sightings)
    {
      StillNotCrossed(env.settings, env.geometry, t);
    }
    UncountedUnlessCrossed(env, frames);
  }

  // ----- a box that waits near the line and then steps over it -----

  function SquareAt(c: Point, size: real): Box {
    Box(c.x - size / 2.0, c.y - size / 2.0, c.x + size / 2.0, c.y + size / 2.0)
  }

  function Size(x: real): real { if x >= 0.0 then x else -x }

  lemma SquareCommon(c: real, e: real, size: real)
    requires size > 0.0 && Size(e - c) <= size
    ensures Common(c - size / 2.0, c + size / 2.0, e - size / 2.0, e + size / 2.0) == size - Size(e - c)
  {
  }

  /** Two squares whose centers differ by at most `shift` in both axes together. */
  lemma SquareOverlap(c: Point, e: Point, size: real, shift: real)
    requires size > 0.0 && shift == Size(e.x - c.x) + Size(e.y - c.y) && shift < size
    ensures Inter(SquareAt(c, size), SquareAt(e, size)) >= size * size - size * shift
    ensures SquareAt(c, size).Area() == size * size == SquareAt(e, size).Area()
  {
    hide Common;
    var u, v := Size(e.x - c.x), Size(e.y - c.y);
    SquareCommon(c.x, e.x, size);
    SquareCommon(c.y, e.y, size);
    assert SquareAt(c, size).x2 - SquareAt(c, size).x1 == size && SquareAt(c, size).y2 - SquareAt(c, size).y1 == size;
    assert SquareAt(e, size).x2 - SquareAt(e, size).x1 == size && SquareAt(e, size).y2 - SquareAt(e, size).y1 == size;
    assert (size - u) * (size - v) == size * size - size * (u + v) + u * v;
    assert u * v >= 0.0;
  }

  lemma RatioAtLeast(i: real, area: real, t: real)
    requires 0.0 < i <= area && i >= t * (area + area - i)
    ensures area + area - i > 0.0 && i / (area + area - i) >= t
  {
    var u := area + area - i;
    var q := i / u;
    assert q * u == i;
    if q < t {
      assert q * u < t * u;
    }
  }

  /** Squares large enough for a given threshold below 1. */
  lemma LargeEnough(c: Point, e: Point, t: real) returns (size: real)
    requires t < 1.0
    ensures size > 0.0 && SquareAt(c, size).Solid() && Iou(SquareAt(c, size), SquareAt(e, size)) >= t
  {
    var shift := Size(e.x - c.x) + Size(e.y - c.y);
    var low := if t > 0.0 then t else 0.0;
    size := SizeFor(shift, low);
    SquareOverlap(c, e, size, shift);
    OverlapEnough(SquareAt(c, size), SquareAt(e, size), size, shift, low);
  }

  lemma SizeFor(shift: real, t: real) returns (size: real)
    requires 0.0 <= t < 1.0 && shift >= 0.0
    ensures size > 0.0 && shift < size && size * (1.0 - t) >= shift * (1.0 + t)
  {
    var share := 1.0 - t;
    size := (2.0 * shift + 1.0) / share;
    assert size * share == 2.0 * shift + 1.0;
    if size <= 0.0 {
      ProductSign(-size, share, -size * share);
    } else {
      ProductSign(size, t, size * t);
    }
    ProductSign(shift, share, shift * share);
    assert shift * (1.0 + t) == 2.0 * shift - shift * share;
  }

  lemma OverlapEnough(a: Box, b: Box, size: real, shift: real, t: real)
    requires 0.0 <= t < 1.0 && 0.0 <= shift < size && size * (1.0 - t) >= shift * (1.0 + t)
    requires a.Area() == size * size == b.Area() && Inter(a, b) >= size * size - size * shift
    ensures Iou(a, b) >= t
  {
    hide Inter, Box.Area;
    InterBounds(a, b);
    var i, area := Inter(a, b), size * size;
    PositiveProduct(size, size - shift, size * (size - shift));
    assert size * (size - shift) == area - size * shift;
    EnoughShare(i, area, size, shift, t);
    RatioAtLeast(i, area, t);
  }

  lemma EnoughShare(i: real, area: real, size: real, shift: real, t: real)
    requires 0.0 <= t < 1.0 && 0.0 <= shift < size && size * (1.0 - t) >= shift * (1.0 + t)
    requires area == size * size && i >= area - size * shift
    ensures i >= t * (area + area - i)
  {
    var k := size * (1.0 - t) - shift * (1.0 + t);
    assert size * k >= 0.0;
    assert size * k == area - t * area - size * shift - t * (size * shift);
    assert t * i >= t * (area - size * shift);
  }

  /** Two boxes close to the line, one on either side of it. */
  lemma StepOver(settings: Settings, g: SceneGeometry) returns (d: Detection, d': Detection)
    requires settings.trackerIouThreshold < 1.0 && g.line.0 != g.line.1 && Reach(g) > 0.0
    ensures d.bbox.Solid() && NearLine(g, d.Center()) && Iou(d.bbox, d'.bbox) >= settings.trackerIouThreshold
    ensures CrossedLine(settings, g, d.Center(), d'.Center())
  {
    hide Iou, NearLine, Reach, CrossedLine, SquareAt, Box.Center, NormSq;
    var (a, b) := g.line;
    NonDegenerate(b.Minus(a));
    var k := Reach(g) / (NormSq(b.Minus(a)) + 1.0);
    assert k * (NormSq(b.Minus(a)) + 1.0) == Reach(g);
    var up := if settings.countDirection == "forward" then k else -k;
    var c, e := Beside(a, b, up), Beside(a, b, -up);
    var size := LargeEnough(c, e, settings.trackerIouThreshold);
    d, d' := Detection(SquareAt(c, size), 0.9), Detection(SquareAt(e, size), 0.9);
    SquareCenter(c, size);
    SquareCenter(e, size);
    BesideCrosses(settings, g, k);
    BesideIsNear(g, k, up);
  }

  lemma SquareCenter(c: Point, size: real)
    ensures SquareAt(c, size).Center() == c
  {
  }

  lemma BesideCrosses(settings: Settings, g: SceneGeometry, k: real)
    requires k > 0.0 && g.line.0 != g.line.1
    ensures var up := if settings.countDirection == "forward" then k else -k;
            CrossedLine(settings, g, Beside(g.line.0, g.line.1, up), Beside(g.line.0, g.line.1, -up))
  {
    hide Side, Beside, NormSq;
    var (a, b) := g.line;
    var n := NormSq(b.Minus(a));
    NonDegenerate(b.Minus(a));
    BesideSide(a, b, k);
    BesideSide(a, b, -k);
    PositiveProduct(k, n, k * n);
    assert -k * n == -(k * n);
  }

  /** The point is no further from the segment than from its first end point. */
  lemma BesideIsNear(g: SceneGeometry, k: real, up: real)
    requires k > 0.0 && (up == k || up == -k)
    requires k * (NormSq(g.line.1.Minus(g.line.0)) + 1.0) == Reach(g)
    ensures NearLine(g, Beside(g.line.0, g.line.1, up))
  {
    hide SegmentDistanceSq, NormSq, Reach, NearLine, Beside, Sq, DistanceSq, Along, ClampedParameter;
    var (a, b) := g.line;
    var p, n := Beside(a, b, up), NormSq(b.Minus(a));
    EndPoints(a, b);
    SegmentDistanceIsMinimum(p, a, b);
    assert SegmentDistanceSq(p, a, b) <= DistanceSq(p, Along(a, b, 0.0));
    BesideDistance(a, b, up);
    SqOfNegative(k);
    NormNonNegative(b.Minus(a));
    SmallerThanReach(k, n, Reach(g));
    WithinReach(g, p);
  }

  lemma WithinReach(g: SceneGeometry, p: Point)
    requires Reach(g) > 0.0 && SegmentDistanceSq(p, g.line.0, g.line.1) < Sq(Reach(g))
    ensures NearLine(g, p)
  {
    hide SegmentDistanceSq;
  }

  lemma NormNonNegative(p: Point)
    ensures NormSq(p) >= 0.0
  {
    SqSign(p.x);
    SqSign(p.y);
  }

  lemma BesideDistance(a: Point, b: Point, k: real)
    ensures DistanceSq(Beside(a, b, k), a) == Sq(k) * NormSq(b.Minus(a))
  {
    var dx, dy := b.x - a.x, b.y - a.y;
    assert Sq(k * dx) == Sq(k) * Sq(dx) && Sq(k * dy) == Sq(k) * Sq(dy);
    assert Sq(-(k * dy)) == Sq(k * dy);
    Distribute(Sq(k), Sq(dx), Sq(dy), NormSq(b.Minus(a)));
  }

  lemma SmallerThanReach(k: real, n: real, r: real)
    requires k > 0.0 && n >= 0.0 && k * (n + 1.0) == r
    ensures r > 0.0 && Sq(k) * n < Sq(r)
  {
    PositiveProduct(k, n + 1.0, r);
    assert Sq(r) == Sq(k) * Sq(n + 1.0);
    assert Sq(n + 1.0) == Sq(n) + 2.0 * n + 1.0;
    SqSign(n);
    SqSign(k);
    assert Sq(k) * Sq(n + 1.0) - Sq(k) * n == Sq(k) * (Sq(n) + n + 1.0);
    PositiveProduct(Sq(k), Sq(n) + n + 1.0, Sq(k) * (Sq(n) + n + 1.0));
  }

  // ----- the run -----

  lemma SteppedCounted(settings: Settings, g: SceneGeometry, s: seq<Detection>, d: Detection, d': Detection)
    requires |s| >= Required(settings) && (forall k | 0 <= k < |s| :: s[k] == d)
    requires CrossedLine(settings, g, d.Center(), d'.Center())
    ensures HasCrossed(settings, g, s + [d'])
  {
    hide CrossedLine;
    assert CrossesAt(settings, g, s + [d'], |s|);
  }

  /** The box waits near the line as long as the tracker allows, is reported as lost, and steps over the line. */
  lemma LostAndCounted(env: Env, d: Detection, d': Detection)
    requires d.bbox.Solid() && NearLine(env.geometry, d.Center())
    requires Iou(d.bbox, d'.bbox) >= env.settings.trackerIouThreshold && env.settings.trackerIouThreshold <= 1.0
    requires CrossedLine(env.settings, env.geometry, d.Center(), d'.Center())
    ensures var wait := WaitFrames(d, Required(env.settings), env.settings.trackerMaxAge);
            LostThenCounted(env, wait + [[d']], |wait|, 1)
  {
    hide Run, FrameStep, NearLine, CrossedLine, Iou, WaitFrames, HasCrossed, Reported;
    var r, age := Required(env.settings), env.settings.trackerMaxAge;
    var wait := WaitFrames(d, r, age);
    var frames, n := wait + [[d']], |wait|;
    assert frames[..n] == wait && frames[..n + 1] == frames;
    WaitingUncounted(env, d, r, age);
    WaitingIsLost(env, d);
    ExactlyOnce(env, wait);
    var s := Run(env, wait);
    var t := s.tracker.tracks[0];
    assert s.tracker.tracks == [t] && t.Predicted() == d.bbox;
    RunStep(env, frames, n);
    OneSeen(env, s, n, t, d');
    ExactlyOnce(env, frames);
    CountedIffCrossed(env, frames);
    var u := Run(env, frames).tracker.tracks[0];
    MarkedSame(env.settings, env.geometry, t, d');
    SteppedCounted(env.settings, env.geometry, t.sightings, d, d');
    assert Fair(env.settings, env.geometry, u);
  }

  lemma MarkedSame(settings: Settings, g: SceneGeometry, t: Trajectory, d: Detection)
    ensures var u := Marked(settings, g, t.Aged().Seen(d)); u.id == t.id && u.sightings == t.sightings + [d]
  {
  }

  // ----- exactly when -----

  /** No run counts a track that it reported as lost, exactly when nothing is ever counted (the threshold asks for full
      overlap or the line is a point) or nothing is ever reported (the picture is empty). */
  lemma LostTextIff(env: Env)
    ensures (forall frames: seq<seq<Detection>>, n: nat, id: nat :: !LostThenCounted(env, frames, n, id))
       <==> env.settings.trackerIouThreshold >= 1.0 || env.geometry.line.0 == env.geometry.line.1 || Reach(env.geometry) <= 0.0
  {
    hide LostThenCounted, Reach;
    if env.settings.trackerIouThreshold >= 1.0 || env.geometry.line.0 == env.geometry.line.1 || Reach(env.geometry) <= 0.0 {
      forall frames: seq<seq<Detection>>, n: nat, id: nat
        ensures !LostThenCounted(env, frames, n, id)
      {
        NotLostThenCounted(env, frames, n, id);
      }
    } else {
      var d, d' := StepOver(env.settings, env.geometry);
      LostAndCounted(env, d, d');
    }
  }

  lemma NotLostThenCounted(env: Env, frames: seq<seq<Detection>>, n: nat, id: nat)
    requires env.settings.trackerIouThreshold >= 1.0 || env.geometry.line.0 == env.geometry.line.1 || Reach(env.geometry) <= 0.0
    ensures !LostThenCounted(env, frames, n, id)
  {
    hide Run, Reach;
    if env.settings.trackerIouThreshold >= 1.0 {
      FullThresholdCountsNothing(env, frames);
    } else if env.geometry.line.0 == env.geometry.line.1 {
      PointLineCountsNothing(env, frames);
    } else if n <= |frames| {
      NeverLost(env, frames[..n]);
      ReportedOnce(env, frames[..n]);
    }
  }
}
