/** Rigid bags at constant velocity: videos with their ground truth, what makes them followable, and how one track
    follows one bag. */
module Bags {
  import opened Seqs
  import opened Geometry
  import opened Assignment
  import opened Scene
  import opened Tracking
  import opened Leftovers

  // ----- matching when overlaps are isolated -----

  predicate Overlapping(t: Trajectory, d: Detection) { Iou(t.Predicted(), d.bbox) > 0.0 }

  /** Every track overlaps at most one detection and every detection at most one track. */
  ghost predicate Isolated(tracks: seq<Trajectory>, dets: seq<Detection>) {
    && (forall i, j, j' | 0 <= i < |tracks| && 0 <= j < |dets| && 0 <= j' < |dets| &&
          Overlapping(tracks[i], dets[j]) && Overlapping(tracks[i], dets[j']) :: j == j')
    && (forall i, i', j | 0 <= i < |tracks| && 0 <= i' < |tracks| && 0 <= j < |dets| &&
          Overlapping(tracks[i], dets[j]) && Overlapping(tracks[i'], dets[j]) :: i == i')
  }

  /** Then a cheapest assignment, gated afterwards, matches exactly the pairs at or above the threshold. */
  lemma IsolatedMatching(settings: Settings, solve: Solver, tracks: seq<Trajectory>, dets: seq<Detection>, i: nat, j: nat)
    requires i < |tracks| && j < |dets| && settings.trackerIouThreshold > 0.0 && Isolated(tracks, dets)
    ensures var kept := Matching(settings, solve, tracks, dets);
            i in kept && kept[i] == j <==> Iou(tracks[i].Predicted(), dets[j].bbox) >= settings.trackerIouThreshold
  {
    hide Iou, Gated, CostMatrix;
    var cost := CostMatrix(tracks, dets);
    var n, m := |tracks|, |dets|;
    assert IsOptimal(cost, n, m, solve(cost));
    CostAt(tracks, dets, i, j);
    if Iou(tracks[i].Predicted(), dets[j].bbox) >= settings.trackerIouThreshold {
      CostRange(tracks, dets, cost);
      forall j' | 0 <= j' < m && j' != j
        ensures cost[i][j'] == 1.0
      {
        CostAt(tracks, dets, i, j');
        IouRange(tracks[i].Predicted(), dets[j'].bbox);
        assert !Overlapping(tracks[i], dets[j']);
      }
      forall i' | 0 <= i' < n && i' != i
        ensures cost[i'][j] == 1.0
      {
        CostAt(tracks, dets, i', j);
        IouRange(tracks[i'].Predicted(), dets[j].bbox);
        assert !Overlapping(tracks[i'], dets[j]);
      }
      IsolatedCellChosen(cost, n, m, solve(cost), Cell(i, j), 1.0);
      var k :| 0 <= k < |solve(cost)| && solve(cost)[k] == Cell(i, j);
      GateKeeps(cost, n, m, 1.0 - settings.trackerIouThreshold, solve(cost), k);
    }
  }

  // ----- bags -----

  /** A rigid box at constant velocity that first shows up in frame `first`. */
  datatype Bag = Bag(box: Box, velocity: Point, first: nat)

  function BagAt(b: Bag, f: int): Box { b.box.Shift(b.velocity.Times((f - b.first) as real)) }

  /** A video with its ground truth: `labels[f][j]` is the bag that detection `j` of frame `f` shows. */
  datatype World = World(bags: seq<Bag>, labels: seq<seq<nat>>, frames: seq<seq<Detection>>)

  ghost predicate FrameConsistent(w: World, f: nat)
    requires f < |w.frames| && |w.labels| == |w.frames|
  {
    && |w.labels[f]| == |w.frames[f]| && Distinct(w.labels[f])
    && forall j | 0 <= j < |w.labels[f]| ::
         && w.labels[f][j] < |w.bags|
         && w.bags[w.labels[f][j]].first <= f
         && w.frames[f][j].bbox == BagAt(w.bags[w.labels[f][j]], f)
  }

  /** The detections of every frame show different bags, each where it is; a bag shows in its first two frames. */
  ghost predicate Consistent(w: World) {
    && |w.labels| == |w.frames|
    && (forall f: nat | f < |w.frames| :: FrameConsistent(w, f))
    && (forall b: nat | b < |w.bags| && w.bags[b].first < |w.frames| :: b in w.labels[w.bags[b].first])
    && (forall b: nat | b < |w.bags| && w.bags[b].first + 1 < |w.frames| :: b in w.labels[w.bags[b].first + 1])
  }

  /** After `n` frames: how many frames ago bag `b` was last seen. */
  function Gap(w: World, b: nat, n: nat): nat
    requires n <= |w.labels|
  {
    if n == 0 || b in w.labels[n - 1] then 0 else Gap(w, b, n - 1) + 1
  }

  /** Where a track of the bag is expected in frame `f`: a track has no velocity before its second match. */
  function ExpectedAt(b: Bag, f: nat): Box { if f == b.first + 1 then b.box else BagAt(b, f) }

  /** The motion is slow and the bags far apart enough to be followed: a bag overlaps itself by the threshold from its
      first frame to its second, is never missed for more than the maximal age between sightings, and is not
      expected over another bag's detection while it is tracked. */
  ghost predicate Followable(settings: Settings, w: World)
    requires Consistent(w)
  {
    && 0.0 < settings.trackerIouThreshold <= 1.0
    && (forall b: nat | b < |w.bags| ::
          Iou(w.bags[b].box, BagAt(w.bags[b], w.bags[b].first + 1)) >= settings.trackerIouThreshold)
    && (forall b: nat, f: nat | b < |w.bags| && w.bags[b].first < f < |w.frames| && b in w.labels[f] ::
          Gap(w, b, f) <= settings.trackerMaxAge)
    && (forall b: nat, f: nat, j: nat | b < |w.bags| && w.bags[b].first < f < |w.frames|
          && j < |w.labels[f]| && j < |w.frames[f]| && Gap(w, b, f) <= settings.trackerMaxAge && w.labels[f][j] != b ::
          Iou(ExpectedAt(w.bags[b], f), w.frames[f][j].bbox) == 0.0)
  }

  ghost function DetectionOf(w: World, b: nat, f: nat): Detection
    requires f < |w.frames| && Consistent(w) && b in w.labels[f]
  {
    assert FrameConsistent(w, f);
    var j :| 0 <= j < |w.labels[f]| && w.labels[f][j] == b;
    w.frames[f][j]
  }

  /** All detections of bag `b` in the first `n` frames. */
  ghost function SightingsOf(w: World, b: nat, n: nat): seq<Detection>
    requires n <= |w.frames| && Consistent(w)
  {
    if n == 0 then []
    else SightingsOf(w, b, n - 1) + if b in w.labels[n - 1] then [DetectionOf(w, b, n - 1)] else []
  }

  lemma DetectionAt(w: World, f: nat, j: nat)
    requires f < |w.frames| && Consistent(w) && j < |w.labels[f]|
    ensures FrameConsistent(w, f) && DetectionOf(w, w.labels[f][j], f) == w.frames[f][j]
  {
    assert FrameConsistent(w, f);
  }

  // ----- one track of one bag -----

  /** The track of bag `b` after `n` frames: all its detections, its true position, its true velocity. */
  ghost predicate Follows(w: World, b: nat, n: nat, t: Trajectory)
    requires n <= |w.frames| && Consistent(w) && b < |w.bags|
  {
    && w.bags[b].first < n
    && t.sightings == SightingsOf(w, b, n)
    && t.bbox == BagAt(w.bags[b], n - 1)
    && t.velocity == (if w.bags[b].first == n - 1 then ORIGIN else w.bags[b].velocity)
    && t.misses == Gap(w, b, n)
  }

  lemma NextPosition(x: real, v: real, k: int)
    ensures (x + k as real * v) + v == x + (k + 1) as real * v
  {
  }

  lemma OneStep(b: Bag, f: int)
    ensures BagAt(b, f).Shift(b.velocity) == BagAt(b, f + 1)
    ensures BagAt(b, b.first) == b.box
    ensures BagAt(b, f).Shift(ORIGIN) == BagAt(b, f)
  {
    NextPosition(b.box.x1, b.velocity.x, f - b.first);
    NextPosition(b.box.x2, b.velocity.x, f - b.first);
    NextPosition(b.box.y1, b.velocity.y, f - b.first);
    NextPosition(b.box.y2, b.velocity.y, f - b.first);
  }

  /** The prediction is exact from the second match on. */
  lemma PredictionExact(w: World, b: nat, n: nat, t: Trajectory)
    requires n <= |w.frames| && Consistent(w) && b < |w.bags| && Follows(w, b, n, t)
    ensures t.Predicted() == ExpectedAt(w.bags[b], n)
  {
    hide BagAt;
    OneStep(w.bags[b], n - 1);
  }

  lemma MeasuredVelocity(b: Bag, f: int)
    ensures BagAt(b, f + 1).Center().Minus(BagAt(b, f).Center()) == b.velocity
  {
    hide BagAt;
    OneStep(b, f);
    assert BagAt(b, f + 1) == BagAt(b, f).Shift(b.velocity);
  }

  lemma SeenFollows(w: World, b: nat, n: nat, t: Trajectory)
    requires n < |w.frames| && Consistent(w) && b < |w.bags| && Follows(w, b, n, t) && b in w.labels[n]
    ensures Follows(w, b, n + 1, t.Aged().Seen(DetectionOf(w, b, n)))
  {
    hide BagAt;
    var j :| 0 <= j < |w.labels[n]| && w.labels[n][j] == b;
    DetectionAt(w, n, j);
    MeasuredVelocity(w.bags[b], n - 1);
  }

  lemma MissedFollows(w: World, b: nat, n: nat, t: Trajectory)
    requires n < |w.frames| && Consistent(w) && b < |w.bags| && Follows(w, b, n, t) && b !in w.labels[n]
    ensures Follows(w, b, n + 1, t.Aged().Missed())
  {
    hide BagAt;
    OneStep(w.bags[b], n - 1);
  }

  lemma {:induction false} NotSeenBefore(w: World, b: nat, n: nat)
    requires n <= |w.frames| && Consistent(w) && b < |w.bags| && n <= w.bags[b].first
    ensures SightingsOf(w, b, n) == []
  {
    if n == 0 {
    } else {
      NotSeenBefore(w, b, n - 1);
      assert FrameConsistent(w, n - 1);
    }
  }

  lemma BornFollows(w: World, b: nat, n: nat, id: nat)
    requires n < |w.frames| && Consistent(w) && b < |w.bags| && b in w.labels[n] && w.bags[b].first == n
    ensures Follows(w, b, n + 1, Born(id, DetectionOf(w, b, n)))
  {
    hide BagAt;
    var j :| 0 <= j < |w.labels[n]| && w.labels[n][j] == b;
    DetectionAt(w, n, j);
    NotSeenBefore(w, b, n);
  }

  /** The boxes of a bag are solid, so a bag fully overlaps itself. */
  lemma SelfOverlap(settings: Settings, w: World, b: nat, f: int)
    requires Consistent(w) && Followable(settings, w) && b < |w.bags|
    ensures Iou(BagAt(w.bags[b], f), BagAt(w.bags[b], f)) == 1.0
  {
    hide Iou;
    var bag := w.bags[b];
    IouRange(bag.box, BagAt(bag, bag.first + 1));
    SolidShift(bag.box, bag.velocity.Times((f - bag.first) as real));
    IouOneIff(BagAt(bag, f), BagAt(bag, f));
  }

  lemma SolidShift(b: Box, v: Point)
    requires b.Solid()
    ensures b.Shift(v).Solid()
  {
  }

  /** Overlap of a followed track with the detections of the next frame: at least the threshold with its own bag's,
      none with another bag's. */
  lemma OverlapByBag(settings: Settings, w: World, b: nat, n: nat, t: Trajectory, j: nat)
    requires n < |w.frames| && Consistent(w) && Followable(settings, w) && b < |w.bags| && j < |w.labels[n]|
    requires Follows(w, b, n, t) && t.misses <= settings.trackerMaxAge
    ensures FrameConsistent(w, n)
    ensures w.labels[n][j] == b ==> Iou(t.Predicted(), w.frames[n][j].bbox) >= settings.trackerIouThreshold
    ensures w.labels[n][j] != b ==> Iou(t.Predicted(), w.frames[n][j].bbox) == 0.0
  {
    hide Iou, BagAt, SightingsOf;
    assert FrameConsistent(w, n);
    PredictionExact(w, b, n, t);
    if w.labels[n][j] == b {
      SelfOverlap(settings, w, b, n);
    }
  }
}
