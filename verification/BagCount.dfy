/** The final count over followable bags is the number of bags that went from upstream to downstream. */
module BagCount {
  import opened Seqs
  import opened Geometry
  import opened Scene
  import opened Tracking
  import opened Counting
  import opened Pipeline
  import opened Identity
  import opened ExactCount
  import opened CountTheorems
  import opened Bags
  import opened BagRun

  // ----- a straight path crosses a line at most once -----

  /** Rate at which a point moving with velocity `v` climbs over the line a->b. */
  function Climb(a: Point, b: Point, v: Point): real {
    (b.x - a.x) * v.y - (b.y - a.y) * v.x
  }

  lemma SideMoves(p: Point, q: Point, v: Point, t: real, a: Point, b: Point)
    requires q.x == p.x + t * v.x && q.y == p.y + t * v.y
    ensures Side(q, a, b) == Side(p, a, b) + t * Climb(a, b, v)
  {
    var dx, dy := b.x - a.x, b.y - a.y;
    MoveProduct(dx, p.y - a.y, q.y - a.y, t, v.y);
    MoveProduct(dy, p.x - a.x, q.x - a.x, t, v.x);
    Distribute(t, dx * v.y, -(dy * v.x), Climb(a, b, v));
  }

  lemma MoveProduct(d: real, p: real, q: real, t: real, v: real)
    requires q == p + t * v
    ensures d * q == d * p + t * (d * v)
  {
  }

  /** Height of the bag's center over the counting line in frame `f`. */
  function BagHeight(settings: Settings, g: SceneGeometry, b: Bag, f: int): real {
    Height(settings, g, BagAt(b, f).Center())
  }

  function BagClimb(settings: Settings, g: SceneGeometry, b: Bag): real {
    var c := Climb(g.line.0, g.line.1, b.velocity);
    if settings.countDirection == "forward" then c else -c
  }

  lemma CenterMoves(b: Bag, f: int)
    ensures var p, q := b.box.Center(), BagAt(b, f).Center();
            var t := (f - b.first) as real;
            q.x == p.x + t * b.velocity.x && q.y == p.y + t * b.velocity.y
  {
  }

  lemma HeightIsLinear(settings: Settings, g: SceneGeometry, b: Bag, f: int)
    ensures BagHeight(settings, g, b, f)
         == Height(settings, g, b.box.Center()) + (f - b.first) as real * BagClimb(settings, g, b)
  {
    hide Side, Climb, BagAt, Box.Center;
    CenterMoves(b, f);
    SideMoves(b.box.Center(), BagAt(b, f).Center(), b.velocity, (f - b.first) as real, g.line.0, g.line.1);
  }

  lemma LinearOrder(h: real, c: real, d: int, e: int, x: real, y: real)
    requires d <= e && x == h + d as real * c && y == h + e as real * c
    ensures c <= 0.0 ==> x >= y
    ensures c >= 0.0 ==> x <= y
  {
    assert y - x == (e - d) as real * c;
  }

  /** A bag that is higher in one frame than in a later one never rises. */
  lemma HeightMonotone(settings: Settings, g: SceneGeometry, b: Bag, e: int, f: int, e': int, f': int)
    requires e <= f && e' <= f' && BagHeight(settings, g, b, e) > BagHeight(settings, g, b, f)
    ensures BagHeight(settings, g, b, e') >= BagHeight(settings, g, b, f')
  {
    hide BagHeight, BagClimb, Height;
    var h, c := Height(settings, g, b.box.Center()), BagClimb(settings, g, b);
    HeightIsLinear(settings, g, b, e);
    HeightIsLinear(settings, g, b, f);
    HeightIsLinear(settings, g, b, e');
    HeightIsLinear(settings, g, b, f');
    LinearOrder(h, c, e - b.first, f - b.first, BagHeight(settings, g, b, e), BagHeight(settings, g, b, f));
    LinearOrder(h, c, e' - b.first, f' - b.first, BagHeight(settings, g, b, e'), BagHeight(settings, g, b, f'));
  }

  // ----- the sightings of a bag -----

  /** The frames in which the bag was seen. */
  lemma {:induction false} SightingFrames(w: World, b: nat, n: nat) returns (at: seq<nat>)
    requires n <= |w.frames| && Consistent(w) && b < |w.bags|
    ensures |at| == |SightingsOf(w, b, n)| && Increasing(at)
    ensures forall i | 0 <= i < |at| :: at[i] < n && SightingsOf(w, b, n)[i].bbox == BagAt(w.bags[b], at[i])
  {
    if n == 0 {
      at := [];
    } else {
      var before := SightingFrames(w, b, n - 1);
      at := before;
      if b in w.labels[n - 1] {
        var j :| 0 <= j < |w.labels[n - 1]| && w.labels[n - 1][j] == b;
        DetectionAt(w, n - 1, j);
        at := before + [n - 1];
      }
    }
  }

  /** No sighting of the bag has its center exactly on the line. */
  ghost predicate OffLine(settings: Settings, g: SceneGeometry, w: World, b: nat, n: nat)
    requires n <= |w.frames| && Consistent(w)
  {
    var h := Heights(settings, g, SightingsOf(w, b, n));
    forall i | 0 <= i < |h| :: h[i] != 0.0
  }

  /** The bag was first seen upstream and last seen downstream. */
  ghost predicate Passes(settings: Settings, g: SceneGeometry, w: World, b: nat, n: nat)
    requires n <= |w.frames| && Consistent(w)
  {
    var h := Heights(settings, g, SightingsOf(w, b, n));
    |h| >= 1 && h[0] > 0.0 > h[|h| - 1]
  }

  /** The bag was still upstream in the sighting before the one that confirms its track. */
  ghost predicate InTime(settings: Settings, g: SceneGeometry, w: World, b: nat, n: nat)
    requires n <= |w.frames| && Consistent(w)
  {
    var h, m := Heights(settings, g, SightingsOf(w, b, n)), Required(settings);
    m <= |h| && h[m - 2] > 0.0
  }

  /** What it takes for a bag to be counted. */
  ghost predicate Countable(settings: Settings, g: SceneGeometry, w: World, b: nat, n: nat)
    requires n <= |w.frames| && Consistent(w)
  {
    Passes(settings, g, w, b, n) && OffLine(settings, g, w, b, n) && InTime(settings, g, w, b, n)
  }

  /** A crossing takes a bag down, so it never rises. */
  lemma CrossedGoesDown(settings: Settings, g: SceneGeometry, w: World, b: nat, n: nat)
    requires n <= |w.frames| && Consistent(w) && b < |w.bags|
    requires HasCrossed(settings, g, SightingsOf(w, b, n)) || Passes(settings, g, w, b, n)
    ensures NonIncreasing(Heights(settings, g, SightingsOf(w, b, n)))
    ensures Passes(settings, g, w, b, n)
  {
    hide Height, BagAt, SightingsOf, Consistent, CrossesAt, BagHeight;
    var s := SightingsOf(w, b, n);
    var h := Heights(settings, g, s);
    var at := SightingFrames(w, b, n);
    BagHeights(settings, g, w, b, n, at);
    var from, to := 0, |s| - 1;
    if !Passes(settings, g, w, b, n) {
      var k: nat :| CrossesAt(settings, g, s, k);
      StepInside(settings, g, s, k);
      CrossesAtHeight(settings, g, s, k);
      from, to := k - 1, k;
    }
    forall i, j | 0 <= i < j < |h|
      ensures h[i] >= h[j]
    {
      HeightMonotone(settings, g, w.bags[b], at[from], at[to], at[i], at[j]);
    }
  }

  /** For a bag the two agree: its sightings have a confirmed crossing iff it is countable. */
  lemma CrossedIffCountable(settings: Settings, g: SceneGeometry, w: World, b: nat, n: nat)
    requires n <= |w.frames| && Consistent(w) && b < |w.bags|
    ensures HasCrossed(settings, g, SightingsOf(w, b, n)) <==> Countable(settings, g, w, b, n)
  {
    hide HasCrossed, Height, SightingsOf, Consistent, NonIncreasing;
    if HasCrossed(settings, g, SightingsOf(w, b, n)) || Passes(settings, g, w, b, n) {
      CrossedGoesDown(settings, g, w, b, n);
      OneWayCrossedIff(settings, g, SightingsOf(w, b, n));
    }
  }

  lemma BagHeights(settings: Settings, g: SceneGeometry, w: World, b: nat, n: nat, at: seq<nat>)
    requires n <= |w.frames| && Consistent(w) && b < |w.bags|
    requires |at| == |SightingsOf(w, b, n)|
    requires forall i | 0 <= i < |at| :: SightingsOf(w, b, n)[i].bbox == BagAt(w.bags[b], at[i])
    ensures forall i | 0 <= i < |at| ::
              Heights(settings, g, SightingsOf(w, b, n))[i] == BagHeight(settings, g, w.bags[b], at[i])
  {
    hide SightingsOf, BagAt, Height, Consistent;
  }

  // ----- the count -----

  /** A bag that passes goes down in height: towards the negative side when the direction is "forward". */
  lemma PassingDescends(settings: Settings, g: SceneGeometry, w: World, b: nat, n: nat)
    requires n <= |w.frames| && Consistent(w) && b < |w.bags| && Passes(settings, g, w, b, n)
    ensures BagClimb(settings, g, w.bags[b]) < 0.0
  {
    hide Height, BagAt, SightingsOf, Consistent, BagHeight, BagClimb;
    var at := SightingFrames(w, b, n);
    BagHeights(settings, g, w, b, n, at);
    var e, f := at[0], at[|at| - 1];
    HeightIsLinear(settings, g, w.bags[b], e);
    HeightIsLinear(settings, g, w.bags[b], f);
    var first: int := w.bags[b].first;
    LinearOrder(Height(settings, g, w.bags[b].box.Center()), BagClimb(settings, g, w.bags[b]), e - first, f - first,
                BagHeight(settings, g, w.bags[b], e), BagHeight(settings, g, w.bags[b], f));
  }

  ghost function CountableBags(settings: Settings, g: SceneGeometry, w: World): set<nat>
    requires Consistent(w)
  {
    set b: nat | b < |w.bags| && w.bags[b].first < |w.frames| && Countable(settings, g, w, b, |w.frames|)
  }

  /** The track of a bag that owns an id is counted iff the bag is countable. */
  lemma OwnerCountedIff(env: Env, w: World, owner: seq<nat>, t: Trajectory)
    requires Consistent(w) && Tracked(env.settings, w, |w.frames|, owner, Run(env, w.frames))
    requires t in Run(env, w.frames).tracker.tracks || t in Run(env, w.frames).retired
    ensures 1 <= t.id <= |owner| && owner[t.id - 1] < |w.bags|
    ensures t.counted <==> Countable(env.settings, env.geometry, w, owner[t.id - 1], |w.frames|)
  {
    hide Run, HasCrossed, Countable, Consistent, SightingsOf, BagAt, Gap, Distinct;
    var s := Run(env, w.frames);
    CountedIffCrossed(env, w.frames);
    var all := if t in s.tracker.tracks then s.tracker.tracks else s.retired;
    var i :| 0 <= i < |all| && all[i] == t;
    assert Fair(env.settings, env.geometry, all[i]);
    CrossedIffCountable(env.settings, env.geometry, w, owner[t.id - 1], |w.frames|);
  }

  /** An id is named by an event iff the bag that owns it is countable. */
  lemma ReportedIffCountable(env: Env, w: World, owner: seq<nat>, id: nat)
    requires Consistent(w) && Tracked(env.settings, w, |w.frames|, owner, Run(env, w.frames)) && 1 <= id <= |owner|
    requires owner[id - 1] < |w.bags|
    ensures Reported(Run(env, w.frames).events, id) <==> Countable(env.settings, env.geometry, w, owner[id - 1], |w.frames|)
  {
    hide Run, Countable, Consistent, AllFollow, AllGone, Reported, Distinct;
    var s := Run(env, w.frames);
    EveryIdHasATrack(env, w.frames, id);
    ExactlyOnce(env, w.frames);
    var t :| (t in s.tracker.tracks || t in s.retired) && t.id == id;
    OwnerCountedIff(env, w, owner, t);
    FlaggedIffReported(s.events, if t in s.tracker.tracks then s.tracker.tracks else s.retired, t);
  }

  lemma FlaggedIffReported(events: seq<CrossingEvent>, ts: seq<Trajectory>, t: Trajectory)
    requires FlagsMatch(events, ts) && t in ts
    ensures t.counted <==> Reported(events, t.id)
  {
    hide Reported;
  }

  /** The bags that the events are about. */
  ghost function OwnersOf(owner: seq<nat>, evs: seq<CrossingEvent>): (r: seq<nat>)
    requires forall k | 0 <= k < |evs| :: 1 <= evs[k].trackId <= |owner|
    ensures |r| == |evs|
  {
    seq(|evs|, k requires 0 <= k < |evs| => owner[evs[k].trackId - 1])
  }

  /** The count of a run over followable bags is the number of bags that were first seen upstream and last seen
      downstream, never exactly on the line, and still upstream just before they were confirmed. */
  lemma CountIsCountableBags(env: Env, w: World)
    requires Consistent(w) && Followable(env.settings, w)
    ensures Run(env, w.frames).count == |CountableBags(env.settings, env.geometry, w)|
  {
    hide Run, Countable, Consistent, Followable, AllFollow, AllGone, Reported;
    var owner := BagsKeepIdentity(env, w, |w.frames|);
    FullPrefix(w.frames);
    var evs := Run(env, w.frames).events;
    ExactlyOnce(env, w.frames);
    assert forall k | 0 <= k < |evs| :: 1 <= evs[k].trackId <= |owner|;
    var bags := OwnersOf(owner, evs);
    assert Distinct(bags);
    DistinctSize(bags);
    EventBags(env, w, owner, bags);
  }

  lemma EventBags(env: Env, w: World, owner: seq<nat>, bags: seq<nat>)
    requires Consistent(w) && Tracked(env.settings, w, |w.frames|, owner, Run(env, w.frames))
    requires var evs := Run(env, w.frames).events;
             |bags| == |evs| && forall k | 0 <= k < |evs| ::
               1 <= evs[k].trackId <= |owner| && bags[k] == owner[evs[k].trackId - 1]
    ensures Elements(bags) == CountableBags(env.settings, env.geometry, w)
  {
    hide Run, Countable, Consistent, AllFollow, AllGone, Distinct;
    var evs := Run(env, w.frames).events;
    forall b: nat | b in bags
      ensures b in CountableBags(env.settings, env.geometry, w)
    {
      var k :| 0 <= k < |bags| && bags[k] == b;
      ReportedIffCountable(env, w, owner, evs[k].trackId);
      assert Reported(evs, evs[k].trackId);
    }
    forall b: nat | b in CountableBags(env.settings, env.geometry, w)
      ensures b in bags
    {
      assert b in owner;
      var i :| 0 <= i < |owner| && owner[i] == b;
      ReportedIffCountable(env, w, owner, i + 1);
      var k :| 0 <= k < |evs| && evs[k].trackId == i + 1;
      assert bags[k] == b;
    }
  }
}
