/** Tracks as values: what one call of the tracker does to the set of tracks. A trajectory keeps every
    detection its track was ever matched with; the running tracker keeps only a bounded tail of them. */
module Tracking {
  import opened Seqs
  import opened Geometry
  import opened Assignment
  import opened Scene

  const HISTORY_LIMIT: nat := 60

  datatype Detection = Detection(bbox: Box, score: real) {
    function Center(): Point { bbox.Center() }

    function Area(): real { bbox.Area() }
  }

  /** A track starts with a detection, so it always has a latest one. */
  type Sightings = s: seq<Detection> | |s| >= 1 witness [Detection(Box(0.0, 0.0, 0.0, 0.0), 0.0)]

  function Last(s: Sightings): Detection { s[|s| - 1] }

  datatype Trajectory = Trajectory(
    id: nat,
    sightings: Sightings,
    bbox: Box,
    velocity: Point,
    misses: nat,
    age: nat,
    counted: bool
  ) {
    function Predicted(): Box { bbox.Shift(velocity) }

    /** Matched often enough to be trusted: the flag is only ever set by a second or later match. */
    predicate Confirmed(minHits: int) { |sightings| >= 2 && |sightings| >= minHits }

    function Aged(): Trajectory { this.(age := age + 1) }

    function Seen(d: Detection): Trajectory {
      this.(sightings := sightings + [d], bbox := d.bbox, velocity := d.Center().Minus(bbox.Center()), misses := 0)
    }

    function Missed(): Trajectory { this.(bbox := Predicted(), misses := misses + 1) }
  }

  function Born(id: nat, d: Detection): Trajectory {
    Trajectory(id, [d], d.bbox, ORIGIN, 0, 0, false)
  }

  datatype TrackerState = TrackerState(tracks: seq<Trajectory>, nextId: nat)

  // ----- matching -----

  function CostRow(predicted: Box, dets: seq<Detection>): (row: seq<real>)
    ensures |row| == |dets|
  {
    seq(|dets|, j requires 0 <= j < |dets| => 1.0 - Iou(predicted, dets[j].bbox))
  }

  function CostMatrix(tracks: seq<Trajectory>, dets: seq<Detection>): (cost: Matrix)
    ensures Rectangular(cost, |tracks|, |dets|)
  {
    seq(|tracks|, i requires 0 <= i < |tracks| => CostRow(tracks[i].Predicted(), dets))
  }

  /** The pairs of an assignment that pass the cost gate, as a map from rows to columns. */
  function Gated(cost: Matrix, n: nat, m: nat, limit: real, pairs: Pairing): (kept: map<nat, nat>)
    requires Rectangular(cost, n, m) && Within(pairs, n, m)
    ensures forall r | r in kept :: r < n && kept[r] < m && Cell(r, kept[r]) in pairs && cost[r][kept[r]] <= limit
  {
    if pairs == [] then map[]
    else
      var last := pairs[|pairs| - 1];
      var kept := Gated(cost, n, m, limit, pairs[..|pairs| - 1]);
      if cost[last.row][last.col] <= limit then kept[last.row := last.col] else kept
  }

  /** A cell of a one-to-one assignment whose cost passes the gate is kept. */
  lemma {:induction false} GateKeeps(cost: Matrix, n: nat, m: nat, limit: real, pairs: Pairing, k: nat)
    requires Rectangular(cost, n, m) && Within(pairs, n, m) && OneToOne(pairs)
    requires k < |pairs| && cost[pairs[k].row][pairs[k].col] <= limit
    ensures pairs[k].row in Gated(cost, n, m, limit, pairs)
    ensures Gated(cost, n, m, limit, pairs)[pairs[k].row] == pairs[k].col
  {
    var init := pairs[..|pairs| - 1];
    if k == |init| {
    } else {
      assert init[k] == pairs[k] && pairs[k].row != pairs[|init|].row;
      assert Within(init, n, m) && OneToOne(init);
      hide OneToOne, Rectangular;
      GateKeeps(cost, n, m, limit, init, k);
    }
  }

  ghost predicate Injective(m: map<nat, nat>) {
    forall r, s | r in m && s in m && r != s :: m[r] != m[s]
  }

  lemma GatedInjective(cost: Matrix, n: nat, m: nat, limit: real, pairs: Pairing)
    requires Rectangular(cost, n, m) && Within(pairs, n, m) && OneToOne(pairs)
    ensures Injective(Gated(cost, n, m, limit, pairs))
  {
    var kept := Gated(cost, n, m, limit, pairs);
    forall r, s | r in kept && s in kept && r != s
      ensures kept[r] != kept[s]
    {
      var k :| 0 <= k < |pairs| && pairs[k] == Cell(r, kept[r]);
      var l :| 0 <= l < |pairs| && pairs[l] == Cell(s, kept[s]);
      assert k < l || l < k;
    }
  }

  /** Which track (by position) takes which detection (by position). */
  function Matching(settings: Settings, solve: Solver, tracks: seq<Trajectory>, dets: seq<Detection>): (kept: map<nat, nat>)
    ensures forall r | r in kept :: r < |tracks| && kept[r] < |dets|
    ensures Injective(kept)
  {
    if tracks == [] || dets == [] then map[]
    else
      var cost := CostMatrix(tracks, dets);
      var pairs := solve(cost);
      assert IsOptimal(cost, |tracks|, |dets|, pairs);
      GatedInjective(cost, |tracks|, |dets|, 1.0 - settings.trackerIouThreshold, pairs);
      Gated(cost, |tracks|, |dets|, 1.0 - settings.trackerIouThreshold, pairs)
  }

  // ----- one update -----

  function Carry(t: Trajectory, dets: seq<Detection>, kept: map<nat, nat>, i: nat): Trajectory
    requires i in kept ==> kept[i] < |dets|
  {
    if i in kept then t.Aged().Seen(dets[kept[i]]) else t.Aged().Missed()
  }

  /** The tracks that existed before, after the matches. */
  function Carried(tracks: seq<Trajectory>, dets: seq<Detection>, kept: map<nat, nat>): (r: seq<Trajectory>)
    requires forall r | r in kept :: r < |tracks| && kept[r] < |dets|
    ensures |r| == |tracks|
  {
    seq(|tracks|, i requires 0 <= i < |tracks| => Carry(tracks[i], dets, kept, i))
  }

  /** Positions below `n` that are not used, in order. */
  function Unused(n: nat, used: set<nat>): (r: seq<nat>)
    ensures forall k | 0 <= k < |r| :: r[k] < n && r[k] !in used
    ensures Increasing(r)
    ensures forall j: nat | j < n && j !in used :: j in r
  {
    if n == 0 then []
    else
      var init := Unused(n - 1, used);
      if n - 1 in used then init else init + [n - 1]
  }

  lemma {:induction false} UnusedAll(n: nat)
    ensures |Unused(n, {})| == n && forall k | 0 <= k < n :: Unused(n, {})[k] == k
  {
    hide Increasing;
    if n == 0 {
    } else {
      UnusedAll(n - 1);
      assert Unused(n, {}) == Unused(n - 1, {}) + [n - 1];
    }
  }

  /** A new track for each detection nobody took, with consecutive ids. */
  function Births(nextId: nat, dets: seq<Detection>, spare: seq<nat>): (r: seq<Trajectory>)
    requires forall k | 0 <= k < |spare| :: spare[k] < |dets|
    ensures |r| == |spare|
  {
    seq(|spare|, k requires 0 <= k < |spare| => Born(nextId + k, dets[spare[k]]))
  }

  function Spare(settings: Settings, solve: Solver, tracks: seq<Trajectory>, dets: seq<Detection>): (r: seq<nat>)
    ensures forall k | 0 <= k < |r| :: r[k] < |dets|
    ensures Increasing(r)
  {
    Unused(|dets|, Matching(settings, solve, tracks, dets).Values)
  }

  /** All tracks after an update, before the expired ones are dropped. */
  function Advanced(settings: Settings, solve: Solver, st: TrackerState, dets: seq<Detection>): seq<Trajectory> {
    Carried(st.tracks, dets, Matching(settings, solve, st.tracks, dets))
    + Births(st.nextId, dets, Spare(settings, solve, st.tracks, dets))
  }

  function StillAlive(settings: Settings): Trajectory -> bool {
    (t: Trajectory) => t.misses <= settings.trackerMaxAge
  }

  function Expired(settings: Settings): Trajectory -> bool {
    (t: Trajectory) => t.misses > settings.trackerMaxAge
  }

  /** The specification of one tracker update. */
  function Update(settings: Settings, solve: Solver, st: TrackerState, dets: seq<Detection>): TrackerState {
    TrackerState(Filter(StillAlive(settings), Advanced(settings, solve, st, dets)),
                 st.nextId + |Spare(settings, solve, st.tracks, dets)|)
  }

  // ----- what a bounded history sees of the sightings -----

  function Centers(s: seq<Detection>): (r: seq<Point>)
    ensures |r| == |s|
  {
    seq(|s|, i requires 0 <= i < |s| => s[i].Center())
  }

  function Areas(s: seq<Detection>): (r: seq<real>)
    ensures |r| == |s|
  {
    seq(|s|, i requires 0 <= i < |s| => s[i].Area())
  }

  lemma CentersAppend(s: seq<Detection>, d: Detection)
    ensures Centers(s + [d]) == Centers(s) + [d.Center()]
    ensures Areas(s + [d]) == Areas(s) + [d.Area()]
  {
  }
}
