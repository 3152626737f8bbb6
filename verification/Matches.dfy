/** Tracks and detections of one frame: how they correspond, and where an unmatched track is. */
module Matches {
  import opened Seqs
  import opened Assignment
  import opened Scene
  import opened Tracking
  import opened Counting
  import opened Monitoring
  import opened Pipeline
  import opened Identity

  // ----- tracks and detections of one frame -----

  /** `t` has just been matched with, or born from, `d`. */
  predicate Holds(t: Trajectory, d: Detection) {
    t.misses == 0 && t.bbox == d.bbox && Last(t.sightings) == d
  }

  /** Position `i` of an update belongs to detection `j`. */
  ghost predicate Owns(settings: Settings, solve: Solver, st: TrackerState, dets: seq<Detection>, i: nat, j: nat) {
    var kept, spare := Matching(settings, solve, st.tracks, dets), Spare(settings, solve, st.tracks, dets);
    if i < |st.tracks| then i in kept && kept[i] == j
    else i - |st.tracks| < |spare| && spare[i - |st.tracks|] == j
  }

  lemma OwnerExists(settings: Settings, solve: Solver, st: TrackerState, dets: seq<Detection>, j: nat) returns (i: nat)
    requires j < |dets|
    ensures Owns(settings, solve, st, dets, i, j)
  {
    var kept, spare := Matching(settings, solve, st.tracks, dets), Spare(settings, solve, st.tracks, dets);
    hide Matching;
    if j in kept.Values {
      i :| i in kept && kept[i] == j;
    } else {
      assert j in spare;
      var k :| 0 <= k < |spare| && spare[k] == j;
      i := |st.tracks| + k;
    }
  }

  lemma OwnerUnique(settings: Settings, solve: Solver, st: TrackerState, dets: seq<Detection>, i: nat, i': nat, j: nat)
    requires Owns(settings, solve, st, dets, i, j) && Owns(settings, solve, st, dets, i', j)
    ensures i == i'
  {
    hide Matching;
  }

  lemma OwnerHolds(settings: Settings, solve: Solver, st: TrackerState, dets: seq<Detection>, i: nat, j: nat)
    requires Owns(settings, solve, st, dets, i, j)
    ensures j < |dets| && i < |Advanced(settings, solve, st, dets)|
    ensures Holds(Advanced(settings, solve, st, dets)[i], dets[j])
  {
    hide Matching, Spare;
  }

  lemma UpToDateOwns(settings: Settings, solve: Solver, st: TrackerState, dets: seq<Detection>, i: nat) returns (j: nat)
    requires i < |Advanced(settings, solve, st, dets)| && Advanced(settings, solve, st, dets)[i].misses == 0
    ensures Owns(settings, solve, st, dets, i, j)
  {
    hide Matching, Spare;
    var kept, spare := Matching(settings, solve, st.tracks, dets), Spare(settings, solve, st.tracks, dets);
    j := if i < |st.tracks| then kept[i] else spare[i - |st.tracks|];
  }

  /** A slot for every detection: different slots, each holding its detection, and no other track up to date. */
  ghost predicate Slots(tracks: seq<Trajectory>, dets: seq<Detection>, slot: seq<nat>) {
    && |slot| == |dets| && Distinct(slot)
    && (forall j | 0 <= j < |dets| :: slot[j] < |tracks| && Holds(tracks[slot[j]], dets[j]))
    && (forall i: nat | i < |tracks| && tracks[i].misses == 0 :: i in slot)
  }

  /** The track listed at position `k` is the one that owns detection `j`. */
  ghost predicate ListedFor(settings: Settings, solve: Solver, st: TrackerState, dets: seq<Detection>, k: nat, j: nat) {
    var all, listed := Advanced(settings, solve, st, dets), Update(settings, solve, st, dets).tracks;
    k < |listed| && exists i: nat | i < |all| :: Owns(settings, solve, st, dets, i, j) && listed[k] == all[i]
  }

  lemma ListedSlot(settings: Settings, solve: Solver, st: TrackerState, dets: seq<Detection>, j: nat) returns (k: nat)
    requires j < |dets|
    ensures ListedFor(settings, solve, st, dets, k, j)
  {
    hide Advanced, Owns;
    var i := OwnerExists(settings, solve, st, dets, j);
    OwnerHolds(settings, solve, st, dets, i, j);
    var all, listed := Advanced(settings, solve, st, dets), Update(settings, solve, st, dets).tracks;
    assert all[i] in listed;
    k :| 0 <= k < |listed| && listed[k] == all[i];
  }

  lemma SlotsExist(settings: Settings, solve: Solver, st: TrackerState, dets: seq<Detection>) returns (slot: seq<nat>)
    requires InOrder(Advanced(settings, solve, st, dets))
    ensures Slots(Update(settings, solve, st, dets).tracks, dets, slot)
  {
    hide Advanced, Owns;
    var all, listed := Advanced(settings, solve, st, dets), Update(settings, solve, st, dets).tracks;
    slot := [];
    while |slot| < |dets|
      invariant |slot| <= |dets|
      invariant forall j | 0 <= j < |slot| :: ListedFor(settings, solve, st, dets, slot[j], j)
    {
      var k := ListedSlot(settings, solve, st, dets, |slot|);
      slot := slot + [k];
    }
    FilterOrdered(StillAlive(settings), all);
    forall j | 0 <= j < |dets|
      ensures slot[j] < |listed| && Holds(listed[slot[j]], dets[j])
    {
      assert ListedFor(settings, solve, st, dets, slot[j], j);
      var i: nat :| Owns(settings, solve, st, dets, i, j) && i < |all| && listed[slot[j]] == all[i];
      OwnerHolds(settings, solve, st, dets, i, j);
    }
    forall k: nat | k < |listed| && listed[k].misses == 0
      ensures k in slot
    {
      assert listed[k] in all;
      var i :| 0 <= i < |all| && all[i] == listed[k];
      var j := UpToDateOwns(settings, solve, st, dets, i);
      OwnerHolds(settings, solve, st, dets, i, j);
      assert ListedFor(settings, solve, st, dets, slot[j], j);
      var i': nat :| Owns(settings, solve, st, dets, i', j) && i' < |all| && listed[slot[j]] == all[i'];
      OwnerUnique(settings, solve, st, dets, i, i', j);
      assert slot[j] == k;
    }
    SlotsApart(settings, solve, st, dets, slot);
  }

  lemma SlotsApart(settings: Settings, solve: Solver, st: TrackerState, dets: seq<Detection>, slot: seq<nat>)
    requires InOrder(Advanced(settings, solve, st, dets)) && |slot| == |dets|
    requires forall j | 0 <= j < |slot| :: ListedFor(settings, solve, st, dets, slot[j], j)
    ensures Distinct(slot)
  {
    hide Advanced, Owns;
    var all, listed := Advanced(settings, solve, st, dets), Update(settings, solve, st, dets).tracks;
    forall j, j' | 0 <= j < j' < |slot|
      ensures slot[j] != slot[j']
    {
      assert ListedFor(settings, solve, st, dets, slot[j], j);
      assert ListedFor(settings, solve, st, dets, slot[j'], j');
      var i: nat :| Owns(settings, solve, st, dets, i, j) && i < |all| && listed[slot[j]] == all[i];
      var i': nat :| Owns(settings, solve, st, dets, i', j') && i' < |all| && listed[slot[j']] == all[i'];
      if slot[j] == slot[j'] {
        assert i == i';
        OneOwned(settings, solve, st, dets, i, j, j');
      }
    }
  }

  lemma OneOwned(settings: Settings, solve: Solver, st: TrackerState, dets: seq<Detection>, i: nat, j: nat, j': nat)
    requires Owns(settings, solve, st, dets, i, j) && Owns(settings, solve, st, dets, i, j')
    ensures j == j'
  {
  }

  lemma MarkedSlots(settings: Settings, g: SceneGeometry, listed: seq<Trajectory>, dets: seq<Detection>, slot: seq<nat>)
    requires Slots(listed, dets, slot)
    ensures Slots(MarkAll(settings, g, listed), dets, slot)
  {
    hide ToCount;
  }

  /** After every frame of every run, the tracks that are up to date and the detections of that frame are in
      one-to-one correspondence, box and score included. */
  lemma FrameBijection(env: Env, frames: seq<seq<Detection>>, n: nat) returns (slot: seq<nat>)
    requires n < |frames|
    ensures Slots(Run(env, frames[..n + 1]).tracker.tracks, frames[n], slot)
  {
    hide Run, Update, Advanced, MarkAll, Slots, InOrder, ObserveFrame, ObserveCrossings, Crossings;
    var s := Run(env, frames[..n]);
    AlwaysRegistered(env, frames[..n]);
    AdvancedInOrder(env.settings, env.solve, s.tracker, frames[n]);
    slot := SlotsExist(env.settings, env.solve, s.tracker, frames[n]);
    RunStep(env, frames, n);
    MarkedSlots(env.settings, env.geometry, Update(env.settings, env.solve, s.tracker, frames[n]).tracks, frames[n], slot);
  }

  // ----- unmatched tracks -----

  /** The box of a track is its last detection, moved on by its velocity once for every missed frame. */
  ghost predicate OnCourse(t: Trajectory) {
    t.bbox == Last(t.sightings).bbox.Shift(t.velocity.Times(t.misses as real))
  }

  lemma OneStepFurther(x: real, v: real, m: nat, y: real)
    requires y == x + m as real * v
    ensures y + v == x + (m + 1) as real * v
  {
  }

  lemma MissedOnCourse(t: Trajectory)
    requires OnCourse(t)
    ensures OnCourse(t.Missed())
  {
    var b := Last(t.sightings).bbox;
    OneStepFurther(b.x1, t.velocity.x, t.misses, t.bbox.x1);
    OneStepFurther(b.y1, t.velocity.y, t.misses, t.bbox.y1);
    OneStepFurther(b.x2, t.velocity.x, t.misses, t.bbox.x2);
    OneStepFurther(b.y2, t.velocity.y, t.misses, t.bbox.y2);
  }

  ghost predicate AllOnCourse(ts: seq<Trajectory>, low: nat, high: nat) {
    forall i | 0 <= i < |ts| :: OnCourse(ts[i]) && low <= ts[i].misses <= high
  }

  lemma AdvancedOnCourse(settings: Settings, solve: Solver, st: TrackerState, dets: seq<Detection>)
    requires AllOnCourse(st.tracks, 0, settings.trackerMaxAge)
    ensures AllOnCourse(Advanced(settings, solve, st, dets), 0, settings.trackerMaxAge + 1)
  {
    hide Matching, Spare, OnCourse;
    var all := Advanced(settings, solve, st, dets);
    var kept, spare := Matching(settings, solve, st.tracks, dets), Spare(settings, solve, st.tracks, dets);
    forall i | 0 <= i < |all|
      ensures OnCourse(all[i]) && all[i].misses <= settings.trackerMaxAge + 1
    {
      if i < |st.tracks| {
        if i in kept {
          SeenOnCourse(st.tracks[i], dets[kept[i]]);
        } else {
          AgedOnCourse(st.tracks[i]);
          MissedOnCourse(st.tracks[i].Aged());
        }
      } else {
        BornOnCourse(st.nextId + (i - |st.tracks|), dets[spare[i - |st.tracks|]]);
      }
    }
  }

  lemma SeenOnCourse(t: Trajectory, d: Detection)
    ensures OnCourse(t.Aged().Seen(d))
  {
  }

  lemma AgedOnCourse(t: Trajectory)
    requires OnCourse(t)
    ensures OnCourse(t.Aged())
  {
  }

  lemma BornOnCourse(id: nat, d: Detection)
    ensures OnCourse(Born(id, d))
  {
  }

  lemma CourseStep(env: Env, s: RunState, frame: nat, dets: seq<Detection>)
    requires AllOnCourse(s.tracker.tracks, 0, env.settings.trackerMaxAge)
    requires AllOnCourse(s.retired, env.settings.trackerMaxAge + 1, env.settings.trackerMaxAge + 1)
    ensures AllOnCourse(FrameStep(env, s, frame, dets).tracker.tracks, 0, env.settings.trackerMaxAge)
    ensures AllOnCourse(FrameStep(env, s, frame, dets).retired, env.settings.trackerMaxAge + 1, env.settings.trackerMaxAge + 1)
  {
    hide Advanced, ObserveFrame, ObserveCrossings, Crossings, ToCount;
    var all := Advanced(env.settings, env.solve, s.tracker, dets);
    AdvancedOnCourse(env.settings, env.solve, s.tracker, dets);
    var live, gone := Filter(StillAlive(env.settings), all), Filter(Expired(env.settings), all);
    forall i | 0 <= i < |live|
      ensures OnCourse(live[i]) && live[i].misses <= env.settings.trackerMaxAge
    {
      assert live[i] in live;
    }
    forall i | 0 <= i < |gone|
      ensures OnCourse(gone[i]) && gone[i].misses == env.settings.trackerMaxAge + 1
    {
      assert gone[i] in gone;
    }
  }

  /** In every run: a listed track has missed at most `trackerMaxAge` frames, a dropped one exactly one more, and
      every track is where its last detection and its velocity put it. */
  lemma {:induction false} AlwaysOnCourse(env: Env, frames: seq<seq<Detection>>)
    ensures AllOnCourse(Run(env, frames).tracker.tracks, 0, env.settings.trackerMaxAge)
    ensures AllOnCourse(Run(env, frames).retired, env.settings.trackerMaxAge + 1, env.settings.trackerMaxAge + 1)
  {
    hide FrameStep, OnCourse;
    if frames == [] {
    } else {
      var n := |frames| - 1;
      AlwaysOnCourse(env, frames[..n]);
      CourseStep(env, Run(env, frames[..n]), n, frames[n]);
    }
  }
}
