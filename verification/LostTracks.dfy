/** Reports of tracks lost near the counting line are sound, complete and made once per track. */
module LostTracks {
  import opened Seqs
  import opened Geometry
  import opened Scene
  import opened Tracking
  import opened Monitoring
  import opened Pipeline
  import opened Ledger
  import opened MonitorLog
  import Assignment

  ghost predicate NamesLost(settings: Settings, g: SceneGeometry, reported: set<nat>, ts: seq<Trajectory>, id: nat) {
    id !in reported && exists i :: 0 <= i < |ts| && ts[i].id == id && LooksLost(settings, g, ts[i])
  }

  /** The new ids are those of tracks that look lost and were not reported before; all of them, each once. */
  lemma {:induction false} LostIdsExactly(settings: Settings, g: SceneGeometry, reported: set<nat>, ts: seq<Trajectory>)
    ensures var ids := LostIds(settings, g, reported, ts);
            && Distinct(ids)
            && (forall k | 0 <= k < |ids| :: NamesLost(settings, g, reported, ts, ids[k]))
            && (forall i | 0 <= i < |ts| && LooksLost(settings, g, ts[i]) :: ts[i].id in reported || ts[i].id in ids)
  {
    hide LooksLost, Distinct;
    if ts == [] {
      EmptyDistinct(LostIds(settings, g, reported, ts));
    } else {
      var n := |ts| - 1;
      LostIdsExactly(settings, g, reported, ts[..n]);
      var before, ids := LostIds(settings, g, reported, ts[..n]), LostIds(settings, g, reported, ts);
      forall k | 0 <= k < |ids|
        ensures NamesLost(settings, g, reported, ts, ids[k])
      {
        if k < |before| {
          assert NamesLost(settings, g, reported, ts[..n], before[k]);
          var i :| 0 <= i < n && ts[..n][i].id == before[k] && LooksLost(settings, g, ts[..n][i]);
          assert ts[i].id == ids[k];
        } else {
          assert ts[n].id == ids[k];
        }
      }
      forall i | 0 <= i < |ts| && LooksLost(settings, g, ts[i])
        ensures ts[i].id in reported || ts[i].id in ids
      {
        if i < n {
          assert ts[..n][i] == ts[i];
        }
      }
      if ids != before {
        DistinctAppend(before, ts[n].id);
      }
    }
  }

  // ----- the records of a run -----

  function LostRecorded(m: MonitorState): seq<Anomaly> { Filter(IsLost(), m.log) }

  ghost predicate Recorded(records: seq<Anomaly>, id: nat) {
    exists k :: 0 <= k < |records| && records[k].kind == LostNearLine(id)
  }

  ghost predicate NoRepeat(records: seq<Anomaly>) {
    forall k, l | 0 <= k < l < |records| :: records[k].kind != records[l].kind
  }

  /** The monitor's memory is the set of ids it has recorded, each once. */
  ghost predicate RemembersRecords(m: MonitorState) {
    && NoRepeat(LostRecorded(m))
    && forall id: nat :: id in m.reported <==> Recorded(LostRecorded(m), id)
  }

  lemma LostLogStep(env: Env, s: RunState, frame: nat, dets: seq<Detection>)
    ensures var m, next := s.monitor, FrameStep(env, s, frame, dets).monitor;
            var ids := LostIds(env.settings, env.geometry, m.reported, Shown(env, s, dets));
            && next.reported == m.reported + Elements(ids)
            && LostRecorded(next) == LostRecorded(m) + LostRecords(env.fps, frame, ids)
  {
    hide FrameStep, Filter, StallRaised, LowRaised, LostIds, FreshScores, Suffix, StallLimit, ObserveFrame,
         NewEvents, ObserveCrossings, Shown, LostRecords, Elements;
    MonitorStep(env, s, frame, dets);
    CrossingsLeaveAlone(env, s.monitor, NewEvents(env, s, frame, dets));
    var mid, shown := Midway(env, s, frame, dets), Shown(env, s, dets);
    FrameRemembers(env.settings, env.geometry, env.fps, mid, frame, shown, |dets|);
    FrameLog(env.settings, env.geometry, env.fps, mid, frame, shown, |dets|, IsLost());
    LostFiltered(env.fps, frame, LostIds(env.settings, env.geometry, mid.reported, shown), IsLost());
  }

  lemma RecordsConcat(a: seq<Anomaly>, b: seq<Anomaly>, id: nat)
    ensures Recorded(a + b, id) <==> Recorded(a, id) || Recorded(b, id)
  {
    if Recorded(a, id) {
      var k :| 0 <= k < |a| && a[k].kind == LostNearLine(id);
      assert (a + b)[k].kind == LostNearLine(id);
    }
    if Recorded(b, id) {
      var k :| 0 <= k < |b| && b[k].kind == LostNearLine(id);
      assert (a + b)[|a| + k].kind == LostNearLine(id);
    }
  }

  lemma RecordsOfIds(fps: Rate, frame: nat, ids: seq<nat>, id: nat)
    ensures Recorded(LostRecords(fps, frame, ids), id) <==> id in ids
  {
    var r := LostRecords(fps, frame, ids);
    if id in ids {
      var k :| 0 <= k < |ids| && ids[k] == id;
      assert r[k].kind == LostNearLine(id);
    }
  }

  lemma RemembersStep(env: Env, s: RunState, frame: nat, dets: seq<Detection>)
    requires RemembersRecords(s.monitor)
    ensures RemembersRecords(FrameStep(env, s, frame, dets).monitor)
  {
    hide FrameStep, LostIds, LostRecorded, LooksLost;
    var m, next := s.monitor, FrameStep(env, s, frame, dets).monitor;
    var ids := LostIds(env.settings, env.geometry, m.reported, Shown(env, s, dets));
    LostLogStep(env, s, frame, dets);
    LostIdsExactly(env.settings, env.geometry, m.reported, Shown(env, s, dets));
    var a, b := LostRecorded(m), LostRecords(env.fps, frame, ids);
    forall id: nat
      ensures id in next.reported <==> Recorded(a + b, id)
    {
      RecordsConcat(a, b, id);
      RecordsOfIds(env.fps, frame, ids, id);
    }
    forall k, l | 0 <= k < |a| && 0 <= l < |b|
      ensures a[k].kind != b[l].kind
    {
      assert NamesLost(env.settings, env.geometry, m.reported, Shown(env, s, dets), ids[l]);
      assert !Recorded(a, ids[l]);
    }
  }

  /** At most one record per id in a run. */
  lemma {:induction false} ReportedOnce(env: Env, frames: seq<seq<Detection>>)
    ensures RemembersRecords(Run(env, frames).monitor)
  {
    hide FrameStep, RemembersRecords;
    if frames == [] {
      NothingRemembered();
    } else {
      var n := |frames| - 1;
      ReportedOnce(env, frames[..n]);
      RemembersStep(env, Run(env, frames[..n]), n, frames[n]);
    }
  }

  lemma NothingRemembered()
    ensures RemembersRecords(START.monitor)
  {
    FilterNoRecords();
  }

  // ----- near the line -----

  /** Some point of the segment is closer to `p` than `reach`. */
  ghost predicate WithinReach(p: Point, a: Point, b: Point, reach: real) {
    exists t: real :: 0.0 <= t <= 1.0 && DistanceSq(p, Along(a, b, t)) < Sq(reach)
  }

  /** Near means: some point of the drawn line is closer than 15 hundredths of the larger side of the picture. */
  lemma NearLineIff(g: SceneGeometry, p: Point)
    ensures NearLine(g, p)
       <==> (g.w > 0 || g.h > 0) && WithinReach(p, g.line.0, g.line.1, 15.0 * Max(g.w as real, g.h as real) / 100.0)
  {
    hide DistanceSq, Along, ClampedParameter, Sq;
    var (a, b) := g.line;
    SegmentDistanceIsMinimum(p, a, b);
  }

  // ----- soundness -----

  /** At the time of the record some listed track of that id was confirmed, not counted, exactly at its last
      chance to be matched, and near the line. */
  ghost predicate LostForGood(env: Env, tracks: seq<Trajectory>, a: Anomaly) {
    exists i :: 0 <= i < |tracks| && a.kind == LostNearLine(tracks[i].id)
      && tracks[i].Confirmed(env.settings.trackerMinHits) && !tracks[i].counted
      && tracks[i].misses == env.settings.trackerMaxAge
      && NearLine(env.geometry, tracks[i].bbox.Center())
  }

  lemma NewRecordsSound(env: Env, frames: seq<seq<Detection>>, n: nat, k: nat)
    requires n < |frames|
    requires var s := Run(env, frames[..n]);
             k < |LostIds(env.settings, env.geometry, s.monitor.reported, Shown(env, s, frames[n]))|
    ensures var s := Run(env, frames[..n]);
            LostForGood(env, Run(env, frames[..n + 1]).tracker.tracks,
              Record(env.fps, n, LostNearLine(LostIds(env.settings, env.geometry, s.monitor.reported, Shown(env, s, frames[n]))[k])))
  {
    hide Run, LostIds, LooksLost, FrameStep, LostForGood;
    var s := Run(env, frames[..n]);
    var shown := Shown(env, s, frames[n]);
    var ids := LostIds(env.settings, env.geometry, s.monitor.reported, shown);
    RunStep(env, frames, n);
    MonitorStep(env, s, n, frames[n]);
    YoungEnough(env, frames[..n + 1]);
    LostIdsExactly(env.settings, env.geometry, s.monitor.reported, shown);
    assert NamesLost(env.settings, env.geometry, s.monitor.reported, shown, ids[k]);
    var i :| 0 <= i < |shown| && shown[i].id == ids[k] && LooksLost(env.settings, env.geometry, shown[i]);
    var tracks := Run(env, frames[..n + 1]).tracker.tracks;
    assert tracks == shown;
    LastChance(env, tracks, i, n);
  }

  lemma LastChance(env: Env, tracks: seq<Trajectory>, i: nat, frame: nat)
    requires i < |tracks| && LooksLost(env.settings, env.geometry, tracks[i])
    requires tracks[i].misses <= env.settings.trackerMaxAge
    ensures LostForGood(env, tracks, Record(env.fps, frame, LostNearLine(tracks[i].id)))
  {
    hide NearLine;
  }

  /** Sound: each record of a run is about a track that was lost for good at that frame. */
  lemma {:induction false} LostIsSound(env: Env, frames: seq<seq<Detection>>, k: nat)
    requires k < |LostRecorded(Run(env, frames).monitor)|
    ensures var a := LostRecorded(Run(env, frames).monitor)[k];
            a.frame < |frames| && LostForGood(env, Run(env, frames[..a.frame + 1]).tracker.tracks, a)
  {
    hide Run, FrameStep, LostForGood, LostIds, LostRecorded;
    if frames == [] {
      RunStart(env, frames);
      NoLostAtStart();
    }
    var n := |frames| - 1;
    var s := Run(env, frames[..n]);
    RunStep(env, frames, n);
    assert frames[..n + 1] == frames;
    LostLogStep(env, s, n, frames[n]);
    var before := LostRecorded(s.monitor);
    if k < |before| {
      LostIsSound(env, frames[..n], k);
      var f := before[k].frame;
      assert frames[..n][..f + 1] == frames[..f + 1];
    } else {
      NewRecordsSound(env, frames, n, k - |before|);
    }
  }

  lemma NoLostAtStart()
    ensures LostRecorded(START.monitor) == []
  {
  }

  // ----- completeness -----

  /** Where a dropped track was when it was last listed: one step of its velocity before. */
  function LastListedBox(t: Trajectory): Box {
    t.bbox.Shift(Point(-t.velocity.x, -t.velocity.y))
  }

  ghost predicate LostUncounted(env: Env, t: Trajectory) {
    t.Confirmed(env.settings.trackerMinHits) && !t.counted && NearLine(env.geometry, LastListedBox(t).Center())
  }

  ghost predicate LiveReported(env: Env, s: RunState) {
    forall i | 0 <= i < |s.tracker.tracks| && LooksLost(env.settings, env.geometry, s.tracker.tracks[i]) ::
      s.tracker.tracks[i].id in s.monitor.reported
  }

  ghost predicate RetiredReported(env: Env, s: RunState) {
    forall i | 0 <= i < |s.retired| && LostUncounted(env, s.retired[i]) :: s.retired[i].id in s.monitor.reported
  }

  /** A track that got nothing in an update was listed before it, one step back. */
  lemma MissedFromList(settings: Settings, solve: Assignment.Solver, st: TrackerState, dets: seq<Detection>, i: nat)
    requires i < |Advanced(settings, solve, st, dets)| && Advanced(settings, solve, st, dets)[i].misses > 0
    ensures i < |st.tracks| && Advanced(settings, solve, st, dets)[i] == st.tracks[i].Aged().Missed()
  {
    hide Matching, Spare;
  }

  lemma BackToList(t: Trajectory)
    ensures LastListedBox(t.Aged().Missed()) == t.bbox
  {
  }

  /** A track dropped now was listed before with its last chance gone, one step back. */
  lemma DroppedFromList(env: Env, st: TrackerState, dets: seq<Detection>, t: Trajectory) returns (i: nat)
    requires t in Filter(Expired(env.settings), Advanced(env.settings, env.solve, st, dets))
    ensures i < |st.tracks| && st.tracks[i].id == t.id && st.tracks[i].misses >= env.settings.trackerMaxAge
    ensures st.tracks[i].sightings == t.sightings && st.tracks[i].counted == t.counted
    ensures st.tracks[i].bbox == LastListedBox(t)
  {
    hide Advanced, LastListedBox, Filter;
    var all := Advanced(env.settings, env.solve, st, dets);
    i :| 0 <= i < |all| && all[i] == t;
    MissedFromList(env.settings, env.solve, st, dets, i);
    BackToList(st.tracks[i]);
  }

  lemma CompleteStep(env: Env, s: RunState, frame: nat, dets: seq<Detection>)
    requires LiveReported(env, s) && RetiredReported(env, s)
    ensures var next := FrameStep(env, s, frame, dets);
            LiveReported(env, next) && RetiredReported(env, next)
  {
    var next := FrameStep(env, s, frame, dets);
    var gone := Filter(Expired(env.settings), Advanced(env.settings, env.solve, s.tracker, dets));
    assert next.retired == s.retired + gone;
    hide FrameStep, LostIds, Advanced, NearLine, LastListedBox, Filter;
    LostLogStep(env, s, frame, dets);
    MonitorStep(env, s, frame, dets);
    LostIdsExactly(env.settings, env.geometry, s.monitor.reported, Shown(env, s, dets));
    forall i | 0 <= i < |gone| && LostUncounted(env, gone[i])
      ensures gone[i].id in s.monitor.reported
    {
      var k := DroppedFromList(env, s.tracker, dets, gone[i]);
      assert LooksLost(env.settings, env.geometry, s.tracker.tracks[k]);
    }
  }

  lemma {:induction false} AllReported(env: Env, frames: seq<seq<Detection>>)
    ensures LiveReported(env, Run(env, frames)) && RetiredReported(env, Run(env, frames))
  {
    hide FrameStep, LooksLost, LostUncounted;
    if frames == [] {
    } else {
      var n := |frames| - 1;
      AllReported(env, frames[..n]);
      CompleteStep(env, Run(env, frames[..n]), n, frames[n]);
    }
  }

  /** Complete: a confirmed, uncounted track that was dropped, and was near the line when last listed, has exactly one record. */
  lemma LostIsComplete(env: Env, frames: seq<seq<Detection>>, t: Trajectory) returns (k: nat)
    requires t in Run(env, frames).retired && LostUncounted(env, t)
    ensures var records := LostRecorded(Run(env, frames).monitor);
            && k < |records| && records[k].kind == LostNearLine(t.id)
            && forall l | 0 <= l < |records| && records[l].kind == LostNearLine(t.id) :: l == k
  {
    hide Run, LostUncounted, LostRecorded;
    AllReported(env, frames);
    ReportedOnce(env, frames);
    var records := LostRecorded(Run(env, frames).monitor);
    assert Recorded(records, t.id);
    k :| 0 <= k < |records| && records[k].kind == LostNearLine(t.id);
  }
}
