/** Runs over a single box that stays where it is: seen for some frames, then missed for some. */
module ParkedRuns {
  import opened Seqs
  import opened Geometry
  import opened Assignment
  import opened Scene
  import opened Tracking
  import opened Counting
  import opened Monitoring
  import opened Pipeline
  import opened ExactCount
  import opened CountTheorems
  import opened MonitorLog
  import opened LostTracks

  /** The only track follows a parked box. */
  ghost predicate Parked(s: RunState, d: Detection, hits: nat, misses: nat) {
    && s.tracker.nextId == 2 && |s.tracker.tracks| == 1
    && var t := s.tracker.tracks[0];
       && t.id == 1 && t.bbox == d.bbox && t.velocity == ORIGIN && t.misses == misses
       && |t.sightings| == hits && forall k | 0 <= k < hits :: t.sightings[k] == d
  }

  /** A single track and a single detection that overlap by the threshold are matched. */
  lemma OneMatches(settings: Settings, solve: Solver, t: Trajectory, d: Detection)
    requires Iou(t.Predicted(), d.bbox) >= settings.trackerIouThreshold
    ensures Matching(settings, solve, [t], [d]) == map[0 := 0] && Spare(settings, solve, [t], [d]) == []
  {
    hide Iou, Gated;
    var cost := CostMatrix([t], [d]);
    assert cost[0][0] <= 1.0 - settings.trackerIouThreshold;
    assert IsOptimal(cost, 1, 1, solve(cost));
    GateKeeps(cost, 1, 1, 1.0 - settings.trackerIouThreshold, solve(cost), 0);
    var kept := Matching(settings, solve, [t], [d]);
    assert kept == map[0 := 0];
    assert 0 in kept.Values;
    assert Unused(0, kept.Values) == [];
  }

  lemma OneKept(settings: Settings, t: Trajectory)
    requires t.misses <= settings.trackerMaxAge
    ensures Filter(StillAlive(settings), [t]) == [t]
  {
    assert [t][..0] == [];
  }

  lemma OneAdvanced(settings: Settings, solve: Solver, st: TrackerState, t: Trajectory, d: Detection)
    requires st.tracks == [t] && Iou(t.Predicted(), d.bbox) >= settings.trackerIouThreshold
    ensures Advanced(settings, solve, st, [d]) == [t.Aged().Seen(d)]
    ensures Spare(settings, solve, st.tracks, [d]) == []
  {
    hide Matching, Spare, Iou;
    OneMatches(settings, solve, t, d);
  }

  lemma OneMarked(settings: Settings, g: SceneGeometry, t: Trajectory)
    ensures MarkAll(settings, g, [t]) == [Marked(settings, g, t)]
  {
    hide Marked;
  }

  /** A frame with one detection that matches the only track. */
  lemma OneSeen(env: Env, s: RunState, frame: nat, t: Trajectory, d: Detection)
    requires s.tracker.tracks == [t] && Iou(t.Predicted(), d.bbox) >= env.settings.trackerIouThreshold
    ensures FrameStep(env, s, frame, [d]).tracker
         == TrackerState([Marked(env.settings, env.geometry, t.Aged().Seen(d))], s.tracker.nextId)
  {
    hide Advanced, Spare, Marked, MarkAll, Crossings, ObserveFrame, ObserveCrossings, Iou, Filter;
    OneAdvanced(env.settings, env.solve, s.tracker, t, d);
    OneKept(env.settings, t.Aged().Seen(d));
    OneMarked(env.settings, env.geometry, t.Aged().Seen(d));
  }

  lemma ParkedSeen(env: Env, s: RunState, frame: nat, d: Detection, hits: nat, misses: nat)
    requires Parked(s, d, hits, misses) && env.settings.trackerIouThreshold <= 1.0 && d.bbox.Solid()
    ensures Parked(FrameStep(env, s, frame, [d]), d, hits + 1, 0)
  {
    hide FrameStep, ToCount, Iou;
    var t := s.tracker.tracks[0];
    IouOneIff(d.bbox, d.bbox);
    assert t.Predicted() == d.bbox;
    OneSeen(env, s, frame, t, d);
  }

  lemma ParkedMissed(env: Env, s: RunState, frame: nat, d: Detection, hits: nat, misses: nat)
    requires Parked(s, d, hits, misses) && env.settings.trackerMaxAge > misses
    ensures Parked(FrameStep(env, s, frame, []), d, hits, misses + 1)
  {
    hide ToCount, Crossings, ObserveFrame, ObserveCrossings;
    var t := s.tracker.tracks[0];
    assert s.tracker.tracks == [t];
    assert Advanced(env.settings, env.solve, s.tracker, []) == [t.Aged().Missed()];
    OneKept(env.settings, t.Aged().Missed());
  }

  lemma ParkedAtFirst(env: Env, d: Detection)
    ensures Parked(Run(env, [[d]]), d, 1, 0)
  {
    hide Run;
    FirstFrame(env, [d]);
  }

  // ----- seen for some frames, then missed for some -----

  function WaitFrames(d: Detection, hits: nat, misses: nat): (frames: seq<seq<Detection>>)
    requires hits >= 1
    ensures |frames| == hits + misses
  {
    if misses > 0 then WaitFrames(d, hits, misses - 1) + [[]]
    else if hits > 1 then WaitFrames(d, hits - 1, 0) + [[d]]
    else [[d]]
  }

  lemma {:induction false} Waits(env: Env, d: Detection, hits: nat, misses: nat)
    requires hits >= 1 && misses <= env.settings.trackerMaxAge && env.settings.trackerIouThreshold <= 1.0 && d.bbox.Solid()
    ensures Parked(Run(env, WaitFrames(d, hits, misses)), d, hits, misses)
  {
    hide FrameStep, Parked, Run;
    var frames := WaitFrames(d, hits, misses);
    if misses > 0 {
      Waits(env, d, hits, misses - 1);
      RunStep(env, frames, hits + misses - 1);
      assert frames[..hits + misses - 1] == WaitFrames(d, hits, misses - 1) && frames[..hits + misses] == frames;
      ParkedMissed(env, Run(env, WaitFrames(d, hits, misses - 1)), hits + misses - 1, d, hits, misses - 1);
    } else if hits > 1 {
      Waits(env, d, hits - 1, 0);
      RunStep(env, frames, hits - 1);
      assert frames[..hits - 1] == WaitFrames(d, hits - 1, 0) && frames[..hits] == frames;
      ParkedSeen(env, Run(env, WaitFrames(d, hits - 1, 0)), hits - 1, d, hits - 1, 0);
    } else {
      ParkedAtFirst(env, d);
    }
  }

  lemma SameSightingsNotCrossed(settings: Settings, g: SceneGeometry, s: seq<Detection>)
    requires forall k | 0 <= k < |s| :: s[k] == s[0]
    ensures !HasCrossed(settings, g, s)
  {
    forall k: nat
      ensures !CrossesAt(settings, g, s, k)
    {
      if 1 <= k < |s| {
        CrossedLineMeaning(settings, g, s[k - 1].Center(), s[k].Center());
      }
    }
  }

  /** A box that did not move is not counted. */
  lemma WaitingUncounted(env: Env, d: Detection, hits: nat, misses: nat)
    requires hits >= 1 && misses <= env.settings.trackerMaxAge && env.settings.trackerIouThreshold <= 1.0 && d.bbox.Solid()
    ensures Parked(Run(env, WaitFrames(d, hits, misses)), d, hits, misses)
    ensures !Run(env, WaitFrames(d, hits, misses)).tracker.tracks[0].counted
  {
    hide Run, WaitFrames, HasCrossed;
    Waits(env, d, hits, misses);
    var frames := WaitFrames(d, hits, misses);
    CountedIffCrossed(env, frames);
    var t := Run(env, frames).tracker.tracks[0];
    assert Fair(env.settings, env.geometry, t);
    SameSightingsNotCrossed(env.settings, env.geometry, t.sightings);
  }

  /** Confirmed, then missed as long as the tracker allows, near the line: reported as lost. */
  lemma WaitingIsLost(env: Env, d: Detection)
    requires env.settings.trackerIouThreshold <= 1.0 && d.bbox.Solid() && NearLine(env.geometry, d.Center())
    ensures 1 in Run(env, WaitFrames(d, Required(env.settings), env.settings.trackerMaxAge)).monitor.reported
  {
    hide Run, WaitFrames, NearLine;
    var r, age := Required(env.settings), env.settings.trackerMaxAge;
    WaitingUncounted(env, d, r, age);
    AllReported(env, WaitFrames(d, r, age));
    assert LooksLost(env.settings, env.geometry, Run(env, WaitFrames(d, r, age)).tracker.tracks[0]);
  }

  lemma NobodyLost(settings: Settings, g: SceneGeometry, reported: set<nat>, t: Trajectory)
    requires !NearLine(g, t.bbox.Center())
    ensures LostIds(settings, g, reported, [t]) == []
  {
    hide NearLine;
    assert [t][..0] == [];
  }

  lemma NotLostStep(env: Env, s: RunState, frame: nat, dets: seq<Detection>, d: Detection, hits: nat, misses: nat)
    requires s.monitor.reported == {} && !NearLine(env.geometry, d.Center())
    requires Parked(FrameStep(env, s, frame, dets), d, hits, misses)
    ensures FrameStep(env, s, frame, dets).monitor.reported == {}
  {
    hide FrameStep, NearLine, LostIds;
    LostLogStep(env, s, frame, dets);
    MonitorStep(env, s, frame, dets);
    var shown := FrameStep(env, s, frame, dets).tracker.tracks;
    assert shown == [shown[0]];
    NobodyLost(env.settings, env.geometry, s.monitor.reported, shown[0]);
  }

  /** Away from the line it is never reported. */
  lemma {:induction false} WaitingNotLost(env: Env, d: Detection, hits: nat, misses: nat)
    requires hits >= 1 && misses <= env.settings.trackerMaxAge && env.settings.trackerIouThreshold <= 1.0 && d.bbox.Solid()
    requires !NearLine(env.geometry, d.Center())
    ensures Run(env, WaitFrames(d, hits, misses)).monitor.reported == {}
  {
    hide FrameStep, Parked, Run, NearLine;
    var frames := WaitFrames(d, hits, misses);
    var n := |frames| - 1;
    var before := frames[..n];
    RunStep(env, frames, n);
    assert frames[..n + 1] == frames;
    Waits(env, d, hits, misses);
    if misses > 0 {
      WaitingNotLost(env, d, hits, misses - 1);
      assert before == WaitFrames(d, hits, misses - 1);
    } else if hits > 1 {
      WaitingNotLost(env, d, hits - 1, 0);
      assert before == WaitFrames(d, hits - 1, 0);
    } else {
      RunStart(env, before);
    }
    NotLostStep(env, Run(env, before), n, frames[n], d, hits, misses);
  }
}
