/** The simulation between two runs of the same video at different resolutions. */
module ResolutionRun {
  import opened Seqs
  import opened Assignment
  import opened Scene
  import opened Tracking
  import opened Counting
  import opened Monitoring
  import opened Pipeline
  import opened MonitorLog
  import opened Resolution

  function NotLost(): Anomaly -> bool { (a: Anomaly) => !a.kind.LostNearLine? }

  /** Same tracks up to scale, same ids, expiries, counts and events. */
  ghost predicate SameTracking(z: Zoom, s: RunState, s2: RunState) {
    && s2.tracker == ZoomState(z, s.tracker)
    && s2.retired == ZoomTracks(z, s.retired)
    && s2.count == s.count
    && s2.events == ZoomEvents(z, s.events)
  }

  /** Same monitor and same records, except for lost tracks when the two factors differ. */
  ghost predicate SameMonitor(z: Zoom, m: MonitorState, m2: MonitorState) {
    && m2.stall == m.stall
    && m2.confidence == m.confidence
    && m2.sizes == ZoomReals(z.Area(), m.sizes)
    && m2.lastCrossing == m.lastCrossing
    && Filter(NotLost(), m2.log) == Filter(NotLost(), m.log)
    && (z.x == z.y ==> m2.reported == m.reported && m2.log == m.log)
  }

  lemma ZoomAreaPositive(z: Zoom)
    requires z.Valid()
    ensures z.Area() > 0.0
  {
  }

  lemma CrossingObservedScaled(settings: Settings, fps: Rate, z: Zoom, m: MonitorState, m2: MonitorState, ev: CrossingEvent)
    requires z.Valid() && SameMonitor(z, m, m2)
    ensures SameMonitor(z, ObserveCrossing(settings, fps, m, ev), ObserveCrossing(settings, fps, m2, ZoomEvent(z, ev)))
  {
    hide Filter, SizeRaised, ZoomReals, Suffix, Times, Zoom.Area;
    ZoomAreaPositive(z);
    SizeScaled(settings, z.Area(), m.sizes, ev.area);
    SuffixScaled(z.Area(), m.sizes, ev.area, SIZE_WINDOW);
    CrossingLog(settings, fps, m, ev, NotLost());
    CrossingLog(settings, fps, m2, ZoomEvent(z, ev), NotLost());
  }

  lemma {:induction false} CrossingsObservedScaled(env: Env, env2: Env, z: Zoom, m: MonitorState, m2: MonitorState,
                                                   evs: seq<CrossingEvent>)
    requires z.Valid() && SameMonitor(z, m, m2) && env.settings == env2.settings && env.fps == env2.fps
    ensures SameMonitor(z, ObserveCrossings(env, m, evs), ObserveCrossings(env2, m2, ZoomEvents(z, evs)))
  {
    hide SameMonitor, ObserveCrossing, ZoomEvent;
    if evs == [] {
    } else {
      var n := |evs| - 1;
      CrossingsObservedScaled(env, env2, z, m, m2, evs[..n]);
      assert ZoomEvents(z, evs)[..n] == ZoomEvents(z, evs[..n]);
      CrossingObservedScaled(env.settings, env.fps, z, ObserveCrossings(env, m, evs[..n]),
                             ObserveCrossings(env2, m2, ZoomEvents(z, evs[..n])), evs[n]);
    }
  }

  lemma {:induction false} ScoresScaled(z: Zoom, ts: seq<Trajectory>)
    ensures FreshScores(ZoomTracks(z, ts)) == FreshScores(ts)
  {
    if ts == [] {
    } else {
      var n := |ts| - 1;
      ScoresScaled(z, ts[..n]);
      assert ZoomTracks(z, ts)[..n] == ZoomTracks(z, ts[..n]);
      assert ZoomTracks(z, ts)[n] == ZoomTrack(z, ts[n]);
    }
  }

  lemma LooksLostScaled(settings: Settings, s: real, g: SceneGeometry, g2: SceneGeometry, t: Trajectory)
    requires s > 0.0 && Zoomed(Zoom(s, s), g, g2)
    ensures LooksLost(settings, g2, ZoomTrack(Zoom(s, s), t)) == LooksLost(settings, g, t)
  {
    hide NearLine, Zoomed;
    CenterScaled(Zoom(s, s), t.bbox);
    NearLineScaled(s, g, g2, t.bbox.Center());
  }

  lemma {:induction false} LostScaled(settings: Settings, s: real, g: SceneGeometry, g2: SceneGeometry,
                                      reported: set<nat>, ts: seq<Trajectory>)
    requires s > 0.0 && Zoomed(Zoom(s, s), g, g2)
    ensures LostIds(settings, g2, reported, ZoomTracks(Zoom(s, s), ts)) == LostIds(settings, g, reported, ts)
  {
    hide LooksLost, Zoomed;
    if ts == [] {
    } else {
      var n, z := |ts| - 1, Zoom(s, s);
      LostScaled(settings, s, g, g2, reported, ts[..n]);
      assert ZoomTracks(z, ts)[..n] == ZoomTracks(z, ts[..n]);
      LooksLostScaled(settings, s, g, g2, ts[n]);
    }
  }

  lemma FrameObservedScaled(settings: Settings, g: SceneGeometry, g2: SceneGeometry, fps: Rate, z: Zoom,
                            m: MonitorState, m2: MonitorState, frame: nat, ts: seq<Trajectory>, detections: nat)
    requires z.Valid() && Zoomed(z, g, g2) && SameMonitor(z, m, m2)
    ensures SameMonitor(z, ObserveFrame(settings, g, fps, m, frame, ts, detections),
                        ObserveFrame(settings, g2, fps, m2, frame, ZoomTracks(z, ts), detections))
  {
    hide Filter, StallRaised, LowRaised, LostIds, FreshScores, Suffix, StallLimit, StallNext, ConfidenceNext, ZoomReals, Zoomed,
         ZoomTracks, Zoom.Area;
    ScoresScaled(z, ts);
    if z.x == z.y {
      LostScaled(settings, z.x, g, g2, m.reported, ts);
    }
    var ts2 := ZoomTracks(z, ts);
    FrameLog(settings, g, fps, m, frame, ts, detections, NotLost());
    FrameLog(settings, g2, fps, m2, frame, ts2, detections, NotLost());
    LostFiltered(fps, frame, LostIds(settings, g, m.reported, ts), NotLost());
    LostFiltered(fps, frame, LostIds(settings, g2, m2.reported, ts2), NotLost());
  }

  lemma UpdateScaled(settings: Settings, solve: Solver, z: Zoom, st: TrackerState, ds: seq<Detection>)
    requires z.Valid()
    ensures Update(settings, solve, ZoomState(z, st), ZoomDetections(z, ds)) == ZoomState(z, Update(settings, solve, st, ds))
    ensures Filter(Expired(settings), Advanced(settings, solve, ZoomState(z, st), ZoomDetections(z, ds)))
         == ZoomTracks(z, Filter(Expired(settings), Advanced(settings, solve, st, ds)))
  {
    hide Advanced, Spare, ZoomTracks, Filter;
    var all := Advanced(settings, solve, st, ds);
    AdvancedScaled(settings, solve, z, st, ds);
    MatchingScaled(settings, solve, z, st.tracks, ds);
    FilterScaled(StillAlive(settings), z, all);
    FilterScaled(Expired(settings), z, all);
  }

  lemma StepScaled(env: Env, env2: Env, z: Zoom, s: RunState, s2: RunState, frame: nat, ds: seq<Detection>)
    requires z.Valid() && Zoomed(z, env.geometry, env2.geometry)
    requires env2.settings == env.settings && env2.fps == env.fps && env2.solve == env.solve
    requires SameTracking(z, s, s2) && SameMonitor(z, s.monitor, s2.monitor)
    ensures var t, t2 := FrameStep(env, s, frame, ds), FrameStep(env2, s2, frame, ZoomDetections(z, ds));
            SameTracking(z, t, t2) && SameMonitor(z, t.monitor, t2.monitor)
  {
    hide Update, Advanced, ObserveFrame, ObserveCrossings, Crossings, MarkAll, Filter, SameMonitor, Zoomed;
    var listed := Listed(env, s, ds);
    UpdateScaled(env.settings, env.solve, z, s.tracker, ds);
    CrossingsScaled(env.settings, z, env.geometry, env2.geometry, listed, frame);
    var evs, evs2 := NewEvents(env, s, frame, ds), NewEvents(env2, s2, frame, ZoomDetections(z, ds));
    assert evs2 == ZoomEvents(z, evs);
    CrossingsObservedScaled(env, env2, z, s.monitor, s2.monitor, evs);
    FrameObservedScaled(env.settings, env.geometry, env2.geometry, env.fps, z, Midway(env, s, frame, ds),
                        ObserveCrossings(env2, s2.monitor, evs2), frame, MarkAll(env.settings, env.geometry, listed), |ds|);
  }

  function ZoomFrames(z: Zoom, frames: seq<seq<Detection>>): (r: seq<seq<Detection>>)
    ensures |r| == |frames|
  {
    seq(|frames|, i requires 0 <= i < |frames| => ZoomDetections(z, frames[i]))
  }

  lemma {:induction false} RunScaled(env: Env, env2: Env, z: Zoom, frames: seq<seq<Detection>>)
    requires z.Valid() && Zoomed(z, env.geometry, env2.geometry)
    requires env2.settings == env.settings && env2.fps == env.fps && env2.solve == env.solve
    ensures var s, s2 := Run(env, frames), Run(env2, ZoomFrames(z, frames));
            SameTracking(z, s, s2) && SameMonitor(z, s.monitor, s2.monitor)
  {
    hide FrameStep, SameTracking, SameMonitor, Zoomed;
    if frames == [] {
      StartScaled(z);
    } else {
      var n := |frames| - 1;
      RunScaled(env, env2, z, frames[..n]);
      assert ZoomFrames(z, frames)[..n] == ZoomFrames(z, frames[..n]);
      StepScaled(env, env2, z, Run(env, frames[..n]), Run(env2, ZoomFrames(z, frames[..n])), n, frames[n]);
    }
  }

  lemma StartScaled(z: Zoom)
    ensures SameTracking(z, START, START) && SameMonitor(z, START.monitor, START.monitor)
  {
  }

  lemma LineScaled(settings: Settings, z: Zoom, w: nat, h: nat, w2: nat, h2: nat)
    requires w2 as real == z.x * w as real && h2 as real == z.y * h as real
    ensures Zoomed(z, ForResolution(settings, w, h), ForResolution(settings, w2, h2))
  {
    var (p, q) := settings.countingLine;
    ProductReordered(w as real, z.x, p.x, w2 as real);
    ProductReordered(h as real, z.y, p.y, h2 as real);
    ProductReordered(w as real, z.x, q.x, w2 as real);
    ProductReordered(h as real, z.y, q.y, h2 as real);
  }

  lemma ProductReordered(w: real, s: real, x: real, w2: real)
    requires w2 == s * w
    ensures w2 * x == s * (w * x)
  {
  }

  /** The configured line is normalized, so a run does not depend on the resolution: with the detections scaled by
      z, frames of size w x h and frames of size w2 x h2 = (z.x w) x (z.y h) give the same tracks up to scale, the
      same ids, count and events, and the same stall, confidence, size and double-count records; for equal factors
      the whole log agrees. */
  lemma ResolutionIndependence(settings: Settings, solve: Solver, fps: Rate, w: nat, h: nat, w2: nat, h2: nat, z: Zoom,
                               frames: seq<seq<Detection>>)
    requires z.Valid() && w2 as real == z.x * w as real && h2 as real == z.y * h as real
    ensures var s := Run(Env(settings, solve, ForResolution(settings, w, h), fps), frames);
            var s2 := Run(Env(settings, solve, ForResolution(settings, w2, h2), fps), ZoomFrames(z, frames));
            SameTracking(z, s, s2) && SameMonitor(z, s.monitor, s2.monitor)
  {
    hide Run, Zoomed;
    LineScaled(settings, z, w, h, w2, h2);
    RunScaled(Env(settings, solve, ForResolution(settings, w, h), fps), Env(settings, solve, ForResolution(settings, w2, h2), fps),
              z, frames);
  }
}
