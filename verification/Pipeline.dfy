/** One run over a video as a value: what each frame does to the tracks, the count and the monitor. */
module Pipeline {
  import opened Seqs
  import opened Assignment
  import opened Scene
  import opened Tracking
  import opened Counting
  import opened Monitoring

  /** What stays the same during a run. */
  datatype Env = Env(settings: Settings, solve: Solver, geometry: SceneGeometry, fps: Rate)

  /** Everything a run has produced so far. `retired` are the tracks that have been dropped. */
  datatype RunState = RunState(
    tracker: TrackerState,
    retired: seq<Trajectory>,
    count: nat,
    events: seq<CrossingEvent>,
    monitor: MonitorState
  )

  const START := RunState(TrackerState([], 1), [], 0, [], FRESH_MONITOR)

  function ObserveCrossings(env: Env, m: MonitorState, evs: seq<CrossingEvent>): MonitorState {
    if evs == [] then m
    else ObserveCrossing(env.settings, env.fps, ObserveCrossings(env, m, evs[..|evs| - 1]), evs[|evs| - 1])
  }

  /** Tracks listed by the tracker in this frame, before they are counted. */
  function Listed(env: Env, s: RunState, dets: seq<Detection>): seq<Trajectory> {
    Update(env.settings, env.solve, s.tracker, dets).tracks
  }

  function NewEvents(env: Env, s: RunState, frame: nat, dets: seq<Detection>): seq<CrossingEvent> {
    Crossings(env.settings, env.geometry, Listed(env, s, dets), frame)
  }

  /** One frame: update the tracks, count crossings, report each crossing, then look at the frame as a whole. */
  function FrameStep(env: Env, s: RunState, frame: nat, dets: seq<Detection>): RunState {
    var tracker := Update(env.settings, env.solve, s.tracker, dets);
    var counted := MarkAll(env.settings, env.geometry, tracker.tracks);
    var evs := NewEvents(env, s, frame, dets);
    RunState(
      TrackerState(counted, tracker.nextId),
      s.retired + Filter(Expired(env.settings), Advanced(env.settings, env.solve, s.tracker, dets)),
      s.count + |evs|,
      s.events + evs,
      ObserveFrame(env.settings, env.geometry, env.fps, ObserveCrossings(env, s.monitor, evs), frame, counted, |dets|))
  }

  /** A whole run: frame number i brings the detections `frames[i]` inside the region of interest. */
  function Run(env: Env, frames: seq<seq<Detection>>): RunState {
    if frames == [] then START
    else FrameStep(env, Run(env, frames[..|frames| - 1]), |frames| - 1, frames[|frames| - 1])
  }

  lemma RunStep(env: Env, frames: seq<seq<Detection>>, i: nat)
    requires i < |frames|
    ensures Run(env, frames[..i + 1]) == FrameStep(env, Run(env, frames[..i]), i, frames[i])
  {
    assert frames[..i + 1][..i] == frames[..i];
  }

  lemma RunStart(env: Env, frames: seq<seq<Detection>>)
    requires frames == []
    ensures Run(env, frames) == START
  {
  }

  lemma {:induction false} KeepAll(settings: Settings, ts: seq<Trajectory>)
    requires forall i | 0 <= i < |ts| :: ts[i].misses == 0
    ensures Filter(StillAlive(settings), ts) == ts
  {
    if ts == [] {
    } else {
      var init, last := ts[..|ts| - 1], ts[|ts| - 1];
      KeepAll(settings, init);
      assert StillAlive(settings)(last);
      assert ts == init + [last];
    }
  }

  function Newborn(dets: seq<Detection>): (r: seq<Trajectory>)
    ensures |r| == |dets|
  {
    seq(|dets|, k requires 0 <= k < |dets| => Born(k + 1, dets[k]))
  }

  lemma FirstUpdate(settings: Settings, solve: Solver, dets: seq<Detection>)
    ensures Advanced(settings, solve, START.tracker, dets) == Newborn(dets)
    ensures |Spare(settings, solve, START.tracker.tracks, dets)| == |dets|
  {
    UnusedAll(|dets|);
    var kept := Matching(settings, solve, START.tracker.tracks, dets);
    assert kept.Values == {};
    assert Carried([], dets, kept) == [];
  }

  /** The first frame of a video makes a track of every detection. */
  lemma FirstFrame(env: Env, dets: seq<Detection>)
    ensures Run(env, [dets]).tracker == TrackerState(Newborn(dets), |dets| + 1)
  {
    hide ObserveFrame, ObserveCrossings, Crossings, JustCrossed, Advanced, Spare, Filter;
    FirstUpdate(env.settings, env.solve, dets);
    KeepAll(env.settings, Newborn(dets));
    assert MarkAll(env.settings, env.geometry, Newborn(dets)) == Newborn(dets);
    assert [dets][..0] == [];
  }
}
