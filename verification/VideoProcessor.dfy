/** The frame loop, driving the tracker, the counter and the monitor over the same track objects. */
module VideoProcessor {
  import opened Seqs
  import opened Assignment
  import opened Scene
  import opened Tracking
  import opened Tracker
  import opened Counting
  import opened Monitoring
  import opened Monitor
  import opened Pipeline
  import opened MonitorLog
  import Identity

  const BANNER_FRAMES: int := 45

  /** Progress reports (done, total) after `n` frames of a video that declares `declared` frames (0: unknown). */
  function ProgressReports(declared: int, n: nat): seq<(nat, int)> {
    if n == 0 then []
    else
      ProgressReports(declared, n - 1)
      + if n % 10 == 0 || (declared != 0 && n == declared) then [(n, if declared != 0 then declared else n)] else []
  }

  lemma NoProgress(declared: int)
    ensures ProgressReports(declared, 0) == []
  {
  }

  lemma ProgressStep(declared: int, n: nat)
    requires n > 0
    ensures ProgressReports(declared, n)
         == if n % 10 == 0 || (declared != 0 && n == declared)
            then ProgressReports(declared, n - 1) + [(n, if declared != 0 then declared else n)]
            else ProgressReports(declared, n - 1)
  {
  }

  /** Is an anomaly banner due on frame `frame`: is some record of the log after it less than 45 frames old? */
  ghost predicate BannerDue(log: seq<Anomaly>, frame: nat) {
    exists k :: 0 <= k < |log| && frame - 45 < log[k].frame
  }

  /** The frame of the newest record, or long ago. */
  function NewestFrame(log: seq<Anomaly>): int { if log == [] then -10000 else log[|log| - 1].frame }

  lemma NoNewest()
    ensures NewestFrame(START.monitor.log) == -10000
  {
  }

  /** It is enough to remember the newest record. */
  lemma BannerFromNewest(env: Env, frames: seq<seq<Detection>>, n: nat)
    requires n < |frames|
    ensures var log := Run(env, frames[..n + 1]).monitor.log;
            BannerDue(log, n) <==> n - NewestFrame(log) < BANNER_FRAMES && log != []
  {
    hide Run;
    LogInFrameOrder(env, frames[..n + 1]);
    var log := Run(env, frames[..n + 1]).monitor.log;
    if log != [] && n - BANNER_FRAMES < log[|log| - 1].frame {
      assert BannerDue(log, n);
    }
  }

  /** The newest record changes only when this frame adds one. */
  lemma NewestStep(env: Env, frames: seq<seq<Detection>>, n: nat)
    requires n < |frames|
    ensures var before, log := Run(env, frames[..n]).monitor.log, Run(env, frames[..n + 1]).monitor.log;
            NewestFrame(log) == if |log| > 0 && log[|log| - 1].frame == n then n else NewestFrame(before)
  {
    hide Run, FrameStep;
    RunStep(env, frames, n);
    Identity.AlwaysRegistered(env, frames[..n]);
    LogStep(env, Run(env, frames[..n]), n, frames[n]);
  }

  datatype ProcessingResult = ProcessingResult(bagCount: nat, anomalies: seq<Anomaly>, totalFrames: nat, fps: real)

  method ReportCrossings(monitor: AnomalyMonitor, events: seq<CrossingEvent>, ghost env: Env)
    requires monitor.Valid() && env.settings == monitor.settings && env.fps == monitor.fps
    modifies monitor
    ensures monitor.Valid() && monitor.View() == ObserveCrossings(env, old(monitor.View()), events)
  {
    ghost var before := monitor.View();
    for k := 0 to |events|
      invariant monitor.Valid() && monitor.View() == ObserveCrossings(env, before, events[..k])
    {
      assert events[..k + 1][..k] == events[..k];
      monitor.ObserveCrossing(events[k]);
    }
    FullPrefix(events);
  }

  /** The body of the frame loop. */
  method ProcessFrame(tracker: BagTracker, counter: BagCounter, monitor: AnomalyMonitor, frame: nat, dets: seq<Detection>,
                      ghost env: Env, ghost s: RunState)
    requires tracker.Valid() && monitor.Valid()
    requires env == Env(tracker.settings, tracker.solve, counter.geometry, monitor.fps)
    requires counter.settings == env.settings == monitor.settings && monitor.geometry == env.geometry
    requires tracker.View() == s.tracker && counter.count == s.count && monitor.View() == s.monitor
    modifies tracker, tracker.tracks, counter, monitor
    ensures tracker.Valid() && monitor.Valid()
    ensures forall t | t in tracker.tracks :: t in old(tracker.tracks) || fresh(t)
    ensures tracker.View() == FrameStep(env, s, frame, dets).tracker
    ensures counter.count == FrameStep(env, s, frame, dets).count
    ensures monitor.View() == FrameStep(env, s, frame, dets).monitor
  {
    hide Update, MarkAll, Crossings, Monitoring.ObserveFrame, ObserveCrossings, Filter, Advanced, Distinct, Track.Valid, Track.View;
    var tracks := tracker.Update(dets);
    assert forall i | 0 <= i < |tracks| :: tracks[i] in old(tracker.tracks) || fresh(tracks[i]);
    var events := counter.Process(tracks, frame);
    ReportCrossings(monitor, events, env);
    monitor.ObserveFrame(frame, tracks, |dets|);
  }

  lemma FpsIs(fps: real)
    requires fps >= 0.0
    ensures EffectiveFps(fps) == if fps > 0.0 then fps else 25.0
  {
  }

  /** The frame loop. `frames` are the detections inside the region of interest, frame by frame. */
  method ProcessVideo(settings: Settings, solve: Solver, rawFps: real, w: nat, h: nat, declared: int,
                      frames: seq<seq<Detection>>)
    returns (result: ProcessingResult, progress: seq<(nat, int)>, banner: seq<bool>)
    requires settings.Valid() && rawFps >= 0.0
    ensures var env := Env(settings, solve, ForResolution(settings, w, h), EffectiveFps(rawFps));
            result == ProcessingResult(Run(env, frames).count, Run(env, frames).monitor.log, |frames|, env.fps)
    ensures result.fps == if rawFps > 0.0 then rawFps else 25.0
    ensures progress == ProgressReports(declared, |frames|)
    ensures var env := Env(settings, solve, ForResolution(settings, w, h), EffectiveFps(rawFps));
            |banner| == |frames|
            && forall n | 0 <= n < |frames| :: banner[n] <==> BannerDue(Run(env, frames[..n + 1]).monitor.log, n)
  {
    hide Run, FrameStep, ProgressReports, ForResolution, BannerDue, NewestFrame, ValidTracks, Views, EffectiveFps;
    FpsIs(rawFps);
    var fps: Rate := EffectiveFps(rawFps);
    var geometry := ForResolution(settings, w, h);
    var tracker := new BagTracker(settings, solve);
    var counter := new BagCounter(settings, geometry);
    var monitor := new AnomalyMonitor(settings, fps, geometry);
    ghost var env := Env(settings, solve, geometry, fps);
    var lastAnomalyFrame := -10000;
    var frameIdx := 0;
    progress, banner := [], [];
    RunStart(env, frames[..0]);
    assert NewestFrame(START.monitor.log) == lastAnomalyFrame by { NoNewest(); }
    assert ProgressReports(declared, 0) == [] by { NoProgress(declared); }
    while frameIdx < |frames|
      invariant 0 <= frameIdx <= |frames|
      invariant fresh(tracker) && fresh(counter) && fresh(monitor) && fresh(set t | t in tracker.tracks)
      invariant tracker.Valid() && env == Env(tracker.settings, tracker.solve, counter.geometry, monitor.fps)
      invariant counter.settings == env.settings == monitor.settings && monitor.geometry == env.geometry
      invariant monitor.Valid()
      invariant tracker.View() == Run(env, frames[..frameIdx]).tracker
      invariant counter.count == Run(env, frames[..frameIdx]).count
      invariant monitor.View() == Run(env, frames[..frameIdx]).monitor
      invariant progress == ProgressReports(declared, frameIdx)
      invariant lastAnomalyFrame == NewestFrame(monitor.anomalies)
      invariant |banner| == frameIdx
      invariant forall n | 0 <= n < frameIdx :: banner[n] <==> BannerDue(Run(env, frames[..n + 1]).monitor.log, n)
    {
      RunStep(env, frames, frameIdx);
      NewestStep(env, frames, frameIdx);
      BannerFromNewest(env, frames, frameIdx);
      ProcessFrame(tracker, counter, monitor, frameIdx, frames[frameIdx], env, Run(env, frames[..frameIdx]));
      if |monitor.anomalies| > 0 && monitor.anomalies[|monitor.anomalies| - 1].frame == frameIdx {
        lastAnomalyFrame := frameIdx;
      }
      banner := banner + [frameIdx - lastAnomalyFrame < BANNER_FRAMES && |monitor.anomalies| > 0];
      ProgressStep(declared, frameIdx + 1);
      frameIdx := frameIdx + 1;
      if frameIdx % 10 == 0 || (declared != 0 && frameIdx == declared) {
        progress := progress + [(frameIdx, if declared != 0 then declared else frameIdx)];
      }
    }
    FullPrefix(frames);
    result := ProcessingResult(counter.count, monitor.anomalies, frameIdx, fps);
  }
}
