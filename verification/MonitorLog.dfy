/** How one frame extends the monitor's log, kind by kind, and the order of the whole log. */
module MonitorLog {
  import opened Seqs
  import opened Scene
  import opened Tracking
  import opened Counting
  import opened Monitoring
  import opened Pipeline
  import opened Identity
  import opened ExactCount

  function IsStall(): Anomaly -> bool { (a: Anomaly) => a.kind.Stall? }

  function IsLow(): Anomaly -> bool { (a: Anomaly) => a.kind.LowConfidence? }

  function IsLost(): Anomaly -> bool { (a: Anomaly) => a.kind.LostNearLine? }

  function IsSize(): Anomaly -> bool { (a: Anomaly) => a.kind.UnusualSize? }

  function IsDouble(): Anomaly -> bool { (a: Anomaly) => a.kind.PossibleDoubleCount? }

  lemma {:induction false} FilterAll<T>(p: T -> bool, s: seq<T>)
    requires forall i | 0 <= i < |s| :: p(s[i])
    ensures Filter(p, s) == s
  {
    hide Filter;
    if s == [] {
      FilterNone(p, s);
    } else {
      var n := |s| - 1;
      FilterAll(p, s[..n]);
      FilterStep(p, s, n);
      FullPrefix(s);
      assert s[..n] + [s[n]] == s;
    }
  }

  lemma {:induction false} FilterNothing<T>(p: T -> bool, s: seq<T>)
    requires forall i | 0 <= i < |s| :: !p(s[i])
    ensures Filter(p, s) == []
  {
    hide Filter;
    if s == [] {
      FilterNone(p, s);
    } else {
      var n := |s| - 1;
      FilterNothing(p, s[..n]);
      FilterStep(p, s, n);
      FullPrefix(s);
    }
  }

  lemma FilterOneIf(p: Anomaly -> bool, b: bool, a: Anomaly)
    ensures Filter(p, OneIf(b, a)) == OneIf(b && p(a), a)
  {
    if p(a) {
      FilterAll(p, OneIf(b, a));
    } else {
      FilterNothing(p, OneIf(b, a));
    }
  }

  /** What a crossing adds to the records of one kind. */
  lemma CrossingLog(settings: Settings, fps: Rate, m: MonitorState, ev: CrossingEvent, p: Anomaly -> bool)
    ensures Filter(p, ObserveCrossing(settings, fps, m, ev).log)
         == Filter(p, m.log)
            + (OneIf(SizeRaised(settings, m.sizes, ev.area) && p(Record(fps, ev.frame, UnusualSize(ev.trackId))),
                     Record(fps, ev.frame, UnusualSize(ev.trackId)))
            + OneIf(DoubleRaised(settings, fps, m.lastCrossing, ev.frame) && p(Record(fps, ev.frame, PossibleDoubleCount(ev.trackId))),
                    Record(fps, ev.frame, PossibleDoubleCount(ev.trackId))))
  {
    hide Filter, SizeRaised, DoubleRaised, Suffix;
    var size, double := Record(fps, ev.frame, UnusualSize(ev.trackId)), Record(fps, ev.frame, PossibleDoubleCount(ev.trackId));
    var a := OneIf(SizeRaised(settings, m.sizes, ev.area), size);
    var b := OneIf(DoubleRaised(settings, fps, m.lastCrossing, ev.frame), double);
    FilterConcat(p, m.log + a, b);
    FilterConcat(p, m.log, a);
    FilterOneIf(p, SizeRaised(settings, m.sizes, ev.area), size);
    FilterOneIf(p, DoubleRaised(settings, fps, m.lastCrossing, ev.frame), double);
    Associate(Filter(p, m.log), Filter(p, a), Filter(p, b));
  }

  /** What looking at a whole frame adds to the records of one kind. */
  lemma FrameLog(settings: Settings, g: SceneGeometry, fps: Rate, m: MonitorState, frame: nat,
                 tracks: seq<Trajectory>, detections: nat, p: Anomaly -> bool)
    ensures var window := Suffix(m.confidence.window + FreshScores(tracks), settings.lowConfidenceWindow);
            var lost := LostRecords(fps, frame, LostIds(settings, g, m.reported, tracks));
            Filter(p, ObserveFrame(settings, g, fps, m, frame, tracks, detections).log)
            == Filter(p, m.log)
               + OneIf(StallRaised(m.stall, StallLimit(settings, fps), detections) && p(Record(fps, frame, Stall)),
                       Record(fps, frame, Stall))
               + OneIf(LowRaised(settings, window, m.confidence.flaggedUntil, frame) && p(Record(fps, frame, LowConfidence)),
                       Record(fps, frame, LowConfidence))
               + Filter(p, lost)
  {
    hide Filter, StallRaised, LowRaised, LostIds, FreshScores, Suffix, StallLimit, StallNext, ConfidenceNext;
    var window := Suffix(m.confidence.window + FreshScores(tracks), settings.lowConfidenceWindow);
    var raised, low := StallRaised(m.stall, StallLimit(settings, fps), detections), LowRaised(settings, window, m.confidence.flaggedUntil, frame);
    var a, b := OneIf(raised, Record(fps, frame, Stall)), OneIf(low, Record(fps, frame, LowConfidence));
    var lost := LostRecords(fps, frame, LostIds(settings, g, m.reported, tracks));
    FilterConcat(p, m.log + a + b, lost);
    FilterConcat(p, m.log + a, b);
    FilterConcat(p, m.log, a);
    FilterOneIf(p, raised, Record(fps, frame, Stall));
    FilterOneIf(p, low, Record(fps, frame, LowConfidence));
  }

  lemma LostFiltered(fps: Rate, frame: nat, ids: seq<nat>, p: Anomaly -> bool)
    requires forall id: nat :: p(Record(fps, frame, LostNearLine(id))) == p(Record(fps, frame, LostNearLine(0)))
    ensures Filter(p, LostRecords(fps, frame, ids))
         == if p(Record(fps, frame, LostNearLine(0))) then LostRecords(fps, frame, ids) else []
  {
    if p(Record(fps, frame, LostNearLine(0))) {
      FilterAll(p, LostRecords(fps, frame, ids));
    } else {
      FilterNothing(p, LostRecords(fps, frame, ids));
    }
  }

  /** Reporting crossings leaves the frame automata and their records alone. */
  lemma {:induction false} CrossingsLeaveAlone(env: Env, m: MonitorState, evs: seq<CrossingEvent>)
    ensures var n := ObserveCrossings(env, m, evs);
            && n.stall == m.stall && n.confidence == m.confidence && n.reported == m.reported
            && Filter(IsStall(), n.log) == Filter(IsStall(), m.log)
            && Filter(IsLow(), n.log) == Filter(IsLow(), m.log)
            && Filter(IsLost(), n.log) == Filter(IsLost(), m.log)
  {
    hide Filter, SizeRaised, DoubleRaised, Suffix;
    if evs == [] {
    } else {
      var before, ev := ObserveCrossings(env, m, evs[..|evs| - 1]), evs[|evs| - 1];
      CrossingsLeaveAlone(env, m, evs[..|evs| - 1]);
      CrossingLog(env.settings, env.fps, before, ev, IsStall());
      CrossingLog(env.settings, env.fps, before, ev, IsLow());
      CrossingLog(env.settings, env.fps, before, ev, IsLost());
    }
  }

  /** The monitor state in which a frame is looked at: crossings reported, frame automata as before. */
  function Midway(env: Env, s: RunState, frame: nat, dets: seq<Detection>): MonitorState {
    ObserveCrossings(env, s.monitor, NewEvents(env, s, frame, dets))
  }

  /** The tracks the monitor looks at. */
  function Shown(env: Env, s: RunState, dets: seq<Detection>): seq<Trajectory> {
    MarkAll(env.settings, env.geometry, Listed(env, s, dets))
  }

  lemma MonitorStep(env: Env, s: RunState, frame: nat, dets: seq<Detection>)
    ensures FrameStep(env, s, frame, dets).monitor
         == ObserveFrame(env.settings, env.geometry, env.fps, Midway(env, s, frame, dets), frame, Shown(env, s, dets), |dets|)
    ensures FrameStep(env, s, frame, dets).tracker.tracks == Shown(env, s, dets)
  {
  }

  /** The ids remembered as lost grow by those found in this frame. */
  lemma FrameRemembers(settings: Settings, g: SceneGeometry, fps: Rate, m: MonitorState, frame: nat,
                       tracks: seq<Trajectory>, detections: nat)
    ensures ObserveFrame(settings, g, fps, m, frame, tracks, detections).reported
         == m.reported + Elements(LostIds(settings, g, m.reported, tracks))
  {
    hide StallRaised, LowRaised, LostIds, FreshScores, Suffix, StallLimit, StallNext, ConfidenceNext;
  }

  lemma FilterNoRecords()
    ensures Filter(IsStall(), FRESH_MONITOR.log) == [] && Filter(IsLow(), FRESH_MONITOR.log) == []
    ensures Filter(IsLost(), FRESH_MONITOR.log) == []
    ensures Filter(IsSize(), FRESH_MONITOR.log) == [] && Filter(IsDouble(), FRESH_MONITOR.log) == []
  {
  }

  // ----- order of the log -----

  ghost predicate FramesAscending(log: seq<Anomaly>) {
    forall i, j | 0 <= i < j < |log| :: log[i].frame <= log[j].frame
  }

  ghost predicate FramesBelow(log: seq<Anomaly>, n: nat) {
    forall i | 0 <= i < |log| :: log[i].frame < n
  }

  /** `next` is `log` followed by records of frame `frame`. */
  ghost predicate Extends(log: seq<Anomaly>, next: seq<Anomaly>, frame: nat) {
    log <= next && forall i | |log| <= i < |next| :: next[i].frame == frame
  }

  lemma {:induction false} CrossingsExtend(env: Env, m: MonitorState, evs: seq<CrossingEvent>, frame: nat)
    requires forall k | 0 <= k < |evs| :: evs[k].frame == frame
    ensures Extends(m.log, ObserveCrossings(env, m, evs).log, frame)
  {
    hide SizeRaised, DoubleRaised, Suffix;
    if evs == [] {
    } else {
      CrossingsExtend(env, m, evs[..|evs| - 1], frame);
    }
  }

  lemma FrameExtends(settings: Settings, g: SceneGeometry, fps: Rate, m: MonitorState, frame: nat,
                     tracks: seq<Trajectory>, detections: nat)
    ensures Extends(m.log, ObserveFrame(settings, g, fps, m, frame, tracks, detections).log, frame)
  {
    hide StallRaised, LowRaised, LostIds, FreshScores, Suffix, StallLimit, StallNext, ConfidenceNext;
  }

  /** One frame of a run appends records of that frame only. */
  lemma LogStep(env: Env, s: RunState, frame: nat, dets: seq<Detection>)
    requires Registered(s)
    ensures Extends(s.monitor.log, FrameStep(env, s, frame, dets).monitor.log, frame)
  {
    hide FrameStep, NewEvents, ObserveFrame, ObserveCrossings;
    MonitorStep(env, s, frame, dets);
    NewEventIds(env, s, frame, dets);
    CrossingsExtend(env, s.monitor, NewEvents(env, s, frame, dets), frame);
    FrameExtends(env.settings, env.geometry, env.fps, Midway(env, s, frame, dets), frame, Shown(env, s, dets), |dets|);
  }

  /** All kinds of anomalies together are logged in frame order. */
  lemma {:induction false} LogInFrameOrder(env: Env, frames: seq<seq<Detection>>)
    ensures FramesAscending(Run(env, frames).monitor.log)
    ensures FramesBelow(Run(env, frames).monitor.log, |frames|)
  {
    hide FrameStep;
    if frames == [] {
    } else {
      var n := |frames| - 1;
      LogInFrameOrder(env, frames[..n]);
      AlwaysRegistered(env, frames[..n]);
      LogStep(env, Run(env, frames[..n]), n, frames[n]);
    }
  }

  // ----- what a record says about itself -----

  /** The time stamp is the frame number over the frame rate, and the severity is that of the kind. */
  ghost predicate Stamped(fps: Rate, a: Anomaly) {
    && a.timestampSec * fps == a.frame as real
    && a.severity == match a.kind
                     case LowConfidence => Info
                     case PossibleDoubleCount(_) => Critical
                     case _ => Warning
  }

  lemma RecordStamped(fps: Rate, frame: nat, kind: Kind)
    ensures Stamped(fps, Record(fps, frame, kind))
  {
  }

  ghost predicate AllStamped(fps: Rate, log: seq<Anomaly>) { forall i | 0 <= i < |log| :: Stamped(fps, log[i]) }

  lemma {:induction false} CrossingsStamped(env: Env, m: MonitorState, evs: seq<CrossingEvent>)
    requires AllStamped(env.fps, m.log)
    ensures AllStamped(env.fps, ObserveCrossings(env, m, evs).log)
  {
    hide SizeRaised, DoubleRaised, Suffix, Stamped, Record;
    if evs == [] {
    } else {
      var ev := evs[|evs| - 1];
      CrossingsStamped(env, m, evs[..|evs| - 1]);
      RecordStamped(env.fps, ev.frame, UnusualSize(ev.trackId));
      RecordStamped(env.fps, ev.frame, PossibleDoubleCount(ev.trackId));
    }
  }

  lemma FrameStamped(settings: Settings, g: SceneGeometry, fps: Rate, m: MonitorState, frame: nat,
                     tracks: seq<Trajectory>, detections: nat)
    requires AllStamped(fps, m.log)
    ensures AllStamped(fps, ObserveFrame(settings, g, fps, m, frame, tracks, detections).log)
  {
    hide StallRaised, LowRaised, LostIds, FreshScores, Suffix, StallLimit, StallNext, ConfidenceNext, Stamped, Record;
    RecordStamped(fps, frame, Stall);
    RecordStamped(fps, frame, LowConfidence);
    forall id: nat
      ensures Stamped(fps, Record(fps, frame, LostNearLine(id)))
    {
      RecordStamped(fps, frame, LostNearLine(id));
    }
  }

  /** Every record of every run has the time of its frame and the severity of its kind. */
  lemma {:induction false} LogStamped(env: Env, frames: seq<seq<Detection>>)
    ensures AllStamped(env.fps, Run(env, frames).monitor.log)
  {
    hide FrameStep, NewEvents, ObserveFrame, ObserveCrossings, Stamped;
    if frames == [] {
    } else {
      var n := |frames| - 1;
      var s := Run(env, frames[..n]);
      LogStamped(env, frames[..n]);
      MonitorStep(env, s, n, frames[n]);
      CrossingsStamped(env, s.monitor, NewEvents(env, s, n, frames[n]));
      FrameStamped(env.settings, env.geometry, env.fps, Midway(env, s, n, frames[n]), n, Shown(env, s, frames[n]), |frames[n]|);
    }
  }
}
