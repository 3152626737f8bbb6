/** The automata that look at whole frames, against what they are meant to report: stalls and low confidence. */
module FrameAnomalies {
  import opened Seqs
  import opened Scene
  import opened Tracking
  import opened Counting
  import opened Monitoring
  import opened Pipeline
  import opened MonitorLog

  // ----- stall -----

  /** Smallest number of silent frames, at least one, that reaches `limit`. */
  function StallFrames(limit: real): (k: nat)
    ensures k >= 1
  {
    var up := -((-limit).Floor);
    if up >= 1 then up else 1
  }

  lemma StallFramesReach(limit: real, n: nat)
    requires n >= 1
    ensures n as real >= limit <==> n >= StallFrames(limit)
  {
    var f := (-limit).Floor;
    assert f as real <= -limit < (f + 1) as real;
    if n >= -f {
      assert n as real >= (-f) as real;
    } else {
      assert n as real <= (-f - 1) as real;
    }
  }

  /** Frames without a detection at the end of the run so far. */
  function Silence(frames: seq<seq<Detection>>): nat {
    if frames == [] || frames[|frames| - 1] != [] then 0 else Silence(frames[..|frames| - 1]) + 1
  }

  predicate SeenAny(frames: seq<seq<Detection>>) {
    exists f :: 0 <= f < |frames| && frames[f] != []
  }

  /** `Silence` is the length of the maximal run of empty frames at the end. */
  lemma {:induction false} SilenceMeaning(frames: seq<seq<Detection>>)
    ensures Silence(frames) <= |frames|
    ensures forall f | |frames| - Silence(frames) <= f < |frames| :: frames[f] == []
    ensures Silence(frames) < |frames| ==> frames[|frames| - Silence(frames) - 1] != []
    ensures SeenAny(frames) <==> Silence(frames) < |frames|
  {
    if frames == [] || frames[|frames| - 1] != [] {
    } else {
      var init := frames[..|frames| - 1];
      SilenceMeaning(init);
      assert forall f | 0 <= f < |init| :: init[f] == frames[f];
      if SeenAny(frames) {
        var f :| 0 <= f < |frames| && frames[f] != [];
        assert init[f] != [];
      }
    }
  }

  /** Frame `n` is the k-th frame of a run of empty frames that follows a frame with a detection. */
  ghost predicate StallDue(frames: seq<seq<Detection>>, n: nat, k: nat) {
    && k <= n < |frames|
    && frames[n - k] != []
    && forall f | n - k < f <= n :: frames[f] == []
  }

  lemma {:induction false} StallDueSilence(frames: seq<seq<Detection>>, k: nat)
    requires frames != [] && k >= 1
    ensures StallDue(frames, |frames| - 1, k) <==> SeenAny(frames) && Silence(frames) == k
  {
    SilenceMeaning(frames);
  }

  /** The declared records: one for each frame where a stall is due. */
  ghost function StallRecords(fps: Rate, frames: seq<seq<Detection>>, k: nat): seq<Anomaly> {
    if frames == [] then []
    else
      var n := |frames| - 1;
      StallRecords(fps, frames[..n], k) + OneIf(StallDue(frames, n, k), Record(fps, n, Stall))
  }

  ghost predicate StallKnows(s: StallState, frames: seq<seq<Detection>>, k: nat) {
    && s.since == Silence(frames)
    && s.seenEver == SeenAny(frames)
    && s.flagged == (SeenAny(frames) && Silence(frames) >= k)
  }

  lemma SeenAppend(frames: seq<seq<Detection>>)
    requires frames != []
    ensures SeenAny(frames) <==> SeenAny(frames[..|frames| - 1]) || frames[|frames| - 1] != []
  {
    var init := frames[..|frames| - 1];
    if SeenAny(init) {
      var f :| 0 <= f < |init| && init[f] != [];
      assert frames[f] != [];
    }
    if SeenAny(frames) && frames[|frames| - 1] == [] {
      var f :| 0 <= f < |frames| && frames[f] != [];
      assert init[f] != [];
    }
  }

  lemma StallAutomatonStep(s: StallState, frames: seq<seq<Detection>>, limit: real)
    requires frames != [] && StallKnows(s, frames[..|frames| - 1], StallFrames(limit))
    ensures StallKnows(StallNext(s, limit, |frames[|frames| - 1]|), frames, StallFrames(limit))
    ensures StallRaised(s, limit, |frames[|frames| - 1]|) <==> StallDue(frames, |frames| - 1, StallFrames(limit))
  {
    hide StallFrames, StallDue, SeenAny;
    SeenAppend(frames);
    StallDueSilence(frames, StallFrames(limit));
    StallFramesReach(limit, s.since + 1);
  }

  lemma StallLogStep(env: Env, s: RunState, frame: nat, dets: seq<Detection>)
    ensures var m, next := s.monitor, FrameStep(env, s, frame, dets).monitor;
            var limit := StallLimit(env.settings, env.fps);
            && next.stall == StallNext(m.stall, limit, |dets|)
            && Filter(IsStall(), next.log)
               == Filter(IsStall(), m.log) + OneIf(StallRaised(m.stall, limit, |dets|), Record(env.fps, frame, Stall))
  {
    hide FrameStep, Filter, StallRaised, LowRaised, LostIds, FreshScores, Suffix, StallLimit, StallNext, ConfidenceNext,
         NewEvents, ObserveCrossings, MarkAll, Listed;
    MonitorStep(env, s, frame, dets);
    CrossingsLeaveAlone(env, s.monitor, NewEvents(env, s, frame, dets));
    var mid, shown := Midway(env, s, frame, dets), Shown(env, s, dets);
    FrameLog(env.settings, env.geometry, env.fps, mid, frame, shown, |dets|, IsStall());
    LostFiltered(env.fps, frame, LostIds(env.settings, env.geometry, mid.reported, shown), IsStall());
  }

  /** The stall records of a run are exactly one for each silent stretch that follows a detection and lasts
      max(1, ceil(seconds * fps)) frames, placed at the frame where it has lasted that long. */
  lemma {:induction false} StallsAreDeclared(env: Env, frames: seq<seq<Detection>>)
    ensures var k := StallFrames(StallLimit(env.settings, env.fps));
            && StallKnows(Run(env, frames).monitor.stall, frames, k)
            && Filter(IsStall(), Run(env, frames).monitor.log) == StallRecords(env.fps, frames, k)
  {
    hide FrameStep, StallFrames, StallLimit, StallDue, StallRaised, StallNext, Filter;
    if frames == [] {
      FilterNoRecords();
    } else {
      var n := |frames| - 1;
      StallsAreDeclared(env, frames[..n]);
      StallLogStep(env, Run(env, frames[..n]), n, frames[n]);
      StallAutomatonStep(Run(env, frames[..n]).monitor.stall, frames, StallLimit(env.settings, env.fps));
    }
  }

  // ----- low confidence -----

  /** All matched scores of a run, in frame order and, inside a frame, in list order. */
  function MatchedScores(env: Env, frames: seq<seq<Detection>>): seq<real> {
    if frames == [] then []
    else MatchedScores(env, frames[..|frames| - 1]) + FreshScores(Run(env, frames).tracker.tracks)
  }

  lemma SuffixConcat(a: seq<real>, n: nat, b: seq<real>)
    ensures Suffix(Suffix(a, n) + b, n) == Suffix(a + b, n)
  {
  }

  /** The average of the last `w` matched scores is too low. */
  predicate AverageLow(settings: Settings, scores: seq<real>) {
    var w := settings.lowConfidenceWindow;
    w > 0 && |scores| >= w && Sum(Suffix(scores, w)) / w as real < settings.lowConfidenceThr
  }

  /** The low-confidence records of a run, declared frame by frame. */
  function LowRecords(env: Env, frames: seq<seq<Detection>>): seq<Anomaly> {
    if frames == [] then []
    else
      var n := |frames| - 1;
      var before := LowRecords(env, frames[..n]);
      before + OneIf(AverageLow(env.settings, MatchedScores(env, frames))
                     && n - LastFrame(before) > env.settings.lowConfidenceWindow,
                     Record(env.fps, n, LowConfidence))
  }

  function LastFrame(log: seq<Anomaly>): int {
    if log == [] then -1 else log[|log| - 1].frame
  }

  lemma LowLogStep(env: Env, s: RunState, frame: nat, dets: seq<Detection>)
    ensures var m, next := s.monitor, FrameStep(env, s, frame, dets);
            var scores := FreshScores(next.tracker.tracks);
            var window := Suffix(m.confidence.window + scores, env.settings.lowConfidenceWindow);
            && next.monitor.confidence == ConfidenceNext(env.settings, m.confidence, scores, frame)
            && Filter(IsLow(), next.monitor.log)
               == Filter(IsLow(), m.log)
                  + OneIf(LowRaised(env.settings, window, m.confidence.flaggedUntil, frame), Record(env.fps, frame, LowConfidence))
  {
    hide FrameStep, Filter, StallRaised, LowRaised, LostIds, FreshScores, Suffix, StallLimit, StallNext, ConfidenceNext,
         NewEvents, ObserveCrossings, MarkAll, Listed;
    MonitorStep(env, s, frame, dets);
    CrossingsLeaveAlone(env, s.monitor, NewEvents(env, s, frame, dets));
    var mid, shown := Midway(env, s, frame, dets), Shown(env, s, dets);
    FrameLog(env.settings, env.geometry, env.fps, mid, frame, shown, |dets|, IsLow());
    LostFiltered(env.fps, frame, LostIds(env.settings, env.geometry, mid.reported, shown), IsLow());
  }

  /** The confidence automaton has seen these scores and made these records. */
  ghost predicate KnowsScores(settings: Settings, m: MonitorState, scores: seq<real>, records: seq<Anomaly>) {
    && m.confidence.window == Suffix(scores, settings.lowConfidenceWindow)
    && m.confidence.flaggedUntil == LastFrame(records)
    && Filter(IsLow(), m.log) == records
  }

  lemma KnowMoreScores(settings: Settings, fps: Rate, m: MonitorState, next: MonitorState, frame: nat,
                       scores: seq<real>, more: seq<real>, records: seq<Anomaly>)
    requires KnowsScores(settings, m, scores, records)
    requires next.confidence == ConfidenceNext(settings, m.confidence, more, frame)
    requires Filter(IsLow(), next.log)
          == records
             + OneIf(LowRaised(settings, Suffix(m.confidence.window + more, settings.lowConfidenceWindow), m.confidence.flaggedUntil, frame),
                     Record(fps, frame, LowConfidence))
    ensures KnowsScores(settings, next, scores + more,
              records + OneIf(AverageLow(settings, scores + more) && frame - LastFrame(records) > settings.lowConfidenceWindow,
                              Record(fps, frame, LowConfidence)))
  {
    hide Filter;
    SuffixConcat(scores, settings.lowConfidenceWindow, more);
  }

  /** The confidence window holds the last scores matched in the run, and a record is made exactly when their
      average is too low and the previous record is more than a window length of frames ago. */
  lemma {:induction false} LowConfidenceIsDeclared(env: Env, frames: seq<seq<Detection>>)
    ensures KnowsScores(env.settings, Run(env, frames).monitor, MatchedScores(env, frames), LowRecords(env, frames))
  {
    hide FrameStep, Filter, FreshScores, Suffix, LowRaised, AverageLow, ConfidenceNext;
    if frames == [] {
      FilterNoRecords();
      EmptySuffix(env.settings.lowConfidenceWindow);
    } else {
      var n := |frames| - 1;
      var s := Run(env, frames[..n]);
      LowConfidenceIsDeclared(env, frames[..n]);
      LowLogStep(env, s, n, frames[n]);
      KnowMoreScores(env.settings, env.fps, s.monitor, Run(env, frames).monitor, n, MatchedScores(env, frames[..n]),
                     FreshScores(Run(env, frames).tracker.tracks), LowRecords(env, frames[..n]));
    }
  }

  lemma EmptySuffix(n: nat)
    ensures Suffix<real>([], n) == []
  {
  }

  /** Earliest frame of the record number `k`, counted from zero. */
  function Earliest(w: nat, k: nat): int { (w + 1) * (k + 1) - 1 }

  lemma EarliestStep(w: nat, k: nat)
    ensures Earliest(w, 0) == w
    ensures Earliest(w, k + 1) == Earliest(w, k) + w + 1
  {
  }

  /** The k-th record, counted from one, is at frame (W + 1) * k - 1 at the earliest. */
  lemma {:induction false} LowRecordsSpaced(env: Env, frames: seq<seq<Detection>>)
    ensures var r := LowRecords(env, frames);
            forall k | 0 <= k < |r| :: Earliest(env.settings.lowConfidenceWindow, k) <= r[k].frame < |frames|
  {
    hide AverageLow, Earliest, MatchedScores;
    if frames == [] {
    } else {
      LowRecordsSpaced(env, frames[..|frames| - 1]);
      var before, w := LowRecords(env, frames[..|frames| - 1]), env.settings.lowConfidenceWindow;
      EarliestStep(w, if before == [] then 0 else |before| - 1);
    }
  }

  /** At most one low-confidence record for each window length plus one of frames. */
  lemma LowConfidenceRate(env: Env, frames: seq<seq<Detection>>)
    ensures (env.settings.lowConfidenceWindow + 1) * |Filter(IsLow(), Run(env, frames).monitor.log)| <= |frames|
  {
    hide Run, Filter, LowRecords, LastFrame;
    LowConfidenceIsDeclared(env, frames);
    LowRecordsSpaced(env, frames);
    var r := LowRecords(env, frames);
    if r != [] {
      assert Earliest(env.settings.lowConfidenceWindow, |r| - 1) <= r[|r| - 1].frame;
    }
  }
}
