/** Low confidence from the detections to the log: which scores are averaged, and exactly when a record is made. */
module ConfidenceRuns {
  import opened Seqs
  import opened Geometry
  import opened Scene
  import opened Tracking
  import opened Monitoring
  import opened Pipeline
  import opened Ledger
  import opened MonitorLog
  import opened Matches
  import opened FrameAnomalies
  import opened AnomalyTexts

  // ----- whose scores are collected -----

  function Scores(dets: seq<Detection>): (r: seq<real>)
    ensures |r| == |dets|
  {
    seq(|dets|, i requires 0 <= i < |dets| => dets[i].score)
  }

  /** The scores of all detections of a run. */
  function AllScores(frames: seq<seq<Detection>>): seq<real> {
    if frames == [] then [] else AllScores(frames[..|frames| - 1]) + Scores(frames[|frames| - 1])
  }

  lemma {:induction false} NoneFresh(tracks: seq<Trajectory>)
    requires forall i | 0 <= i < |tracks| :: tracks[i].misses != 0
    ensures FreshScores(tracks) == []
  {
    if tracks == [] {
    } else {
      NoneFresh(tracks[..|tracks| - 1]);
    }
  }

  lemma FreshLast(tracks: seq<Trajectory>)
    requires tracks != []
    ensures var n := |tracks| - 1;
            multiset(FreshScores(tracks))
            == multiset(FreshScores(tracks[..n]))
               + if tracks[n].misses == 0 then multiset{Last(tracks[n].sightings).score} else multiset{}
  {
  }

  /** One track less that is up to date is one score less. */
  lemma {:induction false} OneLessFresh(tracks: seq<Trajectory>, p: nat)
    requires p < |tracks| && tracks[p].misses == 0
    ensures multiset(FreshScores(tracks))
         == multiset(FreshScores(tracks[p := tracks[p].(misses := 1)])) + multiset{Last(tracks[p].sightings).score}
  {
    hide FreshScores, Last;
    var n, stale := |tracks| - 1, tracks[p := tracks[p].(misses := 1)];
    FreshLast(tracks);
    FreshLast(stale);
    if p == n {
      assert stale[..n] == tracks[..n];
    } else {
      OneLessFresh(tracks[..n], p);
      assert stale[..n] == tracks[..n][p := tracks[p].(misses := 1)];
    }
  }

  lemma FewerSlots(tracks: seq<Trajectory>, dets: seq<Detection>, slot: seq<nat>)
    requires Slots(tracks, dets, slot) && dets != []
    ensures |slot| == |dets|
    ensures var m := |dets| - 1;
            slot[m] < |tracks| && Holds(tracks[slot[m]], dets[m])
            && Slots(tracks[slot[m] := tracks[slot[m]].(misses := 1)], dets[..m], slot[..m])
  {
    hide Last;
    var m := |dets| - 1;
    var stale := tracks[slot[m] := tracks[slot[m]].(misses := 1)];
    forall i: nat | i < |stale| && stale[i].misses == 0
      ensures i in slot[..m]
    {
      assert i in slot;
      var j :| 0 <= j < |slot| && slot[j] == i;
      assert slot[..m][j] == i;
    }
  }

  lemma {:induction false} SlotScores(tracks: seq<Trajectory>, dets: seq<Detection>, slot: seq<nat>)
    requires Slots(tracks, dets, slot)
    ensures multiset(FreshScores(tracks)) == multiset(Scores(dets))
    decreases |dets|
  {
    hide Slots, FreshScores;
    if dets == [] {
      assert forall i | 0 <= i < |tracks| :: tracks[i].misses != 0 by { NoSlots(tracks, slot); }
      NoneFresh(tracks);
    } else {
      var m := |dets| - 1;
      FewerSlots(tracks, dets, slot);
      SlotScores(tracks[slot[m] := tracks[slot[m]].(misses := 1)], dets[..m], slot[..m]);
      OneLessFresh(tracks, slot[m]);
      assert Scores(dets) == Scores(dets[..m]) + [dets[m].score];
    }
  }

  lemma NoSlots(tracks: seq<Trajectory>, slot: seq<nat>)
    requires Slots(tracks, [], slot)
    ensures forall i | 0 <= i < |tracks| :: tracks[i].misses != 0
  {
  }

  /** In every run the scores collected up to any frame are those of the detections up to it, each once. */
  lemma {:induction false} CollectedScores(env: Env, frames: seq<seq<Detection>>)
    ensures multiset(MatchedScores(env, frames)) == multiset(AllScores(frames))
  {
    hide Run, FreshScores, Slots;
    if frames == [] {
    } else {
      var n := |frames| - 1;
      CollectedScores(env, frames[..n]);
      FullPrefix(frames);
      var slot := FrameBijection(env, frames, n);
      SlotScores(Run(env, frames).tracker.tracks, frames[n], slot);
    }
  }

  // ----- when a record is made -----

  /** The log of the run has a low-confidence record of frame `n`. */
  ghost predicate LowAt(env: Env, frames: seq<seq<Detection>>, n: int) {
    exists a | a in Run(env, frames).monitor.log :: a.kind == LowConfidence && a.frame == n
  }

  ghost predicate RecordOf(records: seq<Anomaly>, n: int) { exists a | a in records :: a.frame == n }

  lemma {:induction false} LowKind(env: Env, frames: seq<seq<Detection>>)
    ensures forall a | a in LowRecords(env, frames) :: a.kind == LowConfidence
    ensures forall a | a in LowRecords(env, frames) :: a.frame <= LastFrame(LowRecords(env, frames)) < |frames|
  {
    hide AverageLow, MatchedScores;
    if frames == [] {
    } else {
      LowKind(env, frames[..|frames| - 1]);
    }
  }

  lemma LowAtRecord(env: Env, frames: seq<seq<Detection>>, n: int)
    ensures LowAt(env, frames, n) <==> RecordOf(LowRecords(env, frames), n)
  {
    hide Run, LowRecords, MatchedScores;
    LowConfidenceIsDeclared(env, frames);
    LowKind(env, frames);
    var log := Run(env, frames).monitor.log;
    if LowAt(env, frames, n) {
      var a :| a in log && a.kind == LowConfidence && a.frame == n;
      assert a in Filter(IsLow(), log);
    }
    if RecordOf(LowRecords(env, frames), n) {
      var a :| a in Filter(IsLow(), log) && a.frame == n;
    }
  }

  /** Later frames leave the records of earlier ones alone. */
  lemma {:induction false} RecordsStay(env: Env, frames: seq<seq<Detection>>, k: nat, n: int)
    requires n < k <= |frames|
    ensures RecordOf(LowRecords(env, frames), n) <==> RecordOf(LowRecords(env, frames[..k]), n)
  {
    hide AverageLow, MatchedScores, LastFrame;
    if k == |frames| {
      FullPrefix(frames);
    } else {
      var last := |frames| - 1;
      RecordsStay(env, frames[..last], k, n);
      assert frames[..last][..k] == frames[..k];
      var before := LowRecords(env, frames[..last]);
      if RecordOf(before, n) {
        var a :| a in before && a.frame == n;
        assert a in LowRecords(env, frames);
      }
    }
  }

  /** Whether a frame has a record is decided by the run up to it. */
  lemma RecordDue(env: Env, frames: seq<seq<Detection>>, n: nat)
    requires n < |frames|
    ensures RecordOf(LowRecords(env, frames), n)
       <==> AverageLow(env.settings, MatchedScores(env, frames[..n + 1]))
            && n - LastFrame(LowRecords(env, frames[..n])) > env.settings.lowConfidenceWindow
  {
    hide AverageLow, MatchedScores, LastFrame;
    RecordsStay(env, frames, n + 1, n);
    LowKind(env, frames[..n]);
    var so, before := frames[..n + 1], LowRecords(env, frames[..n]);
    assert so[..n] == frames[..n];
    var due := AverageLow(env.settings, MatchedScores(env, so)) && n - LastFrame(before) > env.settings.lowConfidenceWindow;
    assert LowRecords(env, so) == before + OneIf(due, Record(env.fps, n, LowConfidence));
    if due {
      assert Record(env.fps, n, LowConfidence) in LowRecords(env, so);
    }
  }

  /** The last record is long enough ago exactly when no frame of the last W has one, and W frames have passed. */
  lemma LongAgo(env: Env, frames: seq<seq<Detection>>, n: nat)
    requires n < |frames|
    ensures var w := env.settings.lowConfidenceWindow;
            n - LastFrame(LowRecords(env, frames[..n])) > w
            <==> n >= w && forall f | n - w <= f < n :: !LowAt(env, frames, f)
  {
    hide LowAt, LowRecords;
    var w, before := env.settings.lowConfidenceWindow, LowRecords(env, frames[..n]);
    LowKind(env, frames[..n]);
    forall f: int | f < n
      ensures LowAt(env, frames, f) <==> RecordOf(before, f)
    {
      LowAtRecord(env, frames, f);
      RecordsStay(env, frames, n, f);
    }
    if before != [] {
      var last := before[|before| - 1];
      assert last in before && RecordOf(before, last.frame);
    }
  }

  /** In every run there is a low-confidence record of frame `n` if and only if W scores have been collected, the last W
      of them add up to less than W times the threshold, W frames have passed, and none of these has a record. */
  lemma LowConfidenceIff(env: Env, frames: seq<seq<Detection>>, n: nat)
    requires n < |frames| && env.settings.Valid()
    ensures var w, scores := env.settings.lowConfidenceWindow, MatchedScores(env, frames[..n + 1]);
            LowAt(env, frames, n)
            <==> |scores| >= w && Sum(scores[|scores| - w..]) < env.settings.lowConfidenceThr * w as real
                 && n >= w && forall f | n - w <= f < n :: !LowAt(env, frames, f)
  {
    hide LowAt, RecordOf, LowRecords, MatchedScores, LastFrame;
    var w, scores := env.settings.lowConfidenceWindow, MatchedScores(env, frames[..n + 1]);
    LowAtRecord(env, frames, n);
    RecordDue(env, frames, n);
    LongAgo(env, frames, n);
    if |scores| >= w {
      assert Suffix(scores, w) == scores[|scores| - w..];
      QuotientOrder(Sum(Suffix(scores, w)), w as real, env.settings.lowConfidenceThr);
    }
  }

  /** So nothing is reported while the last W scores are at or above the threshold, and when they are all below it,
      something is reported at least once in W + 1 frames. */
  lemma LastScoresDecide(env: Env, frames: seq<seq<Detection>>, n: nat)
    requires n < |frames| && env.settings.Valid()
    requires |MatchedScores(env, frames[..n + 1])| >= env.settings.lowConfidenceWindow
    ensures var w, scores := env.settings.lowConfidenceWindow, MatchedScores(env, frames[..n + 1]);
            && ((forall i | |scores| - w <= i < |scores| :: scores[i] >= env.settings.lowConfidenceThr)
                ==> !LowAt(env, frames, n))
            && ((forall i | |scores| - w <= i < |scores| :: scores[i] < env.settings.lowConfidenceThr)
                ==> n >= w ==> exists f | n - w <= f <= n :: LowAt(env, frames, f))
  {
    hide LowAt, MatchedScores, Sum;
    var w, scores := env.settings.lowConfidenceWindow, MatchedScores(env, frames[..n + 1]);
    LowConfidenceIff(env, frames, n);
    SumBounds(scores[|scores| - w..], env.settings.lowConfidenceThr);
  }

  /** Scores that are all on one side of a bound: so is the sum of the last `w`, compared with `w` times the bound. */
  lemma LastSum(scores: seq<real>, w: nat, thr: real)
    requires 1 <= w <= |scores|
    ensures (forall i | 0 <= i < |scores| :: scores[i] >= thr) ==> Sum(scores[|scores| - w..]) >= thr * w as real
    ensures (forall i | 0 <= i < |scores| :: scores[i] < thr) ==> Sum(scores[|scores| - w..]) < thr * w as real
  {
    hide Sum;
    SumBounds(scores[|scores| - w..], thr);
  }

  lemma {:induction false} ScoreIsDetected(frames: seq<seq<Detection>>, x: real)
    requires x in AllScores(frames)
    ensures exists f, j :: 0 <= f < |frames| && 0 <= j < |frames[f]| && frames[f][j].score == x
  {
    var n := |frames| - 1;
    if x in AllScores(frames[..n]) {
      ScoreIsDetected(frames[..n], x);
      var f, j :| 0 <= f < n && 0 <= j < |frames[..n][f]| && frames[..n][f][j].score == x;
      assert frames[f][j].score == x;
    } else {
      var j :| 0 <= j < |frames[n]| && Scores(frames[n])[j] == x;
      assert frames[n][j].score == x;
    }
  }

  lemma CollectedIsDetected(env: Env, frames: seq<seq<Detection>>, i: nat)
    requires i < |MatchedScores(env, frames)|
    ensures exists f, j :: 0 <= f < |frames| && 0 <= j < |frames[f]| && frames[f][j].score == MatchedScores(env, frames)[i]
  {
    hide MatchedScores, AllScores;
    var x := MatchedScores(env, frames)[i];
    CollectedScores(env, frames);
    assert x in multiset(MatchedScores(env, frames));
    assert x in multiset(AllScores(frames));
    ScoreIsDetected(frames, x);
  }

  /** As long as every detection is at or above the threshold, nothing is reported. */
  lemma ConfidentVideo(env: Env, frames: seq<seq<Detection>>, n: nat)
    requires n < |frames| && env.settings.Valid()
    requires forall f, j | 0 <= f <= n && 0 <= j < |frames[f]| :: frames[f][j].score >= env.settings.lowConfidenceThr
    ensures !LowAt(env, frames, n)
  {
    hide LowAt, MatchedScores, Sum;
    var scores := MatchedScores(env, frames[..n + 1]);
    LowConfidenceIff(env, frames, n);
    if |scores| >= env.settings.lowConfidenceWindow {
      forall i | 0 <= i < |scores|
        ensures scores[i] >= env.settings.lowConfidenceThr
      {
        CollectedIsDetected(env, frames[..n + 1], i);
      }
      LastSum(scores, env.settings.lowConfidenceWindow, env.settings.lowConfidenceThr);
    }
  }

  /** As long as every detection is below the threshold, a frame has a record if and only if there have been W detections
      and W frames, and none of the last W frames has a record. */
  lemma DimVideo(env: Env, frames: seq<seq<Detection>>, n: nat)
    requires n < |frames| && env.settings.Valid()
    requires forall f, j | 0 <= f <= n && 0 <= j < |frames[f]| :: frames[f][j].score < env.settings.lowConfidenceThr
    ensures var w := env.settings.lowConfidenceWindow;
            LowAt(env, frames, n)
            <==> Detections(frames[..n + 1]) >= w && n >= w && forall f | n - w <= f < n :: !LowAt(env, frames, f)
  {
    hide LowAt, MatchedScores, Sum, Detections;
    var scores := MatchedScores(env, frames[..n + 1]);
    LowConfidenceIff(env, frames, n);
    ScoresAreDetections(env, frames[..n + 1]);
    if |scores| >= env.settings.lowConfidenceWindow {
      forall i | 0 <= i < |scores|
        ensures scores[i] < env.settings.lowConfidenceThr
      {
        CollectedIsDetected(env, frames[..n + 1], i);
      }
      LastSum(scores, env.settings.lowConfidenceWindow, env.settings.lowConfidenceThr);
    }
  }

  // ----- when a record is possible at all -----

  /** Every detection has at least this score. */
  ghost predicate ScoredFrom(frames: seq<seq<Detection>>, low: real) {
    forall f, j | 0 <= f < |frames| && 0 <= j < |frames[f]| :: frames[f][j].score >= low
  }

  ghost predicate NeverLow(env: Env, low: real) {
    forall frames: seq<seq<Detection>>, n: nat | ScoredFrom(frames, low) && n < |frames| :: !LowAt(env, frames, n)
  }

  /** `n` frames with one and the same detection. */
  function Dull(d: Detection, n: nat): (frames: seq<seq<Detection>>)
    ensures |frames| == n && forall f | 0 <= f < n :: frames[f] == [d]
  {
    seq(n, f => [d])
  }

  lemma {:induction false} DullDetections(d: Detection, n: nat)
    ensures Detections(Dull(d, n)) == n
  {
    if n == 0 {
    } else {
      assert Dull(d, n)[..n - 1] == Dull(d, n - 1);
      DullDetections(d, n - 1);
    }
  }

  /** Low confidence is reported in frame W of a video that shows one thing below the threshold. */
  lemma DullIsReported(env: Env, d: Detection)
    requires env.settings.Valid() && d.score < env.settings.lowConfidenceThr
    ensures var w := env.settings.lowConfidenceWindow; LowAt(env, Dull(d, w + 1), w)
  {
    hide LowAt, Detections;
    var w := env.settings.lowConfidenceWindow;
    var frames := Dull(d, w + 1);
    assert frames[..w + 1] == frames;
    DullDetections(d, w + 1);
    DimVideo(env, frames, w);
    forall f: int | 0 <= f < w
      ensures !LowAt(env, frames, f)
    {
      DimVideo(env, frames, f);
    }
  }

  /** A detector that drops everything below a score of its own keeps low confidence from ever being reported if and only
      if that score is at least the threshold of the report. */
  lemma NeverLowIff(env: Env, low: real)
    requires env.settings.Valid()
    ensures NeverLow(env, low) <==> low >= env.settings.lowConfidenceThr
  {
    hide LowAt;
    if low >= env.settings.lowConfidenceThr {
      forall frames: seq<seq<Detection>>, n: nat | ScoredFrom(frames, low) && n < |frames|
        ensures !LowAt(env, frames, n)
      {
        ConfidentVideo(env, frames, n);
      }
    } else {
      var d := Detection(Box(0.0, 0.0, 1.0, 1.0), low);
      var w := env.settings.lowConfidenceWindow;
      DullIsReported(env, d);
      assert ScoredFrom(Dull(d, w + 1), low);
    }
  }

  /** The program ships with 0.35 for the detector and 0.30 for the report: low confidence is never reported. */
  lemma ShippedNeverLow(env: Env)
    requires env.settings == SHIPPED
    ensures NeverLow(env, 0.35)
  {
    NeverLowIff(env, 0.35);
  }
}
