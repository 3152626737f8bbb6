/** Conservation over a run: every detection becomes exactly one hit of exactly one track, and the
    number of live tracks is bounded by the detections of the last frames. */
module Ledger {
  import opened Seqs
  import opened Totals
  import opened Assignment
  import opened Scene
  import opened Tracking
  import opened Counting
  import opened Monitoring
  import opened Pipeline

  function HitsOf(): Trajectory -> nat { (t: Trajectory) => |t.sightings| }

  function One(): Trajectory -> nat { (t: Trajectory) => 1 }

  /** 1 for a track that has gone `k` frames without a match. */
  function Missing(k: nat): Trajectory -> nat { (t: Trajectory) => if t.misses == k then 1 else 0 }

  function CountedOf(): Trajectory -> nat { (t: Trajectory) => if t.counted then 1 else 0 }

  function Detections(frames: seq<seq<Detection>>): nat {
    if frames == [] then 0 else Detections(frames[..|frames| - 1]) + |frames[|frames| - 1]|
  }

  // ----- one update -----

  lemma {:induction false} UnusedSize(n: nat, used: set<nat>)
    requires forall j | j in used :: j < n
    ensures |Unused(n, used)| + |used| == n
  {
    hide Increasing;
    if n == 0 {
      assert used == {};
    } else {
      UnusedSkips(n - 1, used);
      UnusedSize(n - 1, used - {n - 1});
      if n - 1 in used {
        assert |used - {n - 1}| == |used| - 1;
      } else {
        assert used - {n - 1} == used;
      }
    }
  }

  lemma {:induction false} UnusedSkips(n: nat, used: set<nat>)
    ensures Unused(n, used) == Unused(n, used - {n})
  {
    UnusedAgree(n, used, used - {n});
  }

  lemma {:induction false} UnusedAgree(n: nat, used: set<nat>, same: set<nat>)
    requires forall j: nat | j < n :: j in used <==> j in same
    ensures Unused(n, used) == Unused(n, same)
  {
    hide Increasing;
    if n == 0 {
    } else {
      UnusedAgree(n - 1, used, same);
    }
  }

  /** Matched and spare detections partition the frame. */
  lemma DetectionsSplit(settings: Settings, solve: Solver, tracks: seq<Trajectory>, dets: seq<Detection>)
    ensures var kept := Matching(settings, solve, tracks, dets);
            |kept.Keys| + |Spare(settings, solve, tracks, dets)| == |dets|
  {
    var kept := Matching(settings, solve, tracks, dets);
    InjectiveSize(kept);
    UnusedSize(|dets|, kept.Values);
  }

  /** A weight that grows by one on a match, not at all on a miss, and is one at birth, grows by the number of detections. */
  lemma WeightAdvanced(settings: Settings, solve: Solver, st: TrackerState, dets: seq<Detection>,
                       f: Trajectory -> nat, g: Trajectory -> nat)
    requires forall t: Trajectory, d: Detection :: f(t.Aged().Seen(d)) == g(t) + 1
    requires forall t: Trajectory :: f(t.Aged().Missed()) == g(t)
    requires forall id: nat, d: Detection :: f(Born(id, d)) == 1
    ensures SumOf(f, Advanced(settings, solve, st, dets)) == SumOf(g, st.tracks) + |dets|
  {
    hide Matching, Spare;
    var kept := Matching(settings, solve, st.tracks, dets);
    var carried := Carried(st.tracks, dets, kept);
    var born := Births(st.nextId, dets, Spare(settings, solve, st.tracks, dets));
    SumExtra(f, carried, g, st.tracks, kept.Keys);
    SumConstant(f, born, 1);
    SumConcat(f, carried, born);
    DetectionsSplit(settings, solve, st.tracks, dets);
  }

  function Nothing(): Trajectory -> nat { (t: Trajectory) => 0 }

  /** After an update exactly as many tracks are up to date as there were detections. */
  lemma UpToDate(settings: Settings, solve: Solver, st: TrackerState, dets: seq<Detection>)
    ensures SumOf(Missing(0), Advanced(settings, solve, st, dets)) == |dets|
  {
    WeightAdvanced(settings, solve, st, dets, Missing(0), Nothing());
    SumConstant(Nothing(), st.tracks, 0);
  }

  /** Nobody enters the ranks of the missing except from the previous rank. */
  lemma FallBehind(settings: Settings, solve: Solver, st: TrackerState, dets: seq<Detection>, k: nat)
    ensures SumOf(Missing(k + 1), Advanced(settings, solve, st, dets)) <= SumOf(Missing(k), st.tracks)
  {
    hide Matching, Spare;
    var carried := Carried(st.tracks, dets, Matching(settings, solve, st.tracks, dets));
    var born := Births(st.nextId, dets, Spare(settings, solve, st.tracks, dets));
    SumLess(Missing(k + 1), carried, Missing(k), st.tracks);
    SumConstant(Missing(k + 1), born, 0);
    SumConcat(Missing(k + 1), carried, born);
  }

  /** Counting changes no weight that does not look at the counted flag. */
  lemma WeightMarked(settings: Settings, g: SceneGeometry, tracks: seq<Trajectory>, f: Trajectory -> nat)
    requires forall t: Trajectory :: f(t.(counted := true)) == f(t)
    ensures SumOf(f, MarkAll(settings, g, tracks)) == SumOf(f, tracks)
  {
    SumExtra(f, MarkAll(settings, g, tracks), f, tracks, {});
  }

  // ----- whole runs -----

  /** The sum of hits over all tracks ever created, live and dropped, is the number of detections fed in. */
  lemma {:induction false} HitsAreDetections(env: Env, frames: seq<seq<Detection>>)
    ensures var s := Run(env, frames);
            SumOf(HitsOf(), s.tracker.tracks) + SumOf(HitsOf(), s.retired) == Detections(frames)
  {
    if frames == [] {
    } else {
      var n := |frames| - 1;
      HitsAreDetections(env, frames[..n]);
      var s, dets := Run(env, frames[..n]), frames[n];
      var all := Advanced(env.settings, env.solve, s.tracker, dets);
      WeightAdvanced(env.settings, env.solve, s.tracker, dets, HitsOf(), HitsOf());
      SumSplit(HitsOf(), StillAlive(env.settings), Expired(env.settings), all);
      WeightMarked(env.settings, env.geometry, Listed(env, s, dets), HitsOf());
      SumConcat(HitsOf(), s.retired, Filter(Expired(env.settings), all));
    }
  }

  /** The number of tracks ever created is the number of ids handed out. */
  lemma {:induction false} TracksAreIds(env: Env, frames: seq<seq<Detection>>)
    ensures var s := Run(env, frames);
            |s.tracker.tracks| + |s.retired| + 1 == s.tracker.nextId
  {
    if frames == [] {
    } else {
      var n := |frames| - 1;
      TracksAreIds(env, frames[..n]);
      var s, dets := Run(env, frames[..n]), frames[n];
      var all := Advanced(env.settings, env.solve, s.tracker, dets);
      SumSplit(One(), StillAlive(env.settings), Expired(env.settings), all);
      SumConstant(One(), Filter(StillAlive(env.settings), all), 1);
      SumConstant(One(), Filter(Expired(env.settings), all), 1);
      SumConstant(One(), all, 1);
    }
  }

  /** Detections of the frame `k` frames before the last one, if there was such a frame. */
  function DetectionsAgo(frames: seq<seq<Detection>>, k: nat): nat {
    if k < |frames| then |frames[|frames| - 1 - k]| else 0
  }

  lemma MissingStep(env: Env, s: RunState, frame: nat, dets: seq<Detection>, k: nat)
    ensures var next := FrameStep(env, s, frame, dets).tracker.tracks;
            && SumOf(Missing(k + 1), next) <= SumOf(Missing(k), s.tracker.tracks)
            && SumOf(Missing(0), next) == |dets|
            && (k >= env.settings.trackerMaxAge ==> SumOf(Missing(k + 1), next) == 0)
  {
    hide ObserveFrame, ObserveCrossings, Crossings, Advanced, MarkAll;
    var all, listed := Advanced(env.settings, env.solve, s.tracker, dets), Listed(env, s, dets);
    WeightMarked(env.settings, env.geometry, listed, Missing(0));
    WeightMarked(env.settings, env.geometry, listed, Missing(k + 1));
    UpToDate(env.settings, env.solve, s.tracker, dets);
    FallBehind(env.settings, env.solve, s.tracker, dets, k);
    SumSplit(Missing(k + 1), StillAlive(env.settings), Expired(env.settings), all);
    SumKept(Missing(0), StillAlive(env.settings), Expired(env.settings), all);
    if k >= env.settings.trackerMaxAge {
      SumConstant(Missing(k + 1), listed, 0);
    }
  }

  /** Tracks that have missed `k` frames go back to detections of `k` frames ago; the tracks matched in the
      last frame are as many as its detections; nobody misses more than the maximal age. */
  lemma {:induction false} MissingBound(env: Env, frames: seq<seq<Detection>>, k: nat)
    ensures SumOf(Missing(k), Run(env, frames).tracker.tracks) <= DetectionsAgo(frames, k)
    ensures k == 0 && frames != [] ==> SumOf(Missing(0), Run(env, frames).tracker.tracks) == |frames[|frames| - 1]|
    ensures k > env.settings.trackerMaxAge ==> SumOf(Missing(k), Run(env, frames).tracker.tracks) == 0
  {
    hide FrameStep;
    if frames == [] {
    } else {
      var n := |frames| - 1;
      MissingStep(env, Run(env, frames[..n]), n, frames[n], if k == 0 then 0 else k - 1);
      if k > 0 {
        MissingBound(env, frames[..n], k - 1);
      }
    }
  }

  function RecentDetections(frames: seq<seq<Detection>>, n: nat): nat {
    if n == 0 then 0 else RecentDetections(frames, n - 1) + DetectionsAgo(frames, n - 1)
  }

  /** Tracks that have missed fewer than `k` frames. */
  function MissingLess(k: nat): Trajectory -> nat { (t: Trajectory) => if t.misses < k then 1 else 0 }

  lemma {:induction false} MissingLessSum(tracks: seq<Trajectory>, k: nat)
    ensures SumOf(MissingLess(k + 1), tracks) == SumOf(MissingLess(k), tracks) + SumOf(Missing(k), tracks)
  {
    if tracks == [] {
    } else {
      MissingLessSum(tracks[..|tracks| - 1], k);
    }
  }

  lemma {:induction false} RecentBound(env: Env, frames: seq<seq<Detection>>, k: nat)
    ensures SumOf(MissingLess(k), Run(env, frames).tracker.tracks) <= RecentDetections(frames, k)
  {
    hide Run;
    if k == 0 {
      SumConstant(MissingLess(0), Run(env, frames).tracker.tracks, 0);
    } else {
      RecentBound(env, frames, k - 1);
      MissingBound(env, frames, k - 1);
      MissingLessSum(Run(env, frames).tracker.tracks, k - 1);
    }
  }

  /** Live tracks never outnumber the detections of the last `trackerMaxAge + 1` frames. */
  lemma LiveTracksBounded(env: Env, frames: seq<seq<Detection>>)
    ensures |Run(env, frames).tracker.tracks| <= RecentDetections(frames, env.settings.trackerMaxAge + 1)
  {
    hide Run;
    var tracks := Run(env, frames).tracker.tracks;
    RecentBound(env, frames, env.settings.trackerMaxAge + 1);
    YoungEnough(env, frames);
    SumConstant(MissingLess(env.settings.trackerMaxAge + 1), tracks, 1);
  }

  /** No listed track has missed more than the maximal age. */
  lemma YoungEnough(env: Env, frames: seq<seq<Detection>>)
    ensures forall i | 0 <= i < |Run(env, frames).tracker.tracks| ::
              Run(env, frames).tracker.tracks[i].misses <= env.settings.trackerMaxAge
  {
    if frames != [] {
      var n := |frames| - 1;
      var listed := Listed(env, Run(env, frames[..n]), frames[n]);
      forall i | 0 <= i < |listed|
        ensures listed[i].misses <= env.settings.trackerMaxAge
      {
        assert listed[i] in listed;
      }
    }
  }
}
