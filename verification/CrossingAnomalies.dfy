/** The automata that look at crossings, against the list of all events: unusual sizes and double counts. */
module CrossingAnomalies {
  import opened Seqs
  import opened Geometry
  import opened Scene
  import opened Tracking
  import opened Counting
  import opened Monitoring
  import opened Pipeline
  import opened ExactCount
  import opened MonitorLog

  function EventAreas(evs: seq<CrossingEvent>): (r: seq<real>)
    ensures |r| == |evs|
  {
    seq(|evs|, k requires 0 <= k < |evs| => evs[k].area)
  }

  /** The size window before event number `k`: the areas of the last 50 events before it. */
  function SizesBefore(evs: seq<CrossingEvent>, k: nat): seq<real>
    requires k <= |evs|
  {
    Suffix(EventAreas(evs[..k]), SIZE_WINDOW)
  }

  /** The size of event `k` is far from the median of the events before it. */
  predicate SizeDue(settings: Settings, evs: seq<CrossingEvent>, k: nat)
    requires k < |evs|
  {
    SizeRaised(settings, SizesBefore(evs, k), evs[k].area)
  }

  /** Event `k` follows the event before it too closely. */
  predicate DoubleDue(settings: Settings, fps: Rate, evs: seq<CrossingEvent>, k: nat)
    requires k < |evs|
  {
    k >= 1 && (evs[k].frame - evs[k - 1].frame) as real / fps < settings.doubleCountSeconds
  }

  function SizeRecords(settings: Settings, fps: Rate, evs: seq<CrossingEvent>, n: nat): seq<Anomaly>
    requires n <= |evs|
  {
    if n == 0 then []
    else
      SizeRecords(settings, fps, evs, n - 1)
      + OneIf(SizeDue(settings, evs, n - 1), Record(fps, evs[n - 1].frame, UnusualSize(evs[n - 1].trackId)))
  }

  function DoubleRecords(settings: Settings, fps: Rate, evs: seq<CrossingEvent>, n: nat): seq<Anomaly>
    requires n <= |evs|
  {
    if n == 0 then []
    else
      DoubleRecords(settings, fps, evs, n - 1)
      + OneIf(DoubleDue(settings, fps, evs, n - 1), Record(fps, evs[n - 1].frame, PossibleDoubleCount(evs[n - 1].trackId)))
  }

  /** The event automata know exactly the first `n` events. */
  ghost predicate KnowsEvents(settings: Settings, fps: Rate, m: MonitorState, evs: seq<CrossingEvent>, n: nat) {
    && n <= |evs|
    && m.sizes == SizesBefore(evs, n)
    && m.lastCrossing == (if n == 0 then None else Some(evs[n - 1].frame))
    && Filter(IsSize(), m.log) == SizeRecords(settings, fps, evs, n)
    && Filter(IsDouble(), m.log) == DoubleRecords(settings, fps, evs, n)
  }

  lemma SizesStep(evs: seq<CrossingEvent>, n: nat)
    requires n < |evs|
    ensures Suffix(SizesBefore(evs, n) + [evs[n].area], SIZE_WINDOW) == SizesBefore(evs, n + 1)
  {
    assert EventAreas(evs[..n + 1]) == EventAreas(evs[..n]) + [evs[n].area];
    SuffixAppend(EventAreas(evs[..n]), SIZE_WINDOW, evs[n].area);
  }

  lemma RecordKinds(fps: Rate, frame: nat, id: nat)
    ensures IsSize()(Record(fps, frame, UnusualSize(id))) && !IsSize()(Record(fps, frame, PossibleDoubleCount(id)))
    ensures IsDouble()(Record(fps, frame, PossibleDoubleCount(id))) && !IsDouble()(Record(fps, frame, UnusualSize(id)))
  {
  }

  lemma DoubleFromLast(settings: Settings, fps: Rate, evs: seq<CrossingEvent>, n: nat)
    requires n < |evs|
    ensures DoubleRaised(settings, fps, if n == 0 then None else Some(evs[n - 1].frame), evs[n].frame)
       <==> DoubleDue(settings, fps, evs, n)
  {
  }

  lemma SizeLogStep(settings: Settings, fps: Rate, m: MonitorState, evs: seq<CrossingEvent>, n: nat)
    requires n < |evs| && KnowsEvents(settings, fps, m, evs, n)
    ensures Filter(IsSize(), ObserveCrossing(settings, fps, m, evs[n]).log) == SizeRecords(settings, fps, evs, n + 1)
  {
    hide Filter, SizeRaised, DoubleRaised, SizesBefore, Suffix, Record, IsSize, ObserveCrossing, DoubleRecords;
    RecordKinds(fps, evs[n].frame, evs[n].trackId);
    CrossingLog(settings, fps, m, evs[n], IsSize());
  }

  lemma DoubleLogStep(settings: Settings, fps: Rate, m: MonitorState, evs: seq<CrossingEvent>, n: nat)
    requires n < |evs| && KnowsEvents(settings, fps, m, evs, n)
    ensures Filter(IsDouble(), ObserveCrossing(settings, fps, m, evs[n]).log) == DoubleRecords(settings, fps, evs, n + 1)
  {
    hide Filter, SizeRaised, DoubleRaised, DoubleDue, SizesBefore, Suffix, Record, IsDouble, ObserveCrossing, SizeRecords;
    RecordKinds(fps, evs[n].frame, evs[n].trackId);
    DoubleFromLast(settings, fps, evs, n);
    CrossingLog(settings, fps, m, evs[n], IsDouble());
  }

  lemma KnowOneMore(settings: Settings, fps: Rate, m: MonitorState, evs: seq<CrossingEvent>, n: nat)
    requires n < |evs| && KnowsEvents(settings, fps, m, evs, n)
    ensures KnowsEvents(settings, fps, ObserveCrossing(settings, fps, m, evs[n]), evs, n + 1)
  {
    hide Filter, SizeRaised, DoubleRaised, SizesBefore, Suffix, Record, SizeRecords, DoubleRecords;
    SizesStep(evs, n);
    SizeLogStep(settings, fps, m, evs, n);
    DoubleLogStep(settings, fps, m, evs, n);
  }

  lemma {:induction false} KnowAll(env: Env, m: MonitorState, evs: seq<CrossingEvent>, n: nat, more: seq<CrossingEvent>)
    requires KnowsEvents(env.settings, env.fps, m, evs, n)
    requires n + |more| <= |evs| && evs[n..n + |more|] == more
    ensures KnowsEvents(env.settings, env.fps, ObserveCrossings(env, m, more), evs, n + |more|)
  {
    hide KnowsEvents, ObserveCrossing;
    if more == [] {
    } else {
      var init := more[..|more| - 1];
      assert evs[n..n + |init|] == init;
      KnowAll(env, m, evs, n, init);
      assert more[|more| - 1] == evs[n + |init|];
      KnowOneMore(env.settings, env.fps, ObserveCrossings(env, m, init), evs, n + |init|);
    }
  }

  /** Records about the first events do not depend on later ones. */
  lemma {:induction false} KnownPrefix(settings: Settings, fps: Rate, evs: seq<CrossingEvent>, more: seq<CrossingEvent>, n: nat)
    requires n <= |evs| && evs <= more
    ensures SizesBefore(evs, n) == SizesBefore(more, n)
    ensures SizeRecords(settings, fps, evs, n) == SizeRecords(settings, fps, more, n)
    ensures DoubleRecords(settings, fps, evs, n) == DoubleRecords(settings, fps, more, n)
  {
    hide SizeRaised, Suffix;
    assert evs[..n] == more[..n];
    if n == 0 {
    } else {
      KnownPrefix(settings, fps, evs, more, n - 1);
    }
  }

  /** Looking at a frame changes nothing the event automata know. */
  lemma FrameKeepsEvents(settings: Settings, g: SceneGeometry, fps: Rate, m: MonitorState, frame: nat,
                         tracks: seq<Trajectory>, detections: nat, evs: seq<CrossingEvent>, n: nat)
    requires KnowsEvents(settings, fps, m, evs, n)
    ensures KnowsEvents(settings, fps, ObserveFrame(settings, g, fps, m, frame, tracks, detections), evs, n)
  {
    hide Filter, StallRaised, LowRaised, LostIds, FreshScores, Suffix, StallLimit, StallNext, ConfidenceNext,
         SizeRecords, DoubleRecords, SizesBefore;
    FrameLog(settings, g, fps, m, frame, tracks, detections, IsSize());
    FrameLog(settings, g, fps, m, frame, tracks, detections, IsDouble());
    LostFiltered(fps, frame, LostIds(settings, g, m.reported, tracks), IsSize());
    LostFiltered(fps, frame, LostIds(settings, g, m.reported, tracks), IsDouble());
  }

  lemma KnowsStep(env: Env, s: RunState, frame: nat, dets: seq<Detection>)
    requires KnowsEvents(env.settings, env.fps, s.monitor, s.events, |s.events|)
    ensures var next := FrameStep(env, s, frame, dets);
            KnowsEvents(env.settings, env.fps, next.monitor, next.events, |next.events|)
  {
    hide NewEvents, ObserveFrame, ObserveCrossings, MarkAll, Listed, Filter, SizeRecords, DoubleRecords, SizesBefore, Advanced, Update;
    var evs := NewEvents(env, s, frame, dets);
    var all := s.events + evs;
    KnownPrefix(env.settings, env.fps, s.events, all, |s.events|);
    assert all[|s.events|..|s.events| + |evs|] == evs;
    KnowAll(env, s.monitor, all, |s.events|, evs);
    FrameKeepsEvents(env.settings, env.geometry, env.fps, Midway(env, s, frame, dets), frame, Shown(env, s, dets), |dets|,
                     all, |all|);
    MonitorStep(env, s, frame, dets);
  }

  /** In every run the size window is the areas of the last 50 crossings, and the size and double-count records are
      exactly the declared ones. */
  lemma {:induction false} EventRecordsAreDeclared(env: Env, frames: seq<seq<Detection>>)
    ensures var s := Run(env, frames);
            KnowsEvents(env.settings, env.fps, s.monitor, s.events, |s.events|)
  {
    hide FrameStep, KnowsEvents;
    if frames == [] {
      KnowsNothing(env.settings, env.fps);
    } else {
      var n := |frames| - 1;
      EventRecordsAreDeclared(env, frames[..n]);
      KnowsStep(env, Run(env, frames[..n]), n, frames[n]);
    }
  }

  lemma KnowsNothing(settings: Settings, fps: Rate)
    ensures KnowsEvents(settings, fps, START.monitor, [], 0)
  {
    FilterNoRecords();
  }

  // ----- the median -----

  function CountIn(s: seq<real>, low: real, high: real): nat {
    if s == [] then 0
    else CountIn(s[..|s| - 1], low, high) + if low <= s[|s| - 1] <= high then 1 else 0
  }

  lemma RemoveOne(t: seq<real>, i: nat)
    requires i < |t|
    ensures multiset(t[..i] + t[i + 1..]) == multiset(t) - multiset{t[i]}
  {
    assert t == t[..i] + ([t[i]] + t[i + 1..]);
    assert multiset(t) == multiset(t[..i]) + (multiset{t[i]} + multiset(t[i + 1..]));
    assert multiset(t[..i] + t[i + 1..]) == multiset(t[..i]) + multiset(t[i + 1..]);
  }

  lemma FindIn(t: seq<real>, x: real) returns (i: nat)
    requires x in multiset(t)
    ensures i < |t| && t[i] == x
  {
    assert x in t;
    i :| 0 <= i < |t| && t[i] == x;
  }

  /** Without its last element a list is a permutation of the other list without some equal element. */
  lemma RemoveSame(s: seq<real>, t: seq<real>) returns (i: nat)
    requires multiset(s) == multiset(t) && s != []
    ensures i < |t| && t[i] == s[|s| - 1]
    ensures multiset(s[..|s| - 1]) == multiset(t[..i] + t[i + 1..])
  {
    var n := |s| - 1;
    assert s[n] in multiset(s);
    i := FindIn(t, s[n]);
    RemoveOne(t, i);
    RemoveOne(s, n);
    assert s[..n] + s[n + 1..] == s[..n];
  }

  lemma {:induction false} CountInMultiset(s: seq<real>, t: seq<real>, low: real, high: real)
    requires multiset(s) == multiset(t)
    ensures CountIn(s, low, high) == CountIn(t, low, high)
    decreases |s|
  {
    if s == [] {
      assert |multiset(t)| == 0;
    } else {
      var i := RemoveSame(s, t);
      CountInRemove(t, i, low, high);
      CountInMultiset(s[..|s| - 1], t[..i] + t[i + 1..], low, high);
    }
  }

  lemma {:induction false} CountInRemove(t: seq<real>, i: nat, low: real, high: real)
    requires i < |t|
    ensures CountIn(t, low, high) == CountIn(t[..i] + t[i + 1..], low, high) + if low <= t[i] <= high then 1 else 0
  {
    var n := |t| - 1;
    if i < n {
      CountInRemove(t[..n], i, low, high);
      assert t[..n][..i] == t[..i] && t[..n][i + 1..] == t[i + 1..n];
      assert (t[..i] + t[i + 1..])[..n - 1] == t[..i] + t[i + 1..n];
    } else {
      assert t[..i] + t[i + 1..] == t[..n];
    }
  }

  /** At most `n` elements of a list can be in the interval if only the elements before (or after) a cut can. */
  lemma {:induction false} CountInCut(s: seq<real>, from: nat, to: nat, low: real, high: real)
    requires from <= to <= |s|
    requires forall i | 0 <= i < |s| && !(from <= i < to) :: !(low <= s[i] <= high)
    ensures CountIn(s, low, high) <= to - from
  {
    if s == [] {
    } else {
      var n := |s| - 1;
      CountInCut(s[..n], if from <= n then from else n, if to <= n then to else n, low, high);
    }
  }

  /** The chosen median lies in every interval that holds a strict majority of the window. */
  lemma MedianInMajority(window: seq<real>, low: real, high: real)
    requires window != [] && 2 * CountIn(window, low, high) > |window|
    ensures low <= Median(window) <= high
  {
    hide Sorted, CountIn;
    var s, h := Sorted(window), |window| / 2;
    CountInMultiset(window, s, low, high);
    if s[h] < low {
      CountInCut(s, h + 1, |s|, low, high);
      assert false;
    }
    if s[h] > high {
      CountInCut(s, 0, h, low, high);
      assert false;
    }
  }

  /** No size is reported before the sixth crossing. */
  lemma SizeNeedsSixCrossings(settings: Settings, evs: seq<CrossingEvent>, k: nat)
    requires k < |evs| && SizeDue(settings, evs, k)
    ensures k >= 5
  {
    hide Median;
  }

  // ----- double counts -----

  /** A pair of adjacent crossings that is not flagged is at least the configured time apart. */
  lemma UnflaggedGap(settings: Settings, fps: Rate, evs: seq<CrossingEvent>, k: nat)
    requires 1 <= k < |evs| && !DoubleDue(settings, fps, evs, k)
    ensures (evs[k].frame - evs[k - 1].frame) as real >= settings.doubleCountSeconds * fps
  {
    var gap := (evs[k].frame - evs[k - 1].frame) as real;
    QuotientOrder(gap, fps, settings.doubleCountSeconds);
  }

  lemma OneMoreGap(k: int, gap: real, paid: real, frames: real)
    requires k as real * gap <= paid && gap <= frames
    ensures (k + 1) as real * gap <= paid + frames
  {
    assert (k + 1) as real * gap == k as real * gap + gap;
  }

  /** Pairs among the first `n` events that are not flagged. */
  function Trusted(settings: Settings, fps: Rate, evs: seq<CrossingEvent>, n: nat): int
    requires 1 <= n <= |evs|
  {
    n - 1 - |DoubleRecords(settings, fps, evs, n)|
  }

  lemma TrustedStep(settings: Settings, fps: Rate, evs: seq<CrossingEvent>, n: nat)
    requires 1 <= n < |evs|
    ensures Trusted(settings, fps, evs, n + 1)
         == Trusted(settings, fps, evs, n) + if DoubleDue(settings, fps, evs, n) then 0 else 1
  {
    hide DoubleDue;
  }

  lemma FirstIsNotDouble(settings: Settings, fps: Rate, evs: seq<CrossingEvent>)
    requires evs != []
    ensures Trusted(settings, fps, evs, 1) == 0
  {
    assert !DoubleDue(settings, fps, evs, 0);
    assert DoubleRecords(settings, fps, evs, 0) == [];
    assert DoubleRecords(settings, fps, evs, 1) == [];
  }

  /** The frames from the first to the last crossing pay for every pair that is not flagged. */
  lemma {:induction false} TrustedPairs(settings: Settings, fps: Rate, evs: seq<CrossingEvent>, n: nat, gap: real)
    requires 1 <= n <= |evs| && EventsInOrder(evs) && gap == settings.doubleCountSeconds * fps
    ensures Trusted(settings, fps, evs, n) as real * gap <= (evs[n - 1].frame - evs[0].frame) as real
  {
    hide Trusted, DoubleDue;
    if n == 1 {
      FirstIsNotDouble(settings, fps, evs);
    } else {
      TrustedPairs(settings, fps, evs, n - 1, gap);
      TrustedStep(settings, fps, evs, n - 1);
      if !DoubleDue(settings, fps, evs, n - 1) {
        UnflaggedGap(settings, fps, evs, n - 1);
        OneMoreGap(Trusted(settings, fps, evs, n - 1), gap, (evs[n - 2].frame - evs[0].frame) as real,
                   (evs[n - 1].frame - evs[n - 2].frame) as real);
      }
    }
  }

  /** Over N frames with at least one crossing: (count - flags - 1) * seconds * fps <= N - 1. */
  lemma TrustedCountBound(env: Env, frames: seq<seq<Detection>>)
    requires Run(env, frames).count >= 1
    ensures var s := Run(env, frames);
            var flags := |Filter(IsDouble(), s.monitor.log)|;
            (s.count - flags - 1) as real * (env.settings.doubleCountSeconds * env.fps) <= (|frames| - 1) as real
  {
    hide Run, Filter, DoubleRecords, SizeRecords, SizesBefore;
    ExactlyOnce(env, frames);
    EventRecordsAreDeclared(env, frames);
    var evs := Run(env, frames).events;
    TrustedPairs(env.settings, env.fps, evs, |evs|, env.settings.doubleCountSeconds * env.fps);
  }
}
