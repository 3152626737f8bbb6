/** Unusual sizes and double counts from the detections to the log: what the area of an event is, what its size is
    compared with, and exactly which events are reported. */
module EventSizes {
  import opened Seqs
  import opened Geometry
  import opened Scene
  import opened Tracking
  import opened Counting
  import opened Monitoring
  import opened Pipeline
  import opened ExactCount
  import opened MonitorLog
  import opened Matches
  import opened CountTheorems
  import opened CrossingAnomalies

  // ----- the area of an event -----

  /** Width times height of a box that encloses something, and nothing for any other box. */
  function Enclosed(b: Box): real {
    if b.x1 < b.x2 && b.y1 < b.y2 then (b.x2 - b.x1) * (b.y2 - b.y1) else 0.0
  }

  lemma AreaIsEnclosed(b: Box)
    ensures b.Area() == Enclosed(b)
  {
    if !b.Solid() {
      ZeroSide(Max(0.0, b.x2 - b.x1), Max(0.0, b.y2 - b.y1));
    }
  }

  lemma ZeroSide(a: real, b: real)
    requires a == 0.0 || b == 0.0
    ensures a * b == 0.0
  {
  }

  /** The area of every event of every run is that of the box of a detection of the event's own frame, one whose
      center is strictly downstream of the line. */
  lemma EventAreaIsDetected(env: Env, frames: seq<seq<Detection>>, k: nat) returns (d: Detection)
    requires k < |Run(env, frames).events|
    ensures var ev := Run(env, frames).events[k];
            ev.frame < |frames| && d in frames[ev.frame] && ev.area == Enclosed(d.bbox)
    ensures Height(env.settings, env.geometry, d.Center()) < 0.0
  {
    hide Run, Height, CrossedLine, HasCrossed, Slots, Enclosed, Distinct;
    EventIsFirstCrossing(env, frames, k);
    var ev := Run(env, frames).events[k];
    var tracks := Run(env, frames[..ev.frame + 1]).tracker.tracks;
    var i :| 0 <= i < |tracks| && FirstCrossing(env.settings, env.geometry, tracks[i], ev);
    var slot := FrameBijection(env, frames, ev.frame);
    var j := SlotOf(tracks, frames[ev.frame], slot, i);
    d := frames[ev.frame][j];
    var s := tracks[i].sightings;
    CrossedLineMeaning(env.settings, env.geometry, s[|s| - 2].Center(), s[|s| - 1].Center());
    AreaIsEnclosed(d.bbox);
  }

  lemma SlotOf(tracks: seq<Trajectory>, dets: seq<Detection>, slot: seq<nat>, i: nat) returns (j: nat)
    requires Slots(tracks, dets, slot) && i < |tracks| && tracks[i].misses == 0
    ensures j < |dets| && Holds(tracks[i], dets[j])
  {
    assert i in slot;
    j :| 0 <= j < |slot| && slot[j] == i;
  }

  // ----- the reference size, by order -----

  /** Elements of `s` that are at most `x`, and at least `x`, by position. */
  function AtMost(s: seq<real>, x: real): set<nat> { set i: nat | i < |s| && s[i] <= x }

  function AtLeast(s: seq<real>, x: real): set<nat> { set i: nat | i < |s| && s[i] >= x }

  /** An element of the window such that more than half of the window is at most as large and at least half of it is
      at least as large: the upper median. */
  ghost predicate Middle(window: seq<real>, m: real) {
    m in window && 2 * |AtMost(window, m)| > |window| && 2 * |AtLeast(window, m)| >= |window|
  }

  function PlacesIn(s: seq<real>, low: real, high: real): set<nat> { set i: nat | i < |s| && low <= s[i] <= high }

  lemma OneMorePlace(s: seq<real>, low: real, high: real)
    requires s != []
    ensures var n := |s| - 1;
            PlacesIn(s, low, high) == PlacesIn(s[..n], low, high) + (if low <= s[n] <= high then {n} else {})
            && n !in PlacesIn(s[..n], low, high)
  {
  }

  lemma {:induction false} CountInIsSet(s: seq<real>, low: real, high: real)
    ensures CountIn(s, low, high) == |PlacesIn(s, low, high)|
  {
    hide PlacesIn;
    if s == [] {
      NoPlace(low, high);
    } else {
      CountInIsSet(s[..|s| - 1], low, high);
      OneMorePlace(s, low, high);
    }
  }

  lemma NoPlace(low: real, high: real)
    ensures PlacesIn([], low, high) == {}
  {
  }

  /** A stretch of elements inside the interval is counted in full. */
  lemma {:induction false} CountInStretch(s: seq<real>, from: nat, to: nat, low: real, high: real)
    requires from <= to <= |s|
    requires forall i | from <= i < to :: low <= s[i] <= high
    ensures CountIn(s, low, high) >= to - from
  {
    if s == [] {
    } else {
      var n := |s| - 1;
      CountInStretch(s[..n], if from <= n then from else n, if to <= n then to else n, low, high);
    }
  }

  lemma SameMembers(s: seq<real>, t: seq<real>, k: nat) returns (l: nat)
    requires multiset(s) == multiset(t) && k < |s|
    ensures l < |t| && t[l] == s[k]
  {
    assert s[k] in multiset(s);
    l := FindIn(t, s[k]);
  }

  lemma SortedEnds(window: seq<real>)
    requires window != []
    ensures var s := Sorted(window);
            forall i | 0 <= i < |window| :: s[0] <= window[i] <= s[|s| - 1]
  {
    hide Sorted;
    var s := Sorted(window);
    forall i | 0 <= i < |window|
      ensures s[0] <= window[i] <= s[|s| - 1]
    {
      var l := SameMembers(window, s, i);
      assert s[0] <= s[l] <= s[|s| - 1];
    }
  }

  lemma MedianIsMiddle(window: seq<real>)
    requires window != []
    ensures Middle(window, Median(window))
  {
    hide Sorted, CountIn;
    var s, h, m := Sorted(window), |window| / 2, Median(window);
    var low, high := s[0], s[|s| - 1];
    SortedEnds(window);
    CountInMultiset(window, s, low, m);
    CountInStretch(s, 0, h + 1, low, m);
    CountInIsSet(window, low, m);
    assert AtMost(window, m) == PlacesIn(window, low, m);
    CountInMultiset(window, s, m, high);
    CountInStretch(s, h, |s|, m, high);
    CountInIsSet(window, m, high);
    assert AtLeast(window, m) == PlacesIn(window, m, high);
    var l := SameMembers(s, window, h);
  }

  lemma TwoPartsFit(a: set<nat>, b: set<nat>, n: nat)
    requires a !! b && forall i | i in a + b :: i < n
    ensures |a| + |b| <= n
  {
    assert |a + b| == |a| + |b|;
    SubsetSize(a + b, Below(n));
  }

  lemma MiddleIsUnique(window: seq<real>, m: real, m': real)
    requires Middle(window, m) && Middle(window, m')
    ensures m == m'
  {
    if m < m' {
      TwoPartsFit(AtMost(window, m), AtLeast(window, m'), |window|);
    } else if m' < m {
      TwoPartsFit(AtMost(window, m'), AtLeast(window, m), |window|);
    }
  }

  // ----- exactly which events are reported -----

  /** The areas of the fifty events before event `k`, or of all when there are fewer. */
  function AreasBefore(evs: seq<CrossingEvent>, k: nat): (r: seq<real>)
    requires k <= |evs|
    ensures |r| == if k <= 50 then k else 50
  {
    var n := if k <= 50 then k else 50;
    seq(n, i requires 0 <= i < n => evs[k - n + i].area)
  }

  /** The size of event `k` differs from the reference size by more than the configured fraction of it; nothing is
      compared with fewer than five events. */
  ghost predicate FarFromMiddle(settings: Settings, evs: seq<CrossingEvent>, k: nat, m: real)
    requires k < |evs|
  {
    && k >= 5 && Middle(AreasBefore(evs, k), m) && m > 0.0
    && (evs[k].area > (1.0 + settings.sizeDeviation) * m || evs[k].area < (1.0 - settings.sizeDeviation) * m)
  }

  lemma FarEitherWay(area: real, m: real, dev: real)
    requires m > 0.0
    ensures Abs(area - m) / m > dev <==> area > (1.0 + dev) * m || area < (1.0 - dev) * m
  {
    QuotientOrder(Abs(area - m), m, dev);
    assert (1.0 + dev) * m == m + dev * m && (1.0 - dev) * m == m - dev * m;
  }

  lemma SizeDueIff(settings: Settings, evs: seq<CrossingEvent>, k: nat)
    requires k < |evs|
    ensures SizeDue(settings, evs, k) <==> exists m :: FarFromMiddle(settings, evs, k, m)
  {
    hide Median, Middle, Abs;
    var window := SizesBefore(evs, k);
    assert window == AreasBefore(evs, k);
    if k >= 5 {
      var median := Median(window);
      MedianIsMiddle(window);
      if median > 0.0 {
        FarEitherWay(evs[k].area, median, settings.sizeDeviation);
      }
      if SizeDue(settings, evs, k) {
        assert FarFromMiddle(settings, evs, k, median);
      }
      if m :| FarFromMiddle(settings, evs, k, m) {
        MiddleIsUnique(window, m, median);
      }
    }
  }

  lemma {:induction false} SizeRecordsOf(settings: Settings, fps: Rate, evs: seq<CrossingEvent>, n: nat, k: nat)
    requires n <= |evs| && k < |evs| && DistinctIds(evs)
    ensures (exists a | a in SizeRecords(settings, fps, evs, n) :: a.kind == UnusualSize(evs[k].trackId))
       <==> k < n && SizeDue(settings, evs, k)
  {
    hide SizeDue;
    if n == 0 {
    } else {
      SizeRecordsOf(settings, fps, evs, n - 1, k);
      var before, all := SizeRecords(settings, fps, evs, n - 1), SizeRecords(settings, fps, evs, n);
      var a := Record(fps, evs[n - 1].frame, UnusualSize(evs[n - 1].trackId));
      assert all == if SizeDue(settings, evs, n - 1) then before + [a] else before;
      if k == n - 1 && SizeDue(settings, evs, k) {
        assert a in all;
      }
    }
  }

  lemma {:induction false} DoubleRecordsOf(settings: Settings, fps: Rate, evs: seq<CrossingEvent>, n: nat, k: nat)
    requires n <= |evs| && k < |evs| && DistinctIds(evs)
    ensures (exists a | a in DoubleRecords(settings, fps, evs, n) :: a.kind == PossibleDoubleCount(evs[k].trackId))
       <==> k < n && DoubleDue(settings, fps, evs, k)
  {
    hide DoubleDue;
    if n == 0 {
    } else {
      DoubleRecordsOf(settings, fps, evs, n - 1, k);
      var before, all := DoubleRecords(settings, fps, evs, n - 1), DoubleRecords(settings, fps, evs, n);
      var a := Record(fps, evs[n - 1].frame, PossibleDoubleCount(evs[n - 1].trackId));
      assert all == if DoubleDue(settings, fps, evs, n - 1) then before + [a] else before;
      if k == n - 1 && DoubleDue(settings, fps, evs, k) {
        assert a in all;
      }
    }
  }

  /** Is there a record of this kind? */
  ghost predicate Logged(log: seq<Anomaly>, kind: Kind) { exists a | a in log :: a.kind == kind }

  lemma LoggedInPart(log: seq<Anomaly>, p: Anomaly -> bool, kind: Kind)
    requires forall a: Anomaly | a.kind == kind :: p(a)
    ensures Logged(log, kind) <==> Logged(Filter(p, log), kind)
  {
    if Logged(log, kind) {
      var a :| a in log && a.kind == kind;
      assert a in Filter(p, log);
    }
  }

  /** In every run an event is reported for its size if and only if its area differs from the upper median of the areas
      of the last fifty events before it by more than the configured fraction, and there are at least five of these. */
  lemma UnusualSizeIff(env: Env, frames: seq<seq<Detection>>, k: nat)
    requires k < |Run(env, frames).events|
    ensures var s := Run(env, frames);
            Logged(s.monitor.log, UnusualSize(s.events[k].trackId))
            <==> exists m :: FarFromMiddle(env.settings, s.events, k, m)
  {
    hide Run, Filter, FarFromMiddle, SizeDue, SizeRecords, DoubleRecords, SizesBefore;
    var s := Run(env, frames);
    ExactlyOnce(env, frames);
    EventRecordsAreDeclared(env, frames);
    LoggedInPart(s.monitor.log, IsSize(), UnusualSize(s.events[k].trackId));
    SizeRecordsOf(env.settings, env.fps, s.events, |s.events|, k);
    SizeDueIff(env.settings, s.events, k);
  }

  /** In every run an event is reported as a possible double count if and only if it is not the first and comes less
      than the configured time after the event before it. */
  lemma DoubleCountIff(env: Env, frames: seq<seq<Detection>>, k: nat)
    requires k < |Run(env, frames).events|
    ensures var s := Run(env, frames);
            Logged(s.monitor.log, PossibleDoubleCount(s.events[k].trackId))
            <==> k >= 1 && (s.events[k].frame - s.events[k - 1].frame) as real < env.settings.doubleCountSeconds * env.fps
  {
    hide Run, Filter, SizeRecords, DoubleRecords, SizesBefore;
    var s := Run(env, frames);
    ExactlyOnce(env, frames);
    EventRecordsAreDeclared(env, frames);
    LoggedInPart(s.monitor.log, IsDouble(), PossibleDoubleCount(s.events[k].trackId));
    DoubleRecordsOf(env.settings, env.fps, s.events, |s.events|, k);
    if k >= 1 {
      QuotientOrder((s.events[k].frame - s.events[k - 1].frame) as real, env.fps, env.settings.doubleCountSeconds);
    }
  }
}
