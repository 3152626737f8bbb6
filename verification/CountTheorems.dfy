/** What the count means: which crossings it contains, which it cannot miss, and how large it can be. */
module CountTheorems {
  import opened Seqs
  import opened Totals
  import opened Assignment
  import opened Scene
  import opened Tracking
  import opened Counting
  import opened Monitoring
  import opened Pipeline
  import opened Ledger
  import opened ExactCount

  // ----- each event is the first confirmed crossing of its track -----

  /** `t` was matched in this very frame, that match took it over the line, and no earlier match did once it was confirmed. */
  ghost predicate FirstCrossing(settings: Settings, g: SceneGeometry, t: Trajectory, ev: CrossingEvent) {
    && t.id == ev.trackId && t.counted && t.misses == 0
    && t.Confirmed(settings.trackerMinHits)
    && JustCrossed(settings, g, t)
    && !HasCrossed(settings, g, t.sightings[..|t.sightings| - 1])
    && ev.area == Last(t.sightings).Area()
  }

  ghost predicate Explained(env: Env, tracks: seq<Trajectory>, ev: CrossingEvent) {
    exists i :: 0 <= i < |tracks| && FirstCrossing(env.settings, env.geometry, tracks[i], ev)
  }

  lemma MarkedExplained(settings: Settings, g: SceneGeometry, t: Trajectory, frame: nat)
    requires Due(settings, g, t) && ToCount(settings, g, t)
    ensures FirstCrossing(settings, g, Marked(settings, g, t), EventFor(t, frame))
  {
  }

  lemma NewEventsExplained(env: Env, s: RunState, frame: nat, dets: seq<Detection>)
    requires AllFair(env.settings, env.geometry, s.tracker.tracks) && AllFair(env.settings, env.geometry, s.retired)
    ensures forall k | 0 <= k < |NewEvents(env, s, frame, dets)| ::
              NewEvents(env, s, frame, dets)[k].frame == frame
              && Explained(env, FrameStep(env, s, frame, dets).tracker.tracks, NewEvents(env, s, frame, dets)[k])
  {
    hide Advanced, ObserveFrame, ObserveCrossings, Crossings, HasCrossed, JustCrossed;
    var listed, evs := Listed(env, s, dets), NewEvents(env, s, frame, dets);
    var tracks := FrameStep(env, s, frame, dets).tracker.tracks;
    FairStep(env, s, frame, dets);
    CrossingsChosen(env.settings, env.geometry, listed, frame);
    forall k | 0 <= k < |evs|
      ensures evs[k].frame == frame && Explained(env, tracks, evs[k])
    {
      assert ReportsOne(env.settings, env.geometry, listed, frame, evs[k]);
      var i :| 0 <= i < |listed| && ToCount(env.settings, env.geometry, listed[i]) && evs[k] == EventFor(listed[i], frame);
      assert Due(env.settings, env.geometry, listed[i]);
      MarkedExplained(env.settings, env.geometry, listed[i], frame);
      assert tracks[i] == Marked(env.settings, env.geometry, listed[i]);
    }
  }

  /** Every event of a run was raised in the frame in which its track made its first confirmed forward
      crossing, by a match of that frame; tracks that are only extrapolated raise nothing. */
  lemma {:induction false} EventIsFirstCrossing(env: Env, frames: seq<seq<Detection>>, k: nat)
    requires k < |Run(env, frames).events|
    ensures var ev := Run(env, frames).events[k];
            ev.frame < |frames| && Explained(env, Run(env, frames[..ev.frame + 1]).tracker.tracks, ev)
  {
    hide Run, FrameStep, Explained, NewEvents;
    if frames == [] {
      RunStart(env, frames);
    }
    var n := |frames| - 1;
    var s := Run(env, frames[..n]);
    RunStep(env, frames, n);
    assert frames[..n + 1] == frames;
    EventsExtend(env, s, n, frames[n]);
    if k < |s.events| {
      EventIsFirstCrossing(env, frames[..n], k);
      var f := s.events[k].frame;
      assert frames[..n][..f + 1] == frames[..f + 1];
    } else {
      CountedIffCrossed(env, frames[..n]);
      NewEventsExplained(env, s, n, frames[n]);
    }
  }

  lemma EventsExtend(env: Env, s: RunState, frame: nat, dets: seq<Detection>)
    ensures FrameStep(env, s, frame, dets).events == s.events + NewEvents(env, s, frame, dets)
  {
  }

  /** A frame never yields more events than it has detections. */
  lemma EventsPerFrame(env: Env, frames: seq<seq<Detection>>, n: nat)
    requires n < |frames|
    ensures |NewEvents(env, Run(env, frames[..n]), n, frames[n])| <= |frames[n]|
  {
    hide Run, Advanced, Crossings, ToCount;
    var s := Run(env, frames[..n]);
    var all, listed := Advanced(env.settings, env.solve, s.tracker, frames[n]), Listed(env, s, frames[n]);
    CountedIffCrossed(env, frames[..n]);
    FairStep(env, s, n, frames[n]);
    CrossingsSize(env.settings, env.geometry, listed, n);
    forall i | 0 <= i < |listed|
      ensures ToCountOf(env.settings, env.geometry)(listed[i]) <= Missing(0)(listed[i])
    {
      assert Due(env.settings, env.geometry, listed[i]);
    }
    SumLess(ToCountOf(env.settings, env.geometry), listed, Missing(0), listed);
    SumSplit(Missing(0), StillAlive(env.settings), Expired(env.settings), all);
    UpToDate(env.settings, env.solve, s.tracker, frames[n]);
  }

  // ----- the count is paid for by detections -----

  function Required(settings: Settings): nat {
    if settings.trackerMinHits >= 2 then settings.trackerMinHits else 2
  }

  lemma {:induction false} CountedSum(env: Env, frames: seq<seq<Detection>>)
    ensures var s := Run(env, frames);
            s.count == SumOf(CountedOf(), s.tracker.tracks) + SumOf(CountedOf(), s.retired)
  {
    hide FrameStep;
    if frames == [] {
    } else {
      var n := |frames| - 1;
      CountedSum(env, frames[..n]);
      CountedSumStep(env, Run(env, frames[..n]), n, frames[n]);
    }
  }

  lemma CountedSumStep(env: Env, s: RunState, frame: nat, dets: seq<Detection>)
    ensures var next := FrameStep(env, s, frame, dets);
            next.count - s.count == SumOf(CountedOf(), next.tracker.tracks) + SumOf(CountedOf(), next.retired)
                                    - SumOf(CountedOf(), s.tracker.tracks) - SumOf(CountedOf(), s.retired)
  {
    hide Advanced, ObserveFrame, ObserveCrossings, Crossings;
    var all, listed := Advanced(env.settings, env.solve, s.tracker, dets), Listed(env, s, dets);
    CountedAdvanced(env.settings, env.solve, s.tracker, dets);
    SumSplit(CountedOf(), StillAlive(env.settings), Expired(env.settings), all);
    SumConcat(CountedOf(), s.retired, Filter(Expired(env.settings), all));
    CountedMarked(env.settings, env.geometry, listed);
    CrossingsSize(env.settings, env.geometry, listed, frame);
  }

  lemma CountedAdvanced(settings: Settings, solve: Solver, st: TrackerState, dets: seq<Detection>)
    ensures SumOf(CountedOf(), Advanced(settings, solve, st, dets)) == SumOf(CountedOf(), st.tracks)
  {
    hide Matching, Spare;
    var carried := Carried(st.tracks, dets, Matching(settings, solve, st.tracks, dets));
    var born := Births(st.nextId, dets, Spare(settings, solve, st.tracks, dets));
    SumExtra(CountedOf(), carried, CountedOf(), st.tracks, {});
    SumConstant(CountedOf(), born, 0);
    SumConcat(CountedOf(), carried, born);
  }

  lemma {:induction false} CountedMarked(settings: Settings, g: SceneGeometry, ts: seq<Trajectory>)
    ensures SumOf(CountedOf(), MarkAll(settings, g, ts)) == SumOf(CountedOf(), ts) + SumOf(ToCountOf(settings, g), ts)
  {
    if ts == [] {
    } else {
      var n := |ts| - 1;
      CountedMarked(settings, g, ts[..n]);
      assert MarkAll(settings, g, ts)[..n] == MarkAll(settings, g, ts[..n]);
    }
  }

  /** Hits a counted track must have had. */
  function HitsNeeded(settings: Settings): Trajectory -> nat {
    (t: Trajectory) => if t.counted then Required(settings) else 0
  }

  lemma {:induction false} NeededSum(settings: Settings, ts: seq<Trajectory>)
    ensures SumOf(HitsNeeded(settings), ts) == Required(settings) * SumOf(CountedOf(), ts)
  {
    if ts == [] {
    } else {
      NeededSum(settings, ts[..|ts| - 1]);
    }
  }

  lemma NeededIsThere(settings: Settings, g: SceneGeometry, ts: seq<Trajectory>)
    requires AllFair(settings, g, ts)
    ensures Required(settings) * SumOf(CountedOf(), ts) <= SumOf(HitsOf(), ts)
  {
    NeededSum(settings, ts);
    forall i | 0 <= i < |ts|
      ensures HitsNeeded(settings)(ts[i]) <= HitsOf()(ts[i])
    {
      assert Fair(settings, g, ts[i]);
    }
    SumLess(HitsNeeded(settings), ts, HitsOf(), ts);
  }

  /** Each counted bag costs at least max(2, min_hits) detections of its own. */
  lemma CountIsPaidFor(env: Env, frames: seq<seq<Detection>>)
    ensures Required(env.settings) * Run(env, frames).count <= Detections(frames)
  {
    hide Run;
    var s := Run(env, frames);
    CountedSum(env, frames);
    CountedIffCrossed(env, frames);
    HitsAreDetections(env, frames);
    NeededIsThere(env.settings, env.geometry, s.tracker.tracks);
    NeededIsThere(env.settings, env.geometry, s.retired);
    MulSum(Required(env.settings), SumOf(CountedOf(), s.tracker.tracks), SumOf(CountedOf(), s.retired));
  }

  lemma MulSum(k: nat, a: nat, b: nat)
    ensures k * (a + b) == k * a + k * b
  {
  }

  // ----- polylines over the line -----

  /** Heights over the counting line of a list of sightings, positive upstream. */
  function Heights(settings: Settings, g: SceneGeometry, s: seq<Detection>): (h: seq<real>)
    ensures |h| == |s|
  {
    seq(|s|, i requires 0 <= i < |s| => Height(settings, g, s[i].Center()))
  }

  function Sign(b: bool): int { if b then 1 else 0 }

  /** Forward minus backward strict crossings along a list of heights. */
  function NetCrossings(h: seq<real>): int {
    if |h| <= 1 then 0
    else
      var n := |h| - 1;
      NetCrossings(h[..n]) + Sign(h[n - 1] > 0.0 > h[n]) - Sign(h[n - 1] < 0.0 < h[n])
  }

  /** The net number of crossings of a polyline with no vertex on the line depends on its end points only. */
  lemma {:induction false} NetCrossingsTelescope(h: seq<real>)
    requires |h| >= 1 && forall i | 0 <= i < |h| :: h[i] != 0.0
    ensures NetCrossings(h) == Sign(h[0] > 0.0) - Sign(h[|h| - 1] > 0.0)
  {
    if |h| <= 1 {
    } else {
      NetCrossingsTelescope(h[..|h| - 1]);
    }
  }

  lemma {:induction false} PositiveNetHasCrossing(h: seq<real>) returns (k: nat)
    requires NetCrossings(h) > 0
    ensures 1 <= k < |h| && h[k - 1] > 0.0 > h[k]
  {
    var n := |h| - 1;
    if h[n - 1] > 0.0 > h[n] {
      k := n;
    } else {
      k := PositiveNetHasCrossing(h[..n]);
    }
  }

  lemma CrossesAtHeight(settings: Settings, g: SceneGeometry, s: seq<Detection>, k: nat)
    requires 1 <= k < |s|
    ensures CrossesAt(settings, g, s, k)
       <==> k + 1 >= settings.trackerMinHits && Heights(settings, g, s)[k - 1] > 0.0 > Heights(settings, g, s)[k]
  {
    CrossedLineMeaning(settings, g, s[k - 1].Center(), s[k].Center());
  }

  /** No missed count: with at most two hits to confirm, a track that was first seen upstream and last seen
      downstream is counted however it wandered, unless a sighting was exactly on the line. */
  lemma NoMissedCount(env: Env, frames: seq<seq<Detection>>, t: Trajectory)
    requires env.settings.trackerMinHits <= 2
    requires t in Run(env, frames).tracker.tracks || t in Run(env, frames).retired
    requires var h := Heights(env.settings, env.geometry, t.sightings);
             h[0] > 0.0 > h[|h| - 1] && forall i | 0 <= i < |h| :: h[i] != 0.0
    ensures t.counted
  {
    hide Run, Height;
    CountedIffCrossed(env, frames);
    var h := Heights(env.settings, env.geometry, t.sightings);
    NetCrossingsTelescope(h);
    var k := PositiveNetHasCrossing(h);
    CrossesAtHeight(env.settings, env.geometry, t.sightings, k);
    assert Fair(env.settings, env.geometry, t);
  }

  /** No phantom count: a counted track really went, between two successive matches, from upstream to downstream. */
  lemma NoPhantomCount(env: Env, frames: seq<seq<Detection>>, t: Trajectory) returns (k: nat)
    requires t in Run(env, frames).tracker.tracks || t in Run(env, frames).retired
    requires t.counted
    ensures 1 <= k < |t.sightings| && k + 1 >= Required(env.settings)
    ensures Height(env.settings, env.geometry, t.sightings[k - 1].Center()) > 0.0
    ensures Height(env.settings, env.geometry, t.sightings[k].Center()) < 0.0
  {
    hide Run, Height;
    CountedIffCrossed(env, frames);
    assert Fair(env.settings, env.geometry, t);
    k :| CrossesAt(env.settings, env.geometry, t.sightings, k);
    CrossesAtHeight(env.settings, env.geometry, t.sightings, k);
  }

  ghost predicate NonIncreasing(h: seq<real>) {
    forall i, j | 0 <= i < j < |h| :: h[i] >= h[j]
  }

  lemma {:induction false} FirstBelow(h: seq<real>) returns (k: nat)
    requires |h| >= 1 && h[0] > 0.0 && h[|h| - 1] <= 0.0
    ensures 1 <= k < |h| && h[k - 1] > 0.0 && h[k] <= 0.0
  {
    if h[|h| - 2] > 0.0 {
      k := |h| - 1;
    } else {
      k := FirstBelow(h[..|h| - 1]);
    }
  }

  lemma OneWayCrossedIff(settings: Settings, g: SceneGeometry, s: seq<Detection>)
    requires var h := Heights(settings, g, s);
             |h| >= 1 && NonIncreasing(h) && h[0] > 0.0 > h[|h| - 1]
    ensures var h := Heights(settings, g, s);
            var m := Required(settings);
            HasCrossed(settings, g, s) <==> (forall i | 0 <= i < |h| :: h[i] != 0.0) && m <= |h| && h[m - 2] > 0.0
  {
    hide Height, CrossesAt;
    var h, m := Heights(settings, g, s), Required(settings);
    var f := FirstBelow(h);
    CrossesAtHeight(settings, g, s, f);
    if HasCrossed(settings, g, s) {
      var k: nat :| CrossesAt(settings, g, s, k);
      assert 1 <= k < |s| by { StepInside(settings, g, s, k); }
      CrossesAtHeight(settings, g, s, k);
      assert k == f;
    }
  }

  lemma StepInside(settings: Settings, g: SceneGeometry, s: seq<Detection>, k: nat)
    requires CrossesAt(settings, g, s, k)
    ensures 1 <= k < |s|
  {
  }

  /** A bag that never moves back and goes from upstream to downstream is counted exactly when no sighting lies on
      the line and the sighting before the one that confirms it is still upstream. */
  lemma OneWayCountedIff(env: Env, frames: seq<seq<Detection>>, t: Trajectory)
    requires t in Run(env, frames).tracker.tracks || t in Run(env, frames).retired
    requires var h := Heights(env.settings, env.geometry, t.sightings);
             NonIncreasing(h) && h[0] > 0.0 > h[|h| - 1]
    ensures var h := Heights(env.settings, env.geometry, t.sightings);
            var m := Required(env.settings);
            t.counted <==> (forall i | 0 <= i < |h| :: h[i] != 0.0) && m <= |h| && h[m - 2] > 0.0
  {
    hide Run, Height, HasCrossed;
    CountedIffCrossed(env, frames);
    assert Fair(env.settings, env.geometry, t);
    OneWayCrossedIff(env.settings, env.geometry, t.sightings);
  }
}
