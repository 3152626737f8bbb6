/** Exactly-once counting over a run. A track is counted if and only if its full list of sightings has a
    forward crossing late enough to be confirmed, it is reported by exactly one event, and the reported
    count is the number of events. */
module ExactCount {
  import opened Seqs
  import opened Totals
  import opened Assignment
  import opened Scene
  import opened Tracking
  import opened Counting
  import opened Monitoring
  import opened Pipeline
  import opened Identity

  /** The step into sighting `k` crosses the line forward, at a moment when the track is confirmed. */
  predicate CrossesAt(settings: Settings, g: SceneGeometry, s: seq<Detection>, k: nat) {
    1 <= k < |s| && k + 1 >= settings.trackerMinHits && CrossedLine(settings, g, s[k - 1].Center(), s[k].Center())
  }

  /** Stated on the unbounded list of sightings, not on the bounded history. */
  ghost predicate HasCrossed(settings: Settings, g: SceneGeometry, s: seq<Detection>) {
    exists k: nat :: CrossesAt(settings, g, s, k)
  }

  // ----- one track -----

  /** A track whose counted flag is right. */
  ghost predicate Fair(settings: Settings, g: SceneGeometry, t: Trajectory) {
    t.counted <==> HasCrossed(settings, g, t.sightings)
  }

  /** A track that is fair once this frame's counting is done; a stale track is never counted. */
  ghost predicate Due(settings: Settings, g: SceneGeometry, t: Trajectory) {
    && (HasCrossed(settings, g, t.sightings) <==> t.counted || ToCount(settings, g, t))
    && (ToCount(settings, g, t) ==> t.misses == 0 && !HasCrossed(settings, g, t.sightings[..|t.sightings| - 1]))
  }

  lemma CrossedAppend(settings: Settings, g: SceneGeometry, s: seq<Detection>, d: Detection)
    ensures HasCrossed(settings, g, s + [d]) <==> HasCrossed(settings, g, s) || CrossesAt(settings, g, s + [d], |s|)
  {
    if HasCrossed(settings, g, s) {
      var k: nat :| CrossesAt(settings, g, s, k);
      assert CrossesAt(settings, g, s + [d], k);
    }
    if HasCrossed(settings, g, s + [d]) {
      var k: nat :| CrossesAt(settings, g, s + [d], k);
      if k < |s| {
        assert CrossesAt(settings, g, s, k);
      }
    }
  }

  lemma SeenDue(settings: Settings, g: SceneGeometry, t: Trajectory, d: Detection)
    requires Fair(settings, g, t)
    ensures Due(settings, g, t.Aged().Seen(d))
  {
    CrossedAppend(settings, g, t.sightings, d);
    assert (t.sightings + [d])[..|t.sightings|] == t.sightings;
  }

  lemma MissedDue(settings: Settings, g: SceneGeometry, t: Trajectory)
    requires Fair(settings, g, t)
    ensures Due(settings, g, t.Aged().Missed())
  {
    if ToCount(settings, g, t.Aged().Missed()) {
      assert CrossesAt(settings, g, t.sightings, |t.sightings| - 1);
    }
  }

  ghost predicate AllFair(settings: Settings, g: SceneGeometry, ts: seq<Trajectory>) {
    forall i | 0 <= i < |ts| :: Fair(settings, g, ts[i])
  }

  ghost predicate AllDue(settings: Settings, g: SceneGeometry, ts: seq<Trajectory>) {
    forall i | 0 <= i < |ts| :: Due(settings, g, ts[i])
  }

  lemma AdvancedDue(settings: Settings, g: SceneGeometry, solve: Solver, st: TrackerState, dets: seq<Detection>)
    requires AllFair(settings, g, st.tracks)
    ensures AllDue(settings, g, Advanced(settings, solve, st, dets))
  {
    hide Matching, Spare, Fair, Due;
    var kept := Matching(settings, solve, st.tracks, dets);
    var all := Advanced(settings, solve, st, dets);
    forall i | 0 <= i < |all|
      ensures Due(settings, g, all[i])
    {
      if i < |st.tracks| {
        if i in kept {
          SeenDue(settings, g, st.tracks[i], dets[kept[i]]);
        } else {
          MissedDue(settings, g, st.tracks[i]);
        }
      } else {
        var spare := Spare(settings, solve, st.tracks, dets);
        BornDue(settings, g, st.nextId + (i - |st.tracks|), dets[spare[i - |st.tracks|]]);
      }
    }
  }

  lemma BornDue(settings: Settings, g: SceneGeometry, id: nat, d: Detection)
    ensures Due(settings, g, Born(id, d))
  {
  }

  lemma FilterDue(settings: Settings, g: SceneGeometry, p: Trajectory -> bool, ts: seq<Trajectory>)
    requires AllDue(settings, g, ts)
    ensures AllDue(settings, g, Filter(p, ts))
  {
    hide Due;
    var r := Filter(p, ts);
    forall i | 0 <= i < |r|
      ensures Due(settings, g, r[i])
    {
      assert r[i] in r;
    }
  }

  /** Marking makes due tracks fair; expired tracks were fair already. */
  lemma FairStep(env: Env, s: RunState, frame: nat, dets: seq<Detection>)
    requires AllFair(env.settings, env.geometry, s.tracker.tracks) && AllFair(env.settings, env.geometry, s.retired)
    ensures AllFair(env.settings, env.geometry, FrameStep(env, s, frame, dets).tracker.tracks)
    ensures AllFair(env.settings, env.geometry, FrameStep(env, s, frame, dets).retired)
    ensures AllDue(env.settings, env.geometry, Listed(env, s, dets))
  {
    hide Advanced, Spare, ObserveFrame, ObserveCrossings, Crossings, HasCrossed, ToCount;
    var all := Advanced(env.settings, env.solve, s.tracker, dets);
    AdvancedDue(env.settings, env.geometry, env.solve, s.tracker, dets);
    FilterDue(env.settings, env.geometry, StillAlive(env.settings), all);
    FilterDue(env.settings, env.geometry, Expired(env.settings), all);
    var gone := Filter(Expired(env.settings), all);
    forall i | 0 <= i < |gone|
      ensures Fair(env.settings, env.geometry, gone[i])
    {
      assert gone[i] in gone;
    }
  }

  /** For every run: a track, live or dropped, is counted iff its sightings have a confirmed forward crossing. */
  lemma {:induction false} CountedIffCrossed(env: Env, frames: seq<seq<Detection>>)
    ensures AllFair(env.settings, env.geometry, Run(env, frames).tracker.tracks)
    ensures AllFair(env.settings, env.geometry, Run(env, frames).retired)
  {
    hide FrameStep, Fair;
    if frames == [] {
    } else {
      var n := |frames| - 1;
      CountedIffCrossed(env, frames[..n]);
      FairStep(env, Run(env, frames[..n]), n, frames[n]);
    }
  }

  // ----- events -----

  function ToCountOf(settings: Settings, g: SceneGeometry): Trajectory -> nat {
    (t: Trajectory) => if ToCount(settings, g, t) then 1 else 0
  }

  ghost predicate Reported(events: seq<CrossingEvent>, id: nat) {
    exists k :: 0 <= k < |events| && events[k].trackId == id
  }

  /** Events come frame by frame, and by increasing id inside a frame. */
  ghost predicate EventsInOrder(events: seq<CrossingEvent>) {
    forall k, l | 0 <= k < l < |events| ::
      events[k].frame < events[l].frame
      || (events[k].frame == events[l].frame && events[k].trackId < events[l].trackId)
  }

  ghost predicate DistinctIds(events: seq<CrossingEvent>) {
    forall k, l | 0 <= k < l < |events| :: events[k].trackId != events[l].trackId
  }

  /** The event reports one of the tracks `ts` that were due to be counted. */
  ghost predicate ReportsOne(settings: Settings, g: SceneGeometry, ts: seq<Trajectory>, frame: nat, ev: CrossingEvent) {
    exists i :: 0 <= i < |ts| && ToCount(settings, g, ts[i]) && ev == EventFor(ts[i], frame)
  }

  lemma ReportsOneLater(settings: Settings, g: SceneGeometry, ts: seq<Trajectory>, n: nat, frame: nat, ev: CrossingEvent)
    requires n <= |ts| && ReportsOne(settings, g, ts[..n], frame, ev)
    ensures ReportsOne(settings, g, ts, frame, ev)
  {
    hide ToCount;
    var i :| 0 <= i < n && ToCount(settings, g, ts[..n][i]) && ev == EventFor(ts[..n][i], frame);
    assert ts[i] == ts[..n][i];
  }

  lemma {:induction false} CrossingsSize(settings: Settings, g: SceneGeometry, ts: seq<Trajectory>, frame: nat)
    ensures |Crossings(settings, g, ts, frame)| == SumOf(ToCountOf(settings, g), ts)
  {
    hide ToCount;
    if ts == [] {
    } else {
      CrossingsSize(settings, g, ts[..|ts| - 1], frame);
    }
  }

  /** The events of one frame report tracks that were due, and every such track. */
  lemma {:induction false} CrossingsChosen(settings: Settings, g: SceneGeometry, ts: seq<Trajectory>, frame: nat)
    ensures forall k | 0 <= k < |Crossings(settings, g, ts, frame)| ::
              ReportsOne(settings, g, ts, frame, Crossings(settings, g, ts, frame)[k])
    ensures forall i | 0 <= i < |ts| && ToCount(settings, g, ts[i]) ::
              Reported(Crossings(settings, g, ts, frame), ts[i].id)
  {
    hide ToCount, ReportsOne, Reported, Crossings;
    if ts == [] {
      NoCrossings(settings, g, ts, frame);
    } else {
      var n := |ts| - 1;
      CrossingsChosen(settings, g, ts[..n], frame);
      CrossingsStep(settings, g, ts, frame, n);
      assert ts[..n + 1] == ts;
      var before, evs := Crossings(settings, g, ts[..n], frame), Crossings(settings, g, ts, frame);
      forall k | 0 <= k < |evs|
        ensures ReportsOne(settings, g, ts, frame, evs[k])
      {
        if k < |before| {
          ReportsOneLater(settings, g, ts, n, frame, evs[k]);
        } else {
          LastReported(settings, g, ts, frame);
        }
      }
      forall i | 0 <= i < |ts| && ToCount(settings, g, ts[i])
        ensures Reported(evs, ts[i].id)
      {
        ReportedConcat(before, evs[|before|..], ts[i].id);
        assert evs == before + evs[|before|..];
        if i < n {
          assert ts[..n][i] == ts[i];
        } else {
          ReportedAlone(EventFor(ts[n], frame));
        }
      }
    }
  }

  lemma LastReported(settings: Settings, g: SceneGeometry, ts: seq<Trajectory>, frame: nat)
    requires ts != [] && ToCount(settings, g, ts[|ts| - 1])
    ensures ReportsOne(settings, g, ts, frame, EventFor(ts[|ts| - 1], frame))
  {
  }

  lemma ReportedAlone(ev: CrossingEvent)
    ensures Reported([ev], ev.trackId)
  {
    assert [ev][0].trackId == ev.trackId;
  }

  /** ... and come in list order. */
  lemma {:induction false} CrossingsInOrder(settings: Settings, g: SceneGeometry, ts: seq<Trajectory>, frame: nat)
    requires InOrder(ts)
    ensures EventsInOrder(Crossings(settings, g, ts, frame))
    ensures DistinctIds(Crossings(settings, g, ts, frame))
  {
    hide ToCount;
    if ts == [] {
    } else {
      var n := |ts| - 1;
      CrossingsInOrder(settings, g, ts[..n], frame);
      CrossingsChosen(settings, g, ts[..n], frame);
      var before := Crossings(settings, g, ts[..n], frame);
      forall k | 0 <= k < |before|
        ensures before[k].frame == frame && before[k].trackId < ts[n].id
      {
        assert ReportsOne(settings, g, ts[..n], frame, before[k]);
      }
    }
  }

  /** Each live or dropped track is counted iff some event names it. */
  ghost predicate FlagsMatch(events: seq<CrossingEvent>, ts: seq<Trajectory>) {
    forall i | 0 <= i < |ts| :: ts[i].counted <==> Reported(events, ts[i].id)
  }

  ghost predicate EventsValid(s: RunState, n: nat) {
    && s.count == |s.events|
    && DistinctIds(s.events)
    && EventsInOrder(s.events)
    && (forall k | 0 <= k < |s.events| :: s.events[k].frame < n && 1 <= s.events[k].trackId < s.tracker.nextId)
    && FlagsMatch(s.events, s.tracker.tracks)
    && FlagsMatch(s.events, s.retired)
  }

  /** Where a track in an update comes from, as far as counting is concerned. */
  lemma AdvancedFlags(settings: Settings, solve: Solver, st: TrackerState, dets: seq<Detection>, events: seq<CrossingEvent>)
    requires FlagsMatch(events, st.tracks)
    requires forall k | 0 <= k < |events| :: events[k].trackId < st.nextId
    ensures FlagsMatch(events, Advanced(settings, solve, st, dets))
  {
    hide Matching, Spare;
  }

  lemma FilterFlags(events: seq<CrossingEvent>, p: Trajectory -> bool, ts: seq<Trajectory>)
    requires FlagsMatch(events, ts)
    ensures FlagsMatch(events, Filter(p, ts))
  {
    hide Reported;
    var r := Filter(p, ts);
    forall i | 0 <= i < |r|
      ensures r[i].counted <==> Reported(events, r[i].id)
    {
      assert r[i] in r;
    }
  }

  lemma ReportedConcat(a: seq<CrossingEvent>, b: seq<CrossingEvent>, id: nat)
    ensures Reported(a + b, id) <==> Reported(a, id) || Reported(b, id)
  {
    if Reported(a, id) {
      var k :| 0 <= k < |a| && a[k].trackId == id;
      assert (a + b)[k].trackId == id;
    }
    if Reported(b, id) {
      var k :| 0 <= k < |b| && b[k].trackId == id;
      assert (a + b)[|a| + k].trackId == id;
    }
  }

  /** Marking and reporting keep flags and events together. */
  lemma MarkedFlags(settings: Settings, g: SceneGeometry, events: seq<CrossingEvent>, listed: seq<Trajectory>, frame: nat)
    requires InOrder(listed) && FlagsMatch(events, listed)
    ensures FlagsMatch(events + Crossings(settings, g, listed, frame), MarkAll(settings, g, listed))
  {
    hide ToCount, Reported;
    var evs := Crossings(settings, g, listed, frame);
    CrossingsChosen(settings, g, listed, frame);
    var marked := MarkAll(settings, g, listed);
    forall i | 0 <= i < |marked|
      ensures marked[i].counted <==> Reported(events + evs, marked[i].id)
    {
      ReportedConcat(events, evs, listed[i].id);
      if Reported(evs, listed[i].id) {
        OnlyOne(settings, g, listed, frame, i);
      }
    }
  }

  lemma OnlyOne(settings: Settings, g: SceneGeometry, ts: seq<Trajectory>, frame: nat, i: nat)
    requires InOrder(ts) && i < |ts| && Reported(Crossings(settings, g, ts, frame), ts[i].id)
    ensures ToCount(settings, g, ts[i])
  {
    hide ToCount;
    var evs := Crossings(settings, g, ts, frame);
    CrossingsChosen(settings, g, ts, frame);
    var k :| 0 <= k < |evs| && evs[k].trackId == ts[i].id;
    assert ReportsOne(settings, g, ts, frame, evs[k]);
    var j :| 0 <= j < |ts| && ToCount(settings, g, ts[j]) && evs[k] == EventFor(ts[j], frame);
    assert i == j;
  }

  /** New events name tracks that no earlier event names. */
  lemma EventsStayDistinct(settings: Settings, g: SceneGeometry, events: seq<CrossingEvent>, listed: seq<Trajectory>, frame: nat)
    requires InOrder(listed) && FlagsMatch(events, listed)
    requires DistinctIds(events) && EventsInOrder(events)
    requires forall k | 0 <= k < |events| :: events[k].frame < frame
    ensures DistinctIds(events + Crossings(settings, g, listed, frame))
    ensures EventsInOrder(events + Crossings(settings, g, listed, frame))
  {
    hide ToCount;
    var evs := Crossings(settings, g, listed, frame);
    CrossingsChosen(settings, g, listed, frame);
    CrossingsInOrder(settings, g, listed, frame);
    forall k, l | 0 <= k < |events| && 0 <= l < |evs|
      ensures events[k].trackId != evs[l].trackId && evs[l].frame == frame
    {
      assert ReportsOne(settings, g, listed, frame, evs[l]);
      var i :| 0 <= i < |listed| && ToCount(settings, g, listed[i]) && evs[l] == EventFor(listed[i], frame);
      NotCountedYet(settings, g, listed[i]);
      assert !Reported(events, listed[i].id);
    }
  }

  lemma NotCountedYet(settings: Settings, g: SceneGeometry, t: Trajectory)
    requires ToCount(settings, g, t)
    ensures !t.counted
  {
  }

  lemma EventsStep(env: Env, s: RunState, frame: nat, dets: seq<Detection>)
    requires Registered(s) && EventsValid(s, frame)
    ensures EventsValid(FrameStep(env, s, frame, dets), frame + 1)
  {
    hide Advanced, Spare, ObserveFrame, ObserveCrossings, Crossings, ToCount, Reported, MarkAll, Filter, DistinctIds,
         EventsInOrder;
    var all, listed := Advanced(env.settings, env.solve, s.tracker, dets), Listed(env, s, dets);
    var evs := NewEvents(env, s, frame, dets);
    AdvancedInOrder(env.settings, env.solve, s.tracker, dets);
    FilterOrdered(StillAlive(env.settings), all);
    AdvancedFlags(env.settings, env.solve, s.tracker, dets, s.events);
    FilterFlags(s.events, StillAlive(env.settings), all);
    FilterFlags(s.events, Expired(env.settings), all);
    MarkedFlags(env.settings, env.geometry, s.events, listed, frame);
    EventsStayDistinct(env.settings, env.geometry, s.events, listed, frame);
    NewEventIds(env, s, frame, dets);
    var gone := Filter(Expired(env.settings), all);
    FilterApart(Expired(env.settings), StillAlive(env.settings), all);
    NotReportedNow(env, s.events, s.retired, listed, frame) by {
      RetiredStayApart(s.retired, s.tracker.tracks, s.tracker.nextId, all, StillAlive(env.settings));
    }
    NotReportedNow(env, s.events, gone, listed, frame);
  }

  lemma NewEventIds(env: Env, s: RunState, frame: nat, dets: seq<Detection>)
    requires Registered(s)
    ensures forall k | 0 <= k < |NewEvents(env, s, frame, dets)| ::
              NewEvents(env, s, frame, dets)[k].frame == frame
              && 1 <= NewEvents(env, s, frame, dets)[k].trackId < FrameStep(env, s, frame, dets).tracker.nextId
  {
    hide Advanced, Spare, ObserveFrame, ObserveCrossings, Crossings, ToCount, MarkAll;
    var all, listed := Advanced(env.settings, env.solve, s.tracker, dets), Listed(env, s, dets);
    var evs := NewEvents(env, s, frame, dets);
    var nextId := s.tracker.nextId + |Spare(env.settings, env.solve, s.tracker.tracks, dets)|;
    AdvancedInOrder(env.settings, env.solve, s.tracker, dets);
    FilterOrdered(StillAlive(env.settings), all);
    FilterWithin(StillAlive(env.settings), all, 1, nextId);
    CrossingsChosen(env.settings, env.geometry, listed, frame);
    forall k | 0 <= k < |evs|
      ensures evs[k].frame == frame && 1 <= evs[k].trackId < nextId
    {
      assert ReportsOne(env.settings, env.geometry, listed, frame, evs[k]);
    }
  }

  /** Events about listed tracks do not touch tracks that are not listed. */
  lemma NotReportedNow(env: Env, events: seq<CrossingEvent>, others: seq<Trajectory>, listed: seq<Trajectory>, frame: nat)
    requires InOrder(listed) && NoCommonId(others, listed) && FlagsMatch(events, others)
    ensures FlagsMatch(events + Crossings(env.settings, env.geometry, listed, frame), others)
  {
    hide ToCount;
    var evs := Crossings(env.settings, env.geometry, listed, frame);
    CrossingsChosen(env.settings, env.geometry, listed, frame);
    forall i | 0 <= i < |others|
      ensures others[i].counted <==> Reported(events + evs, others[i].id)
    {
      ReportedConcat(events, evs, others[i].id);
      assert forall k | 0 <= k < |evs| :: ReportsOne(env.settings, env.geometry, listed, frame, evs[k]);
    }
  }

  /** Exactly once: in every run the count is the number of events, no two events name the same track, events are
      ordered by (frame, id), and the counted tracks are exactly the tracks named by an event. */
  lemma {:induction false} ExactlyOnce(env: Env, frames: seq<seq<Detection>>)
    ensures EventsValid(Run(env, frames), |frames|)
  {
    hide FrameStep, EventsValid;
    if frames == [] {
      NoEventsAtStart();
    } else {
      var n := |frames| - 1;
      ExactlyOnce(env, frames[..n]);
      AlwaysRegistered(env, frames[..n]);
      EventsStep(env, Run(env, frames[..n]), n, frames[n]);
    }
  }

  lemma NoEventsAtStart()
    ensures EventsValid(START, 0)
  {
  }
}
