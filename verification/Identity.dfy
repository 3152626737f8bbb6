/** Track identity over a run: ids are handed out in list order, once each, and never come back. */
module Identity {
  import opened Seqs
  import opened Scene
  import opened Tracking
  import opened Counting
  import opened Monitoring
  import opened Pipeline
  import opened Ledger
  import Assignment

  /** Ids strictly increase along the list. */
  ghost predicate InOrder(ts: seq<Trajectory>) {
    forall i, j | 0 <= i < j < |ts| :: ts[i].id < ts[j].id
  }

  ghost predicate IdsWithin(ts: seq<Trajectory>, low: nat, high: nat) {
    forall i | 0 <= i < |ts| :: low <= ts[i].id < high
  }

  /** No id occurs twice. */
  ghost predicate NoDuplicate(ts: seq<Trajectory>) {
    forall i, j | 0 <= i < j < |ts| :: ts[i].id != ts[j].id
  }

  ghost predicate NoCommonId(ts: seq<Trajectory>, us: seq<Trajectory>) {
    forall i, j | 0 <= i < |ts| && 0 <= j < |us| :: ts[i].id != us[j].id
  }

  /** The state of the books: live ids in order, all ids handed out so far known exactly once. */
  ghost predicate Registered(s: RunState) {
    && InOrder(s.tracker.tracks)
    && NoDuplicate(s.retired)
    && NoCommonId(s.retired, s.tracker.tracks)
    && s.tracker.nextId >= 1
    && IdsWithin(s.tracker.tracks, 1, s.tracker.nextId)
    && IdsWithin(s.retired, 1, s.tracker.nextId)
  }

  lemma AdvancedInOrder(settings: Settings, solve: Assignment.Solver, st: TrackerState, dets: seq<Detection>)
    requires InOrder(st.tracks) && IdsWithin(st.tracks, 1, st.nextId) && st.nextId >= 1
    ensures var all := Advanced(settings, solve, st, dets);
            && InOrder(all)
            && IdsWithin(all, 1, st.nextId + |Spare(settings, solve, st.tracks, dets)|)
            && |all| >= |st.tracks|
            && (forall i | 0 <= i < |st.tracks| :: all[i].id == st.tracks[i].id)
            && (forall i | |st.tracks| <= i < |all| :: all[i].id >= st.nextId)
  {
    hide Matching, Spare;
  }

  lemma {:induction false} FilterOrdered(p: Trajectory -> bool, ts: seq<Trajectory>)
    requires InOrder(ts)
    ensures InOrder(Filter(p, ts))
  {
    if ts == [] {
    } else {
      var init, last := ts[..|ts| - 1], ts[|ts| - 1];
      FilterOrdered(p, init);
      var r := Filter(p, init);
      forall i | 0 <= i < |r|
        ensures r[i].id < last.id
      {
        assert r[i] in init;
      }
    }
  }

  lemma FilterApart(p: Trajectory -> bool, q: Trajectory -> bool, ts: seq<Trajectory>)
    requires InOrder(ts) && forall t: Trajectory :: !(p(t) && q(t))
    ensures NoCommonId(Filter(p, ts), Filter(q, ts))
  {
    var a, b := Filter(p, ts), Filter(q, ts);
    forall i, j | 0 <= i < |a| && 0 <= j < |b|
      ensures a[i].id != b[j].id
    {
      assert a[i] in a && b[j] in b;
      var k :| 0 <= k < |ts| && ts[k] == a[i];
      var l :| 0 <= l < |ts| && ts[l] == b[j];
      assert k != l;
    }
  }

  /** Ids of a sublist come from the list. */
  lemma FilterWithin(p: Trajectory -> bool, ts: seq<Trajectory>, low: nat, high: nat)
    requires IdsWithin(ts, low, high)
    ensures IdsWithin(Filter(p, ts), low, high)
  {
    var r := Filter(p, ts);
    forall i | 0 <= i < |r|
      ensures low <= r[i].id < high
    {
      assert r[i] in r;
    }
  }

  /** Tracks dropped earlier share no id with what an update makes of the live ones. */
  lemma RetiredStayApart(retired: seq<Trajectory>, tracks: seq<Trajectory>, nextId: nat, all: seq<Trajectory>,
                         p: Trajectory -> bool)
    requires NoCommonId(retired, tracks) && IdsWithin(retired, 1, nextId) && |all| >= |tracks|
    requires forall i | 0 <= i < |tracks| :: all[i].id == tracks[i].id
    requires forall i | |tracks| <= i < |all| :: all[i].id >= nextId
    ensures NoCommonId(retired, Filter(p, all))
  {
    var r := Filter(p, all);
    forall i, j | 0 <= i < |retired| && 0 <= j < |r|
      ensures retired[i].id != r[j].id
    {
      assert r[j] in r;
      var k :| 0 <= k < |all| && all[k] == r[j];
      if k < |tracks| {
        assert retired[i].id != tracks[k].id;
      }
    }
  }

  lemma RegisteredStep(env: Env, s: RunState, frame: nat, dets: seq<Detection>)
    requires Registered(s)
    ensures Registered(FrameStep(env, s, frame, dets))
  {
    hide Advanced, Spare, ObserveFrame, ObserveCrossings, Crossings, Filter;
    var all := Advanced(env.settings, env.solve, s.tracker, dets);
    var live, gone := StillAlive(env.settings), Expired(env.settings);
    var nextId := s.tracker.nextId + |Spare(env.settings, env.solve, s.tracker.tracks, dets)|;
    AdvancedInOrder(env.settings, env.solve, s.tracker, dets);
    FilterOrdered(live, all);
    FilterOrdered(gone, all);
    FilterApart(gone, live, all);
    FilterWithin(live, all, 1, nextId);
    FilterWithin(gone, all, 1, nextId);
    RetiredStayApart(s.retired, s.tracker.tracks, s.tracker.nextId, all, live);
    RetiredStayApart(s.retired, s.tracker.tracks, s.tracker.nextId, all, gone);
    assert NoDuplicate(s.retired + Filter(gone, all));
  }

  /** At every frame of every run the books are in order. */
  lemma {:induction false} AlwaysRegistered(env: Env, frames: seq<seq<Detection>>)
    ensures Registered(Run(env, frames))
  {
    hide FrameStep;
    if frames == [] {
    } else {
      var n := |frames| - 1;
      AlwaysRegistered(env, frames[..n]);
      RegisteredStep(env, Run(env, frames[..n]), n, frames[n]);
    }
  }

  /** Every id handed out belongs to a track, live or dropped. */
  lemma EveryIdHasATrack(env: Env, frames: seq<seq<Detection>>, id: nat)
    requires 1 <= id < Run(env, frames).tracker.nextId
    ensures var s := Run(env, frames);
            (exists t :: t in s.tracker.tracks && t.id == id) || (exists t :: t in s.retired && t.id == id)
  {
    hide Run;
    AlwaysRegistered(env, frames);
    TracksAreIds(env, frames);
    var s := Run(env, frames);
    var all := s.retired + s.tracker.tracks;
    var slots := seq(|all|, i requires 0 <= i < |all| && IdsWithin(all, 1, s.tracker.nextId) => (all[i].id - 1) as nat);
    assert Distinct(slots);
    PigeonHole(slots, s.tracker.nextId - 1);
    var w: nat := id - 1;
    assert w in slots;
    var i :| 0 <= i < |slots| && slots[i] == w;
    assert all[i].id == id && (all[i] in s.retired || all[i] in s.tracker.tracks);
  }

  lemma BooksGrow(env: Env, s: RunState, frame: nat, dets: seq<Detection>)
    ensures s.retired <= FrameStep(env, s, frame, dets).retired
    ensures s.tracker.nextId <= FrameStep(env, s, frame, dets).tracker.nextId
  {
    hide Advanced, Spare, ObserveFrame, ObserveCrossings, Crossings, Filter, MarkAll;
  }

  /** Dropped tracks stay dropped, and the id counter never goes back. */
  lemma {:induction false} BooksOnlyGrow(env: Env, frames: seq<seq<Detection>>, n: nat)
    requires n <= |frames|
    ensures Run(env, frames[..n]).retired <= Run(env, frames).retired
    ensures Run(env, frames[..n]).tracker.nextId <= Run(env, frames).tracker.nextId
  {
    hide FrameStep;
    if n < |frames| {
      var last := |frames| - 1;
      BooksOnlyGrow(env, frames[..last], n);
      BooksGrow(env, Run(env, frames[..last]), last, frames[last]);
      assert frames[..last][..n] == frames[..n];
    } else {
      FullPrefix(frames);
    }
  }

  /** An id that was handed out and is not live any more never becomes live again. */
  lemma IdsNeverReused(env: Env, frames: seq<seq<Detection>>, n: nat, id: nat)
    requires n <= |frames| && 1 <= id < Run(env, frames[..n]).tracker.nextId
    requires forall t | t in Run(env, frames[..n]).tracker.tracks :: t.id != id
    ensures forall t | t in Run(env, frames).tracker.tracks :: t.id != id
  {
    hide Run;
    EveryIdHasATrack(env, frames[..n], id);
    BooksOnlyGrow(env, frames, n);
    AlwaysRegistered(env, frames);
    var s := Run(env, frames);
    var before := Run(env, frames[..n]).retired;
    var k :| 0 <= k < |before| && before[k].id == id;
    assert s.retired[k].id == id;
  }

  // ----- how old a track is -----

  /** The id was handed out in frame `b`. */
  ghost predicate BornIn(env: Env, frames: seq<seq<Detection>>, id: nat, b: int) {
    0 <= b < |frames| && Run(env, frames[..b]).tracker.nextId <= id < Run(env, frames[..b + 1]).tracker.nextId
  }

  /** What an update does to ages: a track that was there is one frame older, a new one has a new id and age 0. */
  lemma AdvancedAges(settings: Settings, solve: Assignment.Solver, st: TrackerState, dets: seq<Detection>)
    ensures var all := Advanced(settings, solve, st, dets);
            && |all| == |st.tracks| + |Spare(settings, solve, st.tracks, dets)|
            && (forall i | 0 <= i < |st.tracks| :: all[i].id == st.tracks[i].id && all[i].age == st.tracks[i].age + 1)
            && (forall i | |st.tracks| <= i < |all| ::
                  all[i].age == 0 && st.nextId <= all[i].id < Update(settings, solve, st, dets).nextId)
  {
    hide Matching, Spare, Filter;
  }

  lemma BornEarlier(env: Env, frames: seq<seq<Detection>>, n: nat, id: nat, b: int)
    requires n <= |frames| && BornIn(env, frames[..n], id, b)
    ensures BornIn(env, frames, id, b)
  {
    hide Run;
    assert frames[..n][..b] == frames[..b] && frames[..n][..b + 1] == frames[..b + 1];
  }

  lemma ListedAge(env: Env, s: RunState, frame: nat, dets: seq<Detection>, i: nat) returns (k: nat)
    requires i < |FrameStep(env, s, frame, dets).tracker.tracks|
    ensures var all, t := Advanced(env.settings, env.solve, s.tracker, dets), FrameStep(env, s, frame, dets).tracker.tracks[i];
            k < |all| && t.id == all[k].id && t.age == all[k].age
  {
    hide Advanced, ObserveFrame, ObserveCrossings, Crossings, ToCount, Filter;
    var all := Advanced(env.settings, env.solve, s.tracker, dets);
    var listed := Filter(StillAlive(env.settings), all);
    assert listed[i] in listed;
    k :| 0 <= k < |all| && all[k] == listed[i];
  }

  ghost predicate AgesRight(env: Env, frames: seq<seq<Detection>>, ts: seq<Trajectory>) {
    forall i | 0 <= i < |ts| :: BornIn(env, frames, ts[i].id, |frames| - 1 - ts[i].age)
  }

  lemma AgesStep(env: Env, frames: seq<seq<Detection>>, n: nat, s: RunState)
    requires |frames| == n + 1 && s == Run(env, frames[..n]) && AgesRight(env, frames[..n], s.tracker.tracks)
    ensures AgesRight(env, frames, Run(env, frames).tracker.tracks)
  {
    hide Run, FrameStep, BornIn, Advanced;
    var next := Run(env, frames);
    FullPrefix(frames);
    RunStep(env, frames, n);
    AdvancedAges(env.settings, env.solve, s.tracker, frames[n]);
    NextIdStep(env, s, n, frames[n]);
    forall i | 0 <= i < |next.tracker.tracks|
      ensures BornIn(env, frames, next.tracker.tracks[i].id, n - next.tracker.tracks[i].age)
    {
      var k := ListedAge(env, s, n, frames[n], i);
      if k < |s.tracker.tracks| {
        var before := s.tracker.tracks[k];
        BornEarlier(env, frames, n, before.id, |frames[..n]| - 1 - before.age);
      } else {
        BornNow(env, frames, next.tracker.tracks[i].id);
      }
    }
  }

  /** In every run the age of a listed track is the number of frames since the one in which its id was handed out. */
  lemma {:induction false} AgeTellsBirth(env: Env, frames: seq<seq<Detection>>)
    ensures AgesRight(env, frames, Run(env, frames).tracker.tracks)
  {
    hide FrameStep, AgesRight;
    if frames == [] {
      NoAges(env, frames);
    } else {
      var n := |frames| - 1;
      AgeTellsBirth(env, frames[..n]);
      AgesStep(env, frames, n, Run(env, frames[..n]));
    }
  }

  lemma NoAges(env: Env, frames: seq<seq<Detection>>)
    ensures AgesRight(env, frames, START.tracker.tracks)
  {
  }

  lemma NextIdStep(env: Env, s: RunState, frame: nat, dets: seq<Detection>)
    ensures FrameStep(env, s, frame, dets).tracker.nextId == Update(env.settings, env.solve, s.tracker, dets).nextId
  {
    hide Update, MarkAll, ObserveFrame, ObserveCrossings, Crossings, Advanced;
  }

  lemma BornNow(env: Env, frames: seq<seq<Detection>>, id: nat)
    requires frames != []
    requires Run(env, frames[..|frames| - 1]).tracker.nextId <= id < Run(env, frames).tracker.nextId
    ensures BornIn(env, frames, id, |frames| - 1)
  {
    hide Run;
    FullPrefix(frames);
  }
}
