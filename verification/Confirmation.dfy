/** In which frames a track was matched, and when the matches that confirm it are consecutive. */
module Confirmation {
  import opened Seqs
  import opened Geometry
  import opened Tracking
  import opened Counting
  import opened Monitoring
  import opened Pipeline
  import opened Identity
  import opened CountTheorems
  import opened Leftovers
  import opened ParkedRuns
  import Ledger

  // ----- the frames of a track -----

  ghost predicate Live(ts: seq<Trajectory>, id: nat) { exists i :: 0 <= i < |ts| && ts[i].id == id }

  /** The track with this id got a detection in the last frame. */
  ghost predicate JustSeen(ts: seq<Trajectory>, id: nat) {
    exists i :: 0 <= i < |ts| && ts[i].id == id && ts[i].misses == 0
  }

  /** The frames in which track `id` got a detection. */
  ghost function MatchFrames(env: Env, frames: seq<seq<Detection>>, id: nat): seq<nat> {
    if frames == [] then []
    else
      var n := |frames| - 1;
      MatchFrames(env, frames[..n], id) + if JustSeen(Run(env, frames).tracker.tracks, id) then [n] else []
  }

  lemma {:induction false} MatchFramesInOrder(env: Env, frames: seq<seq<Detection>>, id: nat)
    ensures var m := MatchFrames(env, frames, id);
            Increasing(m) && forall k | 0 <= k < |m| :: m[k] < |frames|
  {
    hide Run, JustSeen;
    if frames == [] {
    } else {
      MatchFramesInOrder(env, frames[..|frames| - 1], id);
    }
  }

  lemma MatchFramesStep(env: Env, frames: seq<seq<Detection>>, n: nat, id: nat)
    requires n < |frames|
    ensures MatchFrames(env, frames[..n + 1], id)
         == if JustSeen(Run(env, frames[..n + 1]).tracker.tracks, id) then MatchFrames(env, frames[..n], id) + [n]
            else MatchFrames(env, frames[..n], id)
  {
    hide Run, JustSeen;
    assert frames[..n + 1][..n] == frames[..n];
  }

  lemma {:induction false} MatchFramesGrow(env: Env, frames: seq<seq<Detection>>, n: nat, id: nat)
    requires n <= |frames|
    ensures MatchFrames(env, frames[..n], id) <= MatchFrames(env, frames, id)
  {
    hide Run, JustSeen;
    if n == |frames| {
      FullPrefix(frames);
    } else {
      var last := |frames| - 1;
      MatchFramesGrow(env, frames[..last], n, id);
      assert frames[..last][..n] == frames[..n];
    }
  }

  /** No frame belongs to an id that was not handed out. */
  lemma {:induction false} NoMatchesYet(env: Env, frames: seq<seq<Detection>>, id: nat)
    requires id >= Run(env, frames).tracker.nextId
    ensures MatchFrames(env, frames, id) == []
  {
    hide Run;
    if frames == [] {
    } else {
      var n := |frames| - 1;
      BooksOnlyGrow(env, frames, n);
      NoMatchesYet(env, frames[..n], id);
      AlwaysRegistered(env, frames);
    }
  }

  // ----- sightings are the detections of these frames -----

  /** The sightings are detections of the frames `m`, one by one. */
  ghost predicate Documented(frames: seq<seq<Detection>>, m: seq<nat>, s: seq<Detection>) {
    |m| == |s| && forall k | 0 <= k < |m| :: m[k] < |frames| && s[k] in frames[m[k]]
  }

  /** ... and the frames follow one another in time. */
  ghost predicate AllInTime(env: Env, frames: seq<seq<Detection>>, ts: seq<Trajectory>) {
    forall i | 0 <= i < |ts| :: Increasing(MatchFrames(env, frames, ts[i].id))
  }

  ghost predicate AllDocumented(env: Env, frames: seq<seq<Detection>>, ts: seq<Trajectory>) {
    forall i | 0 <= i < |ts| :: Documented(frames, MatchFrames(env, frames, ts[i].id), ts[i].sightings)
  }

  /** The frames of a track after the update of frame `n`, judged by the track alone. */
  ghost function Extended(env: Env, frames: seq<seq<Detection>>, n: nat, t: Trajectory): seq<nat>
    requires n < |frames|
  {
    MatchFrames(env, frames[..n], t.id) + if t.misses == 0 then [n] else []
  }

  lemma DocumentedLater(frames: seq<seq<Detection>>, n: nat, m: seq<nat>, s: seq<Detection>)
    requires n <= |frames| && Documented(frames[..n], m, s)
    ensures Documented(frames, m, s)
  {
  }

  lemma DocumentedAppend(frames: seq<seq<Detection>>, m: seq<nat>, s: seq<Detection>, n: nat, d: Detection)
    requires Documented(frames, m, s) && n < |frames| && d in frames[n]
    ensures Documented(frames, m + [n], s + [d])
  {
  }

  lemma AdvancedDocumented(env: Env, frames: seq<seq<Detection>>, n: nat, i: nat)
    requires n < |frames| && i < |Advanced(env.settings, env.solve, Run(env, frames[..n]).tracker, frames[n])|
    requires AllDocumented(env, frames[..n], Run(env, frames[..n]).tracker.tracks)
    ensures var t := Advanced(env.settings, env.solve, Run(env, frames[..n]).tracker, frames[n])[i];
            Documented(frames, Extended(env, frames, n, t), t.sightings)
  {
    hide Run, Matching, Spare, MatchFrames, Documented;
    var st, dets := Run(env, frames[..n]).tracker, frames[n];
    var kept, spare := Matching(env.settings, env.solve, st.tracks, dets), Spare(env.settings, env.solve, st.tracks, dets);
    var t := Advanced(env.settings, env.solve, st, dets)[i];
    if i < |st.tracks| {
      var m := MatchFrames(env, frames[..n], st.tracks[i].id);
      DocumentedLater(frames, n, m, st.tracks[i].sightings);
      if i in kept {
        DocumentedAppend(frames, m, st.tracks[i].sightings, n, dets[kept[i]]);
      } else {
        assert m + [] == m;
      }
    } else {
      var d := dets[spare[i - |st.tracks|]];
      NoMatchesYet(env, frames[..n], t.id);
      NothingDocumented(frames);
      DocumentedAppend(frames, [], [], n, d);
      assert [] + [n] == [n] && [] + [d] == [d];
    }
  }

  lemma NothingDocumented(frames: seq<seq<Detection>>)
    ensures Documented(frames, [], [])
  {
  }

  /** Ids are unique among the listed tracks, so the id is just seen iff its track is. */
  lemma JustSeenIff(ts: seq<Trajectory>, i: nat)
    requires InOrder(ts) && i < |ts|
    ensures JustSeen(ts, ts[i].id) <==> ts[i].misses == 0
  {
  }

  lemma NotListedNotSeen(ts: seq<Trajectory>, us: seq<Trajectory>, i: nat)
    requires NoCommonId(us, ts) && i < |us|
    ensures !JustSeen(ts, us[i].id) && !Live(ts, us[i].id)
  {
  }

  /** The listed tracks of frame `n`. */
  lemma ListedDocumented(env: Env, frames: seq<seq<Detection>>, n: nat)
    requires n < |frames| && AllDocumented(env, frames[..n], Run(env, frames[..n]).tracker.tracks)
    ensures AllDocumented(env, frames[..n + 1], Run(env, frames[..n + 1]).tracker.tracks)
  {
    hide Run, Documented, JustSeen, MatchFrames, ToCount, Crossings, ObserveFrame, ObserveCrossings, Advanced;
    var s := Run(env, frames[..n]);
    var ts := Run(env, frames[..n + 1]).tracker.tracks;
    var all := Advanced(env.settings, env.solve, s.tracker, frames[n]);
    RunStep(env, frames, n);
    AlwaysRegistered(env, frames[..n + 1]);
    var listed := Filter(StillAlive(env.settings), all);
    forall i | 0 <= i < |ts|
      ensures Documented(frames[..n + 1], MatchFrames(env, frames[..n + 1], ts[i].id), ts[i].sightings)
    {
      assert ts[i] == Marked(env.settings, env.geometry, listed[i]) && listed[i] in listed;
      var j :| 0 <= j < |all| && all[j] == listed[i];
      AllExtended(env, frames, n, j);
      JustSeenIff(ts, i);
      MatchFramesStep(env, frames, n, ts[i].id);
    }
  }

  /** `AdvancedDocumented` in the video up to frame `n`. */
  lemma AllExtended(env: Env, frames: seq<seq<Detection>>, n: nat, j: nat)
    requires n < |frames| && AllDocumented(env, frames[..n], Run(env, frames[..n]).tracker.tracks)
    requires j < |Advanced(env.settings, env.solve, Run(env, frames[..n]).tracker, frames[n])|
    ensures var t := Advanced(env.settings, env.solve, Run(env, frames[..n]).tracker, frames[n])[j];
            Documented(frames[..n + 1],
                       if t.misses == 0 then MatchFrames(env, frames[..n], t.id) + [n] else MatchFrames(env, frames[..n], t.id),
                       t.sightings)
  {
    hide Run, Documented, MatchFrames, Advanced, AllDocumented;
    assert frames[..n + 1][..n] == frames[..n] && frames[..n + 1][n] == frames[n];
    AdvancedDocumented(env, frames[..n + 1], n, j);
    var t := Advanced(env.settings, env.solve, Run(env, frames[..n]).tracker, frames[n])[j];
    assert MatchFrames(env, frames[..n], t.id) + [] == MatchFrames(env, frames[..n], t.id);
  }

  /** The dropped tracks of frame `n`: they got nothing in it. */
  lemma RetiredDocumented(env: Env, frames: seq<seq<Detection>>, n: nat)
    requires n < |frames| && AllDocumented(env, frames[..n], Run(env, frames[..n]).tracker.tracks)
    requires AllDocumented(env, frames[..n], Run(env, frames[..n]).retired)
    ensures AllDocumented(env, frames[..n + 1], Run(env, frames[..n + 1]).retired)
  {
    hide Run, Documented, JustSeen, MatchFrames, MarkAll, Crossings, ObserveFrame, ObserveCrossings, Advanced;
    var s := Run(env, frames[..n]);
    var us := Run(env, frames[..n + 1]).retired;
    var all := Advanced(env.settings, env.solve, s.tracker, frames[n]);
    RunStep(env, frames, n);
    AlwaysRegistered(env, frames[..n + 1]);
    var gone := Filter(Expired(env.settings), all);
    forall i | 0 <= i < |us|
      ensures Documented(frames[..n + 1], MatchFrames(env, frames[..n + 1], us[i].id), us[i].sightings)
    {
      NotListedNotSeen(Run(env, frames[..n + 1]).tracker.tracks, us, i);
      MatchFramesStep(env, frames, n, us[i].id);
      if i < |s.retired| {
        assert frames[..n + 1][..n] == frames[..n];
        DocumentedLater(frames[..n + 1], n, MatchFrames(env, frames[..n], us[i].id), us[i].sightings);
      } else {
        assert us[i] in gone;
        var j :| 0 <= j < |all| && all[j] == us[i];
        AllExtended(env, frames, n, j);
      }
    }
  }

  lemma EveryoneInTime(env: Env, frames: seq<seq<Detection>>, ts: seq<Trajectory>)
    ensures AllInTime(env, frames, ts)
  {
    hide MatchFrames, Increasing;
    forall i | 0 <= i < |ts|
      ensures Increasing(MatchFrames(env, frames, ts[i].id))
    {
      MatchFramesInOrder(env, frames, ts[i].id);
    }
  }

  /** In every run the sightings of a track, live or dropped, are detections of the frames in which it was matched, in
      order and one for each of these frames. */
  lemma {:induction false} SightingsAreDocumented(env: Env, frames: seq<seq<Detection>>)
    ensures AllDocumented(env, frames, Run(env, frames).tracker.tracks)
    ensures AllDocumented(env, frames, Run(env, frames).retired)
    ensures AllInTime(env, frames, Run(env, frames).tracker.tracks) && AllInTime(env, frames, Run(env, frames).retired)
  {
    hide FrameStep, MatchFrames, Documented, Run, Increasing;
    EveryoneInTime(env, frames, Run(env, frames).tracker.tracks);
    EveryoneInTime(env, frames, Run(env, frames).retired);
    if frames == [] {
      RunStart(env, frames);
    } else {
      var n := |frames| - 1;
      SightingsAreDocumented(env, frames[..n]);
      ListedDocumented(env, frames, n);
      RetiredDocumented(env, frames, n);
      FullPrefix(frames);
    }
  }

  // ----- when no miss is forgiven -----

  ghost predicate Consecutive(m: seq<nat>) { forall k | 0 <= k < |m| :: m[k] == m[0] + k }

  /** A listed track whose id was handed out before was listed before. */
  lemma OldIdsWereLive(env: Env, frames: seq<seq<Detection>>, n: nat, id: nat)
    requires n < |frames| && id < Run(env, frames[..n]).tracker.nextId
    requires Live(Run(env, frames[..n + 1]).tracker.tracks, id)
    ensures Live(Run(env, frames[..n]).tracker.tracks, id)
  {
    hide Run;
    if !Live(Run(env, frames[..n]).tracker.tracks, id) {
      var ts := Run(env, frames[..n + 1]).tracker.tracks;
      var i :| 0 <= i < |ts| && ts[i].id == id;
      assert ts[i] in ts;
      AlwaysRegistered(env, frames[..n + 1]);
      assert frames[..n + 1][..n] == frames[..n];
      NotLiveAsSet(Run(env, frames[..n]).tracker.tracks, id);
      IdsNeverReused(env, frames[..n + 1], n, id);
      assert false;
    }
  }

  lemma NotLiveAsSet(ts: seq<Trajectory>, id: nat)
    requires !Live(ts, id)
    ensures forall t | t in ts :: t.id != id
  {
  }

  /** With maximal age 0 a listed track was just seen. */
  lemma LiveIsSeen(env: Env, frames: seq<seq<Detection>>, id: nat)
    requires env.settings.trackerMaxAge == 0 && Live(Run(env, frames).tracker.tracks, id)
    ensures JustSeen(Run(env, frames).tracker.tracks, id)
  {
    hide Run;
    Ledger.YoungEnough(env, frames);
  }

  lemma SeenIsLive(ts: seq<Trajectory>, id: nat)
    requires JustSeen(ts, id)
    ensures Live(ts, id)
  {
  }

  /** With maximal age 0 the frames of a track have no gap, and a listed track was seen in the last frame. */
  lemma {:induction false} NoGaps(env: Env, frames: seq<seq<Detection>>, id: nat)
    requires env.settings.trackerMaxAge == 0
    ensures var m := MatchFrames(env, frames, id);
            Consecutive(m) && (Live(Run(env, frames).tracker.tracks, id) ==> m != [] && m[|m| - 1] == |frames| - 1)
  {
    hide Run, FrameStep, Live, JustSeen;
    if frames == [] {
      NobodyLive(env, frames, id);
    } else {
      var n := |frames| - 1;
      FullPrefix(frames);
      NoGaps(env, frames[..n], id);
      if Live(Run(env, frames).tracker.tracks, id) {
        LiveIsSeen(env, frames, id);
        if id < Run(env, frames[..n]).tracker.nextId {
          OldIdsWereLive(env, frames, n, id);
        } else {
          NoMatchesYet(env, frames[..n], id);
        }
      } else if JustSeen(Run(env, frames).tracker.tracks, id) {
        SeenIsLive(Run(env, frames).tracker.tracks, id);
      }
    }
  }

  lemma NobodyLive(env: Env, frames: seq<seq<Detection>>, id: nat)
    requires frames == []
    ensures MatchFrames(env, frames, id) == [] && !Live(Run(env, frames).tracker.tracks, id)
  {
  }

  // ----- when no overlap is enough -----

  ghost predicate AllSingle(ts: seq<Trajectory>) { forall i | 0 <= i < |ts| :: |ts[i].sightings| == 1 }

  lemma SingleStep(env: Env, s: RunState, frame: nat, dets: seq<Detection>)
    requires env.settings.trackerIouThreshold > 1.0 && AllSingle(s.tracker.tracks) && AllSingle(s.retired)
    ensures var t := FrameStep(env, s, frame, dets); AllSingle(t.tracker.tracks) && AllSingle(t.retired)
  {
    hide Matching, Spare, ToCount, Crossings, ObserveFrame, ObserveCrossings;
    NothingMatches(env.settings, env.solve, s.tracker.tracks, dets);
    var all := Advanced(env.settings, env.solve, s.tracker, dets);
    assert AllSingle(all);
    SingleFilter(StillAlive(env.settings), all);
    SingleFilter(Expired(env.settings), all);
  }

  lemma SingleFilter(p: Trajectory -> bool, ts: seq<Trajectory>)
    requires AllSingle(ts)
    ensures AllSingle(Filter(p, ts))
  {
    var r := Filter(p, ts);
    forall i | 0 <= i < |r|
      ensures |r[i].sightings| == 1
    {
      assert r[i] in r;
    }
  }

  /** Above threshold 1 no track is ever matched. */
  lemma {:induction false} NeverMatched(env: Env, frames: seq<seq<Detection>>)
    requires env.settings.trackerIouThreshold > 1.0
    ensures AllSingle(Run(env, frames).tracker.tracks) && AllSingle(Run(env, frames).retired)
  {
    hide FrameStep;
    if frames == [] {
    } else {
      var n := |frames| - 1;
      NeverMatched(env, frames[..n]);
      SingleStep(env, Run(env, frames[..n]), n, frames[n]);
    }
  }

  // ----- a box that stays where it is -----

  /** A box that is seen, missed once, and seen again until its track is confirmed. */
  function WithGap(d: Detection, hits: nat): seq<seq<Detection>>
    requires hits >= 1
  {
    if hits == 1 then [[d], []] else WithGap(d, hits - 1) + [[d]]
  }

  lemma {:induction false} WithGapParked(env: Env, d: Detection, hits: nat)
    requires hits >= 1 && env.settings.trackerMaxAge >= 1 && env.settings.trackerIouThreshold <= 1.0 && d.bbox.Solid()
    ensures |WithGap(d, hits)| == hits + 1 && WithGap(d, hits)[..1] == [[d]]
    ensures Parked(Run(env, WithGap(d, hits)), d, hits, if hits == 1 then 1 else 0)
  {
    hide FrameStep, Parked, Run;
    var frames := WithGap(d, hits);
    if hits == 1 {
      FirstFrame(env, [d]);
      ParkedAtFirst(env, d);
      RunStep(env, frames, 1);
      assert frames[..1] == [[d]] && frames[..2] == frames;
      ParkedMissed(env, Run(env, [[d]]), 1, d, 1, 0);
    } else {
      WithGapParked(env, d, hits - 1);
      RunStep(env, frames, hits);
      assert frames[..hits] == WithGap(d, hits - 1) && frames[..hits + 1] == frames;
      ParkedSeen(env, Run(env, WithGap(d, hits - 1)), hits, d, hits - 1, if hits - 1 == 1 then 1 else 0);
    }
  }

  lemma ParkedJustSeen(s: RunState, d: Detection, hits: nat)
    requires Parked(s, d, hits, 0)
    ensures JustSeen(s.tracker.tracks, 1)
  {
    assert s.tracker.tracks[0].id == 1;
  }

  // ----- exactly when -----

  /** Every track that was ever confirmed got its first `Required` matches in consecutive frames. */
  ghost predicate ConfirmedInARow(env: Env, frames: seq<seq<Detection>>) {
    forall t | t in Run(env, frames).tracker.tracks + Run(env, frames).retired && t.Confirmed(env.settings.trackerMinHits) ::
      var m, r := MatchFrames(env, frames, t.id), Required(env.settings);
      r <= |m| && m[r - 1] == m[0] + r - 1
  }

  /** A track can be confirmed although it was missed in between: here after its very first match. */
  lemma ConfirmedAcrossAMiss(env: Env, d: Detection)
    requires env.settings.trackerMaxAge >= 1 && env.settings.trackerIouThreshold <= 1.0 && d.bbox.Solid()
    ensures var frames := WithGap(d, Required(env.settings));
            && !ConfirmedInARow(env, frames)
            && |Run(env, frames).tracker.tracks| == 1
            && Run(env, frames).tracker.tracks[0].Confirmed(env.settings.trackerMinHits)
  {
    hide Run, MatchFrames, FrameStep, JustSeen, Documented;
    var r := Required(env.settings);
    var frames := WithGap(d, r);
    WithGapParked(env, d, r);
    var t := Run(env, frames).tracker.tracks[0];
    SightingsAreDocumented(env, frames);
    assert Documented(frames, MatchFrames(env, frames, 1), t.sightings);
    DocumentedSize(frames, MatchFrames(env, frames, 1), t.sightings);
    GapFrames(env, d, r);
    assert t in Run(env, frames).tracker.tracks + Run(env, frames).retired;
  }

  lemma DocumentedSize(frames: seq<seq<Detection>>, m: seq<nat>, s: seq<Detection>)
    requires Documented(frames, m, s)
    ensures |m| == |s|
  {
  }

  /** The track was seen in the first frame and in the last. */
  lemma GapFrames(env: Env, d: Detection, hits: nat)
    requires hits >= 2 && env.settings.trackerMaxAge >= 1 && env.settings.trackerIouThreshold <= 1.0 && d.bbox.Solid()
    ensures var m := MatchFrames(env, WithGap(d, hits), 1);
            |m| >= 1 && m[0] == 0 && m[|m| - 1] == hits
  {
    hide Run, JustSeen, Parked;
    var frames := WithGap(d, hits);
    WithGapParked(env, d, hits);
    ParkedJustSeen(Run(env, frames), d, hits);
    MatchFramesStep(env, frames, hits, 1);
    FullPrefix(frames);
    ParkedAtFirst(env, d);
    ParkedJustSeen(Run(env, [[d]]), d, 1);
    MatchFramesStep(env, frames, 0, 1);
    MatchFramesGrow(env, frames, 1, 1);
    assert frames[..0] == [];
  }

  lemma InARowWithoutMisses(env: Env, frames: seq<seq<Detection>>)
    requires env.settings.trackerMaxAge == 0
    ensures ConfirmedInARow(env, frames)
  {
    hide Run, MatchFrames, Documented;
    SightingsAreDocumented(env, frames);
    var s := Run(env, frames);
    forall t | t in s.tracker.tracks + s.retired && t.Confirmed(env.settings.trackerMinHits)
      ensures var m, r := MatchFrames(env, frames, t.id), Required(env.settings); r <= |m| && m[r - 1] == m[0] + r - 1
    {
      NoGaps(env, frames, t.id);
      var all := if t in s.tracker.tracks then s.tracker.tracks else s.retired;
      var i :| 0 <= i < |all| && all[i] == t;
      DocumentedSize(frames, MatchFrames(env, frames, t.id), t.sightings);
    }
  }

  lemma InARowWithoutMatches(env: Env, frames: seq<seq<Detection>>)
    requires env.settings.trackerIouThreshold > 1.0
    ensures ConfirmedInARow(env, frames)
  {
    hide Run, MatchFrames;
    NeverMatched(env, frames);
  }

  /** The matches that confirm a track are consecutive on all runs exactly when a single miss drops a track, or when
      the threshold is out of reach and nothing is ever confirmed. */
  lemma ConsecutiveIff(env: Env)
    ensures (forall frames: seq<seq<Detection>> :: ConfirmedInARow(env, frames))
       <==> env.settings.trackerMaxAge == 0 || env.settings.trackerIouThreshold > 1.0
  {
    hide ConfirmedInARow, Run;
    if env.settings.trackerMaxAge == 0 || env.settings.trackerIouThreshold > 1.0 {
      forall frames: seq<seq<Detection>>
        ensures ConfirmedInARow(env, frames)
      {
        if env.settings.trackerMaxAge == 0 {
          InARowWithoutMisses(env, frames);
        } else {
          InARowWithoutMatches(env, frames);
        }
      }
    } else {
      ConfirmedAcrossAMiss(env, Detection(Box(0.0, 0.0, 1.0, 1.0), 0.9));
    }
  }
}
