/** The run over followable bags: one track per bag for ever, and the exact final count. */
module BagRun {
  import opened Seqs
  import opened Geometry
  import opened Assignment
  import opened Scene
  import opened Tracking
  import opened Counting
  import opened Monitoring
  import opened Pipeline
  import opened Identity
  import opened Bags
  import Ledger

  /** `owner[k]` is the bag of track id k + 1: every bag that has shown up, once. */
  ghost predicate Owned(w: World, n: nat, owner: seq<nat>) {
    && Distinct(owner)
    && (forall k | 0 <= k < |owner| :: owner[k] < |w.bags| && w.bags[owner[k]].first < n)
    && (forall b: nat | b < |w.bags| && w.bags[b].first < n :: b in owner)
  }

  ghost predicate IdsOwned(owner: seq<nat>, ts: seq<Trajectory>) {
    forall i | 0 <= i < |ts| :: 1 <= ts[i].id <= |owner|
  }

  /** Live tracks follow their bags. */
  ghost predicate AllFollow(w: World, n: nat, owner: seq<nat>, ts: seq<Trajectory>)
    requires n <= |w.frames| && Consistent(w) && Owned(w, n, owner)
  {
    IdsOwned(owner, ts) && forall i | 0 <= i < |ts| :: Follows(w, owner[ts[i].id - 1], n, ts[i])
  }

  /** Dropped tracks saw all there was to see of their bags. */
  ghost predicate AllGone(settings: Settings, w: World, n: nat, owner: seq<nat>, ts: seq<Trajectory>)
    requires n <= |w.frames| && Consistent(w) && Owned(w, n, owner) && |w.labels| == |w.frames|
  {
    && IdsOwned(owner, ts)
    && forall i | 0 <= i < |ts| ::
         ts[i].sightings == SightingsOf(w, owner[ts[i].id - 1], n) && Gap(w, owner[ts[i].id - 1], n) > settings.trackerMaxAge
  }

  /** Tracks and bags correspond after `n` frames. */
  ghost predicate Tracked(settings: Settings, w: World, n: nat, owner: seq<nat>, s: RunState)
    requires n <= |w.frames| && Consistent(w)
  {
    && Owned(w, n, owner)
    && s.tracker.nextId == |owner| + 1
    && AllFollow(w, n, owner, s.tracker.tracks)
    && AllGone(settings, w, n, owner, s.retired)
  }

  /** Each live track overlaps only its own bag's detection. */
  lemma FollowersIsolated(settings: Settings, w: World, n: nat, owner: seq<nat>, ts: seq<Trajectory>)
    requires n < |w.frames| && Consistent(w) && Followable(settings, w) && Owned(w, n, owner)
    requires AllFollow(w, n, owner, ts) && InOrder(ts) && forall i | 0 <= i < |ts| :: ts[i].misses <= settings.trackerMaxAge
    ensures FrameConsistent(w, n) && Isolated(ts, w.frames[n])
  {
    hide Iou, Follows, Followable, Consistent;
    FramesConsistent(w, n);
    forall i, j | 0 <= i < |ts| && 0 <= j < |w.frames[n]| && Overlapping(ts[i], w.frames[n][j])
      ensures w.labels[n][j] == owner[ts[i].id - 1]
    {
      OverlapByBag(settings, w, owner[ts[i].id - 1], n, ts[i], j);
    }
  }

  lemma FramesConsistent(w: World, n: nat)
    requires Consistent(w) && n < |w.frames|
    ensures |w.labels| == |w.frames| && FrameConsistent(w, n)
    ensures |w.labels[n]| == |w.frames[n]|
  {
  }

  /** The matching pairs tracks and detections by bag. */
  lemma MatchedByBag(settings: Settings, solve: Solver, w: World, n: nat, owner: seq<nat>, ts: seq<Trajectory>, i: nat, j: nat)
    requires n < |w.frames| && Consistent(w) && Followable(settings, w) && Owned(w, n, owner)
    requires AllFollow(w, n, owner, ts) && InOrder(ts) && forall i | 0 <= i < |ts| :: ts[i].misses <= settings.trackerMaxAge
    requires i < |ts| && j < |w.frames[n]|
    ensures FrameConsistent(w, n)
    ensures var kept := Matching(settings, solve, ts, w.frames[n]);
            i in kept && kept[i] == j <==> w.labels[n][j] == owner[ts[i].id - 1]
  {
    hide Iou, Follows, Matching, Isolated;
    FollowersIsolated(settings, w, n, owner, ts);
    IsolatedMatching(settings, solve, ts, w.frames[n], i, j);
    OverlapByBag(settings, w, owner[ts[i].id - 1], n, ts[i], j);
  }

  /** A bag whose track was dropped is not seen again. */
  lemma GoneUnseen(settings: Settings, w: World, n: nat, owner: seq<nat>, ts: seq<Trajectory>, i: nat)
    requires n < |w.frames| && Consistent(w) && Followable(settings, w) && Owned(w, n, owner)
    requires AllGone(settings, w, n, owner, ts) && i < |ts|
    ensures owner[ts[i].id - 1] !in w.labels[n]
  {
  }

  /** A live track takes the detection of its bag. */
  lemma LiveBagMatched(env: Env, w: World, n: nat, owner: seq<nat>, s: RunState, i: nat, j: nat)
    requires n < |w.frames| && Consistent(w) && Followable(env.settings, w) && s == Run(env, w.frames[..n])
    requires Tracked(env.settings, w, n, owner, s) && i < |s.tracker.tracks| && j < |w.frames[n]|
    requires |w.labels[n]| == |w.frames[n]| && 1 <= s.tracker.tracks[i].id <= |owner|
    requires w.labels[n][j] == owner[s.tracker.tracks[i].id - 1]
    ensures j in Matching(env.settings, env.solve, s.tracker.tracks, w.frames[n]).Values
  {
    hide Run, Matching, Consistent, Followable, Distinct, Follows, AllGone;
    AlwaysRegistered(env, w.frames[..n]);
    Ledger.YoungEnough(env, w.frames[..n]);
    MatchedByBag(env.settings, env.solve, w, n, owner, s.tracker.tracks, i, j);
  }

  /** The detection of a bag that was seen before is matched: its track cannot have been dropped. */
  lemma KnownBagMatched(env: Env, w: World, n: nat, owner: seq<nat>, s: RunState, j: nat)
    requires n < |w.frames| && Consistent(w) && Followable(env.settings, w) && s == Run(env, w.frames[..n])
    requires Tracked(env.settings, w, n, owner, s) && j < |w.frames[n]|
    requires |w.labels[n]| == |w.frames[n]| && w.labels[n][j] in owner
    ensures j in Matching(env.settings, env.solve, s.tracker.tracks, w.frames[n]).Values
  {
    hide Run, Matching, Consistent, Followable, Distinct, AllFollow, AllGone;
    FramesConsistent(w, n);
    var k :| 0 <= k < |owner| && owner[k] == w.labels[n][j];
    EveryIdHasATrack(env, w.frames[..n], k + 1);
    if t :| t in s.retired && t.id == k + 1 {
      var i :| 0 <= i < |s.retired| && s.retired[i] == t;
      GoneUnseen(env.settings, w, n, owner, s.retired, i);
    } else {
      var t :| t in s.tracker.tracks && t.id == k + 1;
      var i :| 0 <= i < |s.tracker.tracks| && s.tracker.tracks[i] == t;
      LiveBagMatched(env, w, n, owner, s, i, j);
    }
  }

  /** A detection is spare exactly when it shows a bag for the first time. */
  lemma SpareIsNew(env: Env, w: World, n: nat, owner: seq<nat>, s: RunState, j: nat)
    requires n < |w.frames| && Consistent(w) && Followable(env.settings, w) && s == Run(env, w.frames[..n])
    requires Tracked(env.settings, w, n, owner, s) && j < |w.frames[n]|
    ensures FrameConsistent(w, n)
    ensures j in Spare(env.settings, env.solve, s.tracker.tracks, w.frames[n])
       <==> w.bags[w.labels[n][j]].first == n
  {
    hide Run, Matching, Follows, Consistent, Followable, AllGone;
    FramesConsistent(w, n);
    AlwaysRegistered(env, w.frames[..n]);
    Ledger.YoungEnough(env, w.frames[..n]);
    var ts, b := s.tracker.tracks, w.labels[n][j];
    var kept := Matching(env.settings, env.solve, ts, w.frames[n]);
    if w.bags[b].first < n {
      KnownBagMatched(env, w, n, owner, s, j);
    } else if j in kept.Values {
      var i :| i in kept && kept[i] == j;
      MatchedByBag(env.settings, env.solve, w, n, owner, ts, i, j);
    }
  }

  /** The owners after frame `n`: the bags of the spare detections are added in order. */
  ghost function NewOwners(w: World, n: nat, owner: seq<nat>, spare: seq<nat>): (r: seq<nat>)
    requires n < |w.labels| && forall k | 0 <= k < |spare| :: spare[k] < |w.labels[n]|
    ensures |r| == |owner| + |spare|
  {
    owner + seq(|spare|, k requires 0 <= k < |spare| => w.labels[n][spare[k]])
  }

  lemma OwnersStep(env: Env, w: World, n: nat, owner: seq<nat>, s: RunState)
    requires n < |w.frames| && Consistent(w) && Followable(env.settings, w) && s == Run(env, w.frames[..n])
    requires Tracked(env.settings, w, n, owner, s)
    ensures var spare := Spare(env.settings, env.solve, s.tracker.tracks, w.frames[n]);
            FrameConsistent(w, n) && Owned(w, n + 1, NewOwners(w, n, owner, spare))
            && forall k | 0 <= k < |spare| ::
                 w.labels[n][spare[k]] < |w.bags| && w.bags[w.labels[n][spare[k]]].first == n
  {
    hide Run, Tracked, Spare, Consistent, Followable;
    FramesConsistent(w, n);
    var spare := Spare(env.settings, env.solve, s.tracker.tracks, w.frames[n]);
    TrackedOwned(env.settings, w, n, owner, s);
    forall j: nat | j < |w.frames[n]|
      ensures j in spare <==> w.bags[w.labels[n][j]].first == n
    {
      SpareIsNew(env, w, n, owner, s, j);
    }
    assert forall k | 0 <= k < |spare| :: spare[k] in spare;
    NewOwnersDistinct(w, n, owner, spare);
    NewOwnersCover(w, n, owner, spare);
  }

  lemma NewOwnersCover(w: World, n: nat, owner: seq<nat>, spare: seq<nat>)
    requires n < |w.frames| && Consistent(w) && FrameConsistent(w, n) && Owned(w, n, owner)
    requires forall k | 0 <= k < |spare| :: spare[k] < |w.labels[n]|
    requires forall j: nat | j < |w.frames[n]| :: j in spare <==> w.bags[w.labels[n][j]].first == n
    ensures forall b: nat | b < |w.bags| && w.bags[b].first < n + 1 :: b in NewOwners(w, n, owner, spare)
  {
    var next := NewOwners(w, n, owner, spare);
    forall b: nat | b < |w.bags| && w.bags[b].first < n + 1
      ensures b in next
    {
      if w.bags[b].first < n {
        var k :| 0 <= k < |owner| && owner[k] == b;
        assert next[k] == b;
      } else {
        var j :| 0 <= j < |w.labels[n]| && w.labels[n][j] == b;
        var k :| 0 <= k < |spare| && spare[k] == j;
        assert next[|owner| + k] == b;
      }
    }
  }

  lemma TrackedOwned(settings: Settings, w: World, n: nat, owner: seq<nat>, s: RunState)
    requires n <= |w.frames| && Consistent(w) && Tracked(settings, w, n, owner, s)
    ensures Owned(w, n, owner)
  {
  }

  lemma NewOwnersDistinct(w: World, n: nat, owner: seq<nat>, spare: seq<nat>)
    requires n < |w.frames| && |w.labels| == |w.frames| && FrameConsistent(w, n) && Owned(w, n, owner) && Increasing(spare)
    requires forall k | 0 <= k < |spare| :: spare[k] < |w.labels[n]| && w.bags[w.labels[n][spare[k]]].first == n
    ensures Distinct(NewOwners(w, n, owner, spare))
  {
  }

  /** Every track of an update follows its bag. */
  lemma AdvancedFollows(env: Env, w: World, n: nat, owner: seq<nat>, s: RunState)
    requires n < |w.frames| && Consistent(w) && Followable(env.settings, w) && s == Run(env, w.frames[..n])
    requires Tracked(env.settings, w, n, owner, s)
    ensures var spare := Spare(env.settings, env.solve, s.tracker.tracks, w.frames[n]);
            FrameConsistent(w, n) && Owned(w, n + 1, NewOwners(w, n, owner, spare))
            && AllFollow(w, n + 1, NewOwners(w, n, owner, spare), Advanced(env.settings, env.solve, s.tracker, w.frames[n]))
  {
    hide Run, Matching, Spare, AllFollow, AllGone, Consistent, Followable, Distinct, FrameConsistent, Carried, Births;
    FramesConsistent(w, n);
    var ts, dets := s.tracker.tracks, w.frames[n];
    var kept, spare := Matching(env.settings, env.solve, ts, dets), Spare(env.settings, env.solve, ts, dets);
    var next := NewOwners(w, n, owner, spare);
    OwnersStep(env, w, n, owner, s);
    CarriedAllFollow(env, w, n, owner, s, next);
    BornAllFollow(w, n, owner, spare);
    FollowTogether(w, n + 1, next, Carried(ts, dets, kept), Births(s.tracker.nextId, dets, spare));
  }

  lemma FollowTogether(w: World, n: nat, owner: seq<nat>, a: seq<Trajectory>, b: seq<Trajectory>)
    requires n <= |w.frames| && Consistent(w) && Owned(w, n, owner)
    requires AllFollow(w, n, owner, a) && AllFollow(w, n, owner, b)
    ensures AllFollow(w, n, owner, a + b)
  {
    hide Follows;
  }

  lemma BornAllFollow(w: World, n: nat, owner: seq<nat>, spare: seq<nat>)
    requires n < |w.frames| && Consistent(w) && |w.labels| == |w.frames| && |w.labels[n]| == |w.frames[n]|
    requires forall k | 0 <= k < |spare| :: spare[k] < |w.labels[n]|
    requires Owned(w, n + 1, NewOwners(w, n, owner, spare))
    requires forall k | 0 <= k < |spare| :: w.labels[n][spare[k]] < |w.bags| && w.bags[w.labels[n][spare[k]]].first == n
    ensures AllFollow(w, n + 1, NewOwners(w, n, owner, spare), Births(|owner| + 1, w.frames[n], spare))
  {
    hide Follows, Consistent, Distinct;
    var born, next := Births(|owner| + 1, w.frames[n], spare), NewOwners(w, n, owner, spare);
    forall k | 0 <= k < |born|
      ensures 1 <= born[k].id <= |next| && Follows(w, next[born[k].id - 1], n + 1, born[k])
    {
      DetectionAt(w, n, spare[k]);
      BornFollows(w, w.labels[n][spare[k]], n, born[k].id);
    }
  }

  lemma CarriedAllFollow(env: Env, w: World, n: nat, owner: seq<nat>, s: RunState, next: seq<nat>)
    requires n < |w.frames| && Consistent(w) && Followable(env.settings, w) && s == Run(env, w.frames[..n])
    requires Tracked(env.settings, w, n, owner, s) && owner <= next && Owned(w, n + 1, next)
    ensures AllFollow(w, n + 1, next,
                      Carried(s.tracker.tracks, w.frames[n], Matching(env.settings, env.solve, s.tracker.tracks, w.frames[n])))
  {
    hide Run, Matching, Follows, AllGone, Consistent, Followable, Carry, Distinct;
    var ts, kept := s.tracker.tracks, Matching(env.settings, env.solve, s.tracker.tracks, w.frames[n]);
    var carried := Carried(ts, w.frames[n], kept);
    forall i | 0 <= i < |carried|
      ensures 1 <= carried[i].id <= |next| && Follows(w, next[carried[i].id - 1], n + 1, carried[i])
    {
      CarriedFollows(env, w, n, owner, s, i);
      CarryKeepsId(ts[i], w.frames[n], kept, i);
    }
  }

  lemma CarryKeepsId(t: Trajectory, dets: seq<Detection>, kept: map<nat, nat>, i: nat)
    requires i in kept ==> kept[i] < |dets|
    ensures Carry(t, dets, kept, i).id == t.id
  {
  }

  lemma CarriedFollows(env: Env, w: World, n: nat, owner: seq<nat>, s: RunState, i: nat)
    requires n < |w.frames| && Consistent(w) && Followable(env.settings, w) && s == Run(env, w.frames[..n])
    requires Tracked(env.settings, w, n, owner, s) && i < |s.tracker.tracks|
    ensures var t := s.tracker.tracks[i];
            1 <= t.id <= |owner|
            && Follows(w, owner[t.id - 1], n + 1,
                       Carry(t, w.frames[n], Matching(env.settings, env.solve, s.tracker.tracks, w.frames[n]), i))
  {
    hide Run, Matching, Follows, AllGone, Consistent, Followable, Carry;
    FramesConsistent(w, n);
    AlwaysRegistered(env, w.frames[..n]);
    Ledger.YoungEnough(env, w.frames[..n]);
    var ts, dets := s.tracker.tracks, w.frames[n];
    var kept, b := Matching(env.settings, env.solve, ts, dets), owner[ts[i].id - 1];
    assert Follows(w, b, n, ts[i]);
    if i in kept {
      MatchedByBag(env.settings, env.solve, w, n, owner, ts, i, kept[i]);
      DetectionAt(w, n, kept[i]);
      SeenFollows(w, b, n, ts[i]);
      CarrySeen(ts[i], dets, kept, i);
    } else {
      forall j | 0 <= j < |dets|
        ensures w.labels[n][j] != b
      {
        MatchedByBag(env.settings, env.solve, w, n, owner, ts, i, j);
      }
      MissedFollows(w, b, n, ts[i]);
      CarryMissed(ts[i], dets, kept, i);
    }
  }

  lemma CarrySeen(t: Trajectory, dets: seq<Detection>, kept: map<nat, nat>, i: nat)
    requires i in kept && kept[i] < |dets|
    ensures Carry(t, dets, kept, i) == t.Aged().Seen(dets[kept[i]])
  {
  }

  lemma CarryMissed(t: Trajectory, dets: seq<Detection>, kept: map<nat, nat>, i: nat)
    requires i !in kept
    ensures Carry(t, dets, kept, i) == t.Aged().Missed()
  {
  }

  lemma FilterFollow(w: World, n: nat, owner: seq<nat>, p: Trajectory -> bool, ts: seq<Trajectory>)
    requires n <= |w.frames| && Consistent(w) && Owned(w, n, owner) && AllFollow(w, n, owner, ts)
    ensures AllFollow(w, n, owner, Filter(p, ts))
  {
    hide Follows, Consistent, Distinct, Filter;
    var r := Filter(p, ts);
    forall i | 0 <= i < |r|
      ensures 1 <= r[i].id <= |owner| && Follows(w, owner[r[i].id - 1], n, r[i])
    {
      assert r[i] in r;
    }
  }

  lemma MarkedFollow(settings: Settings, g: SceneGeometry, w: World, n: nat, owner: seq<nat>, ts: seq<Trajectory>)
    requires n <= |w.frames| && Consistent(w) && Owned(w, n, owner) && AllFollow(w, n, owner, ts)
    ensures AllFollow(w, n, owner, MarkAll(settings, g, ts))
  {
    hide ToCount, BagAt, Gap, SightingsOf;
  }

  /** Dropped tracks stay complete: their bags are never seen again. */
  lemma GoneStay(settings: Settings, w: World, n: nat, owner: seq<nat>, next: seq<nat>, ts: seq<Trajectory>)
    requires n < |w.frames| && Consistent(w) && Followable(settings, w) && Owned(w, n, owner) && Owned(w, n + 1, next)
    requires owner <= next && AllGone(settings, w, n, owner, ts)
    ensures AllGone(settings, w, n + 1, next, ts)
  {
  }

  lemma ExpiredGone(settings: Settings, w: World, n: nat, owner: seq<nat>, ts: seq<Trajectory>)
    requires n <= |w.frames| && Consistent(w) && Owned(w, n, owner) && AllFollow(w, n, owner, ts)
    ensures AllGone(settings, w, n, owner, Filter(Expired(settings), ts))
  {
    hide BagAt, Gap, SightingsOf, Consistent, Distinct, Filter;
    FilterFollow(w, n, owner, Expired(settings), ts);
    var r := Filter(Expired(settings), ts);
    forall i | 0 <= i < |r|
      ensures r[i].misses > settings.trackerMaxAge
    {
      assert r[i] in r;
    }
  }

  lemma TrackedStep(env: Env, w: World, n: nat, owner: seq<nat>, s: RunState) returns (next: seq<nat>)
    requires n < |w.frames| && Consistent(w) && Followable(env.settings, w) && s == Run(env, w.frames[..n])
    requires Tracked(env.settings, w, n, owner, s)
    ensures owner <= next && Tracked(env.settings, w, n + 1, next, FrameStep(env, s, n, w.frames[n]))
  {
    hide Run, Spare, Advanced, AllFollow, AllGone, Filter, Consistent, Followable, MarkAll, Crossings, ObserveFrame, ObserveCrossings, Owned;
    var spare := Spare(env.settings, env.solve, s.tracker.tracks, w.frames[n]);
    FramesConsistent(w, n);
    AdvancedFollows(env, w, n, owner, s);
    next := NewOwners(w, n, owner, spare);
    var all := Advanced(env.settings, env.solve, s.tracker, w.frames[n]);
    FilterFollow(w, n + 1, next, StillAlive(env.settings), all);
    MarkedFollow(env.settings, env.geometry, w, n + 1, next, Filter(StillAlive(env.settings), all));
    GoneStay(env.settings, w, n, owner, next, s.retired);
    ExpiredGone(env.settings, w, n + 1, next, all);
    GoneTogether(env.settings, w, n + 1, next, s.retired, Filter(Expired(env.settings), all));
  }

  lemma GoneTogether(settings: Settings, w: World, n: nat, owner: seq<nat>, a: seq<Trajectory>, b: seq<Trajectory>)
    requires n <= |w.frames| && Consistent(w) && Owned(w, n, owner)
    requires AllGone(settings, w, n, owner, a) && AllGone(settings, w, n, owner, b)
    ensures AllGone(settings, w, n, owner, a + b)
  {
    hide Gap, SightingsOf, Consistent, Distinct;
  }

  /** After `m` frames the ids handed out so far belong to the first bags of `owner`. */
  ghost predicate TrackedAt(env: Env, w: World, m: nat, owner: seq<nat>)
    requires m <= |w.frames| && Consistent(w)
  {
    var s := Run(env, w.frames[..m]);
    1 <= s.tracker.nextId <= |owner| + 1 && Tracked(env.settings, w, m, owner[..s.tracker.nextId - 1], s)
  }

  lemma TrackedLonger(env: Env, w: World, m: nat, owner: seq<nat>, longer: seq<nat>)
    requires m <= |w.frames| && Consistent(w) && TrackedAt(env, w, m, owner) && owner <= longer
    ensures TrackedAt(env, w, m, longer)
  {
    hide Run, Tracked, Consistent;
    var c := Run(env, w.frames[..m]).tracker.nextId - 1;
    assert longer[..c] == owner[..c];
  }

  lemma TrackedNow(env: Env, w: World, m: nat, owner: seq<nat>)
    requires m <= |w.frames| && Consistent(w) && Tracked(env.settings, w, m, owner, Run(env, w.frames[..m]))
    ensures TrackedAt(env, w, m, owner)
  {
    hide Run, Consistent;
    FullPrefix(owner);
  }

  /** Any number of bags, each keeps one id for the whole run: there is one assignment of bags to ids (bag owner[k]
      to id k + 1) that is right after every frame. Every bag that has shown up owns exactly one id, a live track has
      all detections of its bag so far and stands where the bag is, and a dropped track has all of them too. */
  lemma {:induction false} BagsKeepIdentity(env: Env, w: World, n: nat) returns (owner: seq<nat>)
    requires n <= |w.frames| && Consistent(w) && Followable(env.settings, w)
    ensures forall m | 0 <= m <= n :: TrackedAt(env, w, m, owner)
    ensures Tracked(env.settings, w, n, owner, Run(env, w.frames[..n]))
  {
    hide FrameStep, Tracked, TrackedAt, Consistent, Followable, Run;
    if n == 0 {
      owner := [];
      NobodyTracked(env, w);
    } else {
      var before := BagsKeepIdentity(env, w, n - 1);
      owner := TrackedStep(env, w, n - 1, before, Run(env, w.frames[..n - 1]));
      RunStep(env, w.frames, n - 1);
      forall m | 0 <= m < n
        ensures TrackedAt(env, w, m, owner)
      {
        TrackedLonger(env, w, m, before, owner);
      }
    }
    TrackedNow(env, w, n, owner);
  }

  lemma NobodyTracked(env: Env, w: World)
    requires Consistent(w)
    ensures Tracked(env.settings, w, 0, [], Run(env, w.frames[..0]))
  {
  }
}
