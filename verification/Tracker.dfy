/** The tracker itself: mutable tracks that keep a bounded history, proved against the trajectories. */
module Tracker {
  import opened Seqs
  import opened Geometry
  import opened Assignment
  import opened Scene
  import opened Tracking

  class Track {
    const trackId: nat
    var bbox: Box
    var score: real
    var velocity: Point
    var hits: nat
    var age: nat
    var timeSinceUpdate: nat
    var confirmed: bool
    var counted: bool
    var history: seq<Point>
    var areas: seq<real>
    ghost var sightings: Sightings

    /** The bounded fields agree with the full list of sightings. */
    ghost predicate Valid(settings: Settings)
      reads this
    {
      && hits == |sightings|
      && score == Last(sightings).score
      && confirmed == View().Confirmed(settings.trackerMinHits)
      && HistoryValid()
    }

    ghost function View(): Trajectory
      reads this
    {
      Trajectory(trackId, sightings, bbox, velocity, timeSinceUpdate, age, counted)
    }

    constructor (settings: Settings, id: nat, d: Detection)
      ensures Valid(settings) && View() == Born(id, d)
    {
      trackId, bbox, score, velocity := id, d.bbox, d.score, ORIGIN;
      hits, age, timeSinceUpdate, confirmed, counted := 1, 0, 0, false, false;
      history, areas := [d.Center()], [d.Area()];
      sightings := [d];
    }

    function Cx(): real
      reads this
    {
      (bbox.x1 + bbox.x2) / 2.0
    }

    function Cy(): real
      reads this
    {
      (bbox.y1 + bbox.y2) / 2.0
    }

    function PredictedBbox(): Box
      reads this
    {
      Box(bbox.x1 + velocity.x, bbox.y1 + velocity.y, bbox.x2 + velocity.x, bbox.y2 + velocity.y)
    }

    method GrowOlder(settings: Settings)
      requires Valid(settings)
      modifies `age
      ensures Valid(settings) && View() == old(View().Aged())
    {
      age := age + 1;
    }

    ghost predicate HistoryValid()
      reads `history, `areas, `sightings
    {
      && history == Suffix(Centers(sightings), HISTORY_LIMIT)
      && areas == Suffix(Areas(sightings), HISTORY_LIMIT)
    }

    /** Record a sighting; the lists forget the oldest one when they grow over the limit. */
    method Remember(det: Detection)
      requires HistoryValid()
      modifies `history, `areas, `sightings
      ensures HistoryValid() && sightings == old(sightings) + [det]
      ensures |history| == |areas| == if |sightings| <= 60 then |sightings| else 60
    {
      TrimStep(Centers(sightings), HISTORY_LIMIT, det.Center());
      TrimStep(Areas(sightings), HISTORY_LIMIT, det.Area());
      CentersAppend(sightings, det);
      history := history + [det.Center()];
      areas := areas + [det.Area()];
      if |history| > HISTORY_LIMIT {
        history := history[1..];
        areas := areas[1..];
      }
      sightings := sightings + [det];
    }

    method Update(settings: Settings, det: Detection)
      requires Valid(settings)
      modifies this
      ensures Valid(settings) && View() == old(View().Seen(det))
    {
      hide HistoryValid;
      var prevCx, prevCy := Cx(), Cy();
      var newBbox := det.bbox;
      velocity := Point((newBbox.x1 + newBbox.x2) / 2.0 - prevCx, (newBbox.y1 + newBbox.y2) / 2.0 - prevCy);
      bbox := newBbox;
      score := det.score;
      hits := hits + 1;
      timeSinceUpdate := 0;
      Remember(det);
      if hits >= settings.trackerMinHits {
        confirmed := true;
      }
    }

    method MarkMissed(settings: Settings)
      requires Valid(settings)
      modifies this
      ensures Valid(settings) && View() == old(View().Missed())
    {
      bbox := PredictedBbox();
      timeSinceUpdate := timeSinceUpdate + 1;
    }

    method SetCounted(settings: Settings)
      requires Valid(settings)
      modifies `counted
      ensures Valid(settings) && View() == old(View().(counted := true))
    {
      counted := true;
    }
  }

  ghost function Views(tracks: seq<Track>): (r: seq<Trajectory>)
    reads tracks
    ensures |r| == |tracks|
  {
    seq(|tracks|, i requires 0 <= i < |tracks| reads tracks => tracks[i].View())
  }

  /** Every listed track is consistent, and none is listed twice. */
  ghost predicate ValidTracks(settings: Settings, tracks: seq<Track>)
    reads tracks
  {
    Distinct(tracks) && forall t | t in tracks :: t.Valid(settings)
  }

  /** The tracks after the matches of one frame, those without a match untouched. */
  ghost function Matched(tracks: seq<Trajectory>, dets: seq<Detection>, kept: map<nat, nat>): (r: seq<Trajectory>)
    requires forall r | r in kept :: r < |tracks| && kept[r] < |dets|
    ensures |r| == |tracks|
  {
    seq(|tracks|, i requires 0 <= i < |tracks| => if i in kept then tracks[i].Seen(dets[kept[i]]) else tracks[i])
  }

  /** The loop over a one-to-one assignment never meets a row twice. */
  lemma RowIsFresh(cost: Matrix, n: nat, m: nat, limit: real, pairs: Pairing, k: nat)
    requires Rectangular(cost, n, m) && Within(pairs, n, m) && OneToOne(pairs) && k < |pairs|
    ensures pairs[k].row !in Gated(cost, n, m, limit, pairs[..k])
  {
  }

  lemma GatedStep(cost: Matrix, n: nat, m: nat, limit: real, pairs: Pairing, k: nat)
    requires Rectangular(cost, n, m) && Within(pairs, n, m) && k < |pairs|
    ensures var kept := Gated(cost, n, m, limit, pairs[..k]);
            Gated(cost, n, m, limit, pairs[..k + 1])
            == if cost[pairs[k].row][pairs[k].col] <= limit then kept[pairs[k].row := pairs[k].col] else kept
  {
    assert pairs[..k + 1][..k] == pairs[..k];
  }

  lemma MatchedStep(tracks: seq<Trajectory>, dets: seq<Detection>, kept: map<nat, nat>, r: nat, c: nat)
    requires forall r | r in kept :: r < |tracks| && kept[r] < |dets|
    requires r < |tracks| && c < |dets| && r !in kept
    ensures Matched(tracks, dets, kept[r := c])
         == Matched(tracks, dets, kept)[r := Matched(tracks, dets, kept)[r].Seen(dets[c])]
  {
  }

  lemma NothingMatched(tracks: seq<Trajectory>, dets: seq<Detection>)
    ensures Matched(tracks, dets, map[]) == tracks
  {
  }

  /** Ageing the tracks first does not change what they cost. */
  lemma AgedCosts(before: seq<Trajectory>, aged: seq<Trajectory>, dets: seq<Detection>)
    requires |aged| == |before| && forall i | 0 <= i < |before| :: aged[i] == before[i].Aged()
    ensures CostMatrix(aged, dets) == CostMatrix(before, dets)
  {
    forall i | 0 <= i < |before|
      ensures CostMatrix(aged, dets)[i] == CostMatrix(before, dets)[i]
    {
    }
  }

  /** Tracks after a frame: matched ones updated, the others extrapolated. */
  ghost function Settled(tracks: seq<Trajectory>, dets: seq<Detection>, kept: map<nat, nat>): (r: seq<Trajectory>)
    requires forall r | r in kept :: r < |tracks| && kept[r] < |dets|
    ensures |r| == |tracks|
  {
    seq(|tracks|, i requires 0 <= i < |tracks| =>
      if i in kept then tracks[i].Seen(dets[kept[i]]) else tracks[i].Missed())
  }

  /** Ageing first, then matching and extrapolating, is what `Carried` says. */
  lemma AgedMatching(settings: Settings, solve: Solver, before: seq<Trajectory>, aged: seq<Trajectory>, dets: seq<Detection>)
    requires |aged| == |before| && forall i | 0 <= i < |before| :: aged[i] == before[i].Aged()
    ensures Matching(settings, solve, aged, dets) == Matching(settings, solve, before, dets)
    ensures Spare(settings, solve, aged, dets) == Spare(settings, solve, before, dets)
    ensures Settled(aged, dets, Matching(settings, solve, aged, dets))
         == Carried(before, dets, Matching(settings, solve, before, dets))
  {
    AgedCosts(before, aged, dets);
  }

  lemma SettledByLoops(before: seq<Trajectory>, updated: seq<Trajectory>, final: seq<Trajectory>,
                       dets: seq<Detection>, kept: map<nat, nat>)
    requires forall r | r in kept :: r < |before| && kept[r] < |dets|
    requires updated == Matched(before, dets, kept)
    requires |final| == |before|
    requires forall i | 0 <= i < |before| :: final[i] == if i in kept.Keys then updated[i] else updated[i].Missed()
    ensures final == Settled(before, dets, kept)
  {
  }

  lemma MatchingSome(settings: Settings, solve: Solver, tracks: seq<Trajectory>, dets: seq<Detection>)
    requires tracks != [] && dets != []
    ensures var pairs := solve(CostMatrix(tracks, dets));
            Within(pairs, |tracks|, |dets|) && OneToOne(pairs)
            && Matching(settings, solve, tracks, dets)
               == Gated(CostMatrix(tracks, dets), |tracks|, |dets|, 1.0 - settings.trackerIouThreshold, pairs)
  {
    hide Iou, CostRow, Gated;
    assert IsOptimal(CostMatrix(tracks, dets), |tracks|, |dets|, solve(CostMatrix(tracks, dets)));
  }

  lemma MatchingNone(settings: Settings, solve: Solver, tracks: seq<Trajectory>, dets: seq<Detection>)
    requires tracks == [] || dets == []
    ensures Matching(settings, solve, tracks, dets) == map[]
    ensures Matching(settings, solve, tracks, dets).Values == {}
  {
  }

  lemma ViewsAppend(tracks: seq<Track>, t: Track)
    ensures Views(tracks + [t]) == Views(tracks) + [t.View()]
  {
  }

  lemma ViewsPrefix(tracks: seq<Track>, n: nat)
    requires n <= |tracks|
    ensures Views(tracks)[..n] == Views(tracks[..n])
  {
  }

  /** The carried tracks, followed by those born from the spare detections, are all tracks after an update. */
  lemma AdvancedAssembled(settings: Settings, solve: Solver, st: TrackerState, dets: seq<Detection>,
                          carried: seq<Trajectory>, all: seq<Trajectory>, spare: seq<Detection>)
    requires carried == Carried(st.tracks, dets, Matching(settings, solve, st.tracks, dets))
    requires |all| == |carried| + |spare| && all[..|carried|] == carried
    requires forall k | 0 <= k < |spare| :: all[|carried| + k] == Born(st.nextId + k, spare[k])
    requires var idx := Spare(settings, solve, st.tracks, dets);
             |spare| == |idx| && forall k | 0 <= k < |idx| :: spare[k] == dets[idx[k]]
    ensures all == Advanced(settings, solve, st, dets)
  {
    hide Carried, Matching, Spare;
    assert all == all[..|carried|] + all[|carried|..];
  }

  /** One more track is kept. */
  lemma KeptStep(settings: Settings, listed: seq<Track>, kept: seq<Track>, k: nat)
    requires ValidTracks(settings, listed) && ValidTracks(settings, kept) && k < |listed|
    requires forall t | t in kept :: t in listed[..k]
    ensures ValidTracks(settings, kept + [listed[k]])
    ensures forall t | t in kept + [listed[k]] :: t in listed[..k + 1]
    ensures Views(kept + [listed[k]]) == Views(kept) + [listed[k].View()]
  {
    hide Distinct;
    DistinctPrefix(listed, k);
    DistinctAppend(kept, listed[k]);
    ViewsAppend(kept, listed[k]);
    assert listed[..k + 1] == listed[..k] + [listed[k]];
  }

  lemma NoneKept(settings: Settings, kept: seq<Track>)
    requires kept == []
    ensures ValidTracks(settings, kept) && Views(kept) == []
  {
  }

  lemma ViewAt(settings: Settings, tracks: seq<Track>, k: nat)
    requires ValidTracks(settings, tracks) && k < |tracks|
    ensures Views(tracks)[k] == tracks[k].View() && tracks[k].Valid(settings)
  {
  }

  class BagTracker {
    const settings: Settings
    const solve: Solver
    var nextId: nat
    var tracks: seq<Track>

    ghost predicate Valid()
      reads this, tracks
    {
      ValidTracks(settings, tracks)
    }

    ghost function View(): TrackerState
      reads this, tracks
    {
      TrackerState(Views(tracks), nextId)
    }

    constructor (settings: Settings, solve: Solver)
      ensures Valid() && this.settings == settings && this.solve == solve
      ensures View() == TrackerState([], 1) && tracks == []
    {
      this.settings, this.solve := settings, solve;
      nextId, tracks := 1, [];
    }

    method NewId() returns (id: nat)
      modifies `nextId
      ensures id == old(nextId) && nextId == id + 1
    {
      id := nextId;
      nextId := nextId + 1;
    }

    method AgeAll()
      requires Valid()
      modifies tracks
      ensures Valid()
      ensures forall i | 0 <= i < |tracks| :: tracks[i].View() == old(tracks[i].View()).Aged()
    {
      for k := 0 to |tracks|
        invariant Valid()
        invariant forall i | 0 <= i < |tracks| ::
                    tracks[i].View() == if i < k then old(tracks[i].View()).Aged() else old(tracks[i].View())
      {
        tracks[k].GrowOlder(settings);
      }
    }

    method Costs(dets: seq<Detection>) returns (cost: Matrix)
      ensures cost == CostMatrix(Views(tracks), dets)
    {
      cost := [];
      for i := 0 to |tracks|
        invariant |cost| == i
        invariant forall r | 0 <= r < i :: cost[r] == CostRow(tracks[r].View().Predicted(), dets)
      {
        var pred := tracks[i].PredictedBbox();
        var row := [];
        for j := 0 to |dets|
          invariant |row| == j
          invariant forall c | 0 <= c < j :: row[c] == 1.0 - Iou(pred, dets[c].bbox)
        {
          row := row + [1.0 - Iou(pred, dets[j].bbox)];
        }
        cost := cost + [row];
      }
    }

    method UpdateAt(r: nat, det: Detection)
      requires Valid() && r < |tracks|
      modifies tracks[r]
      ensures Valid()
      ensures Views(tracks) == old(Views(tracks))[r := old(Views(tracks)[r]).Seen(det)]
    {
      tracks[r].Update(settings, det);
    }

    /** The loop over the assignment: gate each pair, update the matched track in place. */
    method ApplyMatches(dets: seq<Detection>, cost: Matrix, pairs: Pairing) returns (kept: map<nat, nat>)
      requires Valid()
      requires Rectangular(cost, |tracks|, |dets|) && Within(pairs, |tracks|, |dets|) && OneToOne(pairs)
      modifies tracks
      ensures Valid()
      ensures kept == Gated(cost, |tracks|, |dets|, 1.0 - settings.trackerIouThreshold, pairs)
      ensures Views(tracks) == Matched(old(Views(tracks)), dets, kept)
    {
      hide Matched, OneToOne, Distinct;
      kept := map[];
      ghost var limit, before := 1.0 - settings.trackerIouThreshold, Views(tracks);
      NothingMatched(before, dets);
      for k := 0 to |pairs|
        invariant Valid()
        invariant kept == Gated(cost, |tracks|, |dets|, limit, pairs[..k])
        invariant Views(tracks) == Matched(before, dets, kept)
      {
        var r, c := pairs[k].row, pairs[k].col;
        RowIsFresh(cost, |tracks|, |dets|, limit, pairs, k);
        GatedStep(cost, |tracks|, |dets|, limit, pairs, k);
        if cost[r][c] <= 1.0 - settings.trackerIouThreshold {
          MatchedStep(before, dets, kept, r, c);
          UpdateAt(r, dets[c]);
          kept := kept[r := c];
        }
      }
      FullPrefix(pairs);
    }

    method MissUnmatched(matched: set<nat>)
      requires Valid()
      modifies tracks
      ensures Valid()
      ensures forall i | 0 <= i < |tracks| ::
                tracks[i].View() == if i in matched then old(tracks[i].View()) else old(tracks[i].View()).Missed()
    {
      for k := 0 to |tracks|
        invariant Valid()
        invariant forall i | 0 <= i < |tracks| ::
                    tracks[i].View() == if i >= k || i in matched then old(tracks[i].View()) else old(tracks[i].View()).Missed()
      {
        if k !in matched {
          tracks[k].MarkMissed(settings);
        }
      }
    }

    method Leftover(dets: seq<Detection>, used: set<nat>) returns (spare: seq<Detection>)
      ensures |spare| == |Unused(|dets|, used)|
      ensures forall k | 0 <= k < |spare| :: spare[k] == dets[Unused(|dets|, used)[k]]
    {
      spare := [];
      for j := 0 to |dets|
        invariant |spare| == |Unused(j, used)|
        invariant forall k | 0 <= k < |spare| :: spare[k] == dets[Unused(j, used)[k]]
      {
        if j !in used {
          spare := spare + [dets[j]];
        }
      }
    }

    method Spawn(spare: seq<Detection>)
      requires Valid()
      modifies this
      ensures Valid() && nextId == old(nextId) + |spare|
      ensures |tracks| == old(|tracks|) + |spare| && old(tracks) == tracks[..old(|tracks|)]
      ensures fresh(set t | t in tracks[old(|tracks|)..])
      ensures forall k | 0 <= k < |spare| :: tracks[old(|tracks|) + k].View() == Born(old(nextId) + k, spare[k])
    {
      hide Distinct, Track.HistoryValid;
      ghost var n := |tracks|;
      for k := 0 to |spare|
        invariant Valid() && nextId == old(nextId) + k
        invariant |tracks| == n + k && old(tracks) == tracks[..n]
        invariant forall i | n <= i < n + k :: fresh(tracks[i])
        invariant forall i | 0 <= i < k :: tracks[n + i].View() == Born(old(nextId) + i, spare[i])
      {
        var id := NewId();
        var t := new Track(settings, id, spare[k]);
        DistinctAppend(tracks, t);
        tracks := tracks + [t];
      }
    }

    method DropExpired()
      requires Valid()
      modifies `tracks
      ensures Valid()
      ensures forall t | t in tracks :: t in old(tracks)
      ensures Views(tracks) == Filter(StillAlive(settings), old(Views(tracks)))
    {
      hide Filter, ValidTracks, Views;
      var listed := tracks;
      var kept: seq<Track> := [];
      ghost var before := Views(tracks);
      NoneKept(settings, kept);
      FilterNone(StillAlive(settings), before[..0]);
      for k := 0 to |listed|
        invariant tracks == listed && ValidTracks(settings, listed) && ValidTracks(settings, kept)
        invariant forall t | t in kept :: t in listed[..k]
        invariant Views(listed) == before && Views(kept) == Filter(StillAlive(settings), before[..k])
      {
        FilterStep(StillAlive(settings), before, k);
        ViewAt(settings, listed, k);
        if listed[k].timeSinceUpdate <= settings.trackerMaxAge {
          KeptStep(settings, listed, kept, k);
          kept := kept + [listed[k]];
        } else {
          assert forall t | t in listed[..k] :: t in listed[..k + 1];
        }
      }
      FullPrefix(before);
      tracks := kept;
    }

    /** The branch with something to match. */
    method MatchSome(dets: seq<Detection>) returns (kept: map<nat, nat>)
      requires Valid() && tracks != [] && dets != []
      modifies tracks
      ensures Valid()
      ensures kept == Matching(settings, solve, old(Views(tracks)), dets)
      ensures Views(tracks) == Settled(old(Views(tracks)), dets, kept)
    {
      hide Gated, Distinct, Matching, CostMatrix, Matched, Settled;
      ghost var before := Views(tracks);
      var cost := Costs(dets);
      var pairs := solve(cost);
      MatchingSome(settings, solve, before, dets);
      kept := ApplyMatches(dets, cost, pairs);
      ghost var updated := Views(tracks);
      MissUnmatched(kept.Keys);
      SettledByLoops(before, updated, Views(tracks), dets, kept);
    }

    /** Matches the (already aged) tracks and extrapolates the unmatched ones. Returns the detections nobody took. */
    method Match(dets: seq<Detection>) returns (spare: seq<Detection>)
      requires Valid()
      modifies tracks
      ensures Valid()
      ensures Views(tracks) == Settled(old(Views(tracks)), dets, Matching(settings, solve, old(Views(tracks)), dets))
      ensures var idx := Spare(settings, solve, old(Views(tracks)), dets);
              |spare| == |idx| && forall k | 0 <= k < |idx| :: spare[k] == dets[idx[k]]
    {
      hide Distinct, Unused, Matching, Matched, Settled;
      ghost var before := Views(tracks);
      if tracks != [] && dets != [] {
        var kept := MatchSome(dets);
        spare := Leftover(dets, kept.Values);
      } else {
        MissUnmatched({});
        spare := dets;
        UnusedAll(|dets|);
        MatchingNone(settings, solve, before, dets);
        NothingMatched(before, dets);
        SettledByLoops(before, before, Views(tracks), dets, map[]);
      }
    }

    /** One tracker update, in place. */
    method Update(dets: seq<Detection>) returns (listed: seq<Track>)
      requires Valid()
      modifies this, tracks
      ensures Valid() && listed == tracks
      ensures forall t | t in tracks :: t in old(tracks) || fresh(t)
      ensures View() == Tracking.Update(settings, solve, old(View()), dets)
    {
      hide Carried, Matching, Spare, Filter, Distinct, Settled, Advanced, Track.Valid, Track.View;
      ghost var st := View();
      AgeAll();
      AgedMatching(settings, solve, st.tracks, Views(tracks), dets);
      var spare := Match(dets);
      ghost var carried := Views(tracks);
      Spawn(spare);
      ViewsPrefix(tracks, |carried|);
      AdvancedAssembled(settings, solve, st, dets, carried, Views(tracks), spare);
      DropExpired();
      listed := tracks;
    }
  }
}
