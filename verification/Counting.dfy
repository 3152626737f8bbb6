/** Counting: the specification of one pass over the tracks, and the counter that makes it in place. */
module Counting {
  import opened Seqs
  import opened Scene
  import opened Tracking
  import opened Tracker

  datatype CrossingEvent = CrossingEvent(frame: nat, trackId: nat, area: real)

  /** Did the last two sightings of `t` cross the line? */
  predicate JustCrossed(settings: Settings, g: SceneGeometry, t: Trajectory) {
    |t.sightings| >= 2
    && CrossedLine(settings, g, t.sightings[|t.sightings| - 2].Center(), t.sightings[|t.sightings| - 1].Center())
  }

  predicate ToCount(settings: Settings, g: SceneGeometry, t: Trajectory) {
    t.Confirmed(settings.trackerMinHits) && !t.counted && JustCrossed(settings, g, t)
  }

  function Marked(settings: Settings, g: SceneGeometry, t: Trajectory): Trajectory {
    if ToCount(settings, g, t) then t.(counted := true) else t
  }

  function MarkAll(settings: Settings, g: SceneGeometry, tracks: seq<Trajectory>): (r: seq<Trajectory>)
    ensures |r| == |tracks|
  {
    seq(|tracks|, i requires 0 <= i < |tracks| => Marked(settings, g, tracks[i]))
  }

  function EventFor(t: Trajectory, frame: nat): CrossingEvent
  {
    CrossingEvent(frame, t.id, Last(t.sightings).Area())
  }

  function Crossings(settings: Settings, g: SceneGeometry, tracks: seq<Trajectory>, frame: nat): seq<CrossingEvent> {
    if tracks == [] then []
    else
      var init, last := tracks[..|tracks| - 1], tracks[|tracks| - 1];
      Crossings(settings, g, init, frame) + if ToCount(settings, g, last) then [EventFor(last, frame)] else []
  }

  lemma CrossingsStep(settings: Settings, g: SceneGeometry, tracks: seq<Trajectory>, frame: nat, k: nat)
    requires k < |tracks|
    ensures Crossings(settings, g, tracks[..k + 1], frame)
         == Crossings(settings, g, tracks[..k], frame)
            + if ToCount(settings, g, tracks[k]) then [EventFor(tracks[k], frame)] else []
  {
    assert tracks[..k + 1][..k] == tracks[..k];
  }

  lemma NoCrossings(settings: Settings, g: SceneGeometry, tracks: seq<Trajectory>, frame: nat)
    requires tracks == []
    ensures Crossings(settings, g, tracks, frame) == []
  {
  }

  /** The bounded history still shows the last two sightings and the last area. */
  lemma HistoryTail(s: Sightings)
    ensures |Suffix(Centers(s), HISTORY_LIMIT)| >= 2 <==> |s| >= 2
    ensures var h := Suffix(Centers(s), HISTORY_LIMIT); h[|h| - 1] == Last(s).Center()
    ensures var h := Suffix(Centers(s), HISTORY_LIMIT); |s| >= 2 ==> h[|h| - 2] == s[|s| - 2].Center()
    ensures var a := Suffix(Areas(s), HISTORY_LIMIT); |a| >= 1 && a[|a| - 1] == Last(s).Area()
  {
  }

  class BagCounter {
    const settings: Settings
    const geometry: SceneGeometry
    var count: nat

    constructor (settings: Settings, geometry: SceneGeometry)
      ensures this.settings == settings && this.geometry == geometry && count == 0
    {
      this.settings, this.geometry, count := settings, geometry, 0;
    }

    /** One track: count it if its recorded history has just crossed. */
    method Consider(t: Track, frame: nat) returns (events: seq<CrossingEvent>)
      requires t.Valid(settings)
      modifies this, t
      ensures t.Valid(settings)
      ensures t.View() == Marked(settings, geometry, old(t.View()))
      ensures events == if ToCount(settings, geometry, old(t.View())) then [EventFor(old(t.View()), frame)] else []
      ensures count == old(count) + |events|
    {
      HistoryTail(t.sightings);
      events := [];
      if !t.confirmed || t.counted {
        return;
      }
      if |t.history| < 2 {
        return;
      }
      var prevPt, curPt := t.history[|t.history| - 2], t.history[|t.history| - 1];
      if CrossedLine(settings, geometry, prevPt, curPt) {
        t.SetCounted(settings);
        count := count + 1;
        var area := if |t.areas| > 0 then t.areas[|t.areas| - 1] else 0.0;
        events := [CrossingEvent(frame, t.trackId, area)];
      }
    }

    method ConsiderAt(tracks: seq<Track>, k: nat, frame: nat) returns (events: seq<CrossingEvent>)
      requires ValidTracks(settings, tracks) && k < |tracks|
      modifies this, tracks[k]
      ensures ValidTracks(settings, tracks)
      ensures Views(tracks) == old(Views(tracks))[k := Marked(settings, geometry, old(Views(tracks))[k])]
      ensures events == if ToCount(settings, geometry, old(Views(tracks))[k]) then [EventFor(old(Views(tracks))[k], frame)] else []
      ensures count == old(count) + |events|
    {
      hide Marked, ToCount;
      events := Consider(tracks[k], frame);
    }

    /** The tracks are the tracker's own objects: they are marked in place. */
    method Process(tracks: seq<Track>, frame: nat) returns (events: seq<CrossingEvent>)
      requires ValidTracks(settings, tracks)
      modifies this, tracks
      ensures ValidTracks(settings, tracks)
      ensures Views(tracks) == MarkAll(settings, geometry, old(Views(tracks)))
      ensures events == Crossings(settings, geometry, old(Views(tracks)), frame)
      ensures count == old(count) + |events|
    {
      hide Marked, ToCount, Crossings, ValidTracks, Views;
      events := [];
      ghost var before := Views(tracks);
      NoCrossings(settings, geometry, before[..0], frame);
      for k := 0 to |tracks|
        invariant ValidTracks(settings, tracks)
        invariant forall i | 0 <= i < |tracks| ::
                    Views(tracks)[i] == if i < k then Marked(settings, geometry, before[i]) else before[i]
        invariant events == Crossings(settings, geometry, before[..k], frame)
        invariant count == old(count) + |events|
      {
        CrossingsStep(settings, geometry, before, frame, k);
        var found := ConsiderAt(tracks, k, frame);
        events := events + found;
      }
      FullPrefix(before);
    }
  }
}
