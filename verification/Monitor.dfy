/** The anomaly monitor: one object whose counters, windows and log are updated in place. */
module Monitor {
  import opened Seqs
  import opened Geometry
  import opened Scene
  import opened Tracking
  import opened Tracker
  import opened Counting
  import opened Monitoring

  class AnomalyMonitor {
    const settings: Settings
    const geometry: SceneGeometry
    const fps: Rate
    var anomalies: seq<Anomaly>
    var framesSinceAnyDetection: nat
    var hasSeenDetectionEver: bool
    var stallFlagged: bool
    var medianAreaWindow: seq<real>
    var lastCrossingFrame: Option<nat>
    var confidenceWindow: seq<real>
    var lowConfFlaggedUntil: int
    var seenTrackIds: set<nat>

    ghost predicate Valid()
      reads this
    {
      settings.Valid() && |confidenceWindow| <= settings.lowConfidenceWindow
    }

    ghost function View(): MonitorState
      reads this
    {
      MonitorState(StallState(framesSinceAnyDetection, hasSeenDetectionEver, stallFlagged),
                   ConfidenceState(confidenceWindow, lowConfFlaggedUntil),
                   medianAreaWindow, lastCrossingFrame, seenTrackIds, anomalies)
    }

    constructor (settings: Settings, fps: real, geometry: SceneGeometry)
      requires settings.Valid() && fps >= 0.0
      ensures Valid() && this.settings == settings && this.geometry == geometry && this.fps == EffectiveFps(fps)
      ensures View() == FRESH_MONITOR && this.fps == if fps > 0.0 then fps else 25.0
    {
      this.settings, this.geometry, this.fps := settings, geometry, EffectiveFps(fps);
      anomalies := [];
      framesSinceAnyDetection, hasSeenDetectionEver, stallFlagged := 0, false, false;
      medianAreaWindow, lastCrossingFrame := [], None;
      confidenceWindow, lowConfFlaggedUntil := [], -1;
      seenTrackIds := {};
    }

    method Add(frame: nat, kind: Kind)
      modifies `anomalies
      ensures anomalies == old(anomalies) + [Record(fps, frame, kind)]
    {
      anomalies := anomalies + [Record(fps, frame, kind)];
    }

    method WatchStall(frame: nat, detections: nat)
      modifies `framesSinceAnyDetection, `hasSeenDetectionEver, `stallFlagged, `anomalies
      ensures StallState(framesSinceAnyDetection, hasSeenDetectionEver, stallFlagged)
           == StallNext(old(View()).stall, StallLimit(settings, fps), detections)
      ensures anomalies == old(anomalies)
                + OneIf(StallRaised(old(View()).stall, StallLimit(settings, fps), detections), Record(fps, frame, Stall))
    {
      if detections > 0 {
        hasSeenDetectionEver := true;
        framesSinceAnyDetection := 0;
        stallFlagged := false;
      } else {
        framesSinceAnyDetection := framesSinceAnyDetection + 1;
        var stallFrames := StallLimit(settings, fps);
        if hasSeenDetectionEver && !stallFlagged && framesSinceAnyDetection as real >= stallFrames {
          Add(frame, Stall);
          stallFlagged := true;
        }
      }
    }

    /** Appends to the bounded window, score by score. */
    method CollectScores(tracks: seq<Track>)
      requires Valid() && ValidTracks(settings, tracks)
      modifies `confidenceWindow
      ensures Valid()
      ensures confidenceWindow
           == Suffix(old(confidenceWindow) + FreshScores(Views(tracks)), settings.lowConfidenceWindow)
    {
      ghost var views, before := Views(tracks), confidenceWindow;
      for k := 0 to |tracks|
        invariant ValidTracks(settings, tracks) && Views(tracks) == views
        invariant confidenceWindow == Suffix(before + FreshScores(views[..k]), settings.lowConfidenceWindow)
      {
        FreshScoresStep(views, k);
        assert views[k] == tracks[k].View() && tracks[k].Valid(settings);
        if tracks[k].timeSinceUpdate == 0 {
          var score := tracks[k].score;
          SuffixAppend(before + FreshScores(views[..k]), settings.lowConfidenceWindow, score);
          Associate(before, FreshScores(views[..k]), [score]);
          confidenceWindow := Suffix(confidenceWindow + [score], settings.lowConfidenceWindow);
        }
      }
      FullPrefix(views);
    }

    method WatchConfidence(frame: nat, tracks: seq<Track>)
      requires Valid() && ValidTracks(settings, tracks)
      modifies `confidenceWindow, `lowConfFlaggedUntil, `anomalies
      ensures Valid()
      ensures ConfidenceState(confidenceWindow, lowConfFlaggedUntil)
           == ConfidenceNext(settings, old(View()).confidence, FreshScores(Views(tracks)), frame)
      ensures anomalies == old(anomalies)
                + OneIf(LowRaised(settings, confidenceWindow, old(lowConfFlaggedUntil), frame), Record(fps, frame, LowConfidence))
    {
      hide Sum, Suffix, FreshScores, Distinct;
      CollectScores(tracks);
      if |confidenceWindow| == settings.lowConfidenceWindow {
        var avgConf := Sum(confidenceWindow) / |confidenceWindow| as real;
        if avgConf < settings.lowConfidenceThr && frame - lowConfFlaggedUntil > settings.lowConfidenceWindow {
          Add(frame, LowConfidence);
          lowConfFlaggedUntil := frame;
        }
      }
    }

    method WatchLost(frame: nat, tracks: seq<Track>)
      requires ValidTracks(settings, tracks)
      modifies `seenTrackIds, `anomalies
      ensures seenTrackIds == old(seenTrackIds) + Elements(LostIds(settings, geometry, old(seenTrackIds), Views(tracks)))
      ensures anomalies == old(anomalies)
                + LostRecords(fps, frame, LostIds(settings, geometry, old(seenTrackIds), Views(tracks)))
    {
      hide LooksLost, LostIds;
      ghost var views, before, log := Views(tracks), seenTrackIds, anomalies;
      ghost var ids: seq<nat> := [];
      NobodyLost(settings, geometry, before, views[..0]);
      for k := 0 to |tracks|
        invariant ValidTracks(settings, tracks) && Views(tracks) == views
        invariant ids == LostIds(settings, geometry, before, views[..k])
        invariant seenTrackIds == before + Elements(ids)
        invariant anomalies == log + LostRecords(fps, frame, ids)
      {
        LostIdsStep(settings, geometry, before, views, k);
        var t := tracks[k];
        LooksLostFields(settings, geometry, t);
        if t.trackId !in seenTrackIds {
          if t.confirmed && !t.counted && t.timeSinceUpdate >= settings.trackerMaxAge {
            if NearLine(geometry, Point(t.Cx(), t.Cy())) {
              LostRecordsAppend(fps, frame, ids, t.trackId);
              ids := ids + [t.trackId];
              Add(frame, LostNearLine(t.trackId));
              seenTrackIds := seenTrackIds + {t.trackId};
            }
          }
        }
      }
      FullPrefix(views);
    }

    method ObserveFrame(frame: nat, tracks: seq<Track>, detections: nat)
      requires Valid() && ValidTracks(settings, tracks)
      modifies this
      ensures Valid()
      ensures View() == Monitoring.ObserveFrame(settings, geometry, fps, old(View()), frame, Views(tracks), detections)
    {
      hide LostIds, FreshScores, LowRaised, Suffix, StallRaised, StallNext, StallLimit;
      ghost var views, m := Views(tracks), View();
      ghost var m' := Monitoring.ObserveFrame(settings, geometry, fps, m, frame, views, detections);
      WatchStall(frame, detections);
      assert Views(tracks) == views;
      WatchConfidence(frame, tracks);
      assert Views(tracks) == views;
      WatchLost(frame, tracks);
      assert View().stall == m'.stall;
      assert View().confidence == m'.confidence;
      assert View().reported == m'.reported;
      assert View().log == m'.log;
    }

    method ObserveCrossing(ev: CrossingEvent)
      requires Valid()
      modifies `anomalies, `medianAreaWindow, `lastCrossingFrame
      ensures Valid() && View() == Monitoring.ObserveCrossing(settings, fps, old(View()), ev)
    {
      if |medianAreaWindow| >= MIN_SIZES {
        var sortedAreas := Sorted(medianAreaWindow);
        var median := sortedAreas[|sortedAreas| / 2];
        if median > 0.0 && Abs(ev.area - median) / median > settings.sizeDeviation {
          Add(ev.frame, UnusualSize(ev.trackId));
        }
      }
      medianAreaWindow := Suffix(medianAreaWindow + [ev.area], SIZE_WINDOW);
      if lastCrossingFrame.Some? {
        var gapSec := (ev.frame - lastCrossingFrame.value) as real / fps;
        if gapSec < settings.doubleCountSeconds {
          Add(ev.frame, PossibleDoubleCount(ev.trackId));
        }
      }
      lastCrossingFrame := Some(ev.frame);
    }
  }

  lemma NobodyLost(settings: Settings, g: SceneGeometry, reported: set<nat>, tracks: seq<Trajectory>)
    requires tracks == []
    ensures LostIds(settings, g, reported, tracks) == []
  {
  }

  lemma LooksLostFields(settings: Settings, g: SceneGeometry, t: Track)
    requires t.Valid(settings)
    ensures LooksLost(settings, g, t.View())
       <==> t.confirmed && !t.counted && t.timeSinceUpdate >= settings.trackerMaxAge
            && NearLine(g, Point(t.Cx(), t.Cy()))
  {
  }

  lemma FreshScoresStep(tracks: seq<Trajectory>, k: nat)
    requires k < |tracks|
    ensures FreshScores(tracks[..k + 1])
         == if tracks[k].misses == 0 then FreshScores(tracks[..k]) + [Last(tracks[k].sightings).score]
            else FreshScores(tracks[..k])
  {
    assert tracks[..k + 1][..k] == tracks[..k];
  }

  lemma LostIdsStep(settings: Settings, g: SceneGeometry, reported: set<nat>, tracks: seq<Trajectory>, k: nat)
    requires k < |tracks|
    ensures var before := LostIds(settings, g, reported, tracks[..k]);
            LostIds(settings, g, reported, tracks[..k + 1])
            == if tracks[k].id !in reported && tracks[k].id !in before && LooksLost(settings, g, tracks[k])
               then before + [tracks[k].id] else before
  {
    assert tracks[..k + 1][..k] == tracks[..k];
  }

  lemma LostRecordsAppend(fps: Rate, frame: nat, ids: seq<nat>, id: nat)
    ensures LostRecords(fps, frame, ids + [id]) == LostRecords(fps, frame, ids) + [Record(fps, frame, LostNearLine(id))]
  {
  }
}
