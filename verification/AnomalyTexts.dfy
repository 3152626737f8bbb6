/** Two anomaly texts speak loosely. When is what they say literally so? */
module AnomalyTexts {
  import opened Seqs
  import opened Totals
  import opened Geometry
  import opened Scene
  import opened Tracking
  import opened Monitoring
  import opened Pipeline
  import opened Ledger
  import opened FrameAnomalies

  // ----- "no bags for over s seconds" -----

  predicate Whole(x: real) { x.Floor as real == x }

  /** A stall is reported after more than the configured time exactly when that time is not a positive whole number of
      frames; otherwise it is reported as soon as the time is reached. */
  lemma StallTextIff(settings: Settings, fps: Rate)
    ensures StallFrames(StallLimit(settings, fps)) as real / fps > settings.stallSeconds
       <==> !(StallLimit(settings, fps) >= 1.0 && Whole(StallLimit(settings, fps)))
  {
    var limit := StallLimit(settings, fps);
    var k := StallFrames(limit) as real;
    assert (k / fps) * fps == k;
    if k / fps > settings.stallSeconds {
      Times(k / fps, settings.stallSeconds, fps);
    } else {
      TimesAtMost(k / fps, settings.stallSeconds, fps);
    }
    assert k / fps > settings.stallSeconds <==> k > limit;
    CeilingOver(limit);
  }

  lemma Times(a: real, b: real, fps: Rate)
    requires a > b
    ensures a * fps > b * fps
  {
  }

  lemma TimesAtMost(a: real, b: real, fps: Rate)
    requires a <= b
    ensures a * fps <= b * fps
  {
  }

  lemma FloorIs(x: real, n: int)
    requires n as real <= x < n as real + 1.0
    ensures x.Floor == n
  {
  }

  lemma CeilingOver(limit: real)
    ensures StallFrames(limit) as real > limit <==> !(limit >= 1.0 && Whole(limit))
  {
    var up := -((-limit).Floor);
    assert up as real - 1.0 < limit <= up as real;
    if Whole(limit) {
      FloorIs(-limit, -limit.Floor);
    } else if up as real == limit {
      FloorIs(limit, up);
    }
  }

  // ----- "average over the last W frames" -----

  lemma {:induction false} FreshIsUpToDate(tracks: seq<Trajectory>)
    ensures |FreshScores(tracks)| == SumOf(Missing(0), tracks)
  {
    if tracks == [] {
    } else {
      FreshIsUpToDate(tracks[..|tracks| - 1]);
    }
  }

  /** Every detection of a run gives one score. */
  lemma {:induction false} ScoresAreDetections(env: Env, frames: seq<seq<Detection>>)
    ensures |MatchedScores(env, frames)| == Detections(frames)
  {
    hide Run, FreshScores;
    if frames == [] {
    } else {
      ScoresAreDetections(env, frames[..|frames| - 1]);
      FreshIsUpToDate(Run(env, frames).tracker.tracks);
      MissingBound(env, frames, 0);
    }
  }

  lemma {:induction false} ScoresGrow(env: Env, frames: seq<seq<Detection>>, n: nat)
    requires n <= |frames|
    ensures MatchedScores(env, frames[..n]) <= MatchedScores(env, frames)
  {
    hide Run, FreshScores;
    if n == |frames| {
      FullPrefix(frames);
    } else {
      ScoresGrow(env, frames[..|frames| - 1], n);
      assert frames[..|frames| - 1][..n] == frames[..n];
    }
  }

  /** The scores of the frames from number `n` on. */
  function ScoresSince(env: Env, frames: seq<seq<Detection>>, n: nat): seq<real>
    requires n <= |frames|
  {
    ScoresGrow(env, frames, n);
    MatchedScores(env, frames)[|MatchedScores(env, frames[..n])|..]
  }

  /** The window averages exactly the scores of the last W frames if and only if these frames had W detections in all. */
  lemma ConfidenceTextIff(env: Env, frames: seq<seq<Detection>>)
    requires var w := env.settings.lowConfidenceWindow; |frames| >= w && Detections(frames) >= w
    ensures var n := |frames| - env.settings.lowConfidenceWindow;
            Suffix(MatchedScores(env, frames), env.settings.lowConfidenceWindow) == ScoresSince(env, frames, n)
            <==> Detections(frames) - Detections(frames[..n]) == env.settings.lowConfidenceWindow
  {
    hide MatchedScores;
    var n := |frames| - env.settings.lowConfidenceWindow;
    ScoresAreDetections(env, frames);
    ScoresAreDetections(env, frames[..n]);
    ScoresGrow(env, frames, n);
  }

  // ----- the shipped limits -----

  /** At 25 frames per second a stall is reported after 200 frames, and two crossings are too close when they are at most
      14 frames apart. A size is unusual above 1.6 times or below 0.4 times a positive reference, a track is dropped
      after its 16th frame without a match, and no low confidence can be reported before frame 30. */
  lemma ShippedLimits(gap: int, area: real, middle: real, t: Trajectory)
    requires middle > 0.0
    ensures StallFrames(StallLimit(SHIPPED, 25.0)) == 200
    ensures gap as real / 25.0 < SHIPPED.doubleCountSeconds <==> gap <= 14
    ensures Abs(area - middle) / middle > SHIPPED.sizeDeviation <==> area > 1.6 * middle || area < 0.4 * middle
    ensures Expired(SHIPPED)(t) <==> t.misses >= 16
    ensures Earliest(SHIPPED.lowConfidenceWindow, 0) == 30
  {
    FloorIs(-StallLimit(SHIPPED, 25.0), -200);
    QuotientOrder(gap as real, 25.0, SHIPPED.doubleCountSeconds);
    QuotientOrder(Abs(area - middle), middle, SHIPPED.sizeDeviation);
  }
}
