/** The anomaly monitor as values: five small automata that share one log. */
module Monitoring {
  import opened Seqs
  import opened Geometry
  import opened Scene
  import opened Tracking
  import opened Counting

  const SIZE_WINDOW: nat := 50
  const MIN_SIZES: nat := 5

  datatype Severity = Info | Warning | Critical

  datatype Kind =
    | Stall
    | LowConfidence
    | LostNearLine(id: nat)
    | UnusualSize(id: nat)
    | PossibleDoubleCount(id: nat)
  {
    function Severity(): Severity {
      match this
      case Stall => Warning
      case LowConfidence => Info
      case LostNearLine(_) => Warning
      case UnusualSize(_) => Warning
      case PossibleDoubleCount(_) => Critical
    }
  }

  datatype Anomaly = Anomaly(frame: nat, timestampSec: real, severity: Severity, kind: Kind)

  function Abs(x: real): real { if x >= 0.0 then x else -x }

  type Rate = r: real | r > 0.0 witness 25.0

  /** A frame rate of zero means "unknown" and is replaced by 25. */
  function EffectiveFps(fps: real): Rate
    requires fps >= 0.0
  {
    if fps == 0.0 then 25.0 else fps
  }

  function Record(fps: Rate, frame: nat, kind: Kind): Anomaly
  {
    Anomaly(frame, frame as real / fps, kind.Severity(), kind)
  }

  // ----- stall -----

  /** Length of silence, in frames, that counts as a stall. */
  function StallLimit(settings: Settings, fps: Rate): real { settings.stallSeconds * fps }

  datatype StallState = StallState(since: nat, seenEver: bool, flagged: bool)

  function StallNext(s: StallState, limit: real, detections: nat): StallState {
    if detections > 0 then StallState(0, true, false)
    else s.(since := s.since + 1, flagged := s.flagged || StallRaised(s, limit, detections))
  }

  predicate StallRaised(s: StallState, limit: real, detections: nat) {
    detections == 0 && s.seenEver && !s.flagged && (s.since + 1) as real >= limit
  }

  // ----- low confidence -----

  datatype ConfidenceState = ConfidenceState(window: seq<real>, flaggedUntil: int)

  predicate LowRaised(settings: Settings, window: seq<real>, flaggedUntil: int, frame: nat) {
    var w := settings.lowConfidenceWindow;
    |window| == w && w > 0
    && Sum(window) / w as real < settings.lowConfidenceThr
    && frame - flaggedUntil > w
  }

  function ConfidenceNext(settings: Settings, c: ConfidenceState, scores: seq<real>, frame: nat): ConfidenceState {
    var window := Suffix(c.window + scores, settings.lowConfidenceWindow);
    ConfidenceState(window, if LowRaised(settings, window, c.flaggedUntil, frame) then frame else c.flaggedUntil)
  }

  /** The scores of the tracks matched in this frame, in list order. */
  function FreshScores(tracks: seq<Trajectory>): seq<real>
  {
    if tracks == [] then []
    else
      var last := tracks[|tracks| - 1];
      FreshScores(tracks[..|tracks| - 1])
      + if last.misses == 0 then [Last(last.sightings).score] else []
  }

  // ----- lost near the line -----

  /** Is `p` closer to the counting segment than 15% of the larger frame side? */
  predicate NearLine(g: SceneGeometry, p: Point) {
    var reach := 0.15 * (if g.w >= g.h then g.w else g.h) as real;
    reach > 0.0 && SegmentDistanceSq(p, g.line.0, g.line.1) < Sq(reach)
  }

  predicate LooksLost(settings: Settings, g: SceneGeometry, t: Trajectory) {
    t.Confirmed(settings.trackerMinHits) && !t.counted && t.misses >= settings.trackerMaxAge
    && NearLine(g, t.bbox.Center())
  }

  /** Ids newly reported as lost, in list order; an id is reported once in the life of the monitor. */
  function LostIds(settings: Settings, g: SceneGeometry, reported: set<nat>, tracks: seq<Trajectory>): seq<nat> {
    if tracks == [] then []
    else
      var init, last := tracks[..|tracks| - 1], tracks[|tracks| - 1];
      var before := LostIds(settings, g, reported, init);
      if last.id !in reported && last.id !in before && LooksLost(settings, g, last) then before + [last.id] else before
  }

  // ----- unusual size -----

  predicate Ascending(s: seq<real>) {
    forall i, j | 0 <= i < j < |s| :: s[i] <= s[j]
  }

  function Insert(x: real, s: seq<real>): seq<real> {
    if s == [] then [x]
    else if x <= s[0] then [x] + s
    else [s[0]] + Insert(x, s[1..])
  }

  lemma {:induction false} InsertPermutes(x: real, s: seq<real>)
    ensures multiset(Insert(x, s)) == multiset(s) + multiset{x}
  {
    if s == [] || x <= s[0] {
    } else {
      InsertPermutes(x, s[1..]);
      assert s == [s[0]] + s[1..];
    }
  }

  lemma {:induction false} InsertMembers(x: real, s: seq<real>, k: nat)
    requires k < |Insert(x, s)|
    ensures Insert(x, s)[k] == x || Insert(x, s)[k] in s
  {
    if s == [] || x <= s[0] {
    } else if k > 0 {
      InsertMembers(x, s[1..], k - 1);
    }
  }

  lemma {:induction false} InsertAscending(x: real, s: seq<real>)
    requires Ascending(s)
    ensures Ascending(Insert(x, s))
  {
    if s == [] || x <= s[0] {
    } else {
      var rest := Insert(x, s[1..]);
      InsertAscending(x, s[1..]);
      forall k | 0 <= k < |rest|
        ensures s[0] <= rest[k]
      {
        InsertMembers(x, s[1..], k);
      }
    }
  }

  /** The same elements in ascending order. */
  function Sorted(s: seq<real>): (r: seq<real>)
    ensures Ascending(r) && multiset(r) == multiset(s) && |r| == |s|
  {
    if s == [] then []
    else
      var init, last := s[..|s| - 1], s[|s| - 1];
      assert s == init + [last];
      InsertAscending(last, Sorted(init));
      InsertPermutes(last, Sorted(init));
      var r := Insert(last, Sorted(init));
      assert |multiset(r)| == |multiset(s)|;
      r
  }

  /** The monitor's reference size: the element at index len/2 of the sorted window. */
  function Median(window: seq<real>): real
    requires window != []
  {
    Sorted(window)[|window| / 2]
  }

  predicate SizeRaised(settings: Settings, window: seq<real>, area: real) {
    |window| >= MIN_SIZES
    && var median := Median(window);
       median > 0.0 && Abs(area - median) / median > settings.sizeDeviation
  }

  // ----- possible double count -----

  predicate DoubleRaised(settings: Settings, fps: Rate, last: Option<nat>, frame: nat)
  {
    last.Some? && (frame - last.value) as real / fps < settings.doubleCountSeconds
  }

  // ----- the monitor -----

  datatype MonitorState = MonitorState(
    stall: StallState,
    confidence: ConfidenceState,
    sizes: seq<real>,
    lastCrossing: Option<nat>,
    reported: set<nat>,
    log: seq<Anomaly>
  )

  const FRESH_MONITOR := MonitorState(StallState(0, false, false), ConfidenceState([], -1), [], None, {}, [])

  function OneIf(b: bool, a: Anomaly): seq<Anomaly> { if b then [a] else [] }

  function LostRecords(fps: Rate, frame: nat, ids: seq<nat>): (r: seq<Anomaly>)
    ensures |r| == |ids|
  {
    seq(|ids|, k requires 0 <= k < |ids| => Record(fps, frame, LostNearLine(ids[k])))
  }

  function ObserveCrossing(settings: Settings, fps: Rate, m: MonitorState, ev: CrossingEvent): MonitorState
  {
    m.(
      sizes := Suffix(m.sizes + [ev.area], SIZE_WINDOW),
      lastCrossing := Some(ev.frame),
      log := m.log
             + OneIf(SizeRaised(settings, m.sizes, ev.area), Record(fps, ev.frame, UnusualSize(ev.trackId)))
             + OneIf(DoubleRaised(settings, fps, m.lastCrossing, ev.frame),
                     Record(fps, ev.frame, PossibleDoubleCount(ev.trackId))))
  }

  function ObserveFrame(settings: Settings, g: SceneGeometry, fps: Rate, m: MonitorState, frame: nat,
                        tracks: seq<Trajectory>, detections: nat): MonitorState
  {
    var limit := StallLimit(settings, fps);
    var window := Suffix(m.confidence.window + FreshScores(tracks), settings.lowConfidenceWindow);
    var lost := LostIds(settings, g, m.reported, tracks);
    m.(
      stall := StallNext(m.stall, limit, detections),
      confidence := ConfidenceNext(settings, m.confidence, FreshScores(tracks), frame),
      reported := m.reported + Elements(lost),
      log := m.log
             + OneIf(StallRaised(m.stall, limit, detections), Record(fps, frame, Stall))
             + OneIf(LowRaised(settings, window, m.confidence.flaggedUntil, frame), Record(fps, frame, LowConfidence))
             + LostRecords(fps, frame, lost))
  }
}
