# Bag counter: a verified model

The bag counter watches a conveyor: a tracker turns per-frame detections into tracks, a counter counts a track once
when it crosses a line, and a monitor reports what makes the count doubtful. An API queues videos as jobs, workers
process them, and the page follows a job over an event stream. This project models those parts in Dafny and proves
what they promise over whole runs. `dafny verify dfyconfig.toml` checks it.

## How it is built

The objects that the program changes in place are classes here too: `Tracker.Track`, `Tracker.BagTracker`,
`Counting.BagCounter`, `Monitor.AnomalyMonitor`, `Jobs.JobRepository`, `Jobs.VideoService`, `Jobs.JobRunner`, and the
loops are loops. Every method is proved against a specification on values (`Tracking`, `Counting`, `Monitoring`,
`Pipeline`, `Jobs.AfterRun`, `EventStream.Drain`). The theorems are about those values and quantify over all
configurations, all solvers and all videos, so they hold of what the methods compute:
`VideoProcessor.ProcessVideo` returns exactly what `Pipeline.Run` says.

- **Tracks.** A value track (`Tracking.Trajectory`) keeps every detection it was ever matched with. A `Track` object
  keeps at most 60 centroids and areas, and its invariant says that they are the tail of that list, that `hits` is its
  length, and that `confirmed` holds exactly when `hits >= max(2, tracker_min_hits)`.
- **The assignment solver** is a library routine. It is a parameter: any function of the cost matrix that returns a
  cheapest maximal one-to-one assignment (`Assignment.Solver`). That such a function exists is proved.
- **Numbers.** Coordinates, scores and times are `real`. Rounding a percentage to one decimal is a parameter: any function
  to a nearest tenth (`Jobs.Rounding`), because the program rounds binary fractions and a decimal tie can go either way.
- **A run** (`Pipeline.Run`) folds the frames; its state also keeps the dropped tracks and all events, so that
  statements can speak of every track ever created.
- **Jobs** are a table whose rows change in atomic steps; clients and workers interleave in `Lifecycle`, where the check
  and the write of a start request are two steps.

## Main results

1. *Identity and exact count for any number of bags.* Rigid bags at constant velocity that can be followed each keep
   one id for the whole run, and the count is the number of bags that went from upstream to downstream, were never seen
   exactly on the line, and were still upstream just before their track was confirmed. Any number of bags side by side,
   at any speeds that keep the overlap, can be followed, whenever they start and whenever they are missed for at most
   the maximal age. ("Upstream" is the side that the configured direction makes the code count from.)
2. *Exactly once.* A track is counted iff its full list of sightings has a confirmed forward crossing; events and
   counted tracks correspond one to one; ids are never reused; the events of a run are ordered by (frame, id).
3. *No missed and no phantom count* under arbitrary motion, with the exact condition for bags that never move back.
4. *Conservation.* Every detection is one hit of one track; sightings are the detections of the frames in which the track
   was matched; counts are paid for by detections; live tracks are bounded by the detections of the last frames;
   up-to-date tracks and detections of a frame are in bijection.
5. *Leftovers.* Exactly which overlaps an assignment that is gated only afterwards can leave unmatched, for every solver:
   up to a threshold of one half all below twice the threshold, and above it all below 1. So for every threshold strictly
   between 0 and 1 some run leaves over a pair that should have been matched.
6. *Resolution independence* of a whole run, by simulation; the records of lost tracks agree too, on all runs, iff both
   axes are scaled alike (or no such record can be made).
7. *Each anomaly automaton equals its declarative meaning*: stalls, low confidence, unusual sizes, double counts, lost
   tracks; with the bounds that follow. For low confidence, sizes and double counts also as an iff from the detections
   to the log.
8. *Jobs over all interleavings*: `processing` is always real; on the runs of k workers in which no job passes more than
   m start checks, a queued job is never being processed iff k = 0 or m <= 1, and done is final iff k <= 1 or m <= 1. For
   a job whose starts do not overlap, the status column is exactly right.
9. *The event stream* survives every way of cutting it into chunks, and reads as a standard reader would read it.

## Where the code and its documentation differ

The model follows the code. Each entry names the input on which the documentation fails and the exact condition under
which it holds.

- The program's own README (lines 154-156) says a track is confirmed after consecutive matches; `hits` is never reset by
  a miss. A parked box that is missed after its first frame is confirmed all the same
  (`Confirmation.ConfirmedAcrossAMiss`). Confirming matches are consecutive on all runs iff the maximal age is 0 or the
  threshold is above 1 (`Confirmation.ConsecutiveIff`).
- The counter's comment says that a bag is counted the moment its centroid crosses the line. A centroid exactly on the
  line belongs to neither side, so a bag that goes over the shipped line with a sighting on it is not counted
  (`Lanes.OnTheLineIsMissed`). The exact conditions are `CountTheorems.OneWayCountedIff` and
  `BagCount.CountIsCountableBags`.
- The same README (lines 159-160) speaks of the step that crosses the counting line; the code compares sides of the
  infinite line. A bag that passes the shipped line beyond its end points is counted (`Lanes.TwoBagsPass`,
  `Lanes.OneBeyondTheEnds`). A counted step passes between the end points of the drawn line iff these are on opposite
  sides of the step, and touches the drawn line iff they are not on the same side (`Segments.CrossedBetweenEndsIff`).
- The same README (line 161) says that crossings in the belt's direction of travel are counted, and
  backend/app/config.py:55-56 and 66-68 say that the belt runs towards the camera, bottom-left, and that this is the
  counted direction. The bottom-left corner is on the positive side of the shipped line (`Direction.NearIsPositive`), and
  the shipped direction "forward" counts steps from the positive to the negative side, away from the camera. A bag that
  comes down over the middle of the drawn line is not counted, and is counted with every other direction
  (`Direction.BeltBagIsMissed`). At every resolution, all counts of all runs are for steps towards the near side iff the
  direction is not "forward" (`Direction.ShippedRunsIff`; for any line, `Direction.StepDirectionIff`).
- docs/API_CONTRACTS.md promises 409 for a job that is being processed; the check and the write are separate, so a job
  can be queued again while a worker processes it (`Races.StartCanRace`). It cannot on runs in which a job is started
  only when no earlier start of it is in progress (`Races.OneAtATimeNeverRaces`); with a bound on the number of starts
  the condition is exact (`Races.StartsAreSafeIff`).
- docs/API_CONTRACTS.md says that the progress percentage is 0 to 100. A file that declares 10000 frames and has 10010
  shows 100.1 (`Progress.OvershootShown`). The rounding hides small excesses: a positive declared length is never
  overshot on the display iff the last multiple of ten frames exceeds it by less than a 2000th of it, or by exactly that
  and the tie 100.05 is rounded down (`Progress.ShownPercentageIff`). The program's binary fractions round 100.05 to 100.0
  and -0.05 to -0.1.
- The low-confidence message speaks of the last W frames; the window holds the last W matched scores. The two agree iff
  these frames had W detections in all (`AnomalyTexts.ConfidenceTextIff`).
- The program's own README (line 199) says that low confidence points to glare, blur or bad light. The detector drops
  every detection below 0.35 (backend/app/config.py:45, the motion-based stand-in always says 0.5) and the report asks
  for an average below 0.30 (line 80), so the shipped program never makes this report (`ConfidenceRuns.ShippedNeverLow`).
  For any two limits: it can be made on some video iff the detector's limit is below the threshold
  (`ConfidenceRuns.NeverLowIff`).
- The same README (line 196) compares a size with the median of the last 50; for an even number of crossings the code takes the
  upper of the two middle areas (`EventSizes.MedianIsMiddle`, `EventSizes.MiddleIsUnique`).
- The text of a lost-track record says that the track disappeared without being counted. It is written while the track
  is still listed; a box that waits near the line as long as the tracker allows is reported and counted when it then
  steps over the line (`LostText.LostAndCounted`). No run counts a track that it reported as lost iff the threshold is 1
  or more, the line is a point, or the picture is empty (`LostText.LostTextIff`).
- The stall text says "for over" the configured time; the code reports as soon as that time is reached. The text is
  right iff the time is not a positive whole number of frames (`AnomalyTexts.StallTextIff`).

## Model

| member | source | states |
|---|---|---|
| Geometry.IouRange | backend/app/worker/pipeline/tracker.py:21-33 | IoU lies in [0, 1] and is positive exactly for boxes that share interior points |
| Geometry.IouOneIff | backend/app/worker/pipeline/tracker.py:21-33 | IoU is 1 exactly for a solid box and itself |
| Geometry.IouScaled | backend/app/worker/pipeline/tracker.py:21-33 | IoU does not change when both boxes are scaled by positive factors per axis |
| Geometry.SegmentDistanceIsMinimum | backend/app/worker/pipeline/anomaly.py:175-186 | the computed distance is attained on the segment and no point of the segment is closer, degenerate segments included (on squared distances) |
| Assignment.ReferenceSolves | backend/app/worker/pipeline/tracker.py:108 | the contract assumed of the assignment routine is satisfiable: some function returns a cheapest maximal one-to-one assignment for every matrix |
| Assignment.ExchangeBound | backend/app/worker/pipeline/tracker.py:102-115 | a cell not chosen by a cheapest assignment is bounded from below by the pairs that occupy its row and column |
| Assignment.IsolatedCellChosen | backend/app/worker/pipeline/tracker.py:102-115 | a cell cheaper than the constant price of the rest of its row and column is always chosen |
| Scene.CrossedLineMeaning | backend/app/worker/pipeline/roi.py:31-44 | a step crosses iff it goes strictly from the upstream to the downstream side in the configured direction |
| Scene.SideScaled | backend/app/worker/pipeline/roi.py:26-29 | the side value scales by the product of the two factors, so its sign is kept |
| Tracking.GateKeeps | backend/app/worker/pipeline/tracker.py:111-115 | a pair of the assignment whose cost passes the gate is kept as a match |
| Tracking.Matching | backend/app/worker/pipeline/tracker.py:102-115 | matches pair existing tracks with existing detections, one to one, and there are none when either list is empty |
| Tracking.Unused | backend/app/worker/pipeline/tracker.py:120 | the leftover detections are exactly the unused positions, in order |
| Tracker.Track.constructor | backend/app/worker/pipeline/tracker.py:127-129 | a new track has one hit, no velocity, and its first centroid and area recorded |
| Tracker.Track.Remember | backend/app/worker/pipeline/tracker.py:74-78 | the bounded lists stay the last 60 centroids and areas of all sightings |
| Tracker.Track.Update | backend/app/worker/pipeline/tracker.py:63-80 | a match moves the track to the detection, measures the velocity from the extrapolated center, resets the misses and keeps hits, confirmation and history in agreement with all sightings |
| Tracker.Track.MarkMissed | backend/app/worker/pipeline/tracker.py:82-85 | a miss moves the box on by the velocity and counts one more frame without a match, nothing else |
| Tracker.BagTracker.constructor | backend/app/worker/pipeline/tracker.py:89-91 | no tracks and next id 1 |
| Tracker.BagTracker.NewId | backend/app/worker/pipeline/tracker.py:93-96 | ids are handed out consecutively |
| Tracker.BagTracker.AgeAll | backend/app/worker/pipeline/tracker.py:99-100 | every track gets one frame older |
| Tracker.BagTracker.Costs | backend/app/worker/pipeline/tracker.py:103-107 | the matrix holds 1 - IoU of predicted box and detection |
| Tracker.BagTracker.ApplyMatches | backend/app/worker/pipeline/tracker.py:110-115 | exactly the pairs of the assignment that pass the gate update their tracks, each once |
| Tracker.BagTracker.MissUnmatched | backend/app/worker/pipeline/tracker.py:117-119 | exactly the unmatched tracks are extrapolated |
| Tracker.BagTracker.Leftover | backend/app/worker/pipeline/tracker.py:120 | the detections nobody took, in order |
| Tracker.BagTracker.Match | backend/app/worker/pipeline/tracker.py:102-124 | both branches settle all tracks by the matching and return the spare detections |
| Tracker.BagTracker.Spawn | backend/app/worker/pipeline/tracker.py:126-130 | one fresh track per spare detection, appended in order with consecutive ids |
| Tracker.BagTracker.DropExpired | backend/app/worker/pipeline/tracker.py:132 | the listed tracks are those within the maximal age, in the same order |
| Tracker.BagTracker.Update | backend/app/worker/pipeline/tracker.py:98-133 | one in-place update refines the value specification, on the same track objects |
| Leftovers.LeftoverBound | backend/app/worker/pipeline/tracker.py:102-120 | a track and a detection both left over have IoU below twice the threshold, and below the threshold if one was outside the assignment or they were assigned to each other |
| Leftovers.CanLeaveBelow | backend/app/worker/pipeline/tracker.py:102-120 | for every solver and every overlap x below 1 and below twice the threshold, a run of two frames leaves over a pair of overlap exactly x |
| Leftovers.LeftoverRange | backend/app/worker/pipeline/tracker.py:102-120 | the overlaps that runs can leave over: none for thresholds up to 0, exactly [0, 2 threshold) up to one half, exactly [0, 1) up to 1 (1 itself aside), exactly [0, 1] above |
| Leftovers.FullOverlapIff | backend/app/worker/pipeline/tracker.py:108-120 | a box that did not move at all is left over by some solver iff the threshold is above one half |
| Leftovers.ThresholdKept | backend/app/worker/pipeline/tracker.py:111-115 | for thresholds strictly between 0 and 1 every solver leaves over some pair at or above the threshold; for all others but 1 no solver does |
| Leftovers.ThresholdKeptIff | backend/app/worker/pipeline/tracker.py:108-115 | nothing at or above the threshold is ever left over, whatever the solver, iff the threshold is at most 0 or above 1 |
| Matches.FrameBijection | backend/app/worker/pipeline/tracker.py:98-133 | after every frame of every run the up-to-date tracks and the detections of the frame are in one-to-one correspondence, box and score included |
| Matches.AlwaysOnCourse | backend/app/worker/pipeline/tracker.py:58-133 | listed tracks have missed at most the maximal age, dropped ones exactly one more, and every box is the last detection moved on by misses times velocity |
| Ledger.HitsAreDetections | backend/app/worker/pipeline/tracker.py:63-133 | over any run the hits of all tracks ever created add up to the number of detections fed in |
| Ledger.TracksAreIds | backend/app/worker/pipeline/tracker.py:93-132 | as many tracks were ever created as ids were handed out |
| Ledger.MissingBound | backend/app/worker/pipeline/tracker.py:98-133 | tracks that have missed k frames are at most the detections of k frames ago, exactly those of the last frame for k = 0, and none beyond the maximal age |
| Ledger.LiveTracksBounded | backend/app/worker/pipeline/tracker.py:98-133 | live tracks never exceed the detections of the last maximal age + 1 frames |
| Identity.AlwaysRegistered | backend/app/worker/pipeline/tracker.py:93-133 | at every frame ids increase along the list, are below the next id, and no id is shared by two tracks, live or dropped |
| Identity.EveryIdHasATrack | backend/app/worker/pipeline/tracker.py:93-133 | every id handed out belongs to a live or dropped track |
| Identity.IdsNeverReused | backend/app/worker/pipeline/tracker.py:93-133 | an id whose track is gone never becomes live again |
| Identity.AgeTellsBirth | backend/app/worker/pipeline/tracker.py:99-130 | in every run the age of a listed track is the number of frames since the one in which its id was handed out |
| Counting.HistoryTail | backend/app/worker/pipeline/counter.py:34-40 | the bounded history shows the same last two centroids and last area as the full list |
| Counting.BagCounter.constructor | backend/app/worker/pipeline/counter.py:25-27 | the count starts at zero |
| Counting.BagCounter.Consider | backend/app/worker/pipeline/counter.py:32-41 | a track is marked, counted and reported exactly when it is confirmed, not yet counted, and its last two sightings cross |
| Counting.BagCounter.Process | backend/app/worker/pipeline/counter.py:29-42 | the pass marks the tracker's own objects, adds the number of events to the count and reports in list order; what the events say is `EventSizes.EventAreaIsDetected` and `CountTheorems.EventIsFirstCrossing` |
| ExactCount.CountedIffCrossed | backend/app/worker/pipeline/counter.py:31-41 | in every run a track, live or dropped, is counted iff its unbounded list of sightings has a forward crossing at a confirmed match |
| ExactCount.ExactlyOnce | backend/app/worker/pipeline/counter.py:29-42 | the count is the number of events, no two events name one track, events are ordered by (frame, id), and counted tracks are exactly those named |
| CountTheorems.EventIsFirstCrossing | backend/app/worker/pipeline/counter.py:31-41 | each event is raised in the frame of its track's first confirmed crossing, by a match of that frame, with the area of that match |
| EventSizes.EventAreaIsDetected | backend/app/worker/pipeline/detector.py:41-43 | the area of every event of every run is width times height (zero for a box that encloses nothing) of the box of a detection of the event's own frame whose center is strictly downstream |
| CountTheorems.EventsPerFrame | backend/app/worker/pipeline/counter.py:31-42 | a frame yields at most as many events as it has detections |
| CountTheorems.CountIsPaidFor | backend/app/worker/pipeline/counter.py:31-41 | max(2, min_hits) times the count is at most the number of detections |
| CountTheorems.NetCrossingsTelescope | backend/app/worker/pipeline/roi.py:31-44 | forward minus backward crossings of a polyline off the line depend on its end points only and are -1, 0 or 1 |
| CountTheorems.NoMissedCount | backend/app/worker/pipeline/counter.py:31-41 | with min_hits at most 2 a track first seen upstream and last seen downstream is counted however it wandered, if no sighting is on the line |
| CountTheorems.NoPhantomCount | backend/app/worker/pipeline/counter.py:31-41 | a counted track went strictly from upstream to downstream between two successive matches, late enough to be confirmed |
| CountTheorems.OneWayCountedIff | backend/app/worker/pipeline/counter.py:31-41 | a track that never moves back and goes over the line is counted iff no sighting is on the line and it was still upstream before its confirming match |
| Segments.MeetsIff | backend/app/worker/pipeline/roi.py:26-44 | a step that changes sides of a line meets a segment of it between the end points iff the end points are on opposite sides of the step |
| Segments.TouchesIff | backend/app/worker/pipeline/roi.py:26-44 | such a step touches the segment, end points included, iff these are not on the same side of the step |
| Segments.CrossedBetweenEndsIff | backend/app/worker/pipeline/roi.py:31-44 | both conditions for a counted step and the drawn counting line |
| Direction.StepDirectionIff | backend/app/worker/pipeline/roi.py:31-44 | every counted step goes from the negative to the positive side iff the direction is not "forward" or the line is a point |
| Direction.NearIsPositive | backend/app/config.py:55-67 | at every resolution the near, bottom-left corner is on the positive side of the shipped line, the far opening on the negative side, and going down is going to the positive side |
| Direction.ShippedStepIff | backend/app/config.py:65-68 | with the shipped line, at every resolution, every counted step goes to the near side iff the direction is not "forward" |
| Direction.ShippedRunsIff | backend/app/config.py:65-68 | the same for all counts of all runs with the shipped configuration |
| Direction.ForwardCountsNoneOfThese | backend/app/worker/pipeline/counter.py:29-42 | "forward" counts no bag that moves towards the positive side or along the line, in any followable world |
| Direction.BeltBagIsMissed | backend/app/config.py:65-68 | a bag that comes down over the middle of the shipped line, inside the picture, is counted iff the direction is not "forward" |
| Confirmation.SightingsAreDocumented | backend/app/worker/pipeline/tracker.py:63-130 | in every run the sightings of a track are detections of the frames in which it was matched or born, in order and one for each of them |
| Confirmation.NoGaps | backend/app/worker/pipeline/tracker.py:82-132 | with maximal age 0 the frames of every track follow one another without a gap |
| Confirmation.ConfirmedAcrossAMiss | backend/app/worker/pipeline/tracker.py:79-85 | for every min_hits a parked box that is missed after its first frame ends in a confirmed track |
| Confirmation.ConsecutiveIff | backend/app/worker/pipeline/tracker.py:79-80 | on all runs the first max(2, min_hits) matches of every confirmed track are in consecutive frames, iff the maximal age is 0 or the threshold is above 1 |
| Monitoring.Sorted | backend/app/worker/pipeline/anomaly.py:145 | the same elements in ascending order |
| Monitor.AnomalyMonitor.constructor | backend/app/worker/pipeline/anomaly.py:57-72 | nothing seen, nothing reported, and an unknown frame rate replaced by 25 |
| Monitor.AnomalyMonitor.Add | backend/app/worker/pipeline/anomaly.py:77-78 | one record with frame, time and severity is appended |
| Monitor.AnomalyMonitor.WatchStall | backend/app/worker/pipeline/anomaly.py:83-103 | the stall fields and the log change as the stall automaton says |
| Monitor.AnomalyMonitor.CollectScores | backend/app/worker/pipeline/anomaly.py:106-108 | the bounded window stays the last matched scores |
| Monitor.AnomalyMonitor.WatchConfidence | backend/app/worker/pipeline/anomaly.py:106-122 | the confidence window, its flag and the log change as the confidence automaton says; when that makes a record is `ConfidenceRuns.LowConfidenceIff` |
| Monitor.AnomalyMonitor.WatchLost | backend/app/worker/pipeline/anomaly.py:125-140 | exactly the ids of tracks newly looking lost are recorded and remembered |
| Monitor.AnomalyMonitor.ObserveFrame | backend/app/worker/pipeline/anomaly.py:80-140 | looking at a frame refines the value specification of the three frame automata |
| Monitor.AnomalyMonitor.ObserveCrossing | backend/app/worker/pipeline/anomaly.py:142-169 | looking at a crossing refines the value specification of the two crossing automata; which crossings that reports is `EventSizes.UnusualSizeIff` and `EventSizes.DoubleCountIff` |
| MonitorLog.LogInFrameOrder | backend/app/worker/pipeline/video_processor.py:65-69 | all kinds of anomalies together are logged in frame order |
| MonitorLog.LogStamped | backend/app/worker/pipeline/anomaly.py:74-78 | every record of every run carries the time of its frame (time * fps = frame) and the severity of its kind |
| FrameAnomalies.SilenceMeaning | backend/app/worker/pipeline/anomaly.py:84-89 | the silence counter is the length of the maximal run of empty frames at the end |
| FrameAnomalies.StallsAreDeclared | backend/app/worker/pipeline/anomaly.py:83-103 | the stall records are exactly one for each silent stretch that follows a detection and reaches max(1, ceil(seconds * fps)) frames, at that frame |
| FrameAnomalies.LowConfidenceIsDeclared | backend/app/worker/pipeline/anomaly.py:105-122 | the window is the last W matched scores of the run, and a record is made exactly when their average is low and the last record is more than W frames ago |
| FrameAnomalies.LowRecordsSpaced | backend/app/worker/pipeline/anomaly.py:112-122 | the k-th record is at frame (W + 1) k - 1 at the earliest |
| FrameAnomalies.LowConfidenceRate | backend/app/worker/pipeline/anomaly.py:112-122 | N frames give at most N / (W + 1) records |
| LostText.FullThresholdCountsNothing | backend/app/worker/pipeline/tracker.py:111-115 | from threshold 1 on nothing that moves is matched, so no run counts anything |
| LostText.LostAndCounted | backend/app/worker/pipeline/anomaly.py:124-140 | a run in which a confirmed track waits near the line, is reported as lost, and is counted in the next frame |
| LostText.LostTextIff | backend/app/worker/pipeline/anomaly.py:124-140 | no run counts a track that it reported as lost iff the threshold is 1 or more, the line is a point, or the picture is empty |
| AnomalyTexts.StallTextIff | backend/app/worker/pipeline/anomaly.py:90-101 | a stall is reported after more than the configured time iff that time is not a positive whole number of frames |
| AnomalyTexts.ScoresAreDetections | backend/app/worker/pipeline/anomaly.py:106-108 | a run collects one score for each detection |
| AnomalyTexts.ConfidenceTextIff | backend/app/worker/pipeline/anomaly.py:109-121 | the window holds exactly the scores of the last W frames iff these had W detections in all |
| AnomalyTexts.ShippedLimits | backend/app/config.py:70-80 | with the shipped limits, at 25 frames per second, a stall takes 200 silent frames, a double count a gap of at most 14 frames, an unusual size 1.6 times or 0.4 times the reference, and a track is dropped after its 16th frame without a match |
| Seqs.SumParts | backend/app/worker/pipeline/anomaly.py:110 | the total of the window is the sum of the totals of its parts |
| Seqs.SumBounds | backend/app/worker/pipeline/anomaly.py:110 | scores that are all at or above, or all below, a bound add up accordingly |
| ConfidenceRuns.CollectedScores | backend/app/worker/pipeline/anomaly.py:106-108 | the scores collected in a run are, as a multiset, the scores of its detections |
| ConfidenceRuns.LowConfidenceIff | backend/app/worker/pipeline/anomaly.py:105-122 | in every run there is a low-confidence record of frame n iff W scores have been collected, the last W add up to less than W times the threshold, W frames have passed, and none of the last W frames has a record |
| ConfidenceRuns.LastScoresDecide | backend/app/worker/pipeline/anomaly.py:109-116 | no record while the last W scores are all at or above the threshold; while they are all below it, one in every W + 1 frames |
| ConfidenceRuns.ConfidentVideo | backend/app/worker/pipeline/anomaly.py:109-116 | no record as long as every detection of the video is at or above the threshold |
| ConfidenceRuns.DimVideo | backend/app/worker/pipeline/anomaly.py:105-122 | as long as every detection is below the threshold, a frame has a record iff there have been W detections and W frames and none of the last W frames has one |
| ConfidenceRuns.NeverLowIff | backend/app/worker/pipeline/detector.py:69-71 | a detector that drops all scores below a limit of its own keeps low confidence from being reported on every video iff that limit is at least the threshold of the report |
| ConfidenceRuns.ShippedNeverLow | backend/app/config.py:45-80 | with the shipped limits, 0.35 for the detector and 0.30 for the report, low confidence is never reported |
| CrossingAnomalies.EventRecordsAreDeclared | backend/app/worker/pipeline/anomaly.py:142-169 | the size window is the areas of the last 50 crossings of the run, and the size and double-count records are exactly those due for each event and for each adjacent pair |
| CrossingAnomalies.MedianInMajority | backend/app/worker/pipeline/anomaly.py:144-146 | the reference median lies in every interval that holds a strict majority of the window |
| CrossingAnomalies.SizeNeedsSixCrossings | backend/app/worker/pipeline/anomaly.py:144-156 | no size is reported before the sixth crossing |
| EventSizes.MedianIsMiddle | backend/app/worker/pipeline/anomaly.py:145-146 | the reference is an element of the window with more than half of the window at most, and at least half at least, as large |
| EventSizes.MiddleIsUnique | backend/app/worker/pipeline/anomaly.py:145-146 | only one value of a window has that property: the upper median |
| EventSizes.UnusualSizeIff | backend/app/worker/pipeline/anomaly.py:142-156 | in every run an event is reported for its size iff at least five events came before it, the upper median m of the areas of the last fifty of them is positive, and its area is above (1 + deviation) m or below (1 - deviation) m |
| EventSizes.DoubleCountIff | backend/app/worker/pipeline/anomaly.py:158-169 | in every run an event is reported as a possible double count iff it is not the first and comes less than seconds * fps frames after the event before it |
| CrossingAnomalies.TrustedCountBound | backend/app/worker/pipeline/anomaly.py:158-169 | over N frames with a crossing, (count - double-count flags - 1) * seconds * fps is at most N - 1 |
| LostTracks.LostIsSound | backend/app/worker/pipeline/anomaly.py:124-140 | each lost record names a listed track that was confirmed, not counted, at exactly the maximal age without a match and near the line in that frame |
| LostTracks.ReportedOnce | backend/app/worker/pipeline/anomaly.py:125-140 | at most one lost record per id in a run, and the remembered ids are exactly the recorded ones |
| LostTracks.LostIsComplete | backend/app/worker/pipeline/anomaly.py:124-140 | a confirmed, uncounted track that was dropped and was near the line when last listed has exactly one record |
| LostTracks.NearLineIff | backend/app/worker/pipeline/anomaly.py:129-132 | near means that some point of the drawn line is closer than 15 hundredths of the larger side of the picture |
| VideoProcessor.ReportCrossings | backend/app/worker/pipeline/video_processor.py:67-68 | the events of a frame reach the monitor in order |
| VideoProcessor.ProcessFrame | backend/app/worker/pipeline/video_processor.py:62-69 | update, count, report crossings, look at the frame: one step of the run on shared track objects |
| VideoProcessor.BannerFromNewest | backend/app/worker/pipeline/video_processor.py:71-79 | remembering the newest anomaly frame is enough to know whether any anomaly is less than 45 frames old |
| VideoProcessor.ProcessVideo | backend/app/worker/pipeline/video_processor.py:53-106 | the frame loop returns the count, log and length of the run, reports progress every ten frames and at the declared end, and draws the banner exactly when an anomaly is less than 45 frames old |
| Resolution.MatchingScaled | backend/app/worker/pipeline/tracker.py:102-120 | scaled tracks and detections give the same matching |
| Resolution.SizeScaled | backend/app/worker/pipeline/anomaly.py:144-147 | scaling all areas does not change whether a size is unusual |
| Resolution.NearLineScaled | backend/app/worker/pipeline/anomaly.py:129-132 | with equal factors the nearness to the line does not depend on the resolution |
| ResolutionRun.ResolutionIndependence | backend/app/worker/pipeline/roi.py:11-21 | a run at another resolution with scaled detections has the same tracks up to scale, ids, expiries, count, events and stall, confidence, size and double-count records at every frame; for equal factors the whole log agrees |
| ResolutionLogs.LogsAgreeIff | backend/app/worker/pipeline/anomaly.py:124-140 | the whole logs of a run at two resolutions agree on all videos iff both axes are scaled alike, or the threshold is above 1, or the picture is empty |
| Bags.IsolatedMatching | backend/app/worker/pipeline/tracker.py:102-115 | when every row and column has at most one positive IoU, exactly the pairs at or above the threshold are matched |
| Bags.PredictionExact | backend/app/worker/pipeline/tracker.py:58-80 | a followed track predicts its bag exactly from the second match on |
| BagRun.BagsKeepIdentity | backend/app/worker/pipeline/tracker.py:58-133 | any number of followable bags: one assignment of bags to ids is right after every frame, and every track has all detections of its bag |
| BagCount.CrossedIffCountable | backend/app/worker/pipeline/counter.py:31-41 | the sightings of a bag have a confirmed crossing iff it was first seen upstream and last downstream, never on the line, and still upstream before its confirming sighting |
| BagCount.CountIsCountableBags | backend/app/worker/pipeline/counter.py:29-42 | for every min_hits and all followable bags, the count is the number of bags that meet this condition |
| BagCount.PassingDescends | backend/app/worker/pipeline/roi.py:31-44 | a bag first seen upstream and last seen downstream moves against the sign that the direction asks for |
| Lanes.LanesFollowable | backend/app/config.py:70-73 | bags side by side that move along their lanes and overlap themselves from frame to frame can be followed, for any number of bags, sizes, speeds and frames |
| Lanes.LaneCount | backend/app/worker/pipeline/counter.py:29-42 | the count over such bags as a formula on their heights over the line |
| Schedules.ScheduleFollowable | backend/app/config.py:71-73 | so can bags that start at any time and are missed at any time, if no gap between sightings exceeds the maximal age |
| Schedules.LateAndMissedIsCounted | backend/app/worker/pipeline/tracker.py:82-132 | with the shipped configuration a bag that shows up late and is missed in the frame in which it goes over the line is counted |
| Lanes.OneBagPasses | backend/app/worker/pipeline/counter.py:29-42 | with the shipped configuration a bag that goes over the line away from the camera in two frames is counted |
| Lanes.TwoBagsPass | backend/app/worker/pipeline/counter.py:29-42 | two bags that go by the shipped line away from the camera in two frames, inside the picture, give the count 2 |
| Lanes.OneBeyondTheEnds | backend/app/worker/pipeline/roi.py:31-44 | the step of one of these two bags meets the drawn line, that of the other is counted beyond its end points |
| Lanes.OnTheLineIsMissed | backend/app/worker/pipeline/roi.py:37-38 | a run with the shipped configuration, whose line is inside the picture, and a bag before, on and behind the line, inside the picture, counts nothing |
| Jobs.JobRepository.Get | backend/app/repositories/job_repository.py:56-58 | the row or nothing |
| Jobs.JobRepository.Create | backend/app/repositories/job_repository.py:79-85 | a new queued row with the file name and an empty input path, all other rows kept |
| Jobs.JobRepository.SetInputPath | backend/app/repositories/job_repository.py:87-96 | only the input path of an existing row changes; an unknown id is an error |
| Jobs.JobRepository.MarkQueued | backend/app/repositories/job_repository.py:98-108 | status queued and no error, everything else kept; an unknown id is an error |
| Jobs.JobRepository.MarkProcessing | backend/app/repositories/job_repository.py:110-118 | status processing and start time; an unknown id is an error |
| Jobs.JobRepository.UpdateProgress | backend/app/repositories/job_repository.py:120-131 | frames, declared total and the percentage rounded to a nearest tenth; an unknown id is ignored |
| Jobs.JobRepository.MarkDone | backend/app/repositories/job_repository.py:133-157 | the complete result (path, count, anomalies, frames, frame rate, 100 percent) in one write; an unknown id is ignored |
| Jobs.JobRepository.MarkFailed | backend/app/repositories/job_repository.py:159-168 | status failed with error and finish time; an unknown id is ignored |
| Jobs.JobRunner.Run | backend/app/worker/job_runner.py:43-70 | one run turns the row into its started, reported and finished or failed form and touches no other row |
| Jobs.JobRunner.ReportProgress | backend/app/worker/job_runner.py:72-76 | the progress reports are written in order |
| Jobs.VideoService.Upload | backend/app/services/video_service.py:77-91 | a missing file name changes nothing; a stored upload is a queued row with its path; a too large one is refused and leaves a failed row; any other storage error leaves a queued row without a path |
| Jobs.VideoService.StartProcessing | backend/app/services/video_service.py:93-100 | unknown and running jobs are refused without any change; others are queued again and put on the queue |
| Jobs.VideoService.GetResultPath | backend/app/services/video_service.py:123-127 | the path is returned exactly for a done row that has one |
| Jobs.OutputPathsApart | backend/app/services/storage.py:53-54 | the result file of a job is named after its id in decimal digits, so no two jobs write to the same file |
| Progress.PercentageInRangeIff | backend/app/repositories/job_repository.py:127-129 | for every rounding to a nearest tenth, a report shows 0 to 100 percent iff nothing is declared, or it exceeds a positive length by less than a 2000th of it, or a negative one is more than 2000 times the frames, or the rounding resolves the exact tie towards 100 or 0 |
| Progress.ReportsPlausibleIff | backend/app/worker/pipeline/video_processor.py:84-86 | all reports of a video meet that condition iff the last multiple of ten frames does |
| Progress.ShownPercentageIff | backend/app/worker/job_runner.py:72-76 | while a worker reports on a job its row shows 0 to 100 percent at every moment iff that last multiple of ten meets the condition |
| Progress.OvershootShown | backend/app/repositories/job_repository.py:127-129 | 10010 of 10000 frames show 100.1 percent, 30010 of 30000 show 100 |
| Progress.OvershootIff | backend/app/worker/pipeline/video_processor.py:84-86 | the reports of a video stay within the declared length iff it is unknown, or no multiple of ten beyond it is reached |
| Progress.ReportsAre | backend/app/worker/pipeline/video_processor.py:84-86 | reports are made after every tenth frame and after the declared last one and no other, in order, each once, with the declared length or the own frame number |
| Progress.FullVideoEndsAtHundred | backend/app/worker/pipeline/video_processor.py:84-86 | a video that is as long as it declares, whatever its length, ends its reports with 100 percent |
| Lifecycle.ProcessingIsAlwaysReal | backend/app/worker/job_runner.py:43-70 | for any number of clients and workers, a row that says processing is in the hands of a worker between its first and last write |
| Lifecycle.TerminalRowsComplete | backend/app/repositories/job_repository.py:133-168 | for any number of workers done rows have path and finish time and show count, anomalies and frame rate of the last completed run, failed ones have error and finish time, and a path comes from a completed run |
| Lifecycle.ResultsAreResults | backend/app/services/video_service.py:123-127 | a result is handed out exactly for done jobs, it is the job's own file, and some run on it completed |
| Lifecycle.ResultsApart | backend/app/services/storage.py:53-54 | no two jobs ever hand out the same file |
| Lifecycle.StartAlone | backend/app/services/video_service.py:93-100 | the interleaved steps of an undisturbed start request do what one call of the service does: queue the job again if it exists and is not being processed, and otherwise nothing |
| Lifecycle.CheckIff | backend/app/services/video_service.py:94-96 | the check step lets a client go on iff the client is idle and the job exists and is not being processed; otherwise nothing changes |
| Lifecycle.OneRequestAtATime | backend/app/services/video_service.py:77-100 | a client takes one request after the other: an idle one begins an upload or a start, one in the middle of a request only goes on with it |
| JobStatus.ProcessingLastsIff | backend/app/services/video_service.py:93-100 | from any state in which a row says processing and no client is uploading or about to queue it, whatever events follow, the row says processing all the time iff there is no last write of a worker that processes it |
| JobStatus.StatusIsRight | backend/app/repositories/job_repository.py:98-168 | for a job whose starts do not overlap with each other or with its upload: while a request waits the row says queued, while a worker processes it the row says processing and has a start time, and an error is shown exactly by a failed row |
| JobStatus.StatusIffRunning | backend/app/worker/job_runner.py:43-70 | for such a job, with any number of clients and workers, the row says processing exactly while a worker processes the video |
| Lifecycle.UploadAlone | backend/app/services/video_service.py:77-91 | so do the steps of an undisturbed upload, for every way the storage can take the file; without a file name they do nothing |
| Races.OneAtATimeNeverRaces | backend/app/services/video_service.py:93-100 | with any number of workers, a job that is never started while an earlier start of it is in progress has at most one request in progress, and while it says queued nobody processes it |
| Races.OneAtATimeIsFinal | backend/app/worker/job_runner.py:43-76 | with any number of workers, such a job shows a final result when it is done |
| Races.StartedOnceIsOneAtATime | backend/app/services/video_service.py:93-100 | a job that passes at most one start check is such a job |
| Races.OneWorkerIsEnough | backend/app/worker/job_runner.py:43-76 | with one worker, done means: processed equals total frames of the last completed run, 100 percent, and nobody works on the job |
| Races.TwoWorkersBreakDone | backend/app/worker/job_runner.py:43-76 | with two workers and two starts a run ends with a done job at a tenth of its frames |
| Races.DoneIsFinalIff | backend/app/worker/job_runner.py:43-76 | on all runs of k workers with at most m accepted starts per job, done is final iff k <= 1 or m <= 1 |
| Races.StartCanRace | backend/app/services/video_service.py:93-100 | with any workers at all a run queues a job again while a worker processes it |
| Races.StartsAreSafeIff | backend/app/services/video_service.py:93-100 | on all runs of k workers with at most m accepted starts per job, a queued job is never being processed iff k = 0 or m <= 1 |
| Lifecycle.RunAlone | backend/app/worker/job_runner.py:43-70 | the interleaved steps of an undisturbed worker do what one call of the runner does |
| EventStream.GenerateEvents | backend/app/api/routes_videos.py:109-121 | the generator prints one frame per status it sees, in order; none before the last says done or failed, and it stops before the turns run out only where the client is gone, the job is missing, or the last frame says done or failed |
| EventStream.TerminalIsLast | backend/app/api/routes_videos.py:119-120 | the same of the specification: what is printed is a prefix of the turns, nothing follows done or failed, and printing stops only for a reason |
| EventStream.CutFrames | backend/app/static/index.html:198-205 | the inner loop takes all complete frames off the buffer and terminates |
| EventStream.ReadStream | backend/app/static/index.html:193-206 | reading chunk by chunk shows what reading the whole text would show |
| EventStream.DataOfIsFirst | backend/app/static/index.html:202-204 | the page shows the rest of the first line of a frame that begins with `data: `, whatever lines come before it, and nothing for a frame without such a line |
| EventStream.NoDataNoTrace | backend/app/static/index.html:198-205 | a frame without data, such as a comment, leaves no trace |
| EventStream.DrainInPieces | backend/app/static/index.html:193-206 | for every text and every cut, also inside a separator, the carried-over buffer makes up for the cut |
| EventStream.RoundTrip | backend/app/static/index.html:193-206 | whatever the server prints, cut anywhere, the page shows exactly the printed payloads in order and keeps nothing |
| StandardStream.StandardAgreesIff | backend/app/static/index.html:193-206 | on what the server prints, the page shows what an event-stream reader after sections 9.2.5 and 9.2.6 of the WHATWG HTML Standard shows, iff no payload holds a carriage return |

## Left out

- Detection, video decoding, drawing and the region-of-interest test are foreign calls: a run takes the detections
  inside the region, frame by frame.
- The cost matrix is stored in single precision by the program; costs are exact reals here, and so are all coordinates.
- The wording of anomaly messages and the rounding of their time stamps for the response.
- Tracker.BagTracker.Costs: builds the matrix row by row as a value instead of writing into a preallocated array.
- EventStream.CutFrames: the search returns the length of the text where the page's search returns -1; the payload is
  not parsed as JSON, and characters stand for the ASCII bytes that `json.dumps` produces.
- Jobs.JobRunner.Run: takes the outcome of the video pipeline and the clock readings as parameters.
- Jobs.VideoService.Upload: takes what the storage does with the file as a parameter.
- Monitor.AnomalyMonitor.Add: leaves out the message text of the record.
- Leftovers.ThresholdKept: says nothing about one given solver at threshold exactly 1, where a box that did not move can
  be lost to a tie.
- Leftovers.LeftoverRange: says nothing about overlap exactly 1 under one given solver at thresholds in (1/2, 1], for the
  same reason.
- Worker crashes, time-outs, failures of the queue or of the database itself, and isolation below one repository call.
- Authentication, health checks, pagination, schemas, file storage and the rest of the page.
