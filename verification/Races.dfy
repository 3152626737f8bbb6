/** What interleaving can break, and exactly when: `done` must be final, and a job that says `queued` must not be
    in the hands of a worker. Both hinge on how often a job is started and how many workers there are. */
module Races {
  import opened Seqs
  import opened VideoProcessor
  import opened Jobs
  import opened Lifecycle

  // ----- start requests in progress -----

  /** Where a start request is: with the client that makes it, in the queue, or with a worker. */
  datatype Place = AtClient(c: nat) | InQueue(k: nat) | AtWorker(w: nat)

  /** A start request for the job is in progress at this place. */
  predicate Holds(s: System, p: Place, id: JobId) {
    match p
    case AtClient(c) => (s.Client(c).Starting? || s.Client(c).Enqueuing?) && s.Client(c).id == id
    case InQueue(k) => k < |s.queue| && s.queue[k] == id
    case AtWorker(w) => !s.Worker(w).Waiting? && s.Worker(w).id == id
  }

  ghost predicate InProgress(s: System, id: JobId) { exists p :: Holds(s, p, id) }

  ghost predicate AtMostOne(s: System, id: JobId) {
    forall p, q | Holds(s, p, id) && Holds(s, q, id) :: p == q
  }

  /** The event is a start request for the job that passes the status check. */
  predicate Starts(s: System, e: Event, id: JobId) { e.Check? && e.id == id && Accepts(s, e.c, id) }

  /** How often a start request for the job passed the status check. */
  function StartCount(k: nat, events: seq<Event>, id: JobId): nat {
    if events == [] then 0
    else
      var init := events[..|events| - 1];
      StartCount(k, init, id) + if Starts(After(k, init), events[|events| - 1], id) then 1 else 0
  }

  /** The job is never started while an earlier start of it is still in progress. */
  ghost predicate OneAtATime(k: nat, events: seq<Event>, id: JobId) {
    events == []
    || var init := events[..|events| - 1];
       && OneAtATime(k, init, id)
       && (Starts(After(k, init), events[|events| - 1], id) ==> !InProgress(After(k, init), id))
  }

  // ----- a request moves, it does not multiply -----

  /** Where the request that is at `p` after the step was before it. */
  function Origin(s: System, e: Event, p: Place): Place {
    match e
    case Enqueue(c) => if p == InQueue(|s.queue|) then AtClient(c) else p
    case Take(w) =>
      if s.Worker(w).Waiting? && s.queue != [] && w in s.workers then
        match p
        case InQueue(k) => InQueue(k + 1)
        case AtWorker(v) => if v == w then InQueue(0) else p
        case AtClient(_) => p
      else p
    case _ => p
  }

  lemma ComesFrom(s: System, e: Event, p: Place, id: JobId)
    requires Holds(Step(s, e), p, id) && !Starts(s, e, id)
    ensures Holds(s, Origin(s, e, p), id)
  {
    hide Step, Holds, Origin, Starts;
    if e.ByClient() {
      ComesFromClient(s, e, p, id);
    } else {
      ComesFromWorker(s, e, p, id);
    }
  }

  lemma ComesFromClient(s: System, e: Event, p: Place, id: JobId)
    requires e.ByClient() && Holds(Step(s, e), p, id) && !Starts(s, e, id)
    ensures Holds(s, Origin(s, e, p), id)
  {
    hide NewJob, Requeued, Broken;
    ClientFrame(s, e);
    if p.AtClient? && p.c != e.c {
      OtherClient(s, e, p.c);
    }
  }

  lemma ComesFromWorker(s: System, e: Event, p: Place, id: JobId)
    requires !e.ByClient() && Holds(Step(s, e), p, id)
    ensures Holds(s, Origin(s, e, p), id)
  {
    hide Started, Progressed, Finished, Broken, OutputPathFor;
    WorkerFrame(s, e);
  }

  lemma OriginsDiffer(s: System, e: Event, p: Place, q: Place, id: JobId)
    requires Holds(Step(s, e), p, id) && Holds(Step(s, e), q, id) && Origin(s, e, p) == Origin(s, e, q)
    ensures p == q
  {
    hide NewJob, Requeued, Broken, Started, Progressed, Finished, OutputPathFor;
  }

  /** An accepted start begins one request and leaves the others where they are. */
  lemma StartHolds(s: System, e: Event, p: Place, id: JobId)
    requires Starts(s, e, id) && Holds(Step(s, e), p, id)
    ensures p == AtClient(e.c) || Holds(s, p, id)
  {
  }

  lemma AtMostOneStep(s: System, e: Event, id: JobId)
    requires AtMostOne(s, id) && (Starts(s, e, id) ==> !InProgress(s, id))
    ensures AtMostOne(Step(s, e), id)
  {
    hide Step, Starts, Holds, Origin;
    forall p, q | Holds(Step(s, e), p, id) && Holds(Step(s, e), q, id)
      ensures p == q
    {
      if Starts(s, e, id) {
        StartHolds(s, e, p, id);
        StartHolds(s, e, q, id);
      } else {
        ComesFrom(s, e, p, id);
        ComesFrom(s, e, q, id);
        OriginsDiffer(s, e, p, q, id);
      }
    }
  }

  /** Only jobs with a row are started. */
  ghost predicate Known(s: System, id: JobId) { InProgress(s, id) ==> id in s.jobs }

  lemma KnownStep(s: System, e: Event, id: JobId)
    requires Known(s, id)
    ensures Known(Step(s, e), id)
  {
    hide Step, Holds, Origin;
    if InProgress(Step(s, e), id) {
      var p :| Holds(Step(s, e), p, id);
      if Starts(s, e, id) {
        assert id in s.jobs;
      } else {
        ComesFrom(s, e, p, id);
      }
      if e.ByClient() { ClientFrame(s, e); } else { WorkerFrame(s, e); }
    }
  }

  // ----- queued means idle -----

  /** A row that says `queued` is not being processed. */
  ghost predicate QueuedIsIdle(s: System, id: JobId) {
    id in s.jobs && s.jobs[id].status == Queued ==> !SomeoneRuns(s, id)
  }

  /** A client queues a row only by creating it or by writing for a start request of its own. */
  lemma WhoQueues(s: System, e: Event, id: JobId)
    requires e.ByClient() && id in Step(s, e).jobs && Step(s, e).jobs[id].status == Queued
    ensures id !in s.jobs || s.jobs[id].status == Queued || Holds(s, AtClient(e.c), id)
  {
  }

  lemma RunsHolds(s: System, w: nat, id: JobId)
    requires Runs(s, w, id)
    ensures Holds(s, AtWorker(w), id)
  {
  }

  /** A worker that works on a queued row after its step did so before. */
  lemma RanBefore(s: System, e: Event, w: nat, id: JobId)
    requires !e.ByClient() && Runs(Step(s, e), w, id) && id in Step(s, e).jobs && Step(s, e).jobs[id].status == Queued
    ensures Runs(s, w, id) && id in s.jobs && s.jobs[id].status == Queued
  {
    hide Step, ShowsPercentage, OutputPathFor;
    WorkerFrame(s, e);
    TakenFirst(s, e);
    if s.Worker(e.w).Waiting? || s.Worker(e.w).id != id {
      WorkerRows(s, e, id);
    } else {
      OwnStep(s, e);
    }
  }

  lemma QueuedStep(s: System, e: Event, id: JobId)
    requires QueuedIsIdle(s, id) && AtMostOne(s, id) && Known(s, id)
    ensures QueuedIsIdle(Step(s, e), id)
  {
    hide Step, Holds, Runs;
    var t := Step(s, e);
    if id in t.jobs && t.jobs[id].status == Queued && SomeoneRuns(t, id) {
      var w: nat :| Runs(t, w, id);
      if e.ByClient() {
        StillRuns(s, e, w, id);
        RunsHolds(s, w, id);
        WhoQueues(s, e, id);
      } else {
        RanBefore(s, e, w, id);
      }
      assert false;
    }
  }

  lemma StillRuns(s: System, e: Event, w: nat, id: JobId)
    requires e.ByClient() && Runs(Step(s, e), w, id)
    ensures Runs(s, w, id)
  {
    hide Step;
    ClientFrame(s, e);
  }

  /** A job that is never started again before its earlier start has ended: requests do not pile up, and a row that
      says `queued` is not being processed, with any number of workers. */
  lemma {:induction false} OneAtATimeNeverRaces(k: nat, events: seq<Event>, id: JobId)
    requires OneAtATime(k, events, id)
    ensures var s := After(k, events); AtMostOne(s, id) && Known(s, id) && QueuedIsIdle(s, id)
  {
    hide Step, AtMostOne, Known, QueuedIsIdle;
    if events == [] {
      NothingInProgress(k, id);
    } else {
      var init, e := events[..|events| - 1], events[|events| - 1];
      OneAtATimeNeverRaces(k, init, id);
      AtMostOneStep(After(k, init), e, id);
      KnownStep(After(k, init), e, id);
      QueuedStep(After(k, init), e, id);
    }
  }

  lemma NothingInProgress(k: nat, id: JobId)
    ensures var s := Init(k); !InProgress(s, id) && AtMostOne(s, id) && Known(s, id) && QueuedIsIdle(s, id)
    ensures DoneIsFinal(Init(k), id)
  {
  }

  /** A request in progress was started at some time. */
  lemma {:induction false} InProgressWasStarted(k: nat, events: seq<Event>, id: JobId)
    ensures InProgress(After(k, events), id) ==> StartCount(k, events, id) >= 1
  {
    hide Step, Holds, Starts, Origin;
    if events == [] {
      NothingInProgress(k, id);
    } else {
      var init, e := events[..|events| - 1], events[|events| - 1];
      InProgressWasStarted(k, init, id);
      if InProgress(After(k, events), id) && !Starts(After(k, init), e, id) {
        var p :| Holds(After(k, events), p, id);
        ComesFrom(After(k, init), e, p, id);
      }
    }
  }

  lemma {:induction false} StartedOnceIsOneAtATime(k: nat, events: seq<Event>, id: JobId)
    requires StartCount(k, events, id) <= 1
    ensures OneAtATime(k, events, id)
  {
    hide Step, Starts, InProgress;
    if events == [] {
    } else {
      StartedOnceIsOneAtATime(k, events[..|events| - 1], id);
      InProgressWasStarted(k, events[..|events| - 1], id);
    }
  }

  // ----- done means done -----

  lemma OneRequestAlone(s: System, id: JobId)
    requires AtMostOne(s, id)
    ensures Alone(s, id)
  {
    forall v: nat, w: nat | Runs(s, v, id) && Runs(s, w, id)
      ensures v == w
    {
      RunsHolds(s, v, id);
      RunsHolds(s, w, id);
    }
  }

  /** A job that is never started again before its earlier start has ended shows a final result when it is done,
      with any number of workers. */
  lemma {:induction false} OneAtATimeIsFinal(k: nat, events: seq<Event>, id: JobId)
    requires OneAtATime(k, events, id)
    ensures DoneIsFinal(After(k, events), id)
  {
    hide Step, DoneIsFinal, AtMostOne, Alone;
    if events == [] {
      NothingInProgress(k, id);
    } else {
      var init := events[..|events| - 1];
      OneAtATimeIsFinal(k, init, id);
      OneAtATimeNeverRaces(k, init, id);
      OneRequestAlone(After(k, init), id);
      DoneStep(After(k, init), events[|events| - 1], id);
    }
  }

  lemma {:induction false} WorkersAreFixed(k: nat, events: seq<Event>)
    ensures After(k, events).workers.Keys == Below(k)
  {
    hide Step;
    if events == [] {
    } else {
      var s, e := After(k, events[..|events| - 1]), events[|events| - 1];
      WorkersAreFixed(k, events[..|events| - 1]);
      if e.ByClient() { ClientFrame(s, e); } else { WorkerFrame(s, e); }
    }
  }

  /** With one worker, done is final on every run. */
  lemma {:induction false} OneWorkerIsEnough(k: nat, events: seq<Event>, id: JobId)
    requires k <= 1
    ensures DoneIsFinal(After(k, events), id)
  {
    hide Step, DoneIsFinal;
    if events == [] {
      NothingInProgress(k, id);
    } else {
      var init := events[..|events| - 1];
      OneWorkerIsEnough(k, init, id);
      WorkersAreFixed(k, init);
      DoneStep(After(k, init), events[|events| - 1], id);
    }
  }

  // ----- schedules that break it -----

  /** Start requests for the job in a schedule, accepted or not. */
  function Checks(events: seq<Event>, id: JobId): nat {
    if events == [] then 0
    else
      var last := events[|events| - 1];
      Checks(events[..|events| - 1], id) + if last.Check? && last.id == id then 1 else 0
  }

  lemma {:induction false} StartsAreChecks(k: nat, events: seq<Event>, id: JobId)
    ensures StartCount(k, events, id) <= Checks(events, id)
  {
    hide Step;
    if events == [] {
    } else {
      StartsAreChecks(k, events[..|events| - 1], id);
    }
  }

  lemma {:induction false} ChecksConcat(a: seq<Event>, b: seq<Event>, id: JobId)
    ensures Checks(a + b, id) == Checks(a, id) + Checks(b, id)
  {
    if b == [] {
      assert a + b == a;
    } else {
      assert (a + b)[..|a + b| - 1] == a + b[..|b| - 1];
      ChecksConcat(a, b[..|b| - 1], id);
    }
  }

  function UploadedJob(): Job { NewJob("bags.mp4", 0).(inputPath := "in.mp4") }

  function UploadSeven(): seq<Event> { [Create(0, 7, "bags.mp4", 0), Saved(0, "in.mp4")] }

  /** Client 0 uploads job 7; clients 0 and 1 both find it queued. */
  function CheckTwice(): seq<Event> { UploadSeven() + [Check(0, 7), Check(1, 7)] }

  /** One of the two requests of `CheckTwice` reaches the queue. */
  function Start(c: nat): seq<Event> { [MarkQueued(c), Enqueue(c)] }

  /** Worker `w` takes the job and begins to process it. */
  function Begin(w: nat, now: nat): seq<Event> { [Take(w), Load(w), MarkProcessing(w, now)] }

  lemma Passes(s: System, c: nat, id: JobId)
    requires Accepts(s, c, id)
    ensures Step(s, Check(c, id)) == s.WithClient(c, Starting(id))
  {
  }

  lemma SevenUploaded(k: nat)
    ensures var s := After(k, UploadSeven());
            s.jobs == map[7 := UploadedJob()] && s.queue == [] && s.workers == Init(k).workers
            && s.Client(0) == Idle && s.Client(1) == Idle
  {
    hide Step, NewJob;
    Two(Init(k), Create(0, 7, "bags.mp4", 0), Saved(0, "in.mp4"));
    Creates(Init(k), 0, 7, "bags.mp4", 0);
    Saves(Step(Init(k), Create(0, 7, "bags.mp4", 0)), 0, 7, "in.mp4");
    AfterIsStepAll(k, [], UploadSeven());
    assert [] + UploadSeven() == UploadSeven();
  }

  lemma CheckedTwice(k: nat)
    ensures var s := After(k, CheckTwice());
            s.jobs == map[7 := UploadedJob()] && s.queue == [] && s.workers == Init(k).workers
            && s.Client(0) == Starting(7) && s.Client(1) == Starting(7)
  {
    hide After, UploadSeven, Step;
    SevenUploaded(k);
    var s := After(k, UploadSeven());
    AfterIsStepAll(k, UploadSeven(), [Check(0, 7), Check(1, 7)]);
    Two(s, Check(0, 7), Check(1, 7));
    Passes(s, 0, 7);
    Passes(Step(s, Check(0, 7)), 1, 7);
  }

  lemma Queues(s: System, c: nat)
    requires s.Client(c) == Starting(7) && 7 in s.jobs
    ensures var t := StepAll(s, Start(c));
            t.jobs == s.jobs[7 := Requeued(s.jobs[7])] && t.queue == s.queue + [7] && t.workers == s.workers
            && forall d: nat | d != c :: t.Client(d) == s.Client(d)
  {
    Two(s, MarkQueued(c), Enqueue(c));
  }

  lemma Begins(s: System, w: nat, now: nat)
    requires w in s.workers && s.workers[w] == Waiting && s.queue != [] && s.queue[0] == 7 && 7 in s.jobs
    ensures var t := StepAll(s, Begin(w, now));
            t.jobs == s.jobs[7 := Started(s.jobs[7], now)] && t.queue == s.queue[1..] && t.clients == s.clients
            && t.workers == s.workers[w := Running(7, s.jobs[7].inputPath)]
  {
    hide Started;
    Three(s, Take(w), Load(w), MarkProcessing(w, now));
    var path := s.jobs[7].inputPath;
    assert s.workers[w := Taken(7)][w := Loaded(7, path)][w := Running(7, path)] == s.workers[w := Running(7, path)];
  }

  /** Worker 0 begins with the first request while client 1 has not written yet; then client 1 writes. */
  function QueueWhileRunning(): seq<Event> { CheckTwice() + (Start(0) + (Begin(0, 1) + Start(1))) }

  /** So a job can be queued again while a worker is processing it. */
  lemma StartCanRace(k: nat)
    requires k >= 1
    ensures !QueuedIsIdle(After(k, QueueWhileRunning()), 7)
  {
    hide After, StepAll, CheckTwice, Start, Begin;
    CheckedTwice(k);
    var s := After(k, CheckTwice());
    AfterIsStepAll(k, CheckTwice(), Start(0) + (Begin(0, 1) + Start(1)));
    StepAllConcat(s, Start(0), Begin(0, 1) + Start(1));
    Queues(s, 0);
    var t := StepAll(s, Start(0));
    StepAllConcat(t, Begin(0, 1), Start(1));
    Begins(t, 0, 1);
    var u := StepAll(t, Begin(0, 1));
    Queues(u, 1);
    assert Runs(StepAll(u, Start(1)), 0, 7);
  }

  function FiveBags(): ProcessingResult { ProcessingResult(5, [], 100, 25.0) }

  /** Worker 0 ends while worker 1 still reports. */
  function LateReport(): seq<Event> { [Complete(0, 3, FiveBags()), Report(1, 10, 100, 10.0)] }

  /** Workers 0 and 1 take the two requests one after the other. */
  function WorkTwice(): seq<Event> {
    CheckTwice() + (Start(0) + (Start(1) + (Begin(0, 1) + (Begin(1, 2) + LateReport()))))
  }

  lemma TenOfHundred()
    ensures ShowsPercentage(10, 100, 10.0)
  {
  }

  lemma ReportsLate(s: System)
    requires 0 in s.workers && s.workers[0] == Running(7, "in.mp4") && 1 in s.workers && s.workers[1] == Running(7, "in.mp4")
    requires 7 in s.jobs
    ensures !DoneIsFinal(StepAll(s, LateReport()), 7)
  {
    TenOfHundred();
    hide OutputPathFor, ShowsPercentage;
    Two(s, Complete(0, 3, FiveBags()), Report(1, 10, 100, 10.0));
  }

  /** With two or more workers a job can be done and show a tenth of its frames, with a worker still on it. */
  lemma TwoWorkersBreakDone(k: nat)
    requires k >= 2
    ensures !DoneIsFinal(After(k, WorkTwice()), 7)
  {
    hide After, StepAll, CheckTwice, Start, Begin, LateReport, DoneIsFinal;
    CheckedTwice(k);
    var s := After(k, CheckTwice());
    AfterIsStepAll(k, CheckTwice(), Start(0) + (Start(1) + (Begin(0, 1) + (Begin(1, 2) + LateReport()))));
    StepAllConcat(s, Start(0), Start(1) + (Begin(0, 1) + (Begin(1, 2) + LateReport())));
    Queues(s, 0);
    var t := StepAll(s, Start(0));
    StepAllConcat(t, Start(1), Begin(0, 1) + (Begin(1, 2) + LateReport()));
    Queues(t, 1);
    var u := StepAll(t, Start(1));
    StepAllConcat(u, Begin(0, 1), Begin(1, 2) + LateReport());
    Begins(u, 0, 1);
    var v := StepAll(u, Begin(0, 1));
    StepAllConcat(v, Begin(1, 2), LateReport());
    Begins(v, 1, 2);
    ReportsLate(StepAll(v, Begin(1, 2)));
  }

  // ----- exactly when -----

  /** Every job passes at most `m` start checks. */
  ghost predicate StartedAtMost(k: nat, events: seq<Event>, m: nat) {
    forall id: JobId :: StartCount(k, events, id) <= m
  }

  lemma QueueWhileRunningStarts(k: nat)
    ensures StartedAtMost(k, QueueWhileRunning(), 2)
  {
    forall id: JobId
      ensures StartCount(k, QueueWhileRunning(), id) <= 2
    {
      StartsAreChecks(k, QueueWhileRunning(), id);
      TwoChecks(id);
      ChecksConcat(CheckTwice(), Start(0) + (Begin(0, 1) + Start(1)), id);
      ChecksConcat(Start(0), Begin(0, 1) + Start(1), id);
      ChecksConcat(Begin(0, 1), Start(1), id);
    }
  }

  lemma WorkTwiceStarts(k: nat)
    ensures StartedAtMost(k, WorkTwice(), 2)
  {
    forall id: JobId
      ensures StartCount(k, WorkTwice(), id) <= 2
    {
      StartsAreChecks(k, WorkTwice(), id);
      TwoChecks(id);
      ChecksConcat(CheckTwice(), Start(0) + (Start(1) + (Begin(0, 1) + (Begin(1, 2) + LateReport()))), id);
      ChecksConcat(Start(0), Start(1) + (Begin(0, 1) + (Begin(1, 2) + LateReport())), id);
      ChecksConcat(Start(1), Begin(0, 1) + (Begin(1, 2) + LateReport()), id);
      ChecksConcat(Begin(0, 1), Begin(1, 2) + LateReport(), id);
      ChecksConcat(Begin(1, 2), LateReport(), id);
    }
  }

  lemma NoChecks(a: Event, b: Event, c: Event, id: JobId)
    requires !a.Check? && !b.Check? && !c.Check?
    ensures Checks([a, b], id) == 0 && Checks([a, b, c], id) == 0
  {
    assert [a, b, c][..2] == [a, b] && [a, b][..1] == [a] && [a][..0] == [];
    assert Checks([a], id) == 0;
  }

  lemma TwoChecks(id: JobId)
    ensures Checks(CheckTwice(), id) <= 2
    ensures forall c: nat :: Checks(Start(c), id) == 0
    ensures forall w: nat, now: nat :: Checks(Begin(w, now), id) == 0
    ensures Checks(LateReport(), id) == 0
  {
    ChecksConcat(UploadSeven(), [Check(0, 7), Check(1, 7)], id);
    NoChecks(Create(0, 7, "bags.mp4", 0), Saved(0, "in.mp4"), Take(0), id);
    assert [Check(0, 7), Check(1, 7)][..1] == [Check(0, 7)] && [Check(0, 7)][..0] == [];
    forall c: nat
      ensures Checks(Start(c), id) == 0
    {
      NoChecks(MarkQueued(c), Enqueue(c), Take(0), id);
    }
    forall w: nat, now: nat
      ensures Checks(Begin(w, now), id) == 0
    {
      NoChecks(Take(w), Load(w), MarkProcessing(w, now), id);
    }
    NoChecks(Complete(0, 3, FiveBags()), Report(1, 10, 100, 10.0), Take(0), id);
  }

  /** On all runs of `k` workers in which no job passes more than `m` start checks, a queued job is not being
      processed: exactly when there is no worker, or no job passes two checks. */
  lemma StartsAreSafeIff(k: nat, m: nat)
    ensures (forall events: seq<Event>, id: JobId | StartedAtMost(k, events, m) :: QueuedIsIdle(After(k, events), id))
       <==> k == 0 || m <= 1
  {
    hide After, QueuedIsIdle, QueueWhileRunning;
    if k == 0 || m <= 1 {
      forall events: seq<Event>, id: JobId | StartedAtMost(k, events, m)
        ensures QueuedIsIdle(After(k, events), id)
      {
        if k == 0 {
          NoWorkerNoRace(events, id);
        } else {
          StartedOnceIsOneAtATime(k, events, id);
          OneAtATimeNeverRaces(k, events, id);
        }
      }
    } else {
      QueueWhileRunningStarts(k);
      assert StartedAtMost(k, QueueWhileRunning(), m);
      StartCanRace(k);
    }
  }

  lemma NoWorkerNoRace(events: seq<Event>, id: JobId)
    ensures QueuedIsIdle(After(0, events), id)
  {
    hide After;
    WorkersAreFixed(0, events);
  }

  /** On the same runs, done is final exactly when there is at most one worker, or no job passes two checks. */
  lemma DoneIsFinalIff(k: nat, m: nat)
    ensures (forall events: seq<Event>, id: JobId | StartedAtMost(k, events, m) :: DoneIsFinal(After(k, events), id))
       <==> k <= 1 || m <= 1
  {
    hide After, DoneIsFinal, WorkTwice;
    if k <= 1 || m <= 1 {
      forall events: seq<Event>, id: JobId | StartedAtMost(k, events, m)
        ensures DoneIsFinal(After(k, events), id)
      {
        if k <= 1 {
          OneWorkerIsEnough(k, events, id);
        } else {
          StartedOnceIsOneAtATime(k, events, id);
          OneAtATimeIsFinal(k, events, id);
        }
      }
    } else {
      WorkTwiceStarts(k);
      assert StartedAtMost(k, WorkTwice(), m);
      TwoWorkersBreakDone(k);
    }
  }
}
