/** All interleavings of any number of API clients and workers over one job table. Each repository call, each
    check and each queue operation is one atomic step. */
module Lifecycle {
  import opened Seqs
  import opened VideoProcessor
  import opened Jobs

  /** A client is between the steps of an upload or of a start request. */
  datatype ClientPc = Idle | Uploading(id: JobId) | Starting(id: JobId) | Enqueuing(id: JobId)

  /** A worker has taken a job off the queue, has read its row, or is processing the video. */
  datatype WorkerPc = Waiting | Taken(id: JobId) | Loaded(id: JobId, inputPath: string) | Running(id: JobId, inputPath: string)

  /** `results` remembers, for each job, the result of the last run that completed for it. */
  datatype System = System(
    jobs: Table,
    queue: seq<JobId>,
    clients: map<nat, ClientPc>,
    workers: map<nat, WorkerPc>,
    results: map<JobId, ProcessingResult>
  ) {
    function Client(c: nat): ClientPc { if c in clients then clients[c] else Idle }

    /** A worker that does not exist counts as waiting. */
    function Worker(w: nat): WorkerPc { if w in workers then workers[w] else Waiting }

    function WithClient(c: nat, pc: ClientPc): System { this.(clients := clients[c := pc]) }

    function WithWorker(w: nat, pc: WorkerPc): System { this.(workers := workers[w := pc]) }

    function WithJob(id: JobId, j: Job): System { this.(jobs := jobs[id := j]) }
  }

  datatype Event =
    | Create(c: nat, id: JobId, filename: string, now: nat)
    | Saved(c: nat, path: string)
    | TooLarge(c: nat, now: nat, message: string)
    | Abandon(c: nat)
    | Check(c: nat, id: JobId)
    | MarkQueued(c: nat)
    | Enqueue(c: nat)
    | Take(w: nat)
    | Load(w: nat)
    | MarkProcessing(w: nat, now: nat)
    | Report(w: nat, processed: int, declared: int, shown: real)
    | Complete(w: nat, now: nat, result: ProcessingResult)
    | Fail(w: nat, now: nat, message: string)
  {
    predicate ByClient() { Create? || Saved? || TooLarge? || Abandon? || Check? || MarkQueued? || Enqueue? }
  }

  /** Does the status check of a start request let client `c` go on? */
  predicate Accepts(s: System, c: nat, id: JobId) {
    s.Client(c).Idle? && id in s.jobs && s.jobs[id].status != Processing
  }

  function ClientStep(s: System, e: Event): System
    requires e.ByClient()
  {
    var pc := s.Client(e.c);
    match e
    case Create(c, id, filename, now) =>
      if pc.Idle? && id !in s.jobs && filename != "" then s.WithJob(id, NewJob(filename, now)).WithClient(c, Uploading(id))
      else s
    case Saved(c, path) =>
      if pc.Uploading? && pc.id in s.jobs then
        s.WithJob(pc.id, s.jobs[pc.id].(inputPath := path)).WithClient(c, Idle)
      else s
    case TooLarge(c, now, message) =>
      if pc.Uploading? && pc.id in s.jobs then s.WithJob(pc.id, Broken(s.jobs[pc.id], now, message)).WithClient(c, Idle)
      else s
    case Abandon(c) =>
      if pc.Uploading? then s.WithClient(c, Idle) else s
    case Check(c, id) =>
      if Accepts(s, c, id) then s.WithClient(c, Starting(id)) else s
    case MarkQueued(c) =>
      if pc.Starting? && pc.id in s.jobs then s.WithJob(pc.id, Requeued(s.jobs[pc.id])).WithClient(c, Enqueuing(pc.id))
      else s
    case Enqueue(c) =>
      if pc.Enqueuing? then s.(queue := s.queue + [pc.id]).WithClient(c, Idle) else s
  }

  /** Processing a video fails when the job has no input path yet. */
  function WorkerStep(s: System, e: Event): System
    requires !e.ByClient() && e.w in s.workers
  {
    var pc := s.workers[e.w];
    match e
    case Take(w) =>
      if pc.Waiting? && s.queue != [] then s.(queue := s.queue[1..]).WithWorker(w, Taken(s.queue[0])) else s
    case Load(w) =>
      if pc.Taken? then
        s.WithWorker(w, if pc.id in s.jobs then Loaded(pc.id, s.jobs[pc.id].inputPath) else Waiting)
      else s
    case MarkProcessing(w, now) =>
      if pc.Loaded? then
        if pc.id in s.jobs then
          s.WithJob(pc.id, Started(s.jobs[pc.id], now)).WithWorker(w, Running(pc.id, pc.inputPath))
        else s.WithWorker(w, Waiting)
      else s
    case Report(w, processed, declared, shown) =>
      if pc.Running? && pc.id in s.jobs && ShowsPercentage(processed, declared, shown) then
        s.WithJob(pc.id, Progressed(s.jobs[pc.id], processed, declared, shown))
      else s
    case Complete(w, now, result) =>
      if pc.Running? && pc.inputPath != "" && pc.id in s.jobs then
        s.WithJob(pc.id, Finished(s.jobs[pc.id], now, OutputPathFor(pc.id), result)).WithWorker(w, Waiting)
         .(results := s.results[pc.id := result])
      else s
    case Fail(w, now, message) =>
      if pc.Running? && pc.id in s.jobs then s.WithJob(pc.id, Broken(s.jobs[pc.id], now, message)).WithWorker(w, Waiting)
      else s
  }

  /** One atomic step; an event whose actor is not at that point changes nothing. */
  function Step(s: System, e: Event): System {
    if e.ByClient() then ClientStep(s, e)
    else if e.w in s.workers then WorkerStep(s, e)
    else s
  }

  /** An empty table, an empty queue and `k` waiting workers. */
  function Init(k: nat): System {
    System(map[], [], map[], map w | w in Below(k) :: Waiting, map[])
  }

  function After(k: nat, events: seq<Event>): System {
    if events == [] then Init(k) else Step(After(k, events[..|events| - 1]), events[|events| - 1])
  }

  // ----- what one step leaves alone -----

  /** What a client can do to a row: create it, set its path, queue it, or mark it failed. */
  predicate ClientRow(s: System, t: System, id: JobId)
    requires id in t.jobs
  {
    var j := t.jobs[id];
    || (id in s.jobs && j == s.jobs[id].(inputPath := j.inputPath))
    || (j.status == Queued && if id in s.jobs then j == Requeued(s.jobs[id]) else j.outputPath.None?)
    || (id in s.jobs && j == s.jobs[id].(status := Failed, error := j.error, finishedAt := j.finishedAt)
        && j.error.Some? && j.finishedAt.Some?)
  }

  /** A step of a client leaves the workers alone. */
  lemma ClientFrame(s: System, e: Event)
    requires e.ByClient()
    ensures Step(s, e).workers == s.workers && Step(s, e).results == s.results
    ensures s.jobs.Keys <= Step(s, e).jobs.Keys
  {
    hide NewJob, Requeued, Broken, Accepts;
  }

  lemma OtherClient(s: System, e: Event, c: nat)
    requires e.ByClient() && c != e.c
    ensures Step(s, e).Client(c) == s.Client(c)
  {
    hide NewJob, Requeued, Broken, Accepts;
  }

  lemma ClientRows(s: System, e: Event, id: JobId)
    requires e.ByClient() && id in Step(s, e).jobs
    ensures ClientRow(s, Step(s, e), id)
  {
  }

  /** A step of a worker leaves clients and other workers alone, and every row but that of its job. */
  lemma WorkerFrame(s: System, e: Event)
    requires !e.ByClient()
    ensures Step(s, e).clients == s.clients && Step(s, e).jobs.Keys == s.jobs.Keys
    ensures Step(s, e).workers.Keys == s.workers.Keys
    ensures forall w | w != e.w :: Step(s, e).Worker(w) == s.Worker(w)
  {
    hide Started, Progressed, Finished, Broken, OutputPathFor;
  }

  lemma WorkerRows(s: System, e: Event, id: JobId)
    requires !e.ByClient() && (s.Worker(e.w).Waiting? || s.Worker(e.w).id != id)
    ensures id in Step(s, e).jobs <==> id in s.jobs
    ensures id in s.jobs ==> Step(s, e).jobs[id] == s.jobs[id]
    ensures id in s.results <==> id in Step(s, e).results
    ensures id in s.results ==> Step(s, e).results[id] == s.results[id]
  {
    hide ShowsPercentage, OutputPathFor;
  }

  /** What a worker that holds a job can do to its row: nothing, start it, report on it, or end its run. */
  predicate OwnRow(s: System, t: System, e: Event)
    requires !e.ByClient() && !s.Worker(e.w).Waiting? && s.Worker(e.w).id in s.jobs
  {
    var pc, next := s.Worker(e.w), t.Worker(e.w);
    var before := s.jobs[pc.id];
    pc.id in t.jobs
    && match e
       case MarkProcessing(_, now) =>
         if pc.Loaded? then t.jobs[pc.id] == Started(before, now) && next == Running(pc.id, pc.inputPath)
         else t.jobs[pc.id] == before && next == pc
       case Report(_, processed, declared, shown) =>
         next == pc
         && t.jobs[pc.id] == if pc.Running? && ShowsPercentage(processed, declared, shown)
                             then Progressed(before, processed, declared, shown) else before
       case Complete(_, now, result) =>
         if pc.Running? && pc.inputPath != "" then
           t.jobs[pc.id] == Finished(before, now, OutputPathFor(pc.id), result) && next.Waiting?
         else t.jobs[pc.id] == before && next == pc
       case Fail(_, now, message) =>
         if pc.Running? then t.jobs[pc.id] == Broken(before, now, message) && next.Waiting?
         else t.jobs[pc.id] == before && next == pc
       case _ => t.jobs[pc.id] == before && (next == pc || (pc.Taken? && next == Loaded(pc.id, before.inputPath)))
  }

  /** The remembered result changes only when a run completes. */
  predicate OwnResult(s: System, t: System, e: Event)
    requires !e.ByClient() && !s.Worker(e.w).Waiting?
  {
    var pc := s.Worker(e.w);
    if e.Complete? && pc.Running? && pc.inputPath != "" && pc.id in s.jobs then t.results == s.results[pc.id := e.result]
    else t.results == s.results
  }

  lemma OwnStep(s: System, e: Event)
    requires !e.ByClient() && !s.Worker(e.w).Waiting? && s.Worker(e.w).id in s.jobs
    ensures OwnRow(s, Step(s, e), e) && OwnResult(s, Step(s, e), e)
  {
    hide ShowsPercentage, OutputPathFor;
  }

  // ----- with any number of workers -----

  predicate Runs(s: System, w: nat, id: JobId) { s.Worker(w).Running? && s.Worker(w).id == id }

  ghost predicate SomeoneRuns(s: System, id: JobId) { exists w: nat :: Runs(s, w, id) }

  /** A row that says `processing` is in the hands of a worker between its first and its last write. */
  ghost predicate ProcessingIsReal(s: System, id: JobId) {
    id in s.jobs && s.jobs[id].status == Processing ==> SomeoneRuns(s, id)
  }

  lemma ProcessingStep(s: System, e: Event, id: JobId)
    requires ProcessingIsReal(s, id)
    ensures ProcessingIsReal(Step(s, e), id)
  {
    hide Step, Progressed, Finished;
    var t := Step(s, e);
    if id in t.jobs && t.jobs[id].status == Processing {
      if e.ByClient() {
        ClientFrame(s, e);
        ClientRows(s, e, id);
        var w: nat :| Runs(s, w, id);
        assert Runs(t, w, id);
      } else {
        WorkerFrame(s, e);
        if s.Worker(e.w).Waiting? || s.Worker(e.w).id != id {
          WorkerRows(s, e, id);
          var w: nat :| Runs(s, w, id);
          assert Runs(t, w, id);
        } else {
          ProcessingOwnRow(s, e, id);
        }
      }
    }
  }

  lemma ProcessingOwnRow(s: System, e: Event, id: JobId)
    requires !e.ByClient() && !s.Worker(e.w).Waiting? && s.Worker(e.w).id == id
    requires id in s.jobs && (s.jobs[id].status == Processing ==> SomeoneRuns(s, id))
    requires id in Step(s, e).jobs && Step(s, e).jobs[id].status == Processing
    ensures SomeoneRuns(Step(s, e), id)
  {
    hide Step, ShowsPercentage, OutputPathFor;
    var t := Step(s, e);
    WorkerFrame(s, e);
    OwnStep(s, e);
    if t.Worker(e.w).Running? {
      assert Runs(t, e.w, id);
    } else {
      var w: nat :| Runs(s, w, id);
      assert Runs(t, w, id);
    }
  }

  /** For any number of clients and workers: `processing` is never left behind. */
  lemma {:induction false} ProcessingIsAlwaysReal(k: nat, events: seq<Event>, id: JobId)
    ensures ProcessingIsReal(After(k, events), id)
  {
    hide Step;
    if events == [] {
    } else {
      ProcessingIsAlwaysReal(k, events[..|events| - 1], id);
      ProcessingStep(After(k, events[..|events| - 1]), events[|events| - 1], id);
    }
  }

  /** Terminal rows are complete: a done job has its file and shows count, anomalies and frame rate of the last run that
      completed for it, a failed one has its reason; a file was really produced. */
  ghost predicate TerminalRow(s: System, id: JobId) {
    id in s.jobs ==>
      var j := s.jobs[id];
      && (j.status == Done ==> j.outputPath.Some? && j.finishedAt.Some?)
      && (j.outputPath.Some? ==> id in s.results && j.bagCount == s.results[id].bagCount
                                 && j.anomalies == s.results[id].anomalies && j.fps == Some(s.results[id].fps))
      && (j.status == Failed ==> j.error.Some? && j.finishedAt.Some?)
      && (j.outputPath.Some? ==> j.outputPath == Some(OutputPathFor(id)))
  }

  lemma TerminalStep(s: System, e: Event, id: JobId)
    requires TerminalRow(s, id)
    ensures TerminalRow(Step(s, e), id)
  {
    hide Step, ShowsPercentage, OutputPathFor;
    if e.ByClient() {
      ClientFrame(s, e);
      if id in Step(s, e).jobs {
        ClientRows(s, e, id);
      }
    } else if s.Worker(e.w).Waiting? || s.Worker(e.w).id != id {
      WorkerRows(s, e, id);
    } else {
      WorkerFrame(s, e);
      if id in s.jobs {
        OwnStep(s, e);
      }
    }
  }

  lemma {:induction false} TerminalRowsComplete(k: nat, events: seq<Event>, id: JobId)
    ensures TerminalRow(After(k, events), id)
  {
    hide Step;
    if events == [] {
    } else {
      TerminalRowsComplete(k, events[..|events| - 1], id);
      TerminalStep(After(k, events[..|events| - 1]), events[|events| - 1], id);
    }
  }

  /** A result is handed out exactly for done jobs, it is the job's own file, and some run on the job completed. */
  lemma ResultsAreResults(k: nat, events: seq<Event>, id: JobId)
    ensures var s := After(k, events);
            && (ResultPath(s.jobs, id).Ok? <==> id in s.jobs && s.jobs[id].status == Done)
            && (ResultPath(s.jobs, id).Ok? ==> ResultPath(s.jobs, id).value == OutputPathFor(id) && id in s.results)
  {
    hide After;
    TerminalRowsComplete(k, events, id);
  }

  /** No two jobs ever hand out the same file. */
  lemma ResultsApart(k: nat, events: seq<Event>, a: JobId, b: JobId)
    requires a != b
    ensures var s := After(k, events);
            ResultPath(s.jobs, a).Ok? && ResultPath(s.jobs, b).Ok? ==> ResultPath(s.jobs, a) != ResultPath(s.jobs, b)
  {
    hide After, OutputPathFor;
    ResultsAreResults(k, events, a);
    ResultsAreResults(k, events, b);
    OutputPathsApart(a, b);
  }

  // ----- when nobody else works on a job -----

  /** A done job shows the complete video, the one of the last completed run, and nobody is working on it. */
  ghost predicate DoneIsFinal(s: System, id: JobId) {
    id in s.jobs && s.jobs[id].status == Done ==>
      && s.jobs[id].totalFrames == Some(s.jobs[id].processedFrames)
      && s.jobs[id].progressPct == 100.0
      && id in s.results && s.results[id].totalFrames == s.jobs[id].processedFrames
      && !SomeoneRuns(s, id)
  }

  /** No two workers process the job. */
  ghost predicate Alone(s: System, id: JobId) {
    forall v: nat, w: nat | Runs(s, v, id) && Runs(s, w, id) :: v == w
  }

  lemma DoneStep(s: System, e: Event, id: JobId)
    requires DoneIsFinal(s, id) && Alone(s, id)
    ensures DoneIsFinal(Step(s, e), id)
  {
    hide Step, ShowsPercentage, OutputPathFor;
    var t := Step(s, e);
    if id in t.jobs && t.jobs[id].status == Done {
      if e.ByClient() {
        ClientFrame(s, e);
        ClientRows(s, e, id);
        assert forall w: nat :: Runs(t, w, id) ==> Runs(s, w, id);
      } else {
        WorkerFrame(s, e);
        if s.Worker(e.w).Waiting? || s.Worker(e.w).id != id {
          WorkerRows(s, e, id);
          TakenFirst(s, e);
          assert forall w: nat :: Runs(t, w, id) ==> Runs(s, w, id);
        } else {
          DoneOwnRow(s, e, id);
        }
      }
    }
  }

  /** A waiting worker does not start to run, and a worker does not change its job. */
  lemma TakenFirst(s: System, e: Event)
    requires !e.ByClient()
    ensures s.Worker(e.w).Waiting? ==> !Step(s, e).Worker(e.w).Running?
    ensures !s.Worker(e.w).Waiting? && !Step(s, e).Worker(e.w).Waiting? ==> Step(s, e).Worker(e.w).id == s.Worker(e.w).id
  {
    hide ShowsPercentage, OutputPathFor;
  }

  lemma DoneOwnRow(s: System, e: Event, id: JobId)
    requires DoneIsFinal(s, id) && Alone(s, id)
    requires !e.ByClient() && !s.Worker(e.w).Waiting? && s.Worker(e.w).id == id
    requires id in s.jobs && id in Step(s, e).jobs && Step(s, e).jobs[id].status == Done
    ensures DoneIsFinal(Step(s, e), id)
  {
    hide Step, ShowsPercentage, OutputPathFor;
    var t := Step(s, e);
    WorkerFrame(s, e);
    OwnStep(s, e);
    if s.Worker(e.w).Running? {
      assert Runs(s, e.w, id);
    }
    assert forall w: nat | w != e.w :: Runs(t, w, id) ==> Runs(s, w, id);
  }

  // ----- runs from the front -----

  lemma AppendEvent(k: nat, events: seq<Event>, e: Event)
    ensures After(k, events + [e]) == Step(After(k, events), e)
  {
    assert (events + [e])[..|events|] == events;
  }

  function StepAll(s: System, events: seq<Event>): System
    decreases |events|
  {
    if events == [] then s else StepAll(Step(s, events[0]), events[1..])
  }

  /** Executing from the front or from the back is the same. */
  lemma {:induction false} AfterIsStepAll(k: nat, before: seq<Event>, events: seq<Event>)
    ensures After(k, before + events) == StepAll(After(k, before), events)
    decreases |events|
  {
    hide Step;
    if events == [] {
      assert before + events == before;
    } else {
      AppendEvent(k, before, events[0]);
      AfterIsStepAll(k, before + [events[0]], events[1..]);
      assert before + [events[0]] + events[1..] == before + events;
    }
  }

  lemma {:induction false} StepAllConcat(s: System, a: seq<Event>, b: seq<Event>)
    ensures StepAll(s, a + b) == StepAll(StepAll(s, a), b)
    decreases |a|
  {
    hide Step;
    if a == [] {
      assert a + b == b;
    } else {
      assert (a + b)[1..] == a[1..] + b;
      StepAllConcat(Step(s, a[0]), a[1..], b);
    }
  }

  lemma Two(s: System, a: Event, b: Event)
    ensures StepAll(s, [a, b]) == Step(Step(s, a), b)
  {
    hide Step;
    var t := Step(s, a);
    assert [a, b][1..] == [b] && [b][1..] == [];
    assert StepAll(t, [b]) == StepAll(Step(t, b), []) == Step(t, b);
  }

  lemma Three(s: System, a: Event, b: Event, c: Event)
    ensures StepAll(s, [a, b, c]) == Step(Step(Step(s, a), b), c)
  {
    hide Step;
    assert [a, b, c][1..] == [b, c];
    Two(Step(s, a), b, c);
  }

  // ----- a client or a worker that is not disturbed -----

  /** The check of an idle client lets it go on exactly when the service would accept the request: the job exists and is
      not being processed. Otherwise, and for a client that is busy, nothing changes. */
  lemma CheckIff(s: System, c: nat, id: JobId)
    ensures Step(s, Check(c, id)) != s <==> s.Client(c).Idle? && id in s.jobs && s.jobs[id].status != Processing
    ensures Step(s, Check(c, id)) == s || Step(s, Check(c, id)) == s.WithClient(c, Starting(id))
  {
    if Accepts(s, c, id) {
      assert Step(s, Check(c, id)).Client(c) == Starting(id);
    }
  }

  /** A client takes one request after the other: an idle one begins an upload or a start, and one in the middle of a
      request only goes on with it. Every other event of a client changes nothing. */
  lemma OneRequestAtATime(s: System, e: Event)
    requires e.ByClient() && Step(s, e) != s
    ensures var next := Step(s, e).Client(e.c);
            match s.Client(e.c)
            case Idle => (e.Create? && next == Uploading(e.id)) || (e.Check? && next == Starting(e.id))
            case Uploading(_) => (e.Saved? || e.TooLarge? || e.Abandon?) && next == Idle
            case Starting(id) => e.MarkQueued? && next == Enqueuing(id)
            case Enqueuing(_) => e.Enqueue? && next == Idle
  {
    hide NewJob, Requeued, Broken;
  }

  /** The undisturbed steps of a start request do to table and queue what one call of the service does: they queue the
      job again, or leave everything as it is when the job does not exist or is being processed. */
  lemma StartAlone(s: System, c: nat, id: JobId)
    requires s.Client(c).Idle?
    ensures var t := StepAll(s, [Check(c, id), MarkQueued(c), Enqueue(c)]);
            if id in s.jobs && s.jobs[id].status != Processing then
              t.jobs == AfterStart(s.jobs, id) && t.queue == s.queue + [id] && t.workers == s.workers && t.Client(c) == Idle
            else t == s
  {
    Three(s, Check(c, id), MarkQueued(c), Enqueue(c));
  }

  lemma Creates(s: System, c: nat, id: JobId, filename: string, now: nat)
    requires s.Client(c).Idle? && id !in s.jobs && filename != ""
    ensures Step(s, Create(c, id, filename, now)) == s.WithJob(id, NewJob(filename, now)).WithClient(c, Uploading(id))
  {
    hide NewJob;
  }

  lemma Saves(s: System, c: nat, id: JobId, path: string)
    requires s.Client(c) == Uploading(id) && id in s.jobs
    ensures Step(s, Saved(c, path)) == s.WithJob(id, s.jobs[id].(inputPath := path)).WithClient(c, Idle)
  {
  }

  lemma Rejects(s: System, c: nat, id: JobId, now: nat, message: string)
    requires s.Client(c) == Uploading(id) && id in s.jobs
    ensures Step(s, TooLarge(c, now, message)) == s.WithJob(id, Broken(s.jobs[id], now, message)).WithClient(c, Idle)
  {
    hide Broken;
  }

  lemma Abandons(s: System, c: nat, id: JobId)
    requires s.Client(c) == Uploading(id)
    ensures Step(s, Abandon(c)) == s.WithClient(c, Idle)
  {
  }

  /** How an upload ends, depending on what the storage does. */
  function UploadEnd(c: nat, later: nat, saved: SaveOutcome): Event {
    match saved
    case Stored(path) => Saved(c, path)
    case Oversized(message) => TooLarge(c, later, message)
    case Unavailable(_) => Abandon(c)
  }

  lemma NothingUploaded(s: System, c: nat, id: JobId, now: nat, last: Event)
    requires s.Client(c).Idle? && (last.Saved? || last.TooLarge? || last.Abandon?) && last.c == c
    ensures StepAll(s, [Create(c, id, "", now), last]) == s
  {
    Two(s, Create(c, id, "", now), last);
  }

  /** The undisturbed steps of an upload do to the table what one call of the service does; without a file name that is
      nothing. */
  lemma UploadAlone(s: System, c: nat, id: JobId, filename: string, now: nat, later: nat, saved: SaveOutcome)
    requires s.Client(c).Idle? && id !in s.jobs
    ensures var t := StepAll(s, [Create(c, id, filename, now), UploadEnd(c, later, saved)]);
            if filename != "" then
              t.jobs == s.jobs[id := AfterUpload(filename, now, later, saved)]
              && t.queue == s.queue && t.workers == s.workers && t.Client(c) == Idle
            else t == s
  {
    hide Step, NewJob, Broken;
    if filename == "" {
      NothingUploaded(s, c, id, now, UploadEnd(c, later, saved));
    } else {
      Two(s, Create(c, id, filename, now), UploadEnd(c, later, saved));
      Creates(s, c, id, filename, now);
      var t := Step(s, Create(c, id, filename, now));
      match saved
      case Stored(path) => Saves(t, c, id, path);
      case Oversized(message) => Rejects(t, c, id, later, message);
      case Unavailable(_) => Abandons(t, c, id);
    }
  }

  /** Every report with the percentage that the repository's rounding makes of it. */
  function ReportEvents(round: Rounding, w: nat, reports: seq<(nat, int)>): (events: seq<Event>)
    ensures |events| == |reports|
  {
    seq(|reports|, k requires 0 <= k < |reports| =>
      Report(w, reports[k].0, reports[k].1, Percentage(round, reports[k].0, reports[k].1)))
  }

  lemma ReportOne(s: System, w: nat, processed: int, declared: int, shown: real)
    requires w in s.workers && s.workers[w].Running? && s.workers[w].id in s.jobs
    requires ShowsPercentage(processed, declared, shown)
    ensures var id := s.workers[w].id;
            StepAll(s, [Report(w, processed, declared, shown)])
            == s.WithJob(id, Progressed(s.jobs[id], processed, declared, shown))
  {
    hide ShowsPercentage;
    var e := Report(w, processed, declared, shown);
    var t := Step(s, e);
    assert [e][1..] == [];
    assert StepAll(t, []) == t;
  }

  lemma {:induction false} ReportsAlone(round: Rounding, s: System, w: nat, reports: seq<(nat, int)>)
    requires w in s.workers && s.workers[w].Running? && s.workers[w].id in s.jobs
    ensures var id := s.workers[w].id;
            StepAll(s, ReportEvents(round, w, reports)) == s.WithJob(id, ProgressedAll(round, s.jobs[id], reports))
  {
    hide Step, Progressed, Percentage;
    var id := s.workers[w].id;
    if reports == [] {
      assert s.jobs[id := s.jobs[id]] == s.jobs;
    } else {
      var n := |reports| - 1;
      var init := reports[..n];
      var (processed, declared) := reports[n];
      var shown := Percentage(round, processed, declared);
      ReportsAlone(round, s, w, init);
      assert ReportEvents(round, w, reports) == ReportEvents(round, w, init) + [Report(w, processed, declared, shown)];
      StepAllConcat(s, ReportEvents(round, w, init), [Report(w, processed, declared, shown)]);
      ReportOne(s.WithJob(id, ProgressedAll(round, s.jobs[id], init)), w, processed, declared, shown);
    }
  }

  /** The steps of a worker that has taken a job and works on it alone. */
  function RunEvents(round: Rounding, w: nat, startedAt: nat, endedAt: nat, outcome: Outcome): seq<Event> {
    [Load(w), MarkProcessing(w, startedAt)] + (ReportEvents(round, w, outcome.progress) + [LastEvent(w, endedAt, outcome)])
  }

  function LastEvent(w: nat, endedAt: nat, outcome: Outcome): Event {
    match outcome
    case Completed(_, result) => Complete(w, endedAt, result)
    case Raised(_, message) => Fail(w, endedAt, message)
  }

  lemma BeginAlone(s: System, w: nat, startedAt: nat)
    requires w in s.workers && s.workers[w].Taken? && s.workers[w].id in s.jobs
    ensures var id := s.workers[w].id;
            StepAll(s, [Load(w), MarkProcessing(w, startedAt)])
            == s.WithJob(id, Started(s.jobs[id], startedAt)).WithWorker(w, Running(id, s.jobs[id].inputPath))
  {
    Two(s, Load(w), MarkProcessing(w, startedAt));
    var id := s.workers[w].id;
    assert s.workers[w := Loaded(id, s.jobs[id].inputPath)][w := Running(id, s.jobs[id].inputPath)]
        == s.workers[w := Running(id, s.jobs[id].inputPath)];
  }

  lemma EndAlone(s: System, w: nat, endedAt: nat, outcome: Outcome)
    requires w in s.workers && s.workers[w].Running? && s.workers[w].id in s.jobs
    requires outcome.Completed? ==> s.workers[w].inputPath != ""
    ensures var id := s.workers[w].id;
            var t := StepAll(s, [LastEvent(w, endedAt, outcome)]);
            && t.workers == s.workers[w := Waiting]
            && t.jobs == s.jobs[id := match outcome
                                      case Completed(_, result) => Finished(s.jobs[id], endedAt, OutputPathFor(id), result)
                                      case Raised(_, message) => Broken(s.jobs[id], endedAt, message)]
  {
    hide OutputPathFor;
    var e := LastEvent(w, endedAt, outcome);
    assert [e][1..] == [] && StepAll(Step(s, e), []) == Step(s, e);
  }

  /** The worker's steps, when nobody interferes, do to the table what one call of the runner does. */
  lemma RunAlone(round: Rounding, s: System, w: nat, startedAt: nat, endedAt: nat, outcome: Outcome)
    requires w in s.workers && s.workers[w].Taken? && s.workers[w].id in s.jobs
    requires outcome.Completed? ==> s.jobs[s.workers[w].id].inputPath != ""
    ensures var id := s.workers[w].id;
            var t := StepAll(s, RunEvents(round, w, startedAt, endedAt, outcome));
            && t.jobs == s.jobs[id := AfterRun(round, s.jobs[id], id, startedAt, endedAt, outcome)]
            && t.workers == s.workers[w := Waiting]
  {
    hide OutputPathFor, ProgressedAll, ReportEvents, Step, StepAll, LastEvent, Finished, Broken, Started;
    var id := s.workers[w].id;
    var reports, end := ReportEvents(round, w, outcome.progress), LastEvent(w, endedAt, outcome);
    StepAllConcat(s, [Load(w), MarkProcessing(w, startedAt)], reports + [end]);
    BeginAlone(s, w, startedAt);
    var running := s.WithJob(id, Started(s.jobs[id], startedAt)).WithWorker(w, Running(id, s.jobs[id].inputPath));
    StepAllConcat(running, reports, [end]);
    ReportsAlone(round, running, w, outcome.progress);
    EndAlone(running.WithJob(id, ProgressedAll(round, running.jobs[id], outcome.progress)), w, endedAt, outcome);
  }
}
