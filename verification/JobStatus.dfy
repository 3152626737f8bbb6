/** What the status of a job tells, over all interleavings: how long `processing` lasts, and when the status column is
    exactly right. */
module JobStatus {
  import opened Jobs
  import opened Lifecycle
  import opened Races

  // ----- how long `processing` lasts -----

  predicate Says(s: System, id: JobId, status: Status) { id in s.jobs && s.jobs[id].status == status }

  /** Nobody is uploading the job's file. */
  ghost predicate UploadOver(s: System, id: JobId) {
    forall c: nat :: !(s.Client(c).Uploading? && s.Client(c).id == id)
  }

  /** No client has passed the check for the job and is about to queue it. */
  ghost predicate NobodyStarts(s: System, id: JobId) {
    forall c: nat :: !(s.Client(c).Starting? && s.Client(c).id == id)
  }

  /** The event is the last write of a worker that processes the job: it fails, or it completes a video that has a file. */
  predicate Ends(s: System, e: Event, id: JobId) {
    (e.Fail? || e.Complete?) && Runs(s, e.w, id) && (e.Complete? ==> s.Worker(e.w).inputPath != "")
  }

  /** While a row says `processing` and no client is at it, only the last write of a worker changes its status, and no
      client gets at it. */
  lemma ProcessingLeaves(s: System, e: Event, id: JobId)
    requires Says(s, id, Processing) && UploadOver(s, id) && NobodyStarts(s, id)
    ensures var t := Step(s, e);
            id in t.jobs && (Says(t, id, Processing) <==> !Ends(s, e, id)) && UploadOver(t, id) && NobodyStarts(t, id)
  {
    hide Step, ShowsPercentage, OutputPathFor;
    if e.ByClient() {
      ClientKeepsOff(s, e, id);
    } else {
      WorkerFrame(s, e);
      if s.Worker(e.w).Waiting? || s.Worker(e.w).id != id {
        WorkerRows(s, e, id);
      } else {
        OwnStep(s, e);
      }
      assert forall c: nat :: Step(s, e).Client(c) == s.Client(c);
    }
  }

  lemma ClientKeepsOff(s: System, e: Event, id: JobId)
    requires e.ByClient() && Says(s, id, Processing) && UploadOver(s, id) && NobodyStarts(s, id)
    ensures Says(Step(s, e), id, Processing) && UploadOver(Step(s, e), id) && NobodyStarts(Step(s, e), id)
  {
    hide NewJob, Requeued, Broken;
    var t := Step(s, e);
    assert s.Client(e.c).Uploading? || s.Client(e.c).Starting? ==> s.Client(e.c).id != id;
    forall c: nat
      ensures !((t.Client(c).Uploading? || t.Client(c).Starting?) && t.Client(c).id == id)
    {
      if c != e.c {
        OtherClient(s, e, c);
      }
    }
  }

  /** The row says so before, between and after the events. */
  predicate SaysThroughout(s: System, events: seq<Event>, id: JobId, status: Status)
    decreases |events|
  {
    Says(s, id, status) && (events == [] || SaysThroughout(Step(s, events[0]), events[1..], id, status))
  }

  predicate EndsSometime(s: System, events: seq<Event>, id: JobId)
    decreases |events|
  {
    events != [] && (Ends(s, events[0], id) || EndsSometime(Step(s, events[0]), events[1..], id))
  }

  /** Whatever clients and workers do from then on: the row says `processing` all the time if and only if there is no last
      write of a worker among the events. */
  lemma {:induction false} ProcessingLastsIff(s: System, events: seq<Event>, id: JobId)
    requires Says(s, id, Processing) && UploadOver(s, id) && NobodyStarts(s, id)
    ensures SaysThroughout(s, events, id, Processing) <==> !EndsSometime(s, events, id)
    decreases |events|
  {
    hide Step, Says, UploadOver, NobodyStarts, Ends;
    if events == [] {
    } else {
      ProcessingLeaves(s, events[0], id);
      if !Ends(s, events[0], id) {
        ProcessingLastsIff(Step(s, events[0]), events[1..], id);
      }
    }
  }

  // ----- when the status column is exactly right -----

  /** No start check for the job is passed while an earlier start of it is in progress or its file is being uploaded. */
  ghost predicate InTurn(k: nat, events: seq<Event>, id: JobId) {
    OneAtATime(k, events, id) && StartedAfterUpload(k, events, id)
  }

  ghost predicate StartedAfterUpload(k: nat, events: seq<Event>, id: JobId) {
    events == []
    || var init := events[..|events| - 1];
       && StartedAfterUpload(k, init, id)
       && (Starts(After(k, init), events[|events| - 1], id) ==> UploadOver(After(k, init), id))
  }

  /** A start request for the job waits at this place to be worked on. */
  predicate WaitsAt(s: System, p: Place, id: JobId) {
    Holds(s, p, id)
    && match p
       case AtClient(c) => s.Client(c).Enqueuing?
       case InQueue(_) => true
       case AtWorker(w) => !s.Worker(w).Running?
  }

  /** While a start request is in progress nobody uploads, the row of one that waits says `queued`, the row of one that is
      worked on says `processing` and has a start time, and an error is shown exactly by a failed row. */
  ghost predicate StatusRight(s: System, id: JobId) {
    && (InProgress(s, id) ==> UploadOver(s, id))
    && (forall p | WaitsAt(s, p, id) :: Says(s, id, Queued))
    && (forall w: nat | Runs(s, w, id) :: Says(s, id, Processing) && s.jobs[id].startedAt.Some?)
    && (id in s.jobs ==> (s.jobs[id].error.Some? <==> s.jobs[id].status == Failed))
  }

  lemma UploadStaysOver(s: System, e: Event, id: JobId)
    requires UploadOver(s, id) && id in s.jobs
    ensures UploadOver(Step(s, e), id)
  {
    hide NewJob, Requeued, Broken, Started, Progressed, Finished, OutputPathFor, ShowsPercentage;
    forall c: nat
      ensures !(Step(s, e).Client(c).Uploading? && Step(s, e).Client(c).id == id)
    {
      assert !(s.Client(c).Uploading? && s.Client(c).id == id);
      if !e.ByClient() {
        WorkerFrame(s, e);
      } else if c != e.c {
        OtherClient(s, e, c);
      }
    }
  }

  lemma UploadOverStep(s: System, e: Event, id: JobId)
    requires Known(s, id) && (InProgress(s, id) ==> UploadOver(s, id))
    requires Starts(s, e, id) ==> UploadOver(s, id)
    ensures InProgress(Step(s, e), id) ==> UploadOver(Step(s, e), id)
  {
    hide Step, Holds, UploadOver, Origin;
    if InProgress(Step(s, e), id) {
      if !Starts(s, e, id) {
        var p :| Holds(Step(s, e), p, id);
        ComesFrom(s, e, p, id);
      }
      UploadStaysOver(s, e, id);
    }
  }

  /** Which rows a client writes: that of its upload, and that of the request it is about to queue. */
  lemma ClientWrites(s: System, e: Event, id: JobId)
    requires e.ByClient() && id in s.jobs && s.Client(e.c) != Uploading(id)
    ensures var t := Step(s, e);
            id in t.jobs
            && t.jobs[id] == if e.MarkQueued? && s.Client(e.c) == Starting(id) then Requeued(s.jobs[id]) else s.jobs[id]
  {
    hide NewJob, Broken;
  }

  /** A request that waits after a client's step waited before, or has just been queued by that client. */
  lemma WaitedBefore(s: System, e: Event, p: Place, id: JobId)
    requires e.ByClient() && WaitsAt(Step(s, e), p, id) && !Starts(s, e, id)
    ensures WaitsAt(s, Origin(s, e, p), id) || (e.MarkQueued? && s.Client(e.c) == Starting(id) && p == AtClient(e.c))
  {
    hide NewJob, Requeued, Broken;
    ClientFrame(s, e);
    if p.AtClient? && p.c != e.c {
      OtherClient(s, e, p.c);
    }
  }

  lemma WaitedBeforeWorker(s: System, e: Event, p: Place, id: JobId)
    requires !e.ByClient() && WaitsAt(Step(s, e), p, id)
    ensures WaitsAt(s, Origin(s, e, p), id)
  {
    hide Started, Progressed, Finished, Broken, OutputPathFor, ShowsPercentage;
    WorkerFrame(s, e);
  }

  lemma ClientStatus(s: System, e: Event, id: JobId)
    requires e.ByClient() && StatusRight(s, id) && AtMostOne(s, id) && Known(s, id)
    requires Starts(s, e, id) ==> !InProgress(s, id)
    ensures forall p | WaitsAt(Step(s, e), p, id) :: Says(Step(s, e), id, Queued)
    ensures forall w: nat | Runs(Step(s, e), w, id) ::
              Says(Step(s, e), id, Processing) && Step(s, e).jobs[id].startedAt.Some?
  {
    hide Step, Origin, Starts;
    var t := Step(s, e);
    forall p | WaitsAt(t, p, id)
      ensures Says(t, id, Queued)
    {
      if Starts(s, e, id) {
        StartHolds(s, e, p, id);
        StartIsNoWait(s, e, id);
      } else {
        WaitedBefore(s, e, p, id);
        ComesFrom(s, e, p, id);
        NoUploader(s, e.c, id);
        ClientWrites(s, e, id);
      }
    }
    forall w: nat | Runs(t, w, id)
      ensures Says(t, id, Processing) && t.jobs[id].startedAt.Some?
    {
      StillRuns(s, e, w, id);
      RunsHolds(s, w, id);
      NoUploader(s, e.c, id);
      ClientWrites(s, e, id);
      assert s.Client(e.c) == Starting(id) ==> Holds(s, AtClient(e.c), id);
    }
  }

  lemma NoUploader(s: System, c: nat, id: JobId)
    requires StatusRight(s, id) && Known(s, id) && InProgress(s, id)
    ensures id in s.jobs && s.Client(c) != Uploading(id)
  {
  }

  lemma StartIsNoWait(s: System, e: Event, id: JobId)
    requires Starts(s, e, id)
    ensures !WaitsAt(Step(s, e), AtClient(e.c), id)
  {
  }

  lemma ClientErrors(s: System, e: Event, id: JobId)
    requires e.ByClient() && id in Step(s, e).jobs
    requires id in s.jobs ==> (s.jobs[id].error.Some? <==> s.jobs[id].status == Failed)
    ensures Step(s, e).jobs[id].error.Some? <==> Step(s, e).jobs[id].status == Failed
  {
  }

  lemma WorkerStatus(s: System, e: Event, id: JobId)
    requires !e.ByClient() && StatusRight(s, id) && AtMostOne(s, id) && Known(s, id)
    ensures forall p | WaitsAt(Step(s, e), p, id) :: Says(Step(s, e), id, Queued)
  {
    hide Step, Origin, ShowsPercentage, OutputPathFor;
    var t := Step(s, e);
    forall p | WaitsAt(t, p, id)
      ensures Says(t, id, Queued)
    {
      WaitedBeforeWorker(s, e, p, id);
      if s.Worker(e.w).Waiting? || s.Worker(e.w).id != id {
        WorkerRows(s, e, id);
      } else {
        assert Holds(s, AtWorker(e.w), id);
        OwnStep(s, e);
        SamePlace(s, e, p);
      }
    }
  }

  lemma SamePlace(s: System, e: Event, p: Place)
    requires !e.ByClient() && !s.Worker(e.w).Waiting?
    ensures Origin(s, e, p) == p
  {
  }

  lemma WorkerRuns(s: System, e: Event, w: nat, id: JobId)
    requires !e.ByClient() && StatusRight(s, id) && AtMostOne(s, id) && Known(s, id) && Runs(Step(s, e), w, id)
    ensures Says(Step(s, e), id, Processing) && Step(s, e).jobs[id].startedAt.Some?
  {
    hide Step, Origin, ShowsPercentage, OutputPathFor;
    WorkerFrame(s, e);
    TakenFirst(s, e);
    if s.Worker(e.w).Waiting? || s.Worker(e.w).id != id {
      WorkerRows(s, e, id);
      assert Runs(s, w, id);
    } else {
      assert Holds(s, AtWorker(e.w), id);
      OwnStep(s, e);
      if Runs(s, w, id) {
        OneHolder(s, e.w, w, id);
      } else {
        assert WaitsAt(s, AtWorker(e.w), id);
      }
    }
  }

  lemma OneHolder(s: System, v: nat, w: nat, id: JobId)
    requires AtMostOne(s, id) && Holds(s, AtWorker(v), id) && Runs(s, w, id)
    ensures v == w
  {
    RunsHolds(s, w, id);
  }

  lemma WorkerErrors(s: System, e: Event, id: JobId)
    requires !e.ByClient() && StatusRight(s, id) && AtMostOne(s, id) && Known(s, id) && id in Step(s, e).jobs
    ensures Step(s, e).jobs[id].error.Some? <==> Step(s, e).jobs[id].status == Failed
  {
    hide Step, Origin, ShowsPercentage, OutputPathFor;
    WorkerFrame(s, e);
    if s.Worker(e.w).Waiting? || s.Worker(e.w).id != id {
      WorkerRows(s, e, id);
    } else {
      OwnStep(s, e);
      if s.Worker(e.w).Running? {
        assert Runs(s, e.w, id);
      } else {
        assert WaitsAt(s, AtWorker(e.w), id);
      }
    }
  }

  lemma StatusStep(s: System, e: Event, id: JobId)
    requires StatusRight(s, id) && AtMostOne(s, id) && Known(s, id)
    requires Starts(s, e, id) ==> !InProgress(s, id) && UploadOver(s, id)
    ensures StatusRight(Step(s, e), id)
  {
    hide Step, Origin, Starts, WaitsAt, AtMostOne, UploadOver, Holds;
    var t := Step(s, e);
    UploadOverStep(s, e, id);
    if e.ByClient() {
      ClientStatus(s, e, id);
      if id in t.jobs {
        ClientErrors(s, e, id);
      }
    } else {
      WorkerStatus(s, e, id);
      forall w: nat | Runs(t, w, id)
        ensures Says(t, id, Processing) && t.jobs[id].startedAt.Some?
      {
        WorkerRuns(s, e, w, id);
      }
      if id in t.jobs {
        WorkerErrors(s, e, id);
      }
    }
  }

  lemma {:induction false} StatusIsRight(k: nat, events: seq<Event>, id: JobId)
    requires InTurn(k, events, id)
    ensures StatusRight(After(k, events), id)
  {
    hide Step, StatusRight, Starts, AtMostOne, UploadOver, InProgress;
    if events == [] {
      NoJobsYet(k, id);
    } else {
      var init := events[..|events| - 1];
      StatusIsRight(k, init, id);
      OneAtATimeNeverRaces(k, init, id);
      StatusStep(After(k, init), events[|events| - 1], id);
    }
  }

  lemma NoJobsYet(k: nat, id: JobId)
    ensures StatusRight(Init(k), id)
  {
  }

  /** For a job whose starts do not overlap, with each other or with its upload, and any number of clients and workers:
      the row says `processing` exactly while a worker processes the video, and shows an error exactly when it failed. */
  lemma StatusIffRunning(k: nat, events: seq<Event>, id: JobId)
    requires InTurn(k, events, id)
    ensures var s := After(k, events);
            && (Says(s, id, Processing) <==> SomeoneRuns(s, id))
            && (id in s.jobs ==> (s.jobs[id].error.Some? <==> s.jobs[id].status == Failed))
  {
    hide After, InTurn, UploadOver, WaitsAt, InProgress;
    StatusIsRight(k, events, id);
    ProcessingIsAlwaysReal(k, events, id);
  }
}
