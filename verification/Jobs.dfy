/** The job table: each repository call is one atomic change of one row. The service and the runner are the
    sequences of such calls that one request and one worker make. */
module Jobs {
  import opened Seqs
  import opened Monitoring
  import opened VideoProcessor

  type JobId = nat

  datatype Status = Queued | Processing | Done | Failed

  datatype Job = Job(
    status: Status,
    error: Option<string>,
    originalFilename: string,
    inputPath: string,
    outputPath: Option<string>,
    createdAt: nat,
    startedAt: Option<nat>,
    finishedAt: Option<nat>,
    totalFrames: Option<int>,
    processedFrames: int,
    fps: Option<real>,
    bagCount: nat,
    progressPct: real,
    anomalies: seq<Anomaly>
  )

  type Table = map<JobId, Job>

  datatype Result<+T> =
    | Ok(value: T)
    | NotFound
    | AlreadyProcessing
    | NotReady
    | InvalidUpload
    | UploadTooLarge(message: string)
    | StorageError(message: string)

  /** What the storage does with an uploaded file: keeps it, finds it too large, or fails. */
  datatype SaveOutcome = Stored(path: string) | Oversized(message: string) | Unavailable(message: string)

  /** What processing a video amounts to for the job table: the reports made on the way, and how it ends. */
  datatype Outcome =
    | Completed(progress: seq<(nat, int)>, result: ProcessingResult)
    | Raised(progress: seq<(nat, int)>, message: string)

  function NewJob(filename: string, now: nat): Job {
    Job(Queued, None, filename, "", None, now, None, None, None, 0, None, 0, 0.0, [])
  }

  /** `shown` is a tenth nearest to `x`; at a tie there are two. */
  predicate NearestTenth(x: real, shown: real) {
    (10.0 * shown).Floor as real == 10.0 * shown && -0.05 <= shown - x <= 0.05
  }

  ghost predicate Rounds(round: real -> real) { forall x :: NearestTenth(x, round(x)) }

  /** Rounding to one decimal. The program rounds binary fractions, so which way a decimal tie goes is not said here:
      any function to a nearest tenth will do. */
  type Rounding = round: real -> real | Rounds(round) ghost witness HalfUp()

  function RoundHalfUp(x: real): real { (10.0 * x + 0.5).Floor as real / 10.0 }

  lemma HalfUpIsNearest(x: real)
    ensures NearestTenth(x, RoundHalfUp(x))
  {
    var low := (10.0 * x + 0.5).Floor;
    assert low as real <= 10.0 * x + 0.5 < low as real + 1.0;
    assert 10.0 * RoundHalfUp(x) == low as real;
  }

  ghost function HalfUp(): (round: real -> real)
    ensures Rounds(round)
  {
    var round: real -> real := x => RoundHalfUp(x);
    assert Rounds(round) by {
      forall x
        ensures NearestTenth(x, round(x))
      {
        HalfUpIsNearest(x);
      }
    }
    round
  }

  /** What a report of `processed` of `total` frames may show. */
  predicate ShowsPercentage(processed: int, total: int, shown: real) {
    if total == 0 then shown == 0.0 else NearestTenth(100.0 * processed as real / total as real, shown)
  }

  function Percentage(round: Rounding, processed: int, total: int): (shown: real)
    ensures ShowsPercentage(processed, total, shown)
  {
    if total == 0 then 0.0 else round(100.0 * processed as real / total as real)
  }

  // ----- one row -----

  function Started(j: Job, now: nat): Job { j.(status := Processing, startedAt := Some(now)) }

  function Requeued(j: Job): Job { j.(status := Queued, error := None) }

  function Progressed(j: Job, processed: int, total: int, shown: real): Job {
    j.(processedFrames := processed, totalFrames := Some(total), progressPct := shown)
  }

  function Finished(j: Job, now: nat, path: string, result: ProcessingResult): Job {
    j.(status := Done, finishedAt := Some(now), outputPath := Some(path), bagCount := result.bagCount,
       anomalies := result.anomalies, totalFrames := Some(result.totalFrames), processedFrames := result.totalFrames,
       fps := Some(result.fps), progressPct := 100.0)
  }

  function Broken(j: Job, now: nat, message: string): Job {
    j.(status := Failed, error := Some(message), finishedAt := Some(now))
  }

  function Digit(d: nat): char
    requires d < 10
  {
    "0123456789"[d]
  }

  function Digits(n: nat): string {
    if n < 10 then [Digit(n)] else Digits(n / 10) + [Digit(n % 10)]
  }

  /** Where the result of a job is written: never empty. */
  function OutputPathFor(id: JobId): (path: string)
    ensures path != ""
  {
    Digits(id) + "_processed.mp4"
  }

  /** The number that a string of decimal digits denotes. */
  function Numeral(s: string): int {
    if s == "" then 0 else 10 * Numeral(s[..|s| - 1]) + (s[|s| - 1] as int - '0' as int)
  }

  lemma DigitIs(d: nat)
    requires d < 10
    ensures Digit(d) as int - '0' as int == d
  {
  }

  lemma NumeralAppend(s: string, c: char)
    ensures Numeral(s + [c]) == 10 * Numeral(s) + (c as int - '0' as int)
  {
    assert (s + [c])[..|s|] == s;
  }

  lemma {:induction false} DigitsDenote(n: nat)
    ensures Numeral(Digits(n)) == n
  {
    hide Digit, Numeral;
    DigitIs(n % 10);
    if n < 10 {
      NumeralAppend("", Digit(n));
      assert "" + [Digit(n)] == [Digit(n)];
      assert Numeral("") == 0 by { NumeralOfNothing(); }
    } else {
      DigitsDenote(n / 10);
      NumeralAppend(Digits(n / 10), Digit(n % 10));
    }
  }

  lemma NumeralOfNothing()
    ensures Numeral("") == 0
  {
  }

  /** The name of a result file is the job's id in decimal digits, followed by a fixed ending. So no two jobs write to the
      same file. */
  lemma OutputPathsApart(a: JobId, b: JobId)
    ensures exists digits :: OutputPathFor(a) == digits + "_processed.mp4" && Numeral(digits) == a
    ensures a != b ==> OutputPathFor(a) != OutputPathFor(b)
  {
    hide Digits;
    DigitsDenote(a);
    DigitsDenote(b);
    assert OutputPathFor(a) == Digits(a) + "_processed.mp4";
    var p, q, n := OutputPathFor(a), OutputPathFor(b), |"_processed.mp4"|;
    assert p[..|p| - n] == Digits(a) && q[..|q| - n] == Digits(b);
  }

  class JobRepository {
    const round: Rounding
    var jobs: Table

    constructor (round: Rounding)
      ensures this.round == round && jobs == map[]
    {
      this.round, jobs := round, map[];
    }

    method Get(id: JobId) returns (job: Option<Job>)
      ensures job == if id in jobs then Some(jobs[id]) else None
    {
      if id in jobs {
        job := Some(jobs[id]);
      } else {
        job := None;
      }
    }

    /** Ids are random and not reused: the new id is one that is not in the table. */
    method Create(id: JobId, filename: string, now: nat)
      requires id !in jobs
      modifies this
      ensures id in jobs && jobs == old(jobs)[id := NewJob(filename, now)]
      ensures jobs[id].status == Queued && jobs[id].originalFilename == filename && jobs[id].createdAt == now
      ensures jobs[id].inputPath == "" && jobs[id].error.None? && jobs[id].outputPath.None? && jobs[id].anomalies == []
      ensures jobs[id].startedAt.None? && jobs[id].finishedAt.None? && jobs[id].totalFrames.None? && jobs[id].fps.None?
      ensures jobs[id].processedFrames == 0 && jobs[id].bagCount == 0 && jobs[id].progressPct == 0.0
    {
      jobs := jobs[id := NewJob(filename, now)];
    }

    method SetInputPath(id: JobId, path: string) returns (r: Result<Job>)
      modifies this
      ensures id !in old(jobs) ==> r == NotFound && jobs == old(jobs)
      ensures id in old(jobs) ==> jobs == old(jobs)[id := old(jobs)[id].(inputPath := path)] && r == Ok(jobs[id])
    {
      if id !in jobs {
        return NotFound;
      }
      var job := jobs[id];
      jobs := jobs[id := job.(inputPath := path)];
      r := Ok(jobs[id]);
    }

    method MarkQueued(id: JobId) returns (r: Result<Job>)
      modifies this
      ensures id !in old(jobs) ==> r == NotFound && jobs == old(jobs)
      ensures id in old(jobs) ==> jobs == old(jobs)[id := old(jobs)[id].(status := Queued, error := None)] && r == Ok(jobs[id])
    {
      if id !in jobs {
        return NotFound;
      }
      var job := jobs[id];
      job := job.(status := Queued);
      job := job.(error := None);
      jobs := jobs[id := job];
      r := Ok(job);
    }

    method MarkProcessing(id: JobId, now: nat) returns (r: Result<()>)
      modifies this
      ensures id !in old(jobs) ==> r == NotFound && jobs == old(jobs)
      ensures id in old(jobs) ==>
                jobs == old(jobs)[id := old(jobs)[id].(status := Processing, startedAt := Some(now))] && r == Ok(())
    {
      if id !in jobs {
        return NotFound;
      }
      var job := jobs[id];
      job := job.(status := Processing);
      job := job.(startedAt := Some(now));
      jobs := jobs[id := job];
      r := Ok(());
    }

    method UpdateProgress(id: JobId, processedFrames: int, totalFrames: int)
      modifies this
      ensures jobs == if id in old(jobs)
                      then old(jobs)[id := old(jobs)[id].(processedFrames := processedFrames, totalFrames := Some(totalFrames),
                                                          progressPct := Percentage(round, processedFrames, totalFrames))]
                      else old(jobs)
    {
      if id !in jobs {
        return;
      }
      var job := jobs[id];
      job := job.(processedFrames := processedFrames);
      job := job.(totalFrames := Some(totalFrames));
      var shown := if totalFrames != 0 then round(100.0 * processedFrames as real / totalFrames as real) else 0.0;
      job := job.(progressPct := shown);
      jobs := jobs[id := job];
    }

    method MarkDone(id: JobId, now: nat, outputPath: string, bagCount: nat, anomalies: seq<Anomaly>, totalFrames: nat, fps: real)
      modifies this
      ensures jobs == if id in old(jobs)
                      then old(jobs)[id := old(jobs)[id].(
                             status := Done, finishedAt := Some(now), outputPath := Some(outputPath), bagCount := bagCount,
                             anomalies := anomalies, totalFrames := Some(totalFrames), processedFrames := totalFrames,
                             fps := Some(fps), progressPct := 100.0)]
                      else old(jobs)
    {
      if id !in jobs {
        return;
      }
      var job := jobs[id];
      job := job.(status := Done);
      job := job.(finishedAt := Some(now));
      job := job.(outputPath := Some(outputPath));
      job := job.(bagCount := bagCount);
      job := job.(anomalies := anomalies);
      job := job.(totalFrames := Some(totalFrames));
      job := job.(processedFrames := totalFrames);
      job := job.(fps := Some(fps));
      job := job.(progressPct := 100.0);
      jobs := jobs[id := job];
    }

    method MarkFailed(id: JobId, now: nat, error: string)
      modifies this
      ensures jobs == if id in old(jobs)
                      then old(jobs)[id := old(jobs)[id].(status := Failed, error := Some(error), finishedAt := Some(now))]
                      else old(jobs)
    {
      if id !in jobs {
        return;
      }
      var job := jobs[id];
      job := job.(status := Failed, error := Some(error), finishedAt := Some(now));
      jobs := jobs[id := job];
    }
  }

  // ----- one worker run, undisturbed -----

  function ProgressedAll(round: Rounding, j: Job, reports: seq<(nat, int)>): Job {
    if reports == [] then j
    else
      var (processed, total) := reports[|reports| - 1];
      Progressed(ProgressedAll(round, j, reports[..|reports| - 1]), processed, total, Percentage(round, processed, total))
  }

  /** The row of a job after a whole run on it. */
  function AfterRun(round: Rounding, j: Job, id: JobId, startedAt: nat, endedAt: nat, outcome: Outcome): Job {
    var working := ProgressedAll(round, Started(j, startedAt), outcome.progress);
    match outcome
    case Completed(_, result) => Finished(working, endedAt, OutputPathFor(id), result)
    case Raised(_, message) => Broken(working, endedAt, message)
  }

  class JobRunner {
    const repository: JobRepository

    constructor (repository: JobRepository)
      ensures this.repository == repository
    {
      this.repository := repository;
    }

    method ReportProgress(id: JobId, reports: seq<(nat, int)>)
      requires id in repository.jobs
      modifies repository
      ensures repository.jobs == old(repository.jobs)[id := ProgressedAll(repository.round, old(repository.jobs)[id], reports)]
    {
      ghost var before := repository.jobs;
      for k := 0 to |reports|
        invariant repository.jobs == before[id := ProgressedAll(repository.round, before[id], reports[..k])]
      {
        assert reports[..k + 1][..k] == reports[..k];
        repository.UpdateProgress(id, reports[k].0, reports[k].1);
      }
      FullPrefix(reports);
    }

    /** `outcome` is what the video pipeline does with the job; `startedAt` and `endedAt` are clock readings. */
    method Run(id: JobId, startedAt: nat, endedAt: nat, outcome: Outcome)
      modifies repository
      ensures repository.jobs
           == if id in old(repository.jobs)
              then old(repository.jobs)[id := AfterRun(repository.round, old(repository.jobs)[id], id, startedAt, endedAt, outcome)]
              else old(repository.jobs)
    {
      var job := repository.Get(id);
      if job.None? {
        return;
      }
      var marked := repository.MarkProcessing(id, startedAt);
      var outPath := OutputPathFor(id);
      ReportProgress(id, outcome.progress);
      match outcome {
        case Completed(_, result) =>
          repository.MarkDone(id, endedAt, outPath, result.bagCount, result.anomalies, result.totalFrames, result.fps);
        case Raised(_, message) =>
          repository.MarkFailed(id, endedAt, message);
      }
    }
  }

  // ----- the service -----

  /** The row that an upload leaves. */
  function AfterUpload(filename: string, now: nat, later: nat, saved: SaveOutcome): Job {
    match saved
    case Stored(path) => NewJob(filename, now).(inputPath := path)
    case Oversized(message) => Broken(NewJob(filename, now), later, message)
    case Unavailable(_) => NewJob(filename, now)
  }

  /** The table after an accepted start request. */
  function AfterStart(jobs: Table, id: JobId): Table
    requires id in jobs
  {
    jobs[id := Requeued(jobs[id])]
  }

  class VideoService {
    const repository: JobRepository
    var queue: seq<JobId>

    constructor (repository: JobRepository)
      ensures this.repository == repository && queue == []
    {
      this.repository := repository;
      queue := [];
    }

    /** `now` and `later` are clock readings. The row of a file that was not stored stays: marked as failed when the
        file was too large, and as it was created when the storage failed in another way. */
    method Upload(id: JobId, filename: string, now: nat, later: nat, saved: SaveOutcome) returns (r: Result<Job>)
      requires id !in repository.jobs
      modifies repository
      ensures filename == "" ==> r == InvalidUpload && repository.jobs == old(repository.jobs)
      ensures filename != "" ==> repository.jobs == old(repository.jobs)[id := AfterUpload(filename, now, later, saved)]
      ensures filename != "" ==>
                r == match saved
                     case Stored(_) => Ok(repository.jobs[id])
                     case Oversized(message) => UploadTooLarge(message)
                     case Unavailable(message) => StorageError(message)
    {
      if filename == "" {
        return InvalidUpload;
      }
      repository.Create(id, filename, now);
      match saved {
        case Stored(path) =>
          r := repository.SetInputPath(id, path);
        case Oversized(message) =>
          repository.MarkFailed(id, later, message);
          return UploadTooLarge(message);
        case Unavailable(message) =>
          return StorageError(message);
      }
    }

    method StartProcessing(id: JobId) returns (r: Result<Job>)
      modifies this, repository
      ensures id !in old(repository.jobs) ==> r == NotFound
      ensures id in old(repository.jobs) && old(repository.jobs)[id].status == Processing ==> r == AlreadyProcessing
      ensures id in old(repository.jobs) && old(repository.jobs)[id].status != Processing ==>
                repository.jobs == old(repository.jobs)[id := old(repository.jobs)[id].(status := Queued, error := None)]
                && queue == old(queue) + [id] && r == Ok(repository.jobs[id])
      ensures r.Ok? || (queue == old(queue) && repository.jobs == old(repository.jobs))
    {
      var job := repository.Get(id);
      if job.None? {
        return NotFound;
      }
      if job.value.status == Processing {
        return AlreadyProcessing;
      }
      r := repository.MarkQueued(id);
      queue := queue + [id];
    }

    method GetResultPath(id: JobId) returns (r: Result<string>)
      ensures r == ResultPath(repository.jobs, id)
      ensures r.NotFound? <==> id !in repository.jobs
      ensures r.Ok? <==> id in repository.jobs && repository.jobs[id].status == Done
                         && repository.jobs[id].outputPath.Some? && repository.jobs[id].outputPath.value != ""
      ensures r.Ok? ==> Some(r.value) == repository.jobs[id].outputPath
      ensures r.NotFound? || r.Ok? || r.NotReady?
    {
      var job := repository.Get(id);
      if job.None? {
        return NotFound;
      }
      if job.value.status != Done || job.value.outputPath.None? || job.value.outputPath.value == "" {
        return NotReady;
      }
      r := Ok(job.value.outputPath.value);
    }
  }

  function ResultPath(jobs: Table, id: JobId): Result<string> {
    if id !in jobs then NotFound
    else
      match jobs[id].outputPath
      case Some(path) => if jobs[id].status == Done && path != "" then Ok(path) else NotReady
      case None => NotReady
  }
}
