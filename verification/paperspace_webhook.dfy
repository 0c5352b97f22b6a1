/** The Paperspace job webhook of the web app: which bodies are refused, and
    the update each status makes to the processing job it names. The
    database is a map from job id to job; the current instant is a
    parameter. */
module PaperspaceWebhook {
  import opened Wrappers

  /** A `processingJob` row, with the columns the webhook reads or writes;
      instants are milliseconds. */
  datatype Job = Job(
    id: string,
    status: string,
    progress: real,
    startedAt: Option<int>,
    completedAt: Option<int>,
    outputS3Key: Option<string>,
    errorMessage: Option<string>)

  /** A JSON value in a field of the body; `Absent` is a missing field and
      `Composite` an object or an array. */
  datatype Value = Absent | Null | Bool(b: bool) | Num(x: real) | Str(s: string) | Composite

  /** JavaScript truthiness of a JSON value: `true`, a non-zero number, a
      non-empty string, an object or an array. */
  predicate IsTruthy(v: Value)
  {
    match v
    case Bool(b) => b
    case Num(x) => x != 0.0
    case Str(s) => s != ""
    case Composite => true
    case _ => false
  }

  /** The fields of a parsed body. `status` and `progress` are any JSON
      value; a missing, `null` or non-string `jobId`, `error` or
      `outputS3Key` is `None`. */
  datatype Body = Body(
    jobId: Option<string>,
    status: Value,
    progress: Value,
    error: Option<string>,
    outputS3Key: Option<string>)

  /** The reply: an error with its status code and message, or
      `{ ok: true }`. */
  datatype Reply = JsonError(code: int, message: string) | Acknowledged

  /** JavaScript truthiness of a text field: present and not empty. */
  predicate Truthy(s: Option<string>)
  {
    s.Some? && s.value != ""
  }

  /** `Math.max(0, Math.min(100, p))`. */
  function Clamp(p: real): (r: real)
    ensures 0.0 <= r <= 100.0
    ensures 0.0 <= p <= 100.0 ==> r == p
    ensures p < 0.0 ==> r == 0.0
    ensures p > 100.0 ==> r == 100.0
  {
    if p < 0.0 then 0.0 else if p > 100.0 then 100.0 else p
  }

  /** The update of a "processing" body. */
  function Processing(job: Job, progress: Value, now: int): Job
  {
    job.(status := "processing",
         progress := if progress.Num? then Clamp(progress.x) else job.progress,
         startedAt := if job.startedAt.Some? then job.startedAt else Some(now))
  }

  /** The update of a "succeeded" body. */
  function Succeeded(job: Job, outputS3Key: Option<string>, now: int): Job
  {
    job.(status := "completed",
         progress := 100.0,
         completedAt := Some(now),
         outputS3Key := if outputS3Key.Some? then outputS3Key else job.outputS3Key,
         errorMessage := None)
  }

  /** The update of any other status. */
  function Failed(job: Job, error: Option<string>, now: int): Job
  {
    job.(status := "failed",
         completedAt := Some(now),
         errorMessage := Some(if error.Some? then error.value else "Paperspace job failed"))
  }

  /** The job as the update for `status` leaves it; the status is compared
      with `===`, so only the two strings select their updates. */
  function Apply(job: Job, status: Value, b: Body, now: int): Job
  {
    if status == Str("processing") then Processing(job, b.progress, now)
    else if status == Str("succeeded") then Succeeded(job, b.outputS3Key, now)
    else Failed(job, b.error, now)
  }

  /** `POST`: `body` is `None` where the request is not JSON. */
  function HandleWebhook(body: Option<Body>, jobs: map<string, Job>, now: int): (Reply, map<string, Job>)
  {
    if body.None? || !Truthy(body.value.jobId) || !IsTruthy(body.value.status) then
      (JsonError(400, "Missing jobId/status"), jobs)
    else
      var b := body.value;
      var id := b.jobId.value;
      if id !in jobs then (JsonError(404, "Unknown jobId"), jobs)
      else (Acknowledged, jobs[id := Apply(jobs[id], b.status, b, now)])
  }

  // ---------------------------------------------------------- properties

  /** A body without a job id or status is refused with 400, and one naming
      an unknown job with 404; neither changes any job. Every other body is
      answered `{ ok: true }` and changes the named job alone. */
  lemma WebhookOutcome(body: Option<Body>, jobs: map<string, Job>, now: int)
    ensures var (reply, after) := HandleWebhook(body, jobs, now);
      (reply == JsonError(400, "Missing jobId/status") <==>
        body.None? || !Truthy(body.value.jobId) || !IsTruthy(body.value.status)) &&
      (reply == JsonError(404, "Unknown jobId") <==>
        body.Some? && Truthy(body.value.jobId) && IsTruthy(body.value.status) && body.value.jobId.value !in jobs) &&
      (reply.JsonError? ==> after == jobs) &&
      (reply == Acknowledged ==>
        var id := body.value.jobId.value;
        id in jobs && after.Keys == jobs.Keys &&
        after[id] == Apply(jobs[id], body.value.status, body.value, now) &&
        forall other :: other in jobs && other != id ==> after[other] == jobs[other])
  {
  }

  /** "processing" sets that status, clamps a numeric progress into
      [0, 100] and keeps the old one otherwise, sets `startedAt` only when it
      was unset, and touches nothing else. */
  lemma ProcessingEffect(job: Job, b: Body, now: int)
    ensures var j := Apply(job, Str("processing"), b, now);
      j.status == "processing" &&
      (b.progress.Num? ==> j.progress == Clamp(b.progress.x) && 0.0 <= j.progress <= 100.0) &&
      (!b.progress.Num? ==> j.progress == job.progress) &&
      (job.startedAt.Some? ==> j.startedAt == job.startedAt) &&
      (job.startedAt.None? ==> j.startedAt == Some(now)) &&
      j.id == job.id && j.completedAt == job.completedAt &&
      j.outputS3Key == job.outputS3Key && j.errorMessage == job.errorMessage
  {
  }

  /** "succeeded" completes the job at full progress and clears its error;
      the output key changes only when the body supplies one. */
  lemma SucceededEffect(job: Job, b: Body, now: int)
    ensures var j := Apply(job, Str("succeeded"), b, now);
      j.status == "completed" && j.progress == 100.0 && j.errorMessage.None? &&
      j.completedAt == Some(now) && j.startedAt == job.startedAt && j.id == job.id &&
      (b.outputS3Key.Some? ==> j.outputS3Key == b.outputS3Key) &&
      (b.outputS3Key.None? ==> j.outputS3Key == job.outputS3Key)
  {
  }

  /** Any other status fails the job with the body's error, or "Paperspace
      job failed" when there is none; progress, start and output are left
      alone. */
  lemma FailedEffect(job: Job, status: Value, b: Body, now: int)
    requires status != Str("processing") && status != Str("succeeded")
    ensures var j := Apply(job, status, b, now);
      j.status == "failed" && j.completedAt == Some(now) &&
      j.errorMessage == Some(if b.error.Some? then b.error.value else "Paperspace job failed") &&
      j.progress == job.progress && j.startedAt == job.startedAt &&
      j.outputS3Key == job.outputS3Key && j.id == job.id
  {
  }

  /** A truthy status that is not a string, such as `1` or `true`, passes
      the 400 guard, selects neither update by `===`, and so fails the job
      it names with `{ ok: true }`. */
  lemma NonStringStatusFails(body: Body, jobs: map<string, Job>, now: int)
    requires Truthy(body.jobId) && body.jobId.value in jobs
    requires IsTruthy(body.status) && !body.status.Str?
    ensures var (reply, after) := HandleWebhook(Some(body), jobs, now);
      reply == Acknowledged && after[body.jobId.value].status == "failed" &&
      after[body.jobId.value].completedAt == Some(now)
  {
  }

  /** The job's current status is never consulted: two jobs that differ
      only in status come out the same, so a completed or failed job goes
      back to processing. */
  lemma StatusNotConsulted(job: Job, s1: string, s2: string, status: Value, b: Body, now: int)
    ensures Apply(job.(status := s1), status, b, now) == Apply(job.(status := s2), status, b, now)
    ensures Apply(job.(status := "completed"), Str("processing"), b, now).status == "processing"
    ensures Apply(job.(status := "failed"), Str("processing"), b, now).status == "processing"
  {
  }

  /** A replayed "processing" body changes nothing more. */
  lemma ProcessingReplay(job: Job, b: Body, t1: int, t2: int)
    ensures Apply(Apply(job, Str("processing"), b, t1), Str("processing"), b, t2) == Apply(job, Str("processing"), b, t1)
  {
    var once := Apply(job, Str("processing"), b, t1);
    if b.progress.Num? {
      ClampIdempotent(b.progress.x);
    }
    assert once.startedAt.Some?;
  }

  lemma ClampIdempotent(p: real)
    ensures Clamp(Clamp(p)) == Clamp(p)
  {
  }

  /** A replayed "succeeded" body only moves `completedAt` to the replay's
      instant. */
  lemma SucceededReplay(job: Job, b: Body, t1: int, t2: int)
    ensures Apply(Apply(job, Str("succeeded"), b, t1), Str("succeeded"), b, t2) ==
      Apply(job, Str("succeeded"), b, t1).(completedAt := Some(t2))
  {
  }
}
