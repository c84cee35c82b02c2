/** The durable import job: its row, its attempt rows, and the effect of each transaction on them. */
module Jobs {
  import opened Domain
  import opened Ledger

  /** The settings of the job protocol; durations in seconds. */
  datatype Settings =
    Settings(maxAttempts: int, retryBase: int, retryMax: int, lease: int, redispatch: int)

  predicate ValidSettings(s: Settings) {
    && 1 <= s.maxAttempts <= 10 && 1 <= s.retryBase <= 300 && 1 <= s.retryMax <= 3600
    && 30 <= s.lease <= 3600 && 10 <= s.redispatch <= 3600
  }

  type Digest = d: string | |d| == 64 witness seq(64, _ => '0')

  /** What submission fixes once and for all. */
  datatype Submission = Submission(
    supplier: Id, sourceType: SourceType, adapterVersion: string, sha: Digest, objectKey: string,
    size: nat, idempotencyKey: string, replayOf: Option<JobId>, createdAt: Time)

  /** The ways processing can fail, by the class of the exception. */
  datatype ImportError =
    | DatabaseError | TransientError | TimeoutError | ConnectionError | PermanentError | UnexpectedError

  datatype FailureCode =
    | TransientDatabaseError | TransientImportError | TransientTimeout | TransientConnectionError
    | PermanentImportError | UnexpectedImportError | WorkerLeaseExpired

  /** An error code and whether it was retryable; the two are always recorded together. */
  datatype Failure = Failure(code: FailureCode, retryable: bool)

  /** Who holds the job, and until when; set and cleared together. */
  datatype Lease = Lease(worker: string, expiresAt: Time)

  datatype Counters = Counters(total: int, accepted: int, rejected: int)

  datatype Attempt = Attempt(status: AttemptStatus, worker: string, completedAt: Option<Time>, failure: Option<Failure>)

  datatype Job = Job(
    submission: Submission, maxAttempts: int, status: ImportStatus, attemptCount: int,
    dispatchedAt: Option<Time>, completedAt: Option<Time>, nextRetryAt: Option<Time>,
    lease: Option<Lease>, failure: Option<Failure>, counters: Counters,
    errors: seq<RecordError>, attempts: map<int, Attempt>)

  function NewJob(s: Settings, submission: Submission): Job {
    Job(submission, s.maxAttempts, Queued, 0, None, None, None, None, None, Counters(0, 0, 0), [], map[])
  }

  predicate Terminal(status: ImportStatus) {
    status == Completed || status == CompletedWithErrors || status == Failed
  }

  predicate Succeeding(status: ImportStatus) {
    status == Completed || status == CompletedWithErrors
  }

  // ------------------------------------------------------------------ dispatch

  predicate DueForDispatch(s: Settings, job: Job, now: Time) {
    && job.status == Queued
    && (job.nextRetryAt.None? || job.nextRetryAt.value <= now)
    && (job.dispatchedAt.None? || job.dispatchedAt.value <= now - s.redispatch * SECOND)
  }

  function Dispatched(job: Job, now: Time): Job {
    job.(dispatchedAt := Some(now))
  }

  /** The dispatch receipt as the service writes it: only on a job it reads as queued. */
  function MarkDispatched(job: Job, now: Time): Job {
    if job.status == Queued then Dispatched(job, now) else job
  }

  // --------------------------------------------------------------------- claim

  predicate Claimable(job: Job, now: Time) {
    job.status == Queued && !(job.nextRetryAt.Some? && job.nextRetryAt.value > now)
  }

  function Claim(s: Settings, job: Job, now: Time, worker: string): Job {
    if !Claimable(job, now) then job
    else
      job.(status := Processing,
           attemptCount := job.attemptCount + 1,
           completedAt := None,
           nextRetryAt := None,
           lease := Some(Lease(worker, now + s.lease * SECOND)),
           failure := None,
           attempts := job.attempts[job.attemptCount + 1 := Attempt(Running, worker, None, None)])
  }

  /** A worker between its claim and its completion. It keeps the job as it was when claimed: the attempt it
      made, and the counters it loaded. */
  datatype InFlight = InFlight(job: JobId, attempt: int, loaded: Counters)

  function Claimed(id: JobId, job: Job): InFlight {
    InFlight(id, job.attemptCount, job.counters)
  }

  // ---------------------------------------------------------------- completion

  /** Only a column whose value differs from the loaded one is written back. */
  function WriteBack(loaded: int, computed: int, stored: int): int {
    if computed != loaded then computed else stored
  }

  /** Completion by a worker that does not look at the row again: it writes on whatever the row has become,
      and closes the attempt it claimed, which need not be the newest. */
  function Complete(job: Job, w: InFlight, o: ImportOutcome, now: Time): Job
    requires w.attempt in job.attempts
  {
    job.(status := if o.rejected == 0 then Completed else CompletedWithErrors,
         completedAt := Some(now),
         lease := None,
         counters := Counters(WriteBack(w.loaded.total, o.total, job.counters.total),
                              WriteBack(w.loaded.accepted, o.accepted, job.counters.accepted),
                              WriteBack(w.loaded.rejected, o.rejected, job.counters.rejected)),
         errors := o.errors,
         attempts := job.attempts[w.attempt := job.attempts[w.attempt].(status := Succeeded, completedAt := Some(now))])
  }

  // ------------------------------------------------------------------- failure

  function ClassifyImportFailure(e: ImportError): Failure {
    match e
    case DatabaseError => Failure(TransientDatabaseError, true)
    case TransientError => Failure(TransientImportError, true)
    case TimeoutError => Failure(TransientTimeout, true)
    case ConnectionError => Failure(TransientConnectionError, true)
    case PermanentError => Failure(PermanentImportError, false)
    case UnexpectedError => Failure(UnexpectedImportError, false)
  }

  function Pow2(n: nat): int {
    if n == 0 then 1 else 2 * Pow2(n - 1)
  }

  function RetryDelay(s: Settings, attemptCount: int): int {
    var exponent := if attemptCount - 1 > 0 then attemptCount - 1 else 0;
    var delay := s.retryBase * Pow2(exponent);
    if delay < s.retryMax then delay else s.retryMax
  }

  /** A failure that finds no row for the current attempt opens one. */
  function WithCurrentAttempt(job: Job, worker: string): Job {
    if job.attemptCount in job.attempts then job
    else
      job.(attemptCount := job.attemptCount + 1,
           attempts := job.attempts[job.attemptCount + 1 := Attempt(Running, worker, None, None)])
  }

  function CloseAttempt(job: Job, status: AttemptStatus, now: Time, failure: Failure): map<int, Attempt>
    requires job.attemptCount in job.attempts
  {
    job.attempts[job.attemptCount := job.attempts[job.attemptCount].(
      status := status, completedAt := Some(now), failure := Some(failure))]
  }

  /** The current attempt ends in `failure`: the job is queued again, or has failed. */
  function CloseFailure(s: Settings, job: Job, failure: Failure, now: Time): Job
    requires job.attemptCount in job.attempts
  {
    var cleared := job.(failure := Some(failure), lease := None, dispatchedAt := None);
    if failure.retryable && job.attemptCount < job.maxAttempts then
      cleared.(status := Queued,
               nextRetryAt := Some(now + RetryDelay(s, job.attemptCount) * SECOND),
               attempts := CloseAttempt(job, RetryScheduled, now, failure))
    else
      cleared.(status := Failed,
               completedAt := Some(now),
               nextRetryAt := None,
               attempts := CloseAttempt(job, AttemptFailed, now, failure))
  }

  function RecordFailure(s: Settings, job: Job, e: ImportError, now: Time, worker: string): Job {
    CloseFailure(s, WithCurrentAttempt(job, worker), ClassifyImportFailure(e), now)
  }

  // ------------------------------------------------------------ lease recovery

  predicate LeaseExpired(job: Job, now: Time) {
    job.status == Processing && job.lease.Some? && job.lease.value.expiresAt < now
  }

  const LEASE_EXPIRED := Failure(WorkerLeaseExpired, true)

  /** `Err` is the "no durable current attempt" error, which aborts the sweep. */
  function Recover(job: Job, now: Time): Result<Job, FailureCode> {
    if job.attemptCount !in job.attempts then
      Err(PermanentImportError)
    else
      var cleared := job.(failure := Some(LEASE_EXPIRED), lease := None, dispatchedAt := None,
                          attempts := CloseAttempt(job, Abandoned, now, LEASE_EXPIRED));
      Ok(if job.attemptCount < job.maxAttempts then
           cleared.(status := Queued, nextRetryAt := Some(now))
         else
           cleared.(status := Failed, completedAt := Some(now)))
  }

  // ------------------------------------------------------------- retry delays

  lemma Pow2Positive(n: nat)
    ensures Pow2(n) >= 1
  {
  }

  /** The backoff is never zero or beyond its cap, starts at the base, and doubles until the cap. */
  lemma RetryDelayDoubles(s: Settings, attemptCount: int)
    requires ValidSettings(s)
    ensures 1 <= RetryDelay(s, attemptCount) <= s.retryMax
    ensures attemptCount <= 1 ==>
              RetryDelay(s, attemptCount) == if s.retryBase < s.retryMax then s.retryBase else s.retryMax
    ensures attemptCount >= 1 ==>
              var twice := 2 * RetryDelay(s, attemptCount);
              RetryDelay(s, attemptCount + 1) == if twice < s.retryMax then twice else s.retryMax
  {
    var exponent := if attemptCount - 1 > 0 then attemptCount - 1 else 0;
    Pow2Positive(exponent);
    var b, p := s.retryBase, Pow2(exponent);
    assert b * p >= 1 by { ProductAtLeastOne(b, p); }
    if attemptCount >= 1 {
      assert Pow2(attemptCount) == 2 * p;
      assert b * (2 * p) == 2 * (b * p);
    }
  }

  lemma ProductAtLeastOne(a: int, b: int)
    requires a >= 1 && b >= 1
    ensures a * b >= 1
  {
  }
}
