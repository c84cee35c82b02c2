/** The history of one job row: what its transactions keep when each completion is the newest attempt's. */
module HistoryRows {
  import opened Domain
  import opened Ledger
  import opened Jobs
  import opened JobLaws
  import opened Sound

  ghost predicate CompleteHistory(job: Job) {
    && (job.completedAt.Some? <==> Terminal(job.status))
    && (job.nextRetryAt.Some? ==> job.status == Queued)
    && (job.status == Queued && job.attemptCount >= 1 ==> job.nextRetryAt.Some?)
    && (forall n :: n in job.attempts && n < job.attemptCount ==>
          job.attempts[n].status == RetryScheduled || job.attempts[n].status == Abandoned)
    && (NewestIs(job, Succeeded) <==> Succeeding(job.status))
    && (job.status == Queued && job.attemptCount in job.attempts ==>
          NewestIs(job, RetryScheduled) || NewestIs(job, Abandoned))
  }

  /** An attempt row carries the time it ended iff it ended, and the failure that ended it, if one did. */
  ghost predicate Evidenced(a: Attempt) {
    && (a.completedAt.Some? <==> a.status != Running)
    && (a.failure.Some? <==> a.status == RetryScheduled || a.status == AttemptFailed || a.status == Abandoned)
    && (a.status == RetryScheduled ==> a.failure.value.retryable)
    && (a.status == Abandoned ==> a.failure == Some(LEASE_EXPIRED))
  }

  /** The job repeats the failure and the end of its newest attempt, and failed only on a permanent error or
      with no attempt left. */
  ghost predicate EvidenceInv(job: Job) {
    && (forall n :: n in job.attempts ==> Evidenced(job.attempts[n]))
    && job.failure == (if job.attemptCount in job.attempts then job.attempts[job.attemptCount].failure else None)
    && (Terminal(job.status) ==>
          job.attemptCount in job.attempts && job.completedAt == job.attempts[job.attemptCount].completedAt)
    && (job.status == Failed ==>
          job.failure.Some? && (!job.failure.value.retryable || job.attemptCount == job.maxAttempts))
  }

  ghost predicate HistoryRowInv(job: Job) {
    AttemptInv(job) && CompleteHistory(job) && EvidenceInv(job)
  }

  lemma ClaimKeepsHistory(s: Settings, job: Job, now: Time, worker: string)
    requires HistoryRowInv(job) && AttemptInv(Claim(s, job, now, worker))
    ensures HistoryRowInv(Claim(s, job, now, worker))
  {
  }

  lemma CompleteKeepsHistory(job: Job, w: InFlight, o: ImportOutcome, now: Time)
    requires HistoryRowInv(job) && job.status == Processing && w.attempt == job.attemptCount
    requires AttemptInv(Complete(job, w, o, now))
    ensures HistoryRowInv(Complete(job, w, o, now))
  {
  }

  lemma FailureKeepsHistory(s: Settings, job: Job, e: ImportError, now: Time, worker: string)
    requires HistoryRowInv(job) && !SpoilsRow(job, e) && AttemptInv(RecordFailure(s, job, e, now, worker))
    ensures HistoryRowInv(RecordFailure(s, job, e, now, worker))
  {
  }

  /** A completion by another worker than that of the newest attempt leaves a history that does not add up. */
  lemma StaleCompletionBreaks(job: Job, w: InFlight, o: ImportOutcome, now: Time)
    requires HistoryRowInv(job) && !Terminal(job.status) && 1 <= w.attempt <= job.attemptCount
    requires job.status != Processing || w.attempt != job.attemptCount
    ensures !CompleteHistory(Complete(job, w, o, now))
  {
  }

  lemma RecoverKeepsHistory(job: Job, now: Time)
    requires HistoryRowInv(job) && LeaseExpired(job, now) && Recover(job, now).Ok? &&
             AttemptInv(Recover(job, now).value)
    ensures HistoryRowInv(Recover(job, now).value)
  {
  }
}
