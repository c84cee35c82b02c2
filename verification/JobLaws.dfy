/** What every transaction keeps about a job row, late workers included. */
module JobLaws {
  import opened Domain
  import opened Ledger
  import opened Adapters
  import opened Jobs

  /** The attempt rows are exactly 1..attemptCount. */
  ghost predicate AttemptsNumbered(job: Job) {
    forall n :: n in job.attempts <==> 1 <= n <= job.attemptCount
  }

  ghost predicate NewestIs(job: Job, status: AttemptStatus) {
    job.attemptCount in job.attempts && job.attempts[job.attemptCount].status == status
  }

  ghost predicate AttemptInv(job: Job) {
    && AttemptsNumbered(job)
    && 0 <= job.attemptCount <= job.maxAttempts
    && (Terminal(job.status) ==> job.attemptCount >= 1)
    && (job.status == Queued ==> job.attemptCount < job.maxAttempts && !NewestIs(job, Running))
    && (job.status == Processing ==> NewestIs(job, Running))
    && (forall n :: n in job.attempts && job.attempts[n].status == Running ==> n == job.attemptCount)
    && (job.lease.Some? <==> job.status == Processing)
  }

  /** No stored instant lies further ahead than the settings allow. */
  ghost predicate TimeInv(s: Settings, job: Job, now: Time) {
    && job.maxAttempts == s.maxAttempts
    && (job.lease.Some? ==> job.lease.value.expiresAt <= now + s.lease * SECOND)
    && (job.nextRetryAt.Some? ==> job.nextRetryAt.value <= now + s.retryMax * SECOND)
    && (job.dispatchedAt.Some? ==> job.dispatchedAt.value <= now)
    && job.submission.createdAt <= now
  }

  ghost predicate RowInv(s: Settings, job: Job, now: Time) {
    AttemptInv(job) && TimeInv(s, job, now)
  }

  lemma NewJobKeeps(s: Settings, x: Submission, now: Time)
    requires ValidSettings(s) && x.createdAt <= now
    ensures RowInv(s, NewJob(s, x), now)
  {
  }

  lemma ClaimKeeps(s: Settings, job: Job, now: Time, worker: string)
    requires RowInv(s, job, now)
    ensures RowInv(s, Claim(s, job, now, worker), now)
  {
  }

  /** Completion on whatever the row has become keeps the invariant, for any attempt that exists. */
  lemma CompleteKeeps(s: Settings, job: Job, w: InFlight, o: ImportOutcome, now: Time)
    requires RowInv(s, job, now) && 1 <= w.attempt <= job.attemptCount
    ensures RowInv(s, Complete(job, w, o, now), now)
  {
  }

  lemma FailureKeeps(s: Settings, job: Job, e: ImportError, now: Time, worker: string)
    requires ValidSettings(s) && RowInv(s, job, now)
    ensures RowInv(s, RecordFailure(s, job, e, now, worker), now)
  {
    var current := WithCurrentAttempt(job, worker);
    RetryDelayDoubles(s, current.attemptCount);
    assert AttemptsNumbered(current);
    assert forall n :: n in current.attempts && n != current.attemptCount ==> current.attempts[n].status != Running;
  }

  /** Recovery always finds the current attempt. */
  lemma RecoverKeeps(s: Settings, job: Job, now: Time)
    requires RowInv(s, job, now) && LeaseExpired(job, now)
    ensures Recover(job, now).Ok? && (ValidSettings(s) ==> RowInv(s, Recover(job, now).value, now))
  {
  }

  // --------------------------------------------------- what each transaction writes

  /** Lost databases, stores, connections and time may be tried again; anything else may not. */
  predicate MayRetry(e: ImportError) {
    e == DatabaseError || e == TransientError || e == TimeoutError || e == ConnectionError
  }

  /** Of the failure record: the job is queued again exactly when the error may be retried and the attempt it hits is
      below the limit, and has failed otherwise. Row and attempt carry the error's own code; no other attempt, no
      result and nothing of the submission changes. */
  lemma FailureExactly(s: Settings, job: Job, e: ImportError, now: Time, worker: string)
    ensures var row := RecordFailure(s, job, e, now, worker);
            var n := if job.attemptCount in job.attempts then job.attemptCount else job.attemptCount + 1;
            var retry := MayRetry(e) && n < job.maxAttempts;
            && row.attemptCount == n && n in row.attempts && row.attempts - {n} == job.attempts - {n}
            && row.status == (if retry then Queued else Failed)
            && row.nextRetryAt == (if retry then Some(now + RetryDelay(s, n) * 1_000_000) else None)
            && row.completedAt == (if retry then job.completedAt else Some(now))
            && row.lease == None && row.dispatchedAt == None
            && row.attempts[n].status == (if retry then RetryScheduled else AttemptFailed)
            && row.attempts[n].completedAt == Some(now)
            && row.attempts[n].worker == (if job.attemptCount == n then job.attempts[n].worker else worker)
            && row.submission == job.submission && row.maxAttempts == job.maxAttempts
            && row.errors == job.errors && row.counters == job.counters
    ensures var row := RecordFailure(s, job, e, now, worker);
            && row.failure.Some? && row.failure.value.retryable == MayRetry(e)
            && row.attemptCount in row.attempts && row.attempts[row.attemptCount].failure == row.failure
            && (e == DatabaseError <==> row.failure.value.code == TransientDatabaseError)
            && (e == TransientError <==> row.failure.value.code == TransientImportError)
            && (e == TimeoutError <==> row.failure.value.code == TransientTimeout)
            && (e == ConnectionError <==> row.failure.value.code == TransientConnectionError)
            && (e == PermanentError <==> row.failure.value.code == PermanentImportError)
            && (e == UnexpectedError <==> row.failure.value.code == UnexpectedImportError)
  {
  }

  /** Of the claim: it succeeds exactly on a queued job whose retry time has come; then it counts one attempt more,
      names its worker in the lease and in the new attempt, and forgets the last failure. */
  lemma ClaimExactly(s: Settings, job: Job, now: Time, worker: string)
    ensures var row, n := Claim(s, job, now, worker), job.attemptCount + 1;
            if job.status == Queued && (job.nextRetryAt.None? || job.nextRetryAt.value <= now) then
              && row.status == Processing && row.attemptCount == n && n in row.attempts
              && row.attempts - {n} == job.attempts - {n}
              && row.attempts[n] == Attempt(Running, worker, None, None)
              && row.lease == Some(Lease(worker, now + s.lease * 1_000_000))
              && row.failure == None && row.nextRetryAt == None && row.completedAt == None
              && row.dispatchedAt == job.dispatchedAt && row.submission == job.submission
              && row.maxAttempts == job.maxAttempts && row.errors == job.errors && row.counters == job.counters
            else row == job
  {
  }

  /** Of the completion: it writes the results, the end of the job and of the worker's own attempt, and the lease;
      what it does not know to have changed it leaves alone. */
  lemma CompletionExactly(job: Job, w: InFlight, o: ImportOutcome, now: Time)
    requires w.attempt in job.attempts
    ensures var row := Complete(job, w, o, now);
            && row.status == (if o.rejected == 0 then Completed else CompletedWithErrors)
            && row.completedAt == Some(now) && row.lease == None && row.errors == o.errors
            && w.attempt in row.attempts && row.attempts - {w.attempt} == job.attempts - {w.attempt}
            && row.attempts[w.attempt].status == Succeeded && row.attempts[w.attempt].completedAt == Some(now)
            && row.attempts[w.attempt].worker == job.attempts[w.attempt].worker
            && row.attempts[w.attempt].failure == job.attempts[w.attempt].failure
            && row.attemptCount == job.attemptCount && row.nextRetryAt == job.nextRetryAt
            && row.dispatchedAt == job.dispatchedAt && row.failure == job.failure
            && row.submission == job.submission && row.maxAttempts == job.maxAttempts
    ensures var c := Complete(job, w, o, now).counters;
            && (c.total == o.total || (w.loaded.total == o.total && c.total == job.counters.total))
            && (c.accepted == o.accepted || (w.loaded.accepted == o.accepted && c.accepted == job.counters.accepted))
            && (c.rejected == o.rejected || (w.loaded.rejected == o.rejected && c.rejected == job.counters.rejected))
  {
  }

  /** Of the recovery: the newest attempt is abandoned with a retryable lease failure, which the job repeats; the job
      is queued again at once while attempts are left, and has failed otherwise. */
  lemma RecoveryExactly(job: Job, now: Time)
    ensures Recover(job, now).Err? <==> job.attemptCount !in job.attempts
    ensures Recover(job, now).Ok? ==>
              var row, n := Recover(job, now).value, job.attemptCount;
              && n in row.attempts && row.attempts - {n} == job.attempts - {n}
              && row.attempts[n] ==
                 Attempt(Abandoned, job.attempts[n].worker, Some(now), Some(Failure(WorkerLeaseExpired, true)))
              && row.failure == Some(Failure(WorkerLeaseExpired, true)) && row.lease == None && row.dispatchedAt == None
              && row.status == (if n < job.maxAttempts then Queued else Failed)
              && row.nextRetryAt == (if n < job.maxAttempts then Some(now) else job.nextRetryAt)
              && row.completedAt == (if n < job.maxAttempts then job.completedAt else Some(now))
              && row.attemptCount == n && row.submission == job.submission && row.maxAttempts == job.maxAttempts
              && row.errors == job.errors && row.counters == job.counters
  {
  }

  /** Of the dispatch receipt: it is written exactly on a job that is read as queued, and writes nothing else. */
  lemma ReceiptExactly(job: Job, now: Time)
    ensures MarkDispatched(job, now) == if job.status == Queued then job.(dispatchedAt := Some(now)) else job
  {
  }

  // ------------------------------------------------------------------------ results

  const NOTHING_COUNTED := Counters(0, 0, 0)

  /** A job that did not complete shows no results; a completed one shows consistent counters. */
  ghost predicate ResultInv(job: Job) {
    && (!Succeeding(job.status) ==> job.errors == [] && job.counters == NOTHING_COUNTED)
    && (Succeeding(job.status) ==> job.counters.total == job.counters.accepted + job.counters.rejected)
    && (Succeeding(job.status) ==> (job.status == Completed <==> job.errors == []))
  }

  /** The first completion of a job shows exactly its own results, whichever attempt it closes. */
  lemma CompleteKeepsResults(job: Job, w: InFlight, o: ImportOutcome, now: Time)
    requires ResultInv(job) && !Succeeding(job.status) && w.attempt in job.attempts && w.loaded == NOTHING_COUNTED
    requires o.total == o.accepted + o.rejected && o.rejected == RejectedCount(o.errors)
    ensures ResultInv(Complete(job, w, o, now))
    ensures Complete(job, w, o, now).counters == Counters(o.total, o.accepted, o.rejected)
  {
    NothingRejected(o.errors);
  }

  /** A second completion of a completed job, by a worker that had loaded empty counters, keeps their sum exactly
      when it counts nothing at all, or counts something again wherever the first one did. */
  lemma SecondCompletionExactly(job: Job, w: InFlight, o: ImportOutcome, now: Time)
    requires w.attempt in job.attempts && w.loaded == NOTHING_COUNTED
    requires job.counters.accepted >= 0 && job.counters.rejected >= 0
    requires job.counters.total == job.counters.accepted + job.counters.rejected
    requires o.accepted >= 0 && o.rejected >= 0 && o.total == o.accepted + o.rejected
    ensures var c := Complete(job, w, o, now).counters;
            c.total == c.accepted + c.rejected <==>
              || o.total == 0
              || ((job.counters.accepted > 0 ==> o.accepted > 0) && (job.counters.rejected > 0 ==> o.rejected > 0))
  {
  }

  // --------------------------------------------------------- no job is ever stuck

  function Longest(s: Settings): int {
    var a := if s.lease > s.retryMax then s.lease else s.retryMax;
    if a > s.redispatch then a else s.redispatch
  }

  /** A job that is not terminal and left alone satisfies a query after the longest delay: the dispatch query if
      it is queued, the recovery query if it is processing. */
  lemma NotStuck(s: Settings, job: Job, now: Time, later: Time)
    requires RowInv(s, job, now) && !Terminal(job.status) && later > now + Longest(s) * SECOND
    ensures if job.status == Queued then DueForDispatch(s, job, later) else LeaseExpired(job, later)
  {
  }

  /** Whatever dispatch selects, the claim accepts then and at any later time. */
  lemma DispatchedIsClaimable(s: Settings, job: Job, now: Time, later: Time)
    requires DueForDispatch(s, job, now) && now <= later
    ensures Claimable(job, later)
  {
  }

  // ------------------------------------------------------------------ waiting times

  /** How long each hold lasts, counted from `now`, the clock reading of the transaction that sets it: a lease keeps
      recovery away for its whole length, a scheduled retry keeps claims away for its delay, a recovered job can be
      claimed at once, and a dispatched job is not selected again within the redispatch window. */
  lemma WaitingTimes(s: Settings, job: Job, now: Time, later: Time, e: ImportError, worker: string)
    requires ValidSettings(s) && RowInv(s, job, now)
    ensures Claimable(job, now) ==>
              (LeaseExpired(Claim(s, job, now, worker), later) <==> later > now + s.lease * SECOND)
    ensures var row := RecordFailure(s, job, e, now, worker);
            && (row.status == Queued ==>
                  && (Claimable(row, later) <==> later >= now + RetryDelay(s, row.attemptCount) * SECOND)
                  && (DueForDispatch(s, row, later) <==> Claimable(row, later)))
            && (row.status != Queued ==> !ClassifyImportFailure(e).retryable || row.attemptCount == s.maxAttempts)
    ensures LeaseExpired(job, now) ==>
              var row := Recover(job, now).value;
              && row.status == (if job.attemptCount < s.maxAttempts then Queued else Failed)
              && (row.status == Queued && later >= now ==> Claimable(row, later) && DueForDispatch(s, row, later))
    ensures DueForDispatch(s, job, now) && later >= now ==>
              (DueForDispatch(s, Dispatched(job, now), later) <==> later >= now + s.redispatch * SECOND)
  {
    FailureKeeps(s, job, e, now, worker);
    RecordedFailure(s, job, e, now, worker);
  }

  lemma RecordedFailure(s: Settings, job: Job, e: ImportError, now: Time, worker: string)
    ensures var row := RecordFailure(s, job, e, now, worker);
            && row.attemptCount == WithCurrentAttempt(job, worker).attemptCount && row.dispatchedAt == None
            && (row.status == Queued ==> row.nextRetryAt == Some(now + RetryDelay(s, row.attemptCount) * SECOND))
  {
  }

  // ------------------------------------------------------------------ bounded work

  /** Work left under the timely protocol. */
  function WorkLeft(job: Job): int {
    if Terminal(job.status) then 0
    else 2 * (job.maxAttempts - job.attemptCount) + (if job.status == Processing then 1 else 0)
  }
}
