/** The job row as the services update it, field by field, each method proved against module Jobs. */
module ImportJobs {
  import opened Domain
  import opened Ledger
  import opened Jobs
  import opened InventoryLedgers

  datatype FailureDisposition =
    FailureDisposition(retryScheduled: bool, retryDelaySeconds: Option<int>, failureCode: FailureCode)

  class ImportJob {
    const submission: Submission
    const maxAttempts: int
    var status: ImportStatus
    var attemptCount: int
    var dispatchedAt: Option<Time>
    var completedAt: Option<Time>
    var nextRetryAt: Option<Time>
    var lease: Option<Lease>
    var failure: Option<Failure>
    var counters: Counters
    var errors: seq<RecordError>
    var attempts: map<int, Attempt>

    function Row(): Job
      reads this
    {
      Job(submission, maxAttempts, status, attemptCount, dispatchedAt, completedAt, nextRetryAt, lease, failure,
          counters, errors, attempts)
    }

    constructor (s: Settings, submission: Submission)
      ensures Row() == NewJob(s, submission)
    {
      this.submission := submission;
      maxAttempts, status, attemptCount := s.maxAttempts, Queued, 0;
      dispatchedAt, completedAt, nextRetryAt, lease, failure := None, None, None, None, None;
      counters, errors, attempts := Counters(0, 0, 0), [], map[];
    }

    /** A rolled-back transaction: the row is what it was. */
    method Rollback(row: Job)
      requires row.submission == submission && row.maxAttempts == maxAttempts
      modifies this
      ensures Row() == row
    {
      status, attemptCount := row.status, row.attemptCount;
      dispatchedAt, completedAt := row.dispatchedAt, row.completedAt;
      nextRetryAt, lease, failure := row.nextRetryAt, row.lease, row.failure;
      counters, errors, attempts := row.counters, row.errors, row.attempts;
    }

    method MarkDispatched(now: Time)
      modifies this
      ensures Row() == Jobs.MarkDispatched(old(Row()), now)
    {
      if status == Queued {
        dispatchedAt := Some(now);
      }
    }

    /** The claim transaction. `None` means that the delivery was a duplicate or came too early. */
    method ClaimFor(s: Settings, id: JobId, now: Time, workerName: string) returns (claimed: Option<InFlight>)
      modifies this
      ensures Row() == Claim(s, old(Row()), now, workerName)
      ensures claimed == if Claimable(old(Row()), now) then Some(Claimed(id, Row())) else None
    {
      if status != Queued {
        return None;
      }
      if nextRetryAt.Some? && nextRetryAt.value > now {
        return None;
      }
      status := Processing;
      attemptCount := attemptCount + 1;
      completedAt := None;
      nextRetryAt := None;
      lease := Some(Lease(workerName, now + s.lease * SECOND));
      failure := None;
      attempts := attempts[attemptCount := Attempt(Running, workerName, None, None)];
      return Some(InFlight(id, attemptCount, counters));
    }

    /** The completion transaction of worker `w`; it fails, changing nothing, when the attempt row of the
        worker is missing. */
    method CompleteImport(ledger: InventoryLedger, w: InFlight, result: AdapterResult, now: Time) returns (done: bool)
      modifies this, ledger`positions, ledger`snapshots
      ensures done <==> w.attempt in old(attempts)
      ensures !done ==> Row() == old(Row()) && ledger.Contents() == old(ledger.Contents())
      ensures done ==>
                var o := ApplyInventoryResult(old(ledger.Contents()), w.job, submission.supplier, old(errors), result);
                Row() == Complete(old(Row()), w, o, now) && ledger.Contents() == o.ledger
    {
      if w.attempt !in attempts {
        return false;
      }
      var jobErrors, totalRecords, acceptedRecords, rejectedRecords :=
        ledger.ApplyInventoryResult(w.job, submission.supplier, errors, result);
      CloseCompleted(w, ledger.Contents(), jobErrors, totalRecords, acceptedRecords, rejectedRecords, now);
      return true;
    }

    /** The fields that completion writes once the import is applied. */
    method CloseCompleted(w: InFlight, ghost after: State, jobErrors: seq<RecordError>,
                          total: int, accepted: int, rejected: int, now: Time)
      requires w.attempt in attempts
      modifies this
      ensures Row() == Complete(old(Row()), w, ImportOutcome(after, jobErrors, total, accepted, rejected), now)
    {
      errors := jobErrors;
      counters := Counters(
        if total != w.loaded.total then total else counters.total,
        if accepted != w.loaded.accepted then accepted else counters.accepted,
        if rejected != w.loaded.rejected then rejected else counters.rejected);
      status := if rejected == 0 then Completed else CompletedWithErrors;
      completedAt := Some(now);
      lease := None;
      attempts := attempts[w.attempt := attempts[w.attempt].(status := Succeeded, completedAt := Some(now))];
    }

    /** The attempt a failure is recorded on; it is opened when there is none. */
    method OpenCurrentAttempt(workerName: string) returns (attempt: Attempt)
      modifies this`attemptCount, this`attempts
      ensures Row() == WithCurrentAttempt(old(Row()), workerName)
      ensures attemptCount in attempts && attempt == attempts[attemptCount]
    {
      if attemptCount !in attempts {
        attemptCount := attemptCount + 1;
        attempts := attempts[attemptCount := Attempt(Running, workerName, None, None)];
      }
      attempt := attempts[attemptCount];
    }

    method RecordImportFailure(s: Settings, e: ImportError, now: Time, workerName: string)
      returns (d: FailureDisposition)
      modifies this
      ensures Row() == RecordFailure(s, old(Row()), e, now, workerName)
      ensures d == FailureDisposition(
                     status == Queued,
                     if status == Queued then Some(RetryDelay(s, attemptCount)) else None,
                     ClassifyImportFailure(e).code)
      ensures d.retryScheduled <==>
                && (e == DatabaseError || e == TransientError || e == TimeoutError || e == ConnectionError)
                && attemptCount < maxAttempts
    {
      var attempt := OpenCurrentAttempt(workerName);
      var disposition := ClassifyImportFailure(e);
      var retryScheduled := disposition.retryable && attemptCount < maxAttempts;
      var retryDelay := if retryScheduled then Some(RetryDelay(s, attemptCount)) else None;
      CloseFailure(s, attempt, disposition, retryDelay, now);
      d := FailureDisposition(retryScheduled, retryDelay, disposition.code);
    }

    /** The fields that a failure record writes once its attempt is open. */
    method CloseFailure(s: Settings, open: Attempt, disposition: Failure, retryDelay: Option<int>, now: Time)
      requires attemptCount in attempts && open == attempts[attemptCount]
      requires retryDelay ==
               if disposition.retryable && attemptCount < maxAttempts then Some(RetryDelay(s, attemptCount)) else None
      modifies this
      ensures Row() == Jobs.CloseFailure(s, old(Row()), disposition, now)
    {
      failure := Some(disposition);
      lease := None;
      dispatchedAt := None;
      var attempt := open.(failure := Some(disposition), completedAt := Some(now));
      if retryDelay.Some? {
        attempts := attempts[attemptCount := attempt.(status := RetryScheduled)];
        status := Queued;
        nextRetryAt := Some(now + retryDelay.value * SECOND);
      } else {
        attempts := attempts[attemptCount := attempt.(status := AttemptFailed)];
        status := Failed;
        completedAt := Some(now);
        nextRetryAt := None;
      }
    }

    /** One round of the recovery sweep: whether the job goes back to the queue, or the error when it has no
        row for its current attempt. */
    method RecoverLease(now: Time) returns (requeued: Result<bool, FailureCode>)
      modifies this
      ensures match Recover(old(Row()), now)
              case Err(e) => requeued == Err(e) && Row() == old(Row())
              case Ok(row) => requeued == Ok(row.status == Queued) && Row() == row
    {
      if attemptCount !in attempts {
        return Err(PermanentImportError);
      }
      var attempt := attempts[attemptCount];
      attempt := attempt.(status := Abandoned);
      attempt := attempt.(completedAt := Some(now));
      attempt := attempt.(failure := Some(LEASE_EXPIRED));
      attempts := attempts[attemptCount := attempt];
      failure := Some(LEASE_EXPIRED);
      lease := None;
      dispatchedAt := None;
      if attemptCount < maxAttempts {
        status := Queued;
        nextRetryAt := Some(now);
        return Ok(true);
      } else {
        status := Failed;
        completedAt := Some(now);
        return Ok(false);
      }
    }
  }
}
