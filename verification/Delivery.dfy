/** One delivery of a job message, from claim to completion or recorded failure, when nothing interrupts it. */
module Delivery {
  import opened Domain
  import opened Ledger
  import opened InventoryLedgers
  import opened Jobs
  import opened JobLaws
  import opened ImportJobs
  import opened Worker
  import opened Hub
  import opened HubLaws

  /** What goes wrong during a delivery: nothing, an error before the claim, an unreachable store, an error that
      rolls the completion back, or an error after the completion was committed. */
  datatype Fault =
    | Smooth
    | BeforeClaim(error: ImportError)
    | StoreUnreachable
    | WhileCompleting(error: ImportError)
    | AfterCommit(error: ImportError)

  datatype TaskOutcome =
    | NotFoundTask
    | Raised(exception: ServiceError)
    | Finished(status: ImportStatus)
    | FailedTask(code: FailureCode)
    | Retried(delaySeconds: int)

  function LoadAndAdapt(env: Env, store: map<string, Bytes>, x: Submission, fault: Fault):
    Result<AdapterResult, ImportError>
  {
    if fault.StoreUnreachable? then Err(TransientError) else AdaptRetainedPayload(env, store, x)
  }

  /** The completion is committed. */
  predicate Commits(env: Env, store: map<string, Bytes>, x: Submission, fault: Fault) {
    LoadAndAdapt(env, store, x, fault).Ok? && !fault.WhileCompleting?
  }

  /** The error that a claimed delivery ends with, if any. */
  function EndError(env: Env, store: map<string, Bytes>, x: Submission, fault: Fault): Option<ImportError> {
    match LoadAndAdapt(env, store, x, fault)
    case Err(e) => Some(e)
    case Ok(_) => if fault.WhileCompleting? || fault.AfterCommit? then Some(fault.error) else None
  }

  function LastOp(claim: InFlight, worker: string, committed: bool, e: Option<ImportError>): Op {
    if e.None? then Stop(claim)
    else if committed then FailAfterFinish(claim, e.value, worker)
    else FailAfterClaim(claim, e.value, worker)
  }

  /** How a claimed delivery ends. */
  function EndOps(env: Env, store: map<string, Bytes>, x: Submission, claim: InFlight, worker: string, fault: Fault):
    seq<Op>
  {
    var last := LastOp(claim, worker, Commits(env, store, x, fault), EndError(env, store, x, fault));
    if Commits(env, store, x, fault) then [Finish(claim), last] else [last]
  }

  /** How the delivery ends after the claim of job `id`. */
  function ClaimedEnd(env: Env, w: World, id: JobId, worker: string, fault: Fault): seq<Op>
    requires id < |w.jobs|
  {
    var claim := Claimed(id, Claim(env.settings, w.jobs[id], w.now, worker));
    EndOps(env, w.store, w.jobs[id].submission, claim, worker, fault)
  }

  /** The operations of a delivery that tries to claim now and ends `elapsed` later. */
  function ClaimOps(env: Env, w: World, id: JobId, worker: string, fault: Fault, elapsed: nat): seq<Op>
    requires id < |w.jobs|
  {
    if !Claimable(w.jobs[id], w.now) then [Tick(elapsed)]
    else [Deliver(id, worker), Tick(elapsed)] + ClaimedEnd(env, w, id, worker, fault)
  }

  /** The operations of one delivery. */
  function TaskOps(env: Env, w: World, id: JobId, worker: string, fault: Fault, elapsed: nat): seq<Op> {
    if id >= |w.jobs| then [Tick(elapsed)]
    else if fault.BeforeClaim? then [Tick(elapsed), FailBeforeClaim(id, fault.error, worker)]
    else ClaimOps(env, w, id, worker, fault, elapsed)
  }

  ghost function View(table: seq<ImportJob>, store: map<string, Bytes>, ledger: InventoryLedger, now: Time,
                      workers: set<InFlight>): World
    reads table, ledger
  {
    World(now, Rows(table), store, ledger.Contents(), workers, {})
  }

  lemma RunOfTwo(env: Env, w: World, a: Op, b: Op)
    ensures Run(env, w, [a]) == Exec(env, w, a)
    ensures Run(env, w, [a, b]) == Exec(env, Exec(env, w, a), b)
  {
    RunOfOne(env, w, a);
    assert [a, b] == [a] + [b];
    RunOfMore(env, w, [a], b);
  }

  function OutcomeOf(d: FailureDisposition): TaskOutcome {
    if d.retryScheduled && d.retryDelaySeconds.Some? then Retried(d.retryDelaySeconds.value)
    else FailedTask(d.failureCode)
  }

  /** Without a job the task ends quietly, but recording an earlier error raises. */
  function NoJob(fault: Fault): TaskOutcome {
    if fault.BeforeClaim? then Raised(NotFound) else NotFoundTask
  }

  /** The outcome reports the state in which the job was left. */
  predicate Reports(s: Settings, outcome: TaskOutcome, row: Job) {
    match outcome
    case NotFoundTask => false
    case Raised(_) => false
    case Finished(status) => status == row.status
    case Retried(delay) => row.status == Queued && delay == RetryDelay(s, row.attemptCount)
    case FailedTask(code) => row.status == Failed && row.failure.Some? && row.failure.value.code == code
  }

  /** From the claim to the return of the worker. */
  method ExecuteClaimed(env: Env, table: seq<ImportJob>, store: map<string, Bytes>, ledger: InventoryLedger,
                        claim: InFlight, worker: string, fault: Fault, now: Time, ghost w: World, ghost ops: seq<Op>)
    returns (outcome: TaskOutcome)
    requires DistinctJobs(table) && claim.job < |table| && claim.attempt in table[claim.job].attempts
    requires w == View(table, store, ledger, now, {claim})
    requires ops == EndOps(env, store, table[claim.job].submission, claim, worker, fault)
    modifies table, ledger`positions, ledger`snapshots
    ensures View(table, store, ledger, now, {}) == Run(env, w, ops)
    ensures Reports(env.settings, outcome, table[claim.job].Row())
  {
    var job := table[claim.job];
    var committed, error := Commits(env, store, job.submission, fault), EndError(env, store, job.submission, fault);
    ghost var last := LastOp(claim, worker, committed, error);
    RunOfTwo(env, w, Finish(claim), last);
    RunOfTwo(env, w, last, last);
    if committed {
      CommitCompletion(env, table, store, ledger, claim, LoadAndAdapt(env, store, job.submission, fault).value, now);
    }
    outcome := CloseTask(env, table, store, ledger, claim, worker, committed, error, now);
  }

  method CommitCompletion(env: Env, table: seq<ImportJob>, store: map<string, Bytes>, ledger: InventoryLedger,
                          claim: InFlight, result: AdapterResult, now: Time)
    requires DistinctJobs(table) && claim.job < |table| && claim.attempt in table[claim.job].attempts
    requires AdaptRetainedPayload(env, store, table[claim.job].submission) == Ok(result)
    modifies table, ledger`positions, ledger`snapshots
    ensures AtLarge(View(table, store, ledger, now, {}), claim, true) ==
            Exec(env, AtLarge(old(View(table, store, ledger, now, {})), claim, false), Finish(claim))
  {
    ghost var rows := Rows(table);
    var done := table[claim.job].CompleteImport(ledger, claim, result, now);
    assert Rows(table) == rows[claim.job := table[claim.job].Row()];
  }

  /** The worker returns, or records the error it ends with. */
  method CloseTask(env: Env, table: seq<ImportJob>, store: map<string, Bytes>, ledger: InventoryLedger, claim: InFlight,
                   worker: string, committed: bool, error: Option<ImportError>, now: Time)
    returns (outcome: TaskOutcome)
    requires DistinctJobs(table) && claim.job < |table| && (!committed ==> error.Some?)
    modifies table
    ensures View(table, store, ledger, now, {}) ==
            Exec(env, AtLarge(old(View(table, store, ledger, now, {})), claim, committed),
                 LastOp(claim, worker, committed, error))
    ensures Reports(env.settings, outcome, table[claim.job].Row())
  {
    ghost var rows := Rows(table);
    var job := table[claim.job];
    if error.None? {
      outcome := Finished(job.status);
    } else {
      var disposition := job.RecordImportFailure(env.settings, error.value, now, worker);
      outcome := OutcomeOf(disposition);
      assert Rows(table) == rows[claim.job := job.Row()];
    }
  }

  /** The world with one worker in it, before or after its completion. */
  ghost function AtLarge(w: World, claim: InFlight, committed: bool): World {
    if committed then w.(closing := {claim}) else w.(workers := {claim})
  }

  /** The worker task is a run of the hub. */
  method ProcessImportJobTask(env: Env, table: seq<ImportJob>, store: map<string, Bytes>, ledger: InventoryLedger,
                              id: JobId, worker: string, fault: Fault, now: Time, elapsed: nat)
    returns (outcome: TaskOutcome)
    requires DistinctJobs(table)
    modifies table, ledger`positions, ledger`snapshots
    ensures var w := old(View(table, store, ledger, now, {}));
            View(table, store, ledger, now + elapsed, {}) == Run(env, w, TaskOps(env, w, id, worker, fault, elapsed))
    ensures if id < |table| then Reports(env.settings, outcome, table[id].Row())
            else outcome == if fault.BeforeClaim? then Raised(NotFound) else NotFoundTask
  {
    ghost var w := View(table, store, ledger, now, {});
    if id >= |table| {
      RunOfOne(env, w, Tick(elapsed));
      outcome := NoJob(fault);
    } else if fault.BeforeClaim? {
      outcome := FailEarly(env, table, store, ledger, id, worker, fault.error, now + elapsed);
      RunOfTwo(env, w, Tick(elapsed), FailBeforeClaim(id, fault.error, worker));
    } else {
      outcome := ClaimAndExecute(env, table, store, ledger, id, worker, fault, now, elapsed, w);
    }
  }

  method ClaimAndExecute(env: Env, table: seq<ImportJob>, store: map<string, Bytes>, ledger: InventoryLedger,
                         id: JobId, worker: string, fault: Fault, now: Time, elapsed: nat, ghost w: World)
    returns (outcome: TaskOutcome)
    requires DistinctJobs(table) && id < |table| && w == View(table, store, ledger, now, {})
    modifies table, ledger`positions, ledger`snapshots
    ensures View(table, store, ledger, now + elapsed, {}) == Run(env, w, ClaimOps(env, w, id, worker, fault, elapsed))
    ensures Reports(env.settings, outcome, table[id].Row())
  {
    assert w.jobs[id].submission == table[id].submission;
    var claimed := ClaimRow(env, table, store, ledger, id, worker, now, elapsed);
    if claimed.None? {
      assert ClaimOps(env, w, id, worker, fault, elapsed) == [Tick(elapsed)];
      return Finished(table[id].status);
    }
    ghost var mid := View(table, store, ledger, now + elapsed, {claimed.value});
    ghost var end := EndOps(env, store, table[id].submission, claimed.value, worker, fault);
    assert claimed.value.job == id && end == ClaimedEnd(env, w, id, worker, fault);
    outcome := ExecuteClaimed(env, table, store, ledger, claimed.value, worker, fault, now + elapsed, mid, end);
    ClaimThenEnd(env, w, mid, end, id, worker, fault, elapsed);
  }

  lemma ClaimThenEnd(env: Env, w: World, mid: World, end: seq<Op>, id: JobId, worker: string, fault: Fault,
                     elapsed: nat)
    requires id < |w.jobs| && Claimable(w.jobs[id], w.now)
    requires mid == Run(env, w, [Deliver(id, worker), Tick(elapsed)]) && end == ClaimedEnd(env, w, id, worker, fault)
    ensures Run(env, mid, end) == Run(env, w, ClaimOps(env, w, id, worker, fault, elapsed))
  {
    RunOfSum(env, w, [Deliver(id, worker), Tick(elapsed)], end);
  }

  method FailEarly(env: Env, table: seq<ImportJob>, store: map<string, Bytes>, ledger: InventoryLedger, id: JobId,
                   worker: string, e: ImportError, now: Time) returns (outcome: TaskOutcome)
    requires DistinctJobs(table) && id < |table|
    modifies table
    ensures View(table, store, ledger, now, {}) ==
            Exec(env, old(View(table, store, ledger, now, {})), FailBeforeClaim(id, e, worker))
    ensures Reports(env.settings, outcome, table[id].Row())
  {
    ghost var rows := Rows(table);
    var disposition := table[id].RecordImportFailure(env.settings, e, now, worker);
    outcome := OutcomeOf(disposition);
    assert Rows(table) == rows[id := table[id].Row()];
  }

  method ClaimRow(env: Env, table: seq<ImportJob>, store: map<string, Bytes>, ledger: InventoryLedger, id: JobId,
                  worker: string, now: Time, elapsed: nat) returns (claimed: Option<InFlight>)
    requires DistinctJobs(table) && id < |table|
    modifies table
    ensures var row := old(View(table, store, ledger, now, {})).jobs[id];
            claimed == if Claimable(row, now) then Some(Claimed(id, Claim(env.settings, row, now, worker))) else None
    ensures claimed.Some? ==>
              && claimed.value.attempt in table[id].attempts
              && View(table, store, ledger, now + elapsed, {claimed.value}) ==
                 Run(env, old(View(table, store, ledger, now, {})), [Deliver(id, worker), Tick(elapsed)])
    ensures claimed.None? ==>
              View(table, store, ledger, now + elapsed, {}) ==
              Run(env, old(View(table, store, ledger, now, {})), [Tick(elapsed)])
  {
    ghost var w := View(table, store, ledger, now, {});
    assert w.jobs[id] == table[id].Row();
    claimed := table[id].ClaimFor(env.settings, id, now, worker);
    assert Rows(table) == w.jobs[id := table[id].Row()];
    assert w.jobs[id := w.jobs[id]] == w.jobs;
    RunOfOne(env, w, Tick(elapsed));
    RunOfTwo(env, w, Deliver(id, worker), Tick(elapsed));
  }

  // -------------------------------------------------------------- uninterrupted deliveries

  /** The status that an error leaves behind. */
  function StatusAfterFailure(job: Job, e: ImportError): ImportStatus {
    if ClassifyImportFailure(e).retryable && job.attemptCount < job.maxAttempts then Queued else Failed
  }

  /** Claim and wait: the newest attempt is the worker's own, and nothing else has changed. */
  lemma ClaimedAndWaited(env: Env, w: World, id: JobId, worker: string, elapsed: nat)
    requires ProtocolInv(env, w) && id < |w.jobs| && Claimable(w.jobs[id], w.now)
    ensures var row := Claim(env.settings, w.jobs[id], w.now, worker);
            var t := Run(env, w, [Deliver(id, worker), Tick(elapsed)]);
            && t == w.(now := w.now + elapsed, jobs := w.jobs[id := row], workers := w.workers + {Claimed(id, row)})
            && Claimed(id, row) !in w.workers && Claimed(id, row) !in w.closing && AttemptInv(row)
  {
    RunOfTwo(env, w, Deliver(id, worker), Tick(elapsed));
    ClaimKeeps(env.settings, w.jobs[id], w.now, worker);
  }

  /** What the rest of a claimed delivery does when nothing comes between: the payload is applied iff the completion
      is committed, and the job ends completed iff nothing fails, not even after that. */
  lemma EndOfDelivery(env: Env, w: World, claim: InFlight, worker: string, fault: Fault)
    requires claim in w.workers && claim !in w.closing && claim.job < |w.jobs| && !fault.BeforeClaim?
    requires AttemptInv(w.jobs[claim.job]) && Current(w, claim)
    ensures var job := w.jobs[claim.job];
            var x := job.submission;
            var ops, e := EndOps(env, w.store, x, claim, worker, fault), EndError(env, w.store, x, fault);
            var t := Run(env, w, ops);
            && t.workers == w.workers - {claim} && t.closing == w.closing && |t.jobs| == |w.jobs|
            && t.jobs[claim.job].attemptCount == job.attemptCount
            && (if Commits(env, w.store, x, fault) then
                  CanFinish(env, w, claim) && t.ledger == FinishOutcome(env, w, claim).ledger
                else t.ledger == w.ledger)
            && t.jobs[claim.job].status ==
               if e.Some? then StatusAfterFailure(job, e.value)
               else if FinishOutcome(env, w, claim).rejected == 0 then Completed else CompletedWithErrors
  {
    var x := w.jobs[claim.job].submission;
    var committed, e := Commits(env, w.store, x, fault), EndError(env, w.store, x, fault);
    var last := LastOp(claim, worker, committed, e);
    RunOfTwo(env, w, last, last);
    RunOfTwo(env, w, Finish(claim), last);
    if committed {
      LastOpAfterCommit(env, w, claim, worker, e);
    } else {
      LastOpWithoutCommit(env, w, claim, worker, e.value);
    }
  }

  lemma LastOpAfterCommit(env: Env, w: World, claim: InFlight, worker: string, e: Option<ImportError>)
    requires CanFinish(env, w, claim) && claim !in w.closing
    requires AttemptInv(w.jobs[claim.job]) && Current(w, claim)
    ensures var job, t := w.jobs[claim.job], Exec(env, ExecFinish(env, w, claim), LastOp(claim, worker, true, e));
            && t.workers == w.workers - {claim} && t.closing == w.closing && |t.jobs| == |w.jobs|
            && t.jobs[claim.job].attemptCount == job.attemptCount
            && t.ledger == FinishOutcome(env, w, claim).ledger
            && t.jobs[claim.job].status ==
               if e.Some? then StatusAfterFailure(job, e.value)
               else if FinishOutcome(env, w, claim).rejected == 0 then Completed else CompletedWithErrors
  {
    var done := ExecFinish(env, w, claim);
    assert done.closing - {claim} == w.closing && done.workers - {claim} == w.workers - {claim};
    if e.Some? { FailureShape(env, done, LastOp(claim, worker, true, e), claim.job); }
  }

  lemma LastOpWithoutCommit(env: Env, w: World, claim: InFlight, worker: string, e: ImportError)
    requires claim in w.workers && claim.job < |w.jobs|
    requires AttemptInv(w.jobs[claim.job]) && Current(w, claim)
    ensures var job, t := w.jobs[claim.job], Exec(env, w, LastOp(claim, worker, false, Some(e)));
            && t.workers == w.workers - {claim} && t.closing == w.closing && |t.jobs| == |w.jobs|
            && t.jobs[claim.job].attemptCount == job.attemptCount
            && t.ledger == w.ledger && t.jobs[claim.job].status == StatusAfterFailure(job, e)
  {
  }

  lemma ClaimIsTimely(env: Env, w: World, id: JobId, worker: string, elapsed: nat)
    ensures TimelyRun(env, w, [Deliver(id, worker), Tick(elapsed)])
  {
    TimelyOfTwo(env, w, Deliver(id, worker), Tick(elapsed));
  }

  lemma TimelyOfTwo(env: Env, w: World, a: Op, b: Op)
    requires TimelyForAll(env, w, a) && TimelyForAll(env, Exec(env, w, a), b)
    ensures TimelyRun(env, w, [a, b])
  {
    RunOfTwo(env, w, a, b);
    assert [a, b][..1] == [a] && [a][..0] == [];
    forall id: JobId ensures TimelyFor(env, w, [a, b], id) {
      assert Hub.Timely(env, w, a, id) && Hub.Timely(env, Exec(env, w, a), b, id);
      assert TimelyFor(env, w, [a], id);
    }
  }

  /** The end of a delivery by the current worker is timely, except for a failure after the completion. */
  lemma EndIsTimely(env: Env, w: World, claim: InFlight, worker: string, committed: bool, e: Option<ImportError>)
    requires claim in w.workers && claim !in w.closing && claim.job < |w.jobs| && Current(w, claim)
    requires committed ==> CanFinish(env, w, claim)
    ensures TimelyForAll(env, w, Finish(claim))
    ensures if committed then TimelyForAll(env, ExecFinish(env, w, claim), LastOp(claim, worker, true, e)) <==> e.None?
            else TimelyForAll(env, w, LastOp(claim, worker, false, e))
  {
    if committed && e.Some? {
      assert !Hub.Timely(env, ExecFinish(env, w, claim), LastOp(claim, worker, true, e), claim.job);
    }
  }

  /** An uninterrupted delivery that claims in any reachable world: whether it is timely, and what it leaves behind.
      Its payload is applied exactly when the completion is committed. But the job stays completed only if nothing
      fails after that: otherwise the worker undoes the status of its own completion, and the run is not timely,
      though nobody interfered. */
  lemma UninterruptedDelivery(env: Env, w: World, id: JobId, worker: string, fault: Fault, elapsed: nat)
    requires ProtocolInv(env, w)
    requires id < |w.jobs| && Claimable(w.jobs[id], w.now) && !fault.BeforeClaim?
    ensures var x := w.jobs[id].submission;
            var ops := TaskOps(env, w, id, worker, fault, elapsed);
            var t := Run(env, w, ops);
            var committed, e := Commits(env, w.store, x, fault), EndError(env, w.store, x, fault);
            var row := Claim(env.settings, w.jobs[id], w.now, worker);
            && (TimelyRun(env, w, ops) <==> !(committed && e.Some?))
            && t.workers == w.workers && t.closing == w.closing && |t.jobs| == |w.jobs|
            && t.jobs[id].attemptCount == w.jobs[id].attemptCount + 1
            && t.ledger == (if committed then Applied(env, w, id).ledger else w.ledger)
            && t.jobs[id].status ==
               if e.Some? then StatusAfterFailure(row, e.value)
               else if Applied(env, w, id).rejected == 0 then Completed else CompletedWithErrors
  {
    var x, claim := w.jobs[id].submission, Claimed(id, Claim(env.settings, w.jobs[id], w.now, worker));
    var begin, end := [Deliver(id, worker), Tick(elapsed)], EndOps(env, w.store, x, claim, worker, fault);
    var committed, e := Commits(env, w.store, x, fault), EndError(env, w.store, x, fault);
    var mid := Run(env, w, begin);
    ClaimedAndWaited(env, w, id, worker, elapsed);
    RunOfSum(env, w, begin, end);
    EndOfDelivery(env, mid, claim, worker, fault);
    assert w.workers + {claim} - {claim} == w.workers;
    ClaimIsTimely(env, w, id, worker, elapsed);
    EndIsTimely(env, mid, claim, worker, committed, e);
    TimelyOfEnd(env, w, begin, claim, worker, committed, e);
  }

  /** What the completion of job `id` does to the world. */
  function Applied(env: Env, w: World, id: JobId): ImportOutcome
    requires id < |w.jobs| && AdaptRetainedPayload(env, w.store, w.jobs[id].submission).Ok?
  {
    var x := w.jobs[id].submission;
    ApplyInventoryResult(w.ledger, id, x.supplier, w.jobs[id].errors, AdaptRetainedPayload(env, w.store, x).value)
  }

  lemma TimelyOfEnd(env: Env, w: World, begin: seq<Op>, claim: InFlight, worker: string, committed: bool,
                    e: Option<ImportError>)
    requires TimelyRun(env, w, begin)
    ensures var mid, last := Run(env, w, begin), LastOp(claim, worker, committed, e);
            if committed then
              TimelyRun(env, w, begin + [Finish(claim), last]) <==>
              TimelyForAll(env, mid, Finish(claim)) && TimelyForAll(env, ExecFinish(env, mid, claim), last)
            else TimelyRun(env, w, begin + [last]) <==> TimelyForAll(env, mid, last)
  {
    var last := LastOp(claim, worker, committed, e);
    TimelyOfMore(env, w, begin, Finish(claim));
    TimelyOfMore(env, w, begin + [Finish(claim)], last);
    TimelyOfMore(env, w, begin, last);
    RunOfMore(env, w, begin, Finish(claim));
    assert begin + [Finish(claim)] + [last] == begin + [Finish(claim), last];
  }

  /** A delivery that cannot reach the store leaves the ledger alone and schedules a retry after the backoff while
      attempts are left, with the store's own code on the row and on the attempt; after the last one the job has
      failed. */
  lemma UnreachableStore(env: Env, w: World, id: JobId, worker: string, elapsed: nat)
    requires ProtocolInv(env, w) && id < |w.jobs| && Claimable(w.jobs[id], w.now)
    ensures var t := Run(env, w, TaskOps(env, w, id, worker, StoreUnreachable, elapsed));
            var n := w.jobs[id].attemptCount + 1;
            && t.ledger == w.ledger && |t.jobs| == |w.jobs|
            && var row := t.jobs[id];
            && row.attemptCount == n && n in row.attempts
            && row.status == (if n < w.jobs[id].maxAttempts then Queued else Failed)
            && row.failure == Some(Failure(TransientImportError, true)) && row.attempts[n].failure == row.failure
            && (row.status == Queued ==> row.nextRetryAt == Some(t.now + RetryDelay(env.settings, n) * 1_000_000))
  {
    UnreachableRun(env, w, id, worker, elapsed);
    var row := Claim(env.settings, w.jobs[id], w.now, worker);
    FailureExactly(env.settings, row, TransientError, w.now + elapsed, worker);
    ClaimExactly(env.settings, w.jobs[id], w.now, worker);
  }

  lemma UnreachableRun(env: Env, w: World, id: JobId, worker: string, elapsed: nat)
    requires ProtocolInv(env, w) && id < |w.jobs| && Claimable(w.jobs[id], w.now)
    ensures var t := Run(env, w, TaskOps(env, w, id, worker, StoreUnreachable, elapsed));
            var row := Claim(env.settings, w.jobs[id], w.now, worker);
            && t.now == w.now + elapsed && t.ledger == w.ledger && |t.jobs| == |w.jobs|
            && t.jobs[id] == RecordFailure(env.settings, row, TransientError, t.now, worker)
  {
    var claim := Claimed(id, Claim(env.settings, w.jobs[id], w.now, worker));
    var begin, fail := [Deliver(id, worker), Tick(elapsed)], FailAfterClaim(claim, TransientError, worker);
    ClaimedAndWaited(env, w, id, worker, elapsed);
    RunOfMore(env, w, begin, fail);
    FailureShape(env, Run(env, w, begin), fail, id);
    assert TaskOps(env, w, id, worker, StoreUnreachable, elapsed) == begin + [fail];
  }
}
