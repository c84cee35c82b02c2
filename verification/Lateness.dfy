/** What late workers, failures before the claim and failures after the completion do as coded: which transactions
    change a terminal job, runs that show it, and how many retries they schedule. */
module Lateness {
  import opened Domain
  import opened Ledger
  import opened Adapters
  import opened Jobs
  import opened JobLaws
  import opened Hub
  import opened HubLaws
  import opened SubmissionLaws

  // -------------------------------------------------------- terminal jobs as coded

  /** The failure record leads to a retry. */
  predicate Retries(job: Job, e: ImportError) {
    ClassifyImportFailure(e).retryable && job.attemptCount < job.maxAttempts
  }

  function CompletedStatus(o: ImportOutcome): ImportStatus {
    if o.rejected == 0 then Completed else CompletedWithErrors
  }

  /** As coded, what becomes of the status of a terminal job, and exactly when it changes: a failure record
      reopens it or makes it FAILED, a completion makes it completed, and nothing else touches it. */
  lemma TerminalStatusExactly(env: Env, w: World, op: Op, id: JobId)
    requires ProtocolInv(env, w) && id < |w.jobs| && Terminal(w.jobs[id].status)
    ensures id < |Exec(env, w, op).jobs|
    ensures var job, after := w.jobs[id], Exec(env, w, op).jobs[id];
            after.status == if FailureHits(w, op, id) then (if Retries(job, op.error) then Queued else Failed)
                            else if CompletionHits(env, w, op, id) then CompletedStatus(FinishOutcome(env, w, op.claim))
                            else job.status
    ensures var job, after := w.jobs[id], Exec(env, w, op).jobs[id];
            after.status != job.status <==>
              || (FailureHits(w, op, id) && (Retries(job, op.error) || job.status != Failed))
              || (CompletionHits(env, w, op, id) && job.status != CompletedStatus(FinishOutcome(env, w, op.claim)))
    ensures !Terminal(Exec(env, w, op).jobs[id].status) <==> FailureHits(w, op, id) && Retries(w.jobs[id], op.error)
  {
    assert RowInv(env.settings, w.jobs[id], w.now);
    if op.Receive? || op.ReplayFailed? { SubmissionAppends(env, w, op); }
    if FailureHits(w, op, id) { FailureShape(env, w, op, id); }
  }

  // ---------------------------------------------------------------- runs that show it

  function EmptyFileRun(content: Bytes): seq<Op> {
    [Receive(0, SupplierBCsv, "v1", content, "key", Stored), Deliver(0, "w"), Finish(InFlight(0, 1, NOTHING_COUNTED))]
  }

  lemma EmptyFileSubmitted(env: Env, catalog: Catalog, start: Time, content: Bytes)
    requires 0 in catalog.suppliers
    ensures var w := Run(env, Init(catalog, start), EmptyFileRun(content)[..1]);
            var x := SubmissionOf(env, Request(0, SupplierBCsv, "v1", content, env.hash(content), "key", None), start);
            w == World(start, [NewJob(env.settings, x)], map[x.objectKey := content], Empty(catalog), {}, {})
  {
    var ops := EmptyFileRun(content)[..1];
    assert ops[..0] == [];
    assert Run(env, Init(catalog, start), ops) == Exec(env, Init(catalog, start), ops[0]);
  }

  /** The empty file, claimed. */
  lemma EmptyFileClaimed(env: Env, catalog: Catalog, start: Time, content: Bytes)
    requires ValidSettings(env.settings) && 0 in catalog.suppliers && env.splitSupplierB(content) == Rows([])
    ensures var w := Run(env, Init(catalog, start), EmptyFileRun(content)[..2]);
            && |w.jobs| == 1 && w.jobs[0].attemptCount == 1 && 1 in w.jobs[0].attempts
            && w.jobs[0].maxAttempts == env.settings.maxAttempts && w.jobs[0].errors == [] &&
               w.jobs[0].counters == NOTHING_COUNTED
            && w.jobs[0].submission.supplier == 0 && w.jobs[0].submission.idempotencyKey == "key"
            && InFlight(0, 1, NOTHING_COUNTED) in w.workers
            && AdaptRetainedPayload(env, w.store, w.jobs[0].submission) == Ok(AdapterResult([], []))
  {
    var w0, ops := Init(catalog, start), EmptyFileRun(content);
    EmptyFileSubmitted(env, catalog, start, content);
    assert ops[..2] == ops[..1] + [ops[1]];
    RunOfMore(env, w0, ops[..1], ops[1]);
    assert AdaptRows([], 0) == AdapterResult([], []);
  }

  lemma EmptyFileCompletes(env: Env, catalog: Catalog, start: Time, content: Bytes)
    requires ValidSettings(env.settings) && 0 in catalog.suppliers && env.splitSupplierB(content) == Rows([])
    ensures var w := Run(env, Init(catalog, start), EmptyFileRun(content));
            && |w.jobs| == 1 && w.jobs[0].status == Completed
            && w.jobs[0].attemptCount == 1 && 1 in w.jobs[0].attempts &&
               w.jobs[0].maxAttempts == env.settings.maxAttempts
            && w.jobs[0].submission.supplier == 0 && w.jobs[0].submission.idempotencyKey == "key"
            && InFlight(0, 1, NOTHING_COUNTED) in w.closing
  {
    var ops := EmptyFileRun(content);
    EmptyFileClaimed(env, catalog, start, content);
    assert CanFinish(env, Run(env, Init(catalog, start), ops[..2]), ops[2].claim);
    NothingRejected([]);
  }

  /** From COMPLETED to QUEUED: a second delivery loses its database connection before it can see that the job
      is done. */
  lemma LateFailureReopens(env: Env, catalog: Catalog, start: Time, content: Bytes)
    requires ValidSettings(env.settings) && env.settings.maxAttempts >= 2
    requires 0 in catalog.suppliers && env.splitSupplierB(content) == Rows([])
    ensures var done := Run(env, Init(catalog, start), EmptyFileRun(content));
            var late := Run(env, Init(catalog, start),
                            EmptyFileRun(content) + [FailBeforeClaim(0, DatabaseError, "w")]);
            && |done.jobs| == 1 && done.jobs[0].status == Completed
            && |late.jobs| == 1 && late.jobs[0].status == Queued
  {
    EmptyFileCompletes(env, catalog, start, content);
    RunOfMore(env, Init(catalog, start), EmptyFileRun(content), FailBeforeClaim(0, DatabaseError, "w"));
  }

  /** From COMPLETED to FAILED: the second delivery fails for good. The applied payload can then be replayed. */
  lemma LateFailureRelabels(env: Env, catalog: Catalog, start: Time, content: Bytes)
    requires ValidSettings(env.settings) && 0 in catalog.suppliers && env.splitSupplierB(content) == Rows([])
    ensures var ops := EmptyFileRun(content) + [FailBeforeClaim(0, UnexpectedError, "w")];
            var done := Run(env, Init(catalog, start), EmptyFileRun(content));
            var late := Run(env, Init(catalog, start), ops);
            && |done.jobs| == 1 && done.jobs[0].status == Completed
            && |late.jobs| == 1 && late.jobs[0].status == Failed
            && ReplayFailedImport(env, late, 0, "again", true, Stored).1 == Ok(1)
  {
    EmptyFileCompletes(env, catalog, start, content);
    var fail := FailBeforeClaim(0, UnexpectedError, "w");
    RunOfMore(env, Init(catalog, start), EmptyFileRun(content), fail);
    ChecksumNeverFails(env, catalog, start, EmptyFileRun(content) + [fail], 0);
    CatalogPersists(env, Init(catalog, start), EmptyFileRun(content) + [fail]);
    var late := Run(env, Init(catalog, start), EmptyFileRun(content) + [fail]);
    assert FindJob(late.jobs, 0, late.jobs[0].submission.sourceType, "again", 1) == None;
  }

  /** From COMPLETED to QUEUED or FAILED by the very worker that completed: it loses the answer to its commit, or
      the refresh of the row, and records that as a failure. No second delivery is needed. */
  lemma OwnFailureUndoes(env: Env, catalog: Catalog, start: Time, content: Bytes, e: ImportError)
    requires ValidSettings(env.settings) && 0 in catalog.suppliers && env.splitSupplierB(content) == Rows([])
    ensures var done := Run(env, Init(catalog, start), EmptyFileRun(content));
            var fail := FailAfterFinish(InFlight(0, 1, NOTHING_COUNTED), e, "w");
            var late := Run(env, Init(catalog, start), EmptyFileRun(content) + [fail]);
            && |done.jobs| == 1 && done.jobs[0].status == Completed && |late.jobs| == 1
            && late.jobs[0].status ==
               if ClassifyImportFailure(e).retryable && env.settings.maxAttempts >= 2 then Queued else Failed
  {
    EmptyFileCompletes(env, catalog, start, content);
    RunOfMore(env, Init(catalog, start), EmptyFileRun(content),
              FailAfterFinish(InFlight(0, 1, NOTHING_COUNTED), e, "w"));
  }

  /** From FAILED to COMPLETED: a second delivery fails for good while the worker is busy, and the worker then
      completes. */
  lemma LateCompletionRevives(env: Env, catalog: Catalog, start: Time, content: Bytes)
    requires ValidSettings(env.settings) && 0 in catalog.suppliers && env.splitSupplierB(content) == Rows([])
    ensures var ops := EmptyFileRun(content);
            var failed := Run(env, Init(catalog, start), ops[..2] + [FailBeforeClaim(0, UnexpectedError, "v")]);
            var late := Run(env, Init(catalog, start),
                            ops[..2] + [FailBeforeClaim(0, UnexpectedError, "v")] + [ops[2]]);
            && |failed.jobs| == 1 && failed.jobs[0].status == Failed
            && |late.jobs| == 1 && late.jobs[0].status == Completed
  {
    var ops, fail := EmptyFileRun(content), FailBeforeClaim(0, UnexpectedError, "v");
    EmptyFileClaimed(env, catalog, start, content);
    RunOfMore(env, Init(catalog, start), ops[..2], fail);
    RunOfMore(env, Init(catalog, start), ops[..2] + [fail], ops[2]);
    var failed := Run(env, Init(catalog, start), ops[..2] + [fail]);
    assert CanFinish(env, failed, ops[2].claim);
    NothingRejected([]);
  }

  // ------------------------------------------------------------------------ retries

  predicate SchedulesRetry(env: Env, w: World, op: Op, id: JobId) {
    && FailureHits(w, op, id)
    && id < |Exec(env, w, op).jobs| && Exec(env, w, op).jobs[id].status == Queued
  }

  function RetryCount(env: Env, w: World, ops: seq<Op>, id: JobId): nat {
    if ops == [] then 0
    else
      var before := ops[..|ops| - 1];
      RetryCount(env, w, before, id) + (if SchedulesRetry(env, Run(env, w, before), ops[|ops| - 1], id) then 1 else 0)
  }

  /** A submission, and then `n` deliveries that cannot reach the database. */
  function UnreachableRun(content: Bytes, n: nat): seq<Op> {
    if n == 0 then [Receive(0, SupplierBCsv, "v1", content, "key", Stored)]
    else UnreachableRun(content, n - 1) + [UNREACHABLE]
  }

  /** One queued job, with no attempt or with its first. */
  ghost predicate Waiting(s: Settings, w: World) {
    && |w.jobs| == 1 && w.jobs[0].status == Queued && w.jobs[0].maxAttempts == s.maxAttempts
    && w.jobs[0].attemptCount == (if w.jobs[0].attemptCount in w.jobs[0].attempts then 1 else 0)
  }

  const UNREACHABLE := FailBeforeClaim(0, DatabaseError, "w")

  lemma UnreachableStep(env: Env, w: World)
    requires env.settings.maxAttempts >= 2 && Waiting(env.settings, w)
    ensures Waiting(env.settings, Exec(env, w, UNREACHABLE)) && SchedulesRetry(env, w, UNREACHABLE, 0)
    ensures TimelyForAll(env, w, UNREACHABLE)
  {
  }

  lemma CountOfMore(env: Env, w: World, ops: seq<Op>, op: Op, id: JobId)
    ensures RetryCount(env, w, ops + [op], id) ==
            RetryCount(env, w, ops, id) + if SchedulesRetry(env, Run(env, w, ops), op, id) then 1 else 0
  {
    assert (ops + [op])[..|ops|] == ops;
  }

  /** The run is timely, leaves the job waiting, and has scheduled `n` retries of it. */
  ghost predicate RetriesSoFar(env: Env, w: World, ops: seq<Op>, n: nat) {
    Waiting(env.settings, Run(env, w, ops)) && TimelyRun(env, w, ops) && RetryCount(env, w, ops, 0) == n
  }

  lemma OneMoreRetry(env: Env, w: World, ops: seq<Op>, n: nat)
    requires env.settings.maxAttempts >= 2 && RetriesSoFar(env, w, ops, n)
    ensures RetriesSoFar(env, w, ops + [UNREACHABLE], n + 1)
  {
    UnreachableStep(env, Run(env, w, ops));
    RunOfMore(env, w, ops, UNREACHABLE);
    CountOfMore(env, w, ops, UNREACHABLE, 0);
    TimelyOfMore(env, w, ops, UNREACHABLE);
  }

  lemma SubmissionWaits(env: Env, catalog: Catalog, start: Time, content: Bytes)
    requires 0 in catalog.suppliers
    ensures RetriesSoFar(env, Init(catalog, start), UnreachableRun(content, 0), 0)
  {
    var w0, ops := Init(catalog, start), UnreachableRun(content, 0);
    assert ops == [] + [ops[0]];
    TimelyOfMore(env, w0, [], ops[0]);
    assert ops[..0] == [];
    assert Run(env, w0, ops) == Exec(env, w0, ops[0]);
  }

  lemma {:induction false} UnreachableRunRetries(env: Env, catalog: Catalog, start: Time, content: Bytes, n: nat)
    requires env.settings.maxAttempts >= 2 && 0 in catalog.suppliers
    ensures RetriesSoFar(env, Init(catalog, start), UnreachableRun(content, n), n)
  {
    var w0 := Init(catalog, start);
    if n == 0 {
      SubmissionWaits(env, catalog, start, content);
    } else {
      var before, ops := UnreachableRun(content, n - 1), UnreachableRun(content, n);
      UnreachableRunRetries(env, catalog, start, content, n - 1);
      OneMoreRetry(env, w0, before, n - 1);
      assert ops == before + [UNREACHABLE];
      assert RetriesSoFar(env, w0, ops, n);
    }
  }

  lemma {:induction false} NoRetryWithOneAttempt(env: Env, catalog: Catalog, start: Time, ops: seq<Op>, id: JobId)
    requires ValidSettings(env.settings) && env.settings.maxAttempts == 1
    ensures RetryCount(env, Init(catalog, start), ops, id) == 0
  {
    if ops != [] {
      var before, last := ops[..|ops| - 1], ops[|ops| - 1];
      NoRetryWithOneAttempt(env, catalog, start, before, id);
      EveryRunKeepsProtocol(env, catalog, start, before);
      var w := Run(env, Init(catalog, start), before);
      if id < |w.jobs| { assert RowInv(env.settings, w.jobs[id], w.now); }
    }
  }

  ghost predicate RetriesBeyond(env: Env, catalog: Catalog, start: Time, id: JobId, n: nat) {
    exists ops :: TimelyRun(env, Init(catalog, start), ops) && RetryCount(env, Init(catalog, start), ops, id) > n
  }

  /** The retries of a job are unbounded, even when no worker is late, exactly when more than one attempt is
      allowed. */
  lemma RetriesUnboundedExactly(env: Env, catalog: Catalog, start: Time)
    requires ValidSettings(env.settings) && 0 in catalog.suppliers
    ensures (forall n: nat :: RetriesBeyond(env, catalog, start, 0, n)) <==> env.settings.maxAttempts >= 2
  {
    if env.settings.maxAttempts >= 2 {
      forall n: nat ensures RetriesBeyond(env, catalog, start, 0, n) {
        UnreachableRunRetries(env, catalog, start, [], n + 1);
      }
    } else if RetriesBeyond(env, catalog, start, 0, 0) {
      var ops :| RetryCount(env, Init(catalog, start), ops, 0) > 0;
      NoRetryWithOneAttempt(env, catalog, start, ops, 0);
    }
  }
}
