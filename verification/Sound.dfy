/** Soundness of one job: late workers may act on it, but its result is not completed again, undone or reopened.
    The result is then final, accounts for its payload, and agrees with the snapshots, whatever happens to other
    jobs. */
module Sound {
  import opened Domain
  import opened Ledger
  import opened LedgerLaws
  import opened Adapters
  import opened Jobs
  import opened JobLaws
  import opened Hub
  import opened HubLaws
  import opened SubmissionLaws

  // --------------------------------------------------------------------- soundness

  /** A failure record undoes the job's result: it hits a completed job, or reopens a failed one. */
  predicate SpoilsRow(job: Job, e: ImportError) {
    Succeeding(job.status) ||
    (job.status == Failed && ClassifyImportFailure(e).retryable && job.attemptCount < job.maxAttempts)
  }

  /** The result of job `id` is touched: the job is completed though terminal, or a failure is recorded that undoes
      its result. A check of the row's status by the writing transaction would rule it out. */
  predicate Spoils(env: Env, w: World, op: Op, id: JobId) {
    || (CompletionHits(env, w, op, id) && Terminal(w.jobs[id].status))
    || (FailureHits(w, op, id) && SpoilsRow(w.jobs[id], op.error))
  }

  /** Any operations in any order, as long as none spoils the result of job `id`. */
  predicate SoundFor(env: Env, w: World, ops: seq<Op>, id: JobId) {
    ops == [] ||
    (SoundFor(env, w, ops[..|ops| - 1], id) && !Spoils(env, Run(env, w, ops[..|ops| - 1]), ops[|ops| - 1], id))
  }

  /** No result is spoiled. */
  ghost predicate SoundRun(env: Env, w: World, ops: seq<Op>) {
    forall id: JobId :: SoundFor(env, w, ops, id)
  }

  /** A worker that is not late, and does not fail after its completion, never meets a terminal job. */
  lemma {:induction false} TimelyIsSound(env: Env, w: World, ops: seq<Op>, id: JobId)
    requires TimelyFor(env, w, ops, id)
    ensures SoundFor(env, w, ops, id)
  {
    if ops != [] { TimelyIsSound(env, w, ops[..|ops| - 1], id); }
  }

  /** The result of job `id` is in order. */
  ghost predicate JobInv(env: Env, w: World, id: JobId) {
    && ProtocolInv(env, w)
    && (forall k :: 0 <= k < |w.ledger.snapshots| ==> w.ledger.snapshots[k].job < |w.jobs|)
    && (forall c :: c in w.workers && c.job == id ==> c.loaded == NOTHING_COUNTED)
    && (id < |w.jobs| ==>
          ResultInv(w.jobs[id]) && w.jobs[id].counters.accepted == SnapshotCount(w.ledger.snapshots, id))
  }

  lemma InitIsSound(env: Env, catalog: Catalog, start: Time, id: JobId)
    ensures JobInv(env, Init(catalog, start), id)
  {
  }

  // ------------------------------------------------------------------- steps keep it

  lemma {:induction false} NoSnapshotsYet(snapshots: seq<Snapshot>, job: JobId)
    requires forall k :: 0 <= k < |snapshots| ==> snapshots[k].job != job
    ensures SnapshotCount(snapshots, job) == 0
  {
    if snapshots != [] { NoSnapshotsYet(snapshots[..|snapshots| - 1], job); }
  }

  lemma AppendKeepsJob(env: Env, w: World, t: World, id: JobId)
    requires JobInv(env, w, id) && ProtocolInv(env, t) && Appends(env, w, t)
    ensures JobInv(env, t, id)
  {
    if t.jobs != w.jobs && id == |w.jobs| {
      NoSnapshotsYet(w.ledger.snapshots, id);
      assert forall c :: c in t.workers ==> c.job != id;
    }
  }

  /** The snapshot counts after an import: its own job gains what it accepted, other jobs nothing. */
  lemma ImportCounts(s: State, job: JobId, supplier: Id, prior: seq<RecordError>, result: AdapterResult, other: JobId)
    ensures var o := ApplyInventoryResult(s, job, supplier, prior, result);
            && SnapshotCount(o.ledger.snapshots, other) ==
               SnapshotCount(s.snapshots, other) + (if other == job then o.accepted else 0)
            && s.snapshots <= o.ledger.snapshots
            && forall k :: |s.snapshots| <= k < |o.ledger.snapshots| ==> o.ledger.snapshots[k].job == job
  {
    var n := |result.records|;
    assert result.records[..n] == result.records;
    ImportIsFilter(s, job, supplier, result.records, n);
    AcceptedAreOwn(s, job, supplier, result.records, n, other);
    SnapshotCountOfSum(s.snapshots, AcceptedSnapshots(s, job, supplier, result.records, n), other);
    AcceptedNameTheirJob(s, job, supplier, result.records, n);
  }

  lemma {:induction false} AcceptedNameTheirJob(s: State, job: JobId, supplier: Id, records: seq<Record>, n: nat)
    requires n <= |records|
    ensures forall k :: 0 <= k < |AcceptedSnapshots(s, job, supplier, records, n)| ==>
              AcceptedSnapshots(s, job, supplier, records, n)[k].job == job
  {
    if n > 0 { AcceptedNameTheirJob(s, job, supplier, records, n - 1); }
  }

  lemma FinishCounts(env: Env, w: World, claim: InFlight, id: JobId)
    requires JobInv(env, w, id) && CanFinish(env, w, claim)
    ensures var o := FinishOutcome(env, w, claim);
            && SnapshotCount(o.ledger.snapshots, id) ==
               SnapshotCount(w.ledger.snapshots, id) + (if id == claim.job then o.accepted else 0)
            && (forall k :: 0 <= k < |o.ledger.snapshots| ==> o.ledger.snapshots[k].job < |w.jobs|)
  {
    var x := w.jobs[claim.job].submission;
    var result := AdaptRetainedPayload(env, w.store, x).value;
    ImportCounts(w.ledger, claim.job, x.supplier, w.jobs[claim.job].errors, result, id);
  }

  lemma FinishKeepsJob(env: Env, w: World, claim: InFlight, id: JobId)
    requires JobInv(env, w, id) && CanFinish(env, w, claim) && !Spoils(env, w, Finish(claim), id)
    requires ProtocolInv(env, ExecFinish(env, w, claim))
    ensures JobInv(env, ExecFinish(env, w, claim), id)
  {
    FinishCounts(env, w, claim, id);
    if claim.job == id { CompleteKeepsResults(w.jobs[id], claim, FinishOutcome(env, w, claim), w.now); }
  }

  lemma FailureKeepsJob(env: Env, w: World, op: Op, id: JobId)
    requires JobInv(env, w, id) && !Spoils(env, w, op, id) && ProtocolInv(env, Exec(env, w, op))
    requires op.FailAfterClaim? || op.FailAfterFinish? || op.FailBeforeClaim?
    ensures JobInv(env, Exec(env, w, op), id)
  {
    if j: JobId :| FailureHits(w, op, j) {
      FailureShape(env, w, op, j);
    } else {
      NoFailureShape(env, w, op);
    }
  }

  lemma StepKeepsJob(env: Env, w: World, op: Op, id: JobId)
    requires ValidSettings(env.settings) && JobInv(env, w, id) && !Spoils(env, w, op, id)
    ensures JobInv(env, Exec(env, w, op), id)
  {
    StepKeepsProtocol(env, w, op);
    match op
    case Receive(_, _, _, _, _, _) =>
      SubmissionAppends(env, w, op);
      AppendKeepsJob(env, w, Exec(env, w, op), id);
    case ReplayFailed(_, _, _, _) =>
      SubmissionAppends(env, w, op);
      AppendKeepsJob(env, w, Exec(env, w, op), id);
    case Finish(claim) => if CanFinish(env, w, claim) { FinishKeepsJob(env, w, claim, id); }
    case FailAfterClaim(_, _, _) => FailureKeepsJob(env, w, op, id);
    case FailAfterFinish(_, _, _) => FailureKeepsJob(env, w, op, id);
    case FailBeforeClaim(_, _, _) => FailureKeepsJob(env, w, op, id);
    case _ =>
  }

  /** As long as its result is not spoiled, a job's result, counters and snapshot count agree, whatever happens to
      other jobs. */
  lemma {:induction false} SoundJobKeeps(env: Env, w: World, ops: seq<Op>, id: JobId)
    requires ValidSettings(env.settings) && JobInv(env, w, id) && SoundFor(env, w, ops, id)
    ensures JobInv(env, Run(env, w, ops), id)
  {
    if ops != [] {
      SoundJobKeeps(env, w, ops[..|ops| - 1], id);
      StepKeepsJob(env, Run(env, w, ops[..|ops| - 1]), ops[|ops| - 1], id);
    }
  }

  // ------------------------------------------------------------- results are final

  /** Two terminal rows with the same results; a completed one differs at most in its dispatch time. */
  predicate SameResults(job: Job, later: Job) {
    && later.status == job.status && later.errors == job.errors && later.counters == job.counters
    && (Succeeding(job.status) ==> later == job.(dispatchedAt := later.dispatchedAt))
  }

  lemma StepKeepsResults(env: Env, w: World, op: Op, id: JobId)
    requires ProtocolInv(env, w) && !Spoils(env, w, op, id) && id < |w.jobs| && Terminal(w.jobs[id].status)
    ensures var t := Exec(env, w, op); id < |t.jobs| && SameResults(w.jobs[id], t.jobs[id])
  {
    assert RowInv(env.settings, w.jobs[id], w.now);
    if op.Receive? || op.ReplayFailed? { SubmissionAppends(env, w, op); }
    if FailureHits(w, op, id) { FailureShape(env, w, op, id); }
  }

  lemma {:induction false} RunKeepsProtocol(env: Env, w: World, ops: seq<Op>)
    requires ValidSettings(env.settings) && ProtocolInv(env, w)
    ensures ProtocolInv(env, Run(env, w, ops))
  {
    if ops != [] {
      RunKeepsProtocol(env, w, ops[..|ops| - 1]);
      StepKeepsProtocol(env, Run(env, w, ops[..|ops| - 1]), ops[|ops| - 1]);
    }
  }

  /** From any reachable world, a terminal job keeps its status and results as long as that job is not spoiled. */
  lemma {:induction false} ResultsAreFinal(env: Env, w: World, ops: seq<Op>, id: JobId)
    requires ValidSettings(env.settings) && ProtocolInv(env, w) && SoundFor(env, w, ops, id)
    requires id < |w.jobs| && Terminal(w.jobs[id].status)
    ensures var t := Run(env, w, ops); id < |t.jobs| && SameResults(w.jobs[id], t.jobs[id])
  {
    if ops != [] {
      var before := ops[..|ops| - 1];
      ResultsAreFinal(env, w, before, id);
      RunKeepsProtocol(env, w, before);
      StepKeepsResults(env, Run(env, w, before), ops[|ops| - 1], id);
    }
  }

  /** Every replay points to an older job that has failed. */
  ghost predicate ReplaysFailed(jobs: seq<Job>) {
    forall i :: 0 <= i < |jobs| && jobs[i].submission.replayOf.Some? ==>
      jobs[i].submission.replayOf.value < i && jobs[jobs[i].submission.replayOf.value].status == Failed
  }

  /** A new job is no replay, or the replay of a job that has failed. */
  lemma NewReplaysFailed(env: Env, w: World, op: Op)
    requires |w.jobs| < |Exec(env, w, op).jobs|
    ensures var t := Exec(env, w, op);
            |t.jobs| == |w.jobs| + 1 && t.jobs[..|w.jobs|] == w.jobs
            && var of := t.jobs[|w.jobs|].submission.replayOf;
               of.Some? ==> of.value < |w.jobs| && w.jobs[of.value].status == Failed
  {
    SubmissionAppends(env, w, op);
  }

  /** Replay links survive when submissions and failed rows do, and at most one sound link is added. */
  lemma LinksSurvive(jobs: seq<Job>, next: seq<Job>)
    requires ReplaysFailed(jobs) && |jobs| <= |next| <= |jobs| + 1
    requires forall i :: 0 <= i < |jobs| ==>
               next[i].submission == jobs[i].submission && (jobs[i].status == Failed ==> next[i].status == Failed)
    requires |jobs| < |next| && next[|jobs|].submission.replayOf.Some? ==>
               next[|jobs|].submission.replayOf.value < |jobs| &&
                 jobs[next[|jobs|].submission.replayOf.value].status == Failed
    ensures ReplaysFailed(next)
  {
    forall i | 0 <= i < |next| && next[i].submission.replayOf.Some?
      ensures next[i].submission.replayOf.value < i && next[next[i].submission.replayOf.value].status == Failed
    {
      if i < |jobs| { assert jobs[i].submission.replayOf.Some?; }
    }
  }

  lemma StepKeepsReplays(env: Env, w: World, op: Op)
    requires ProtocolInv(env, w) && ReplaysFailed(w.jobs) && SpoilsNothing(env, w, op)
    ensures ReplaysFailed(Exec(env, w, op).jobs)
  {
    var next := Exec(env, w, op).jobs;
    SubmissionsPersist(env, w, op);
    if |w.jobs| < |next| { NewReplaysFailed(env, w, op); }
    forall i | 0 <= i < |w.jobs| && w.jobs[i].status == Failed ensures next[i].status == Failed {
      StepKeepsResults(env, w, op, i);
    }
    LinksSurvive(w.jobs, next);
  }

  ghost predicate SpoilsNothing(env: Env, w: World, op: Op) {
    forall id: JobId :: !Spoils(env, w, op, id)
  }

  lemma SoundSteps(env: Env, w: World, ops: seq<Op>)
    requires ops != []
    ensures var before := ops[..|ops| - 1];
            SoundRun(env, w, ops) <==>
              SoundRun(env, w, before) && SpoilsNothing(env, Run(env, w, before), ops[|ops| - 1])
  {
    var before, last := ops[..|ops| - 1], ops[|ops| - 1];
    if SoundRun(env, w, ops) {
      forall id: JobId ensures SoundFor(env, w, before, id) && !Spoils(env, Run(env, w, before), last, id) {
        assert SoundFor(env, w, ops, id);
      }
    } else {
      var id: JobId :| !SoundFor(env, w, ops, id);
      assert !SoundFor(env, w, before, id) || Spoils(env, Run(env, w, before), last, id);
    }
  }

  /** In a sound run a job that was replayed stays failed: replay chains run through failed jobs to an older one. */
  lemma {:induction false} ReplayedJobsStayFailed(env: Env, catalog: Catalog, start: Time, ops: seq<Op>)
    requires ValidSettings(env.settings) && SoundRun(env, Init(catalog, start), ops)
    ensures ReplaysFailed(Run(env, Init(catalog, start), ops).jobs)
  {
    if ops != [] {
      var before := ops[..|ops| - 1];
      SoundSteps(env, Init(catalog, start), ops);
      ReplayedJobsStayFailed(env, catalog, start, before);
      EveryRunKeepsProtocol(env, catalog, start, before);
      StepKeepsReplays(env, Run(env, Init(catalog, start), before), ops[|ops| - 1]);
    }
  }

  // ------------------------------------------------------------------- accounting

  /** How many rows a payload has: its items or data rows, or one when the whole file is rejected. */
  function RowCount(env: Env, t: SourceType, content: Bytes): nat
    requires Adapt(env, t, content).Ok?
  {
    if t.SupplierAJson? then |env.parseSupplierA(content).value.items|
    else
      match env.splitSupplierB(content)
      case Rows(rows) => |rows|
      case _ => 1
  }

  /** The first completion of a job, however late its worker, accounts for every row of the payload, and the job is
      COMPLETED iff no error was recorded. */
  lemma CompletionAccounts(env: Env, w: World, claim: InFlight)
    requires JobInv(env, w, claim.job) && CanFinish(env, w, claim) && !Terminal(w.jobs[claim.job].status)
    ensures var x, t := w.jobs[claim.job].submission, ExecFinish(env, w, claim);
            var content := LoadImportPayload(env, w.store, x, true).value;
            var done := t.jobs[claim.job];
            && done.counters.total == RowCount(env, x.sourceType, content)
            && done.counters.accepted + done.counters.rejected == done.counters.total
            && done.counters.accepted == SnapshotCount(t.ledger.snapshots, claim.job)
            && (done.status == Completed <==> done.errors == [])
            && (done.status == CompletedWithErrors <==> done.errors != [])
  {
    var x := w.jobs[claim.job].submission;
    var content := LoadImportPayload(env, w.store, x, true).value;
    var result := AdaptRetainedPayload(env, w.store, x).value;
    FinishCounts(env, w, claim, claim.job);
    CompleteKeepsResults(w.jobs[claim.job], claim, FinishOutcome(env, w, claim), w.now);
    RowsOfPayload(env, x.sourceType, content);
    if RowsAccounted(result, RowCount(env, x.sourceType, content)) {
      RowsConserved(w.ledger, claim.job, x.supplier, result, RowCount(env, x.sourceType, content));
    } else {
      FileRejectionCountsOnce(w.ledger, claim.job, x.supplier, result);
    }
  }

  lemma RowsOfPayload(env: Env, t: SourceType, content: Bytes)
    requires Adapt(env, t, content).Ok?
    ensures var result, n := Adapt(env, t, content).value, RowCount(env, t, content);
            RowsAccounted(result, n) || (n == 1 && FileRejected(result))
  {
    if t.SupplierAJson? {
      SupplierARowsAccounted(env.parseSupplierA(content).value);
    } else {
      match env.splitSupplierB(content)
      case Rows(rows) => SupplierBRowsAccounted(rows, |rows|);
      case _ =>
    }
  }
}
