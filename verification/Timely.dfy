/** Histories of one job: complete as long as its result is not spoiled and each completion is the newest attempt's;
    and terminal rows, final when no worker is late. */
module Timely {
  import opened Domain
  import opened Ledger
  import opened Jobs
  import opened JobLaws
  import opened Hub
  import opened HubLaws
  import opened Sound
  import opened HistoryRows

  /** The result and the history of job `id` are in order. */
  ghost predicate HistoryInv(env: Env, w: World, id: JobId) {
    JobInv(env, w, id) && (id < |w.jobs| ==> HistoryRowInv(w.jobs[id]))
  }

  /** The operation does not spoil the job, and completes it only by the worker of its newest attempt. Failures
      may be late, and may be recorded before a claim while the job is processing. */
  predicate Steady(env: Env, w: World, op: Op, id: JobId) {
    !Spoils(env, w, op, id) && (CompletionHits(env, w, op, id) ==> Current(w, op.claim))
  }

  predicate SteadyFor(env: Env, w: World, ops: seq<Op>, id: JobId) {
    ops == [] ||
    (SteadyFor(env, w, ops[..|ops| - 1], id) && Steady(env, Run(env, w, ops[..|ops| - 1]), ops[|ops| - 1], id))
  }

  lemma {:induction false} TimelyIsSteady(env: Env, w: World, ops: seq<Op>, id: JobId)
    requires TimelyFor(env, w, ops, id)
    ensures SteadyFor(env, w, ops, id)
  {
    if ops != [] { TimelyIsSteady(env, w, ops[..|ops| - 1], id); }
  }

  lemma InitHasHistory(env: Env, catalog: Catalog, start: Time, id: JobId)
    ensures HistoryInv(env, Init(catalog, start), id)
  {
  }

  // ------------------------------------------------------------------- steps keep it

  lemma AppendKeepsHistory(env: Env, w: World, op: Op, id: JobId)
    requires HistoryInv(env, w, id) && JobInv(env, Exec(env, w, op), id) && (op.Receive? || op.ReplayFailed?)
    ensures HistoryInv(env, Exec(env, w, op), id)
  {
    SubmissionAppends(env, w, op);
    var t := Exec(env, w, op);
    if id < |t.jobs| { assert RowInv(env.settings, t.jobs[id], t.now); }
  }

  lemma FailureStepKeepsHistory(env: Env, w: World, op: Op, id: JobId)
    requires HistoryInv(env, w, id) && JobInv(env, Exec(env, w, op), id) && !Spoils(env, w, op, id)
    requires op.FailAfterClaim? || op.FailAfterFinish? || op.FailBeforeClaim?
    ensures HistoryInv(env, Exec(env, w, op), id)
  {
    var t := Exec(env, w, op);
    if j: JobId :| FailureHits(w, op, j) {
      FailureShape(env, w, op, j);
      if j == id {
        assert RowInv(env.settings, t.jobs[id], t.now);
        FailureKeepsHistory(env.settings, w.jobs[id], op.error, w.now, op.worker);
      }
    } else {
      NoFailureShape(env, w, op);
    }
  }

  lemma FinishStepKeepsHistory(env: Env, w: World, claim: InFlight, id: JobId)
    requires HistoryInv(env, w, id) && JobInv(env, ExecFinish(env, w, claim), id) && Steady(env, w, Finish(claim), id)
    ensures HistoryInv(env, ExecFinish(env, w, claim), id)
  {
    if claim.job == id && CanFinish(env, w, claim) {
      assert RowInv(env.settings, ExecFinish(env, w, claim).jobs[id], w.now);
      CompleteKeepsHistory(w.jobs[id], claim, FinishOutcome(env, w, claim), w.now);
    }
  }

  lemma ClaimStepKeepsHistory(env: Env, w: World, op: Op, id: JobId)
    requires HistoryInv(env, w, id) && JobInv(env, Exec(env, w, op), id) && (op.Deliver? || op.RecoverLease?)
    ensures HistoryInv(env, Exec(env, w, op), id)
  {
    if id < |w.jobs| && op.job == id {
      assert RowInv(env.settings, Exec(env, w, op).jobs[id], w.now);
      if op.Deliver? { ClaimKeepsHistory(env.settings, w.jobs[id], w.now, op.worker); }
      if op.RecoverLease? && LeaseExpired(w.jobs[id], w.now) && Recover(w.jobs[id], w.now).Ok? {
        RecoverKeepsHistory(w.jobs[id], w.now);
      }
    }
  }

  lemma StepKeepsHistory(env: Env, w: World, op: Op, id: JobId)
    requires ValidSettings(env.settings) && HistoryInv(env, w, id) && Steady(env, w, op, id)
    ensures HistoryInv(env, Exec(env, w, op), id)
  {
    StepKeepsJob(env, w, op, id);
    match op
    case Receive(_, _, _, _, _, _) => AppendKeepsHistory(env, w, op, id);
    case ReplayFailed(_, _, _, _) => AppendKeepsHistory(env, w, op, id);
    case FailAfterClaim(_, _, _) => FailureStepKeepsHistory(env, w, op, id);
    case FailAfterFinish(_, _, _) => FailureStepKeepsHistory(env, w, op, id);
    case FailBeforeClaim(_, _, _) => FailureStepKeepsHistory(env, w, op, id);
    case Deliver(_, _) => ClaimStepKeepsHistory(env, w, op, id);
    case Finish(claim) => FinishStepKeepsHistory(env, w, claim, id);
    case RecoverLease(_) => ClaimStepKeepsHistory(env, w, op, id);
    case _ =>
  }

  /** A transaction that does not spoil the job keeps its history exactly when a completion it makes is that of the
      newest attempt, of a job still processing. */
  lemma HistoriesExactly(env: Env, w: World, op: Op, id: JobId)
    requires ValidSettings(env.settings) && HistoryInv(env, w, id) && !Spoils(env, w, op, id)
    ensures HistoryInv(env, Exec(env, w, op), id) <==> (CompletionHits(env, w, op, id) ==> Current(w, op.claim))
  {
    if Steady(env, w, op, id) {
      StepKeepsHistory(env, w, op, id);
    } else {
      StaleCompletionBreaks(w.jobs[id], op.claim, FinishOutcome(env, w, op.claim), w.now);
    }
  }

  /** Attempt rows, timestamps and failures of a job agree in every steady run. */
  lemma {:induction false} SteadyRunKeeps(env: Env, w: World, ops: seq<Op>, id: JobId)
    requires ValidSettings(env.settings) && HistoryInv(env, w, id) && SteadyFor(env, w, ops, id)
    ensures HistoryInv(env, Run(env, w, ops), id)
  {
    if ops != [] {
      SteadyRunKeeps(env, w, ops[..|ops| - 1], id);
      StepKeepsHistory(env, Run(env, w, ops[..|ops| - 1]), ops[|ops| - 1], id);
    }
  }

  /** In every steady run a job failed for a reason that its row and its newest attempt both record: an error that
      is not retryable, or any error after the last attempt that the settings allow. */
  lemma {:induction false} FailedForAReason(env: Env, catalog: Catalog, start: Time, ops: seq<Op>, id: JobId)
    requires ValidSettings(env.settings) && SteadyFor(env, Init(catalog, start), ops, id)
    ensures var w := Run(env, Init(catalog, start), ops);
            id < |w.jobs| && w.jobs[id].status == Failed ==>
              var job := w.jobs[id];
              && job.attemptCount in job.attempts
              && job.failure.Some? && job.attempts[job.attemptCount].failure == job.failure
              && job.attempts[job.attemptCount].completedAt == job.completedAt
              && (job.failure.value.retryable ==> forall n :: n in job.attempts <==> 1 <= n <= env.settings.maxAttempts)
  {
    InitHasHistory(env, catalog, start, id);
    SteadyRunKeeps(env, Init(catalog, start), ops, id);
    var w := Run(env, Init(catalog, start), ops);
    if id < |w.jobs| { assert RowInv(env.settings, w.jobs[id], w.now); }
  }

  // ------------------------------------------------------------- terminal is final

  /** Without late workers a dispatch receipt is the only thing that can still change a terminal row, and only in
      its dispatch time. */
  lemma StepFreezesTerminal(env: Env, w: World, op: Op, id: JobId)
    requires Hub.Timely(env, w, op, id) && id < |w.jobs| && Terminal(w.jobs[id].status)
    ensures var t := Exec(env, w, op);
            id < |t.jobs| && t.jobs[id] == if op == Receipt(id) then Dispatched(w.jobs[id], w.now) else w.jobs[id]
  {
    if op.Receive? || op.ReplayFailed? { SubmissionAppends(env, w, op); }
  }

  /** A terminal job row never changes again in any field but its dispatch time, as long as no worker is late on it. */
  lemma {:induction false} TerminalIsFinal(env: Env, w: World, ops: seq<Op>, id: JobId)
    requires TimelyFor(env, w, ops, id) && id < |w.jobs| && Terminal(w.jobs[id].status)
    ensures var t := Run(env, w, ops);
            id < |t.jobs| && t.jobs[id] == w.jobs[id].(dispatchedAt := t.jobs[id].dispatchedAt)
  {
    if ops != [] {
      TerminalIsFinal(env, w, ops[..|ops| - 1], id);
      StepFreezesTerminal(env, Run(env, w, ops[..|ops| - 1]), ops[|ops| - 1], id);
    }
  }
}
