/** How much work the messages of one job can cause: without late workers, and as coded. */
module Work {
  import opened Domain
  import opened Ledger
  import opened Jobs
  import opened JobLaws
  import opened Hub
  import opened HubLaws

  /** The operation is work on job `id`: a claim, a completion, a failure of a worker that had claimed, or the
      recovery of a lease. */
  predicate Works(env: Env, w: World, op: Op, id: JobId) {
    && id < |w.jobs|
    && (|| (op.Deliver? && op.job == id && Claimable(w.jobs[id], w.now))
        || CompletionHits(env, w, op, id)
        || (FailureHits(w, op, id) && !op.FailBeforeClaim?)
        || (op == RecoverLease(id) && LeaseExpired(w.jobs[id], w.now)))
  }

  function WorkCount(env: Env, w: World, ops: seq<Op>, id: JobId): nat {
    if ops == [] then 0
    else
      var before := ops[..|ops| - 1];
      WorkCount(env, w, before, id) + (if Works(env, Run(env, w, before), ops[|ops| - 1], id) then 1 else 0)
  }

  // ------------------------------------------------------------ without late workers

  lemma ClaimWorks(s: Settings, job: Job, now: Time, worker: string)
    requires AttemptInv(job) && Claimable(job, now)
    ensures 0 <= WorkLeft(Claim(s, job, now, worker)) < WorkLeft(job)
  {
  }

  lemma CompleteWorks(job: Job, w: InFlight, o: ImportOutcome, now: Time)
    requires AttemptInv(job) && job.status == Processing && w.attempt in job.attempts
    ensures 0 <= WorkLeft(Complete(job, w, o, now)) < WorkLeft(job)
  {
  }

  /** A failure after the claim works; one before the claim adds no work. */
  lemma FailureWorks(s: Settings, job: Job, e: ImportError, now: Time, worker: string)
    requires AttemptInv(job) && !Terminal(job.status)
    ensures var after := WorkLeft(RecordFailure(s, job, e, now, worker));
            if job.status == Processing then 0 <= after < WorkLeft(job) else 0 <= after <= WorkLeft(job)
  {
  }

  lemma RecoverWorks(job: Job, now: Time)
    requires AttemptInv(job) && LeaseExpired(job, now)
    ensures Recover(job, now).Ok? && 0 <= WorkLeft(Recover(job, now).value) < WorkLeft(job)
  {
  }

  /** The work a job still has; one that is not submitted yet has all its attempts. */
  function Budget(env: Env, w: World, id: JobId): int {
    if id < |w.jobs| then WorkLeft(w.jobs[id]) else 2 * env.settings.maxAttempts
  }

  lemma SubmissionWorks(env: Env, w: World, op: Op, id: JobId)
    requires op.Receive? || op.ReplayFailed?
    ensures Budget(env, Exec(env, w, op), id) == Budget(env, w, id)
  {
    SubmissionAppends(env, w, op);
  }

  lemma StepWorks(env: Env, w: World, op: Op, id: JobId)
    requires ProtocolInv(env, w) && Hub.Timely(env, w, op, id)
    ensures Budget(env, Exec(env, w, op), id) <= Budget(env, w, id) - (if Works(env, w, op, id) then 1 else 0)
  {
    if op.Receive? || op.ReplayFailed? {
      SubmissionWorks(env, w, op, id);
    } else if id < |w.jobs| {
      assert RowInv(env.settings, w.jobs[id], w.now);
      if FailureHits(w, op, id) {
        FailureShape(env, w, op, id);
        FailureWorks(env.settings, w.jobs[id], op.error, w.now, op.worker);
      } else if CompletionHits(env, w, op, id) {
        CompleteWorks(w.jobs[id], op.claim, FinishOutcome(env, w, op.claim), w.now);
      } else {
        OtherStepWorks(env, w, op, id);
      }
    }
  }

  lemma OtherStepWorks(env: Env, w: World, op: Op, id: JobId)
    requires ProtocolInv(env, w) && id < |w.jobs| && !op.Receive? && !op.ReplayFailed?
    requires !FailureHits(w, op, id) && !CompletionHits(env, w, op, id)
    ensures Budget(env, Exec(env, w, op), id) <= Budget(env, w, id) - (if Works(env, w, op, id) then 1 else 0)
  {
    assert RowInv(env.settings, w.jobs[id], w.now);
    if op.Deliver? && op.job == id && Claimable(w.jobs[id], w.now) {
      ClaimWorks(env.settings, w.jobs[id], w.now, op.worker);
    }
    if op.RecoverLease? && op.job == id && LeaseExpired(w.jobs[id], w.now) { RecoverWorks(w.jobs[id], w.now); }
  }

  /** Claims, completions, failures and recoveries of a job use up its budget, so there are at most
      2 * maxAttempts of them when no worker is late on it, however many messages are delivered. */
  lemma {:induction false} WorkIsBounded(env: Env, w: World, ops: seq<Op>, id: JobId)
    requires ValidSettings(env.settings) && ProtocolInv(env, w) && TimelyFor(env, w, ops, id)
    ensures WorkCount(env, w, ops, id) + Budget(env, Run(env, w, ops), id) <= Budget(env, w, id)
    ensures ProtocolInv(env, Run(env, w, ops)) && Budget(env, Run(env, w, ops), id) >= 0
  {
    if ops != [] {
      var before, last := ops[..|ops| - 1], ops[|ops| - 1];
      WorkIsBounded(env, w, before, id);
      StepWorks(env, Run(env, w, before), last, id);
      StepKeepsProtocol(env, Run(env, w, before), last);
    }
    var t := Run(env, w, ops);
    if id < |t.jobs| { assert RowInv(env.settings, t.jobs[id], t.now); }
  }

  // ------------------------------------------------------------------------ as coded

  function ClaimsOn(claims: set<InFlight>, id: JobId): set<InFlight> {
    set c | c in claims && c.job == id
  }

  /** The work a job can still cause as coded: claims to come, workers that can complete and then fail, workers
      that have completed and can still fail, and the lease. */
  function Potential(env: Env, w: World, id: JobId): int {
    if id < |w.jobs| then RowPotential(w.jobs[id]) + 2 * |ClaimsOn(w.workers, id)| + |ClaimsOn(w.closing, id)|
    else 4 * env.settings.maxAttempts
  }

  function RowPotential(job: Job): int {
    4 * (job.maxAttempts - job.attemptCount) + (if job.status == Processing then 1 else 0)
  }

  lemma FailurePotential(s: Settings, job: Job, e: ImportError, now: Time, worker: string)
    ensures RowPotential(RecordFailure(s, job, e, now, worker)) <= RowPotential(job)
  {
  }

  lemma OneClaimMore(claims: set<InFlight>, claim: InFlight, id: JobId)
    ensures |ClaimsOn(claims + {claim}, id)| <= |ClaimsOn(claims, id)| + (if claim.job == id then 1 else 0)
  {
    assert ClaimsOn(claims + {claim}, id) == ClaimsOn(claims, id) + (if claim.job == id then {claim} else {});
  }

  lemma OneClaimLess(claims: set<InFlight>, claim: InFlight, id: JobId)
    ensures |ClaimsOn(claims - {claim}, id)| ==
            |ClaimsOn(claims, id)| - (if claim in claims && claim.job == id then 1 else 0)
  {
    assert ClaimsOn(claims - {claim}, id) == ClaimsOn(claims, id) - {claim};
  }

  lemma ClaimUsesPotential(env: Env, w: World, op: Op, id: JobId)
    requires ProtocolInv(env, w) && id < |w.jobs| && op.Deliver?
    ensures id < |Exec(env, w, op).jobs|
    ensures Potential(env, Exec(env, w, op), id) <= Potential(env, w, id) - (if Works(env, w, op, id) then 1 else 0)
  {
    if op.job < |w.jobs| && Claimable(w.jobs[op.job], w.now) {
      OneClaimMore(w.workers, Claimed(op.job, Claim(env.settings, w.jobs[op.job], w.now, op.worker)), id);
    }
  }

  lemma FinishUsesPotential(env: Env, w: World, claim: InFlight, id: JobId)
    requires ProtocolInv(env, w) && id < |w.jobs|
    ensures var t := ExecFinish(env, w, claim);
            && id < |t.jobs|
            && Potential(env, t, id) <= Potential(env, w, id) - (if Works(env, w, Finish(claim), id) then 1 else 0)
  {
    OneClaimLess(w.workers, claim, id);
    OneClaimMore(w.closing, claim, id);
  }

  /** How many claims on job `id` a failure record ends: one if its worker had claimed, none otherwise. */
  lemma FailureEndsClaim(env: Env, w: World, op: Op, j: JobId, id: JobId)
    requires FailureHits(w, op, j)
    ensures var t := Exec(env, w, op);
            2 * |ClaimsOn(t.workers, id)| + |ClaimsOn(t.closing, id)| <=
            2 * |ClaimsOn(w.workers, id)| + |ClaimsOn(w.closing, id)|
            - (if j == id && !op.FailBeforeClaim? then 1 else 0)
  {
    if !op.FailBeforeClaim? {
      OneClaimLess(w.workers, op.claim, id);
      OneClaimLess(w.closing, op.claim, id);
    }
  }

  lemma FailureUsesPotential(env: Env, w: World, op: Op, id: JobId)
    requires ProtocolInv(env, w) && id < |w.jobs|
    requires op.FailAfterClaim? || op.FailAfterFinish? || op.FailBeforeClaim?
    ensures id < |Exec(env, w, op).jobs|
    ensures Potential(env, Exec(env, w, op), id) <= Potential(env, w, id) - (if Works(env, w, op, id) then 1 else 0)
  {
    if j: JobId :| FailureHits(w, op, j) {
      FailureEndsClaim(env, w, op, j, id);
      FailureShape(env, w, op, j);
      FailurePotential(env.settings, w.jobs[j], op.error, w.now, op.worker);
    } else {
      NoFailureShape(env, w, op);
    }
  }

  lemma SubmissionUsesPotential(env: Env, w: World, op: Op, id: JobId)
    requires ProtocolInv(env, w) && (op.Receive? || op.ReplayFailed?)
    ensures Potential(env, Exec(env, w, op), id) <= Potential(env, w, id)
  {
    SubmissionAppends(env, w, op);
    var t := Exec(env, w, op);
    if |w.jobs| <= id < |t.jobs| {
      assert ClaimsOn(t.workers, id) == {} == ClaimsOn(t.closing, id);
    }
  }

  lemma StepUsesPotential(env: Env, w: World, op: Op, id: JobId)
    requires ProtocolInv(env, w)
    ensures Potential(env, Exec(env, w, op), id) <= Potential(env, w, id) - (if Works(env, w, op, id) then 1 else 0)
  {
    if op.Receive? || op.ReplayFailed? {
      SubmissionUsesPotential(env, w, op, id);
    } else if id < |w.jobs| {
      match op
      case Deliver(_, _) => ClaimUsesPotential(env, w, op, id);
      case Finish(claim) => FinishUsesPotential(env, w, claim, id);
      case FailAfterClaim(_, _, _) => FailureUsesPotential(env, w, op, id);
      case FailAfterFinish(_, _, _) => FailureUsesPotential(env, w, op, id);
      case FailBeforeClaim(_, _, _) => FailureUsesPotential(env, w, op, id);
      case _ => OtherUsesPotential(env, w, op, id);
    }
  }

  lemma OtherUsesPotential(env: Env, w: World, op: Op, id: JobId)
    requires ProtocolInv(env, w) && id < |w.jobs|
    requires op.Tick? || op.Receipt? || op.RecoverLease? || op.Stop? || op.ChangeLedger?
    ensures Potential(env, Exec(env, w, op), id) <= Potential(env, w, id) - (if Works(env, w, op, id) then 1 else 0)
  {
    assert RowInv(env.settings, w.jobs[id], w.now);
    if op.Stop? {
      OneClaimLess(w.workers, op.claim, id);
      OneClaimLess(w.closing, op.claim, id);
    }
  }

  lemma {:induction false} WorkUsesPotential(env: Env, catalog: Catalog, start: Time, ops: seq<Op>, id: JobId)
    requires ValidSettings(env.settings)
    ensures WorkCount(env, Init(catalog, start), ops, id) + Potential(env, Run(env, Init(catalog, start), ops), id) <=
            4 * env.settings.maxAttempts
  {
    if ops != [] {
      var before := ops[..|ops| - 1];
      WorkUsesPotential(env, catalog, start, before, id);
      EveryRunKeepsProtocol(env, catalog, start, before);
      StepUsesPotential(env, Run(env, Init(catalog, start), before), ops[|ops| - 1], id);
    }
  }

  /** As coded, late workers included: claims, completions, recoveries, and failures that workers record before or
      after their completion, number at most 4 * maxAttempts for one job. */
  lemma {:induction false} EveryRunBoundsWork(env: Env, catalog: Catalog, start: Time, ops: seq<Op>, id: JobId)
    requires ValidSettings(env.settings)
    ensures WorkCount(env, Init(catalog, start), ops, id) <= 4 * env.settings.maxAttempts
  {
    WorkUsesPotential(env, catalog, start, ops, id);
    EveryRunKeepsProtocol(env, catalog, start, ops);
    var w := Run(env, Init(catalog, start), ops);
    if id < |w.jobs| { assert RowInv(env.settings, w.jobs[id], w.now); }
  }

  // ------------------------------------------------------------- the bound is reached

  lemma {:induction false} WorkOfSum(env: Env, w: World, a: seq<Op>, b: seq<Op>, id: JobId)
    ensures WorkCount(env, w, a + b, id) == WorkCount(env, w, a, id) + WorkCount(env, Run(env, w, a), b, id)
    ensures Run(env, w, a + b) == Run(env, Run(env, w, a), b)
  {
    RunOfSum(env, w, a, b);
    if b == [] {
      assert a + b == a;
    } else {
      var c := b[..|b| - 1];
      assert (a + b)[..|a + b| - 1] == a + c;
      WorkOfSum(env, w, a, c, id);
    }
  }

  lemma WorkOfOne(env: Env, w: World, op: Op, id: JobId)
    ensures WorkCount(env, w, [op], id) == if Works(env, w, op, id) then 1 else 0
    ensures Run(env, w, [op]) == Exec(env, w, op)
  {
    assert [op][..0] == [];
  }

  function FirstClaim(n: int): InFlight {
    InFlight(0, n, NOTHING_COUNTED)
  }

  /** One job that nothing was counted for, with attempts 1..n, and its readable payload. */
  ghost predicate Attempted(env: Env, w: World, n: int) {
    && |w.jobs| == 1 && w.jobs[0].maxAttempts == env.settings.maxAttempts && w.jobs[0].attemptCount == n
    && (forall i :: i in w.jobs[0].attempts <==> 1 <= i <= n)
    && AdaptRetainedPayload(env, w.store, w.jobs[0].submission).Ok?
  }

  /** Each of the n attempts was abandoned, and each worker is still at large. */
  ghost predicate AllAbandoned(env: Env, w: World, n: nat) {
    && Attempted(env, w, n) && w.jobs[0].counters == NOTHING_COUNTED
    && (n < env.settings.maxAttempts ==> Claimable(w.jobs[0], w.now))
    && forall i :: 1 <= i <= n ==> FirstClaim(i) in w.workers
  }

  function Round(s: Settings): seq<Op>
    requires s.lease >= 0
  {
    [Deliver(0, "w")] + [Tick(s.lease * SECOND + 1)] + [RecoverLease(0)]
  }

  /** The attempt after the n abandoned ones, until its lease has run out. */
  lemma ClaimRunsOut(env: Env, w: World, n: nat)
    requires ValidSettings(env.settings) && AllAbandoned(env, w, n) && n < env.settings.maxAttempts
    ensures var ops := [Deliver(0, "w")] + [Tick(env.settings.lease * SECOND + 1)];
            var t := Run(env, w, ops);
            && WorkCount(env, w, ops, 0) == 1
            && Attempted(env, t, n + 1) && t.jobs[0].counters == NOTHING_COUNTED && LeaseExpired(t.jobs[0], t.now)
            && forall i :: 1 <= i <= n + 1 ==> FirstClaim(i) in t.workers
  {
    var claim, wait := Deliver(0, "w"), Tick(env.settings.lease * SECOND + 1);
    WorkOfOne(env, w, claim, 0);
    WorkOfOne(env, Exec(env, w, claim), wait, 0);
    WorkOfSum(env, w, [claim], [wait], 0);
    assert FirstClaim(n + 1) in Exec(env, w, claim).workers;
  }

  /** A claim whose lease runs out. */
  lemma RoundWorksTwice(env: Env, w: World, n: nat)
    requires ValidSettings(env.settings) && AllAbandoned(env, w, n) && n < env.settings.maxAttempts
    ensures AllAbandoned(env, Run(env, w, Round(env.settings)), n + 1) && WorkCount(env, w, Round(env.settings), 0) == 2
  {
    var ops := [Deliver(0, "w")] + [Tick(env.settings.lease * SECOND + 1)];
    ClaimRunsOut(env, w, n);
    RecoveryAbandons(env, Run(env, w, ops), n + 1);
    WorkOfOne(env, Run(env, w, ops), RecoverLease(0), 0);
    WorkOfSum(env, w, ops, [RecoverLease(0)], 0);
    assert Round(env.settings) == ops + [RecoverLease(0)];
  }

  lemma RecoveryAbandons(env: Env, w: World, n: nat)
    requires Attempted(env, w, n) && w.jobs[0].counters == NOTHING_COUNTED && LeaseExpired(w.jobs[0], w.now) && n >= 1
    requires forall i :: 1 <= i <= n ==> FirstClaim(i) in w.workers
    ensures AllAbandoned(env, Exec(env, w, RecoverLease(0)), n) && Works(env, w, RecoverLease(0), 0)
  {
  }

  /** The first m workers have completed and failed after it; the others are still at large. */
  ghost predicate Closed(env: Env, w: World, m: nat) {
    && Attempted(env, w, env.settings.maxAttempts)
    && forall i :: m < i <= env.settings.maxAttempts ==> FirstClaim(i) in w.workers
  }

  function Closing(m: nat): seq<Op> {
    [Finish(FirstClaim(m))] + [FailAfterFinish(FirstClaim(m), UnexpectedError, "w")]
  }

  lemma ClosingWorksTwice(env: Env, w: World, m: nat)
    requires Closed(env, w, m) && m < env.settings.maxAttempts
    ensures Closed(env, Run(env, w, Closing(m + 1)), m + 1) && WorkCount(env, w, Closing(m + 1), 0) == 2
  {
    var finish, fail := Finish(FirstClaim(m + 1)), FailAfterFinish(FirstClaim(m + 1), UnexpectedError, "w");
    WorkOfOne(env, w, finish, 0);
    WorkOfOne(env, Exec(env, w, finish), fail, 0);
    WorkOfSum(env, w, [finish], [fail], 0);
  }

  function Rounds(s: Settings, n: nat): seq<Op>
    requires s.lease >= 0
  {
    if n == 0 then [] else Rounds(s, n - 1) + Round(s)
  }

  function Closings(m: nat): seq<Op> {
    if m == 0 then [] else Closings(m - 1) + Closing(m)
  }

  /** After `ops` the first n attempts are abandoned, and took two works each. */
  ghost predicate AbandonedAfter(env: Env, w: World, ops: seq<Op>, n: nat) {
    AllAbandoned(env, Run(env, w, ops), n) && WorkCount(env, w, ops, 0) == 2 * n
  }

  lemma OneMoreRound(env: Env, w: World, before: seq<Op>, ops: seq<Op>, n: nat)
    requires ValidSettings(env.settings) && AbandonedAfter(env, w, before, n) && n < env.settings.maxAttempts
    requires ops == before + Round(env.settings)
    ensures AbandonedAfter(env, w, ops, n + 1)
  {
    RoundWorksTwice(env, Run(env, w, before), n);
    WorkOfSum(env, w, before, Round(env.settings), 0);
  }

  lemma {:induction false} RoundsWork(env: Env, w: World, n: nat)
    requires ValidSettings(env.settings) && AllAbandoned(env, w, 0) && n <= env.settings.maxAttempts
    ensures AbandonedAfter(env, w, Rounds(env.settings, n), n)
  {
    if n > 0 {
      RoundsWork(env, w, n - 1);
      OneMoreRound(env, w, Rounds(env.settings, n - 1), Rounds(env.settings, n), n - 1);
    }
  }

  /** After `ops` the first m workers are closed, and took two works each. */
  ghost predicate ClosedAfter(env: Env, w: World, ops: seq<Op>, m: nat) {
    Closed(env, Run(env, w, ops), m) && WorkCount(env, w, ops, 0) == 2 * m
  }

  lemma OneMoreClosing(env: Env, w: World, before: seq<Op>, ops: seq<Op>, m: nat)
    requires ClosedAfter(env, w, before, m) && m < env.settings.maxAttempts && ops == before + Closing(m + 1)
    ensures ClosedAfter(env, w, ops, m + 1)
  {
    ClosingWorksTwice(env, Run(env, w, before), m);
    WorkOfSum(env, w, before, Closing(m + 1), 0);
  }

  lemma NothingClosed(env: Env, w: World)
    requires Closed(env, w, 0)
    ensures ClosedAfter(env, w, [], 0)
  {
  }

  lemma {:induction false} ClosingsWork(env: Env, w: World, m: nat)
    requires Closed(env, w, 0) && m <= env.settings.maxAttempts
    ensures ClosedAfter(env, w, Closings(m), m)
  {
    if m == 0 {
      NothingClosed(env, w);
    } else {
      ClosingsWork(env, w, m - 1);
      OneMoreClosing(env, w, Closings(m - 1), Closings(m), m - 1);
    }
  }

  /** The bound is exact, whatever the settings: every attempt can be claimed, abandoned, completed by its late
      worker, and failed by it after that. */
  lemma WorkBoundIsReached(env: Env, catalog: Catalog, start: Time, content: Bytes)
    requires ValidSettings(env.settings) && 0 in catalog.suppliers
    ensures var receive := Receive(0, SupplierBCsv, "v1", content, "key", Stored);
            var ops := [receive] + Rounds(env.settings, env.settings.maxAttempts) + Closings(env.settings.maxAttempts);
            WorkCount(env, Init(catalog, start), ops, 0) == 4 * env.settings.maxAttempts
  {
    var w0, receive := Init(catalog, start), Receive(0, SupplierBCsv, "v1", content, "key", Stored);
    var w1, n := Exec(env, w0, receive), env.settings.maxAttempts;
    WorkOfOne(env, w0, receive, 0);
    assert AllAbandoned(env, w1, 0);
    RoundsWork(env, w1, n);
    WorkOfSum(env, w0, [receive], Rounds(env.settings, n), 0);
    var w2 := Run(env, w1, Rounds(env.settings, n));
    assert Closed(env, w2, 0);
    ClosingsWork(env, w2, n);
    WorkOfSum(env, w0, [receive] + Rounds(env.settings, n), Closings(n), 0);
  }
}
