/** What holds in every run of the hub as coded: duplicated, early, late and crashed deliveries in any order. */
module HubLaws {
  import opened Domain
  import opened Ledger
  import opened LedgerLaws
  import opened Jobs
  import opened JobLaws
  import opened Hub

  ghost predicate RowsInv(env: Env, w: World) {
    forall i :: 0 <= i < |w.jobs| ==> RowInv(env.settings, w.jobs[i], w.now)
  }

  /** Every worker's attempt has a row. */
  ghost predicate WorkersInv(w: World) {
    forall c :: c in w.workers || c in w.closing ==> c.job < |w.jobs| && 1 <= c.attempt <= w.jobs[c.job].attemptCount
  }

  ghost predicate ProtocolInv(env: Env, w: World) {
    RowsInv(env, w) && WorkersInv(w)
  }

  /** A submission leaves the table alone or appends one new job. */
  lemma SubmitShape(env: Env, w: World, r: Request, put: Put)
    ensures var t := Submit(env, w, r, put).0;
            && Appends(env, w, t)
            && (t.jobs == w.jobs || t.jobs == w.jobs + [NewJob(env.settings, SubmissionOf(env, r, w.now))])
  {
  }

  lemma AppendKeeps(env: Env, w: World, t: World)
    requires ValidSettings(env.settings) && ProtocolInv(env, w)
    requires Appends(env, w, t)
    ensures ProtocolInv(env, t)
  {
    if t.jobs != w.jobs {
      var x: Submission :| x.createdAt == w.now && t.jobs == w.jobs + [NewJob(env.settings, x)];
      NewJobKeeps(env.settings, x, w.now);
    }
  }

  /** `t` is `w` with another row for job `id`; workers may have left. */
  ghost predicate ChangesRow(w: World, t: World, id: JobId) {
    && t.now == w.now && id < |w.jobs| == |t.jobs| && t.jobs == w.jobs[id := t.jobs[id]]
    && t.workers <= w.workers && t.closing <= w.workers + w.closing
  }

  /** Replacing one row keeps the invariant when the row does and its attempts are not fewer. */
  lemma RowChangeKeeps(env: Env, w: World, t: World, id: JobId)
    requires ProtocolInv(env, w) && ChangesRow(w, t, id)
    requires RowInv(env.settings, t.jobs[id], w.now) && t.jobs[id].attemptCount >= w.jobs[id].attemptCount
    ensures ProtocolInv(env, t)
  {
  }

  lemma ClaimKeepsProtocol(env: Env, w: World, id: JobId, worker: string)
    requires ProtocolInv(env, w) && id < |w.jobs|
    ensures ProtocolInv(env, ExecDeliver(env, w, id, worker))
  {
    ClaimKeeps(env.settings, w.jobs[id], w.now, worker);
  }

  ghost predicate Appends(env: Env, w: World, t: World) {
    && t.now == w.now && t.ledger == w.ledger && t.workers == w.workers && t.closing == w.closing
    && (|| t.jobs == w.jobs
        || exists x: Submission :: x.createdAt == w.now && t.jobs == w.jobs + [NewJob(env.settings, x)])
  }

  lemma SubmissionAppends(env: Env, w: World, op: Op)
    requires op.Receive? || op.ReplayFailed?
    ensures Appends(env, w, Exec(env, w, op))
  {
    match op
    case Receive(supplier, t, version, content, key, put) =>
      SubmitShape(env, w, Request(supplier, t, version, content, env.hash(content), key, None), put);
    case ReplayFailed(original, key, reachable, put) =>
      ReplayShape(env, w, original, key, reachable, put);
  }

  /** What a failure record does: one row is replaced, and its worker leaves. */
  lemma FailureShape(env: Env, w: World, op: Op, id: JobId)
    requires FailureHits(w, op, id)
    ensures var t := Exec(env, w, op);
            && ChangesRow(w, t, id) && t.ledger == w.ledger && t.store == w.store
            && t.jobs[id] == RecordFailure(env.settings, w.jobs[id], op.error, w.now, op.worker)
  {
  }

  /** A failure record that reaches no job changes no job. */
  lemma NoFailureShape(env: Env, w: World, op: Op)
    requires op.FailAfterClaim? || op.FailAfterFinish? || op.FailBeforeClaim?
    requires forall id: JobId :: !FailureHits(w, op, id)
    ensures Exec(env, w, op) == w
  {
    var id := if op.FailBeforeClaim? then op.job else op.claim.job;
    assert !FailureHits(w, op, id);
  }

  lemma FailureKeepsProtocol(env: Env, w: World, op: Op)
    requires ValidSettings(env.settings) && ProtocolInv(env, w)
    requires op.FailAfterClaim? || op.FailAfterFinish? || op.FailBeforeClaim?
    ensures ProtocolInv(env, Exec(env, w, op))
  {
    if id: JobId :| FailureHits(w, op, id) {
      FailureShape(env, w, op, id);
      FailureKeeps(env.settings, w.jobs[id], op.error, w.now, op.worker);
      RowChangeKeeps(env, w, Exec(env, w, op), id);
    } else {
      NoFailureShape(env, w, op);
    }
  }

  lemma SubmissionKeepsProtocol(env: Env, w: World, op: Op)
    requires ValidSettings(env.settings) && ProtocolInv(env, w) && (op.Receive? || op.ReplayFailed?)
    ensures ProtocolInv(env, Exec(env, w, op))
  {
    SubmissionAppends(env, w, op);
    AppendKeeps(env, w, Exec(env, w, op));
  }

  lemma FinishKeepsProtocol(env: Env, w: World, claim: InFlight)
    requires ProtocolInv(env, w)
    ensures ProtocolInv(env, ExecFinish(env, w, claim))
  {
    if CanFinish(env, w, claim) {
      CompleteKeeps(env.settings, w.jobs[claim.job], claim, FinishOutcome(env, w, claim), w.now);
      RowChangeKeeps(env, w, ExecFinish(env, w, claim), claim.job);
    }
  }

  lemma StepKeepsProtocol(env: Env, w: World, op: Op)
    requires ValidSettings(env.settings) && ProtocolInv(env, w)
    ensures ProtocolInv(env, Exec(env, w, op))
  {
    var t := Exec(env, w, op);
    match op
    case Receive(_, _, _, _, _, _) => SubmissionKeepsProtocol(env, w, op);
    case ReplayFailed(_, _, _, _) => SubmissionKeepsProtocol(env, w, op);
    case Receipt(id) => if id < |w.jobs| { RowChangeKeeps(env, w, t, id); }
    case Deliver(id, worker) => if id < |w.jobs| { ClaimKeepsProtocol(env, w, id, worker); }
    case Finish(claim) => FinishKeepsProtocol(env, w, claim);
    case FailAfterClaim(_, _, _) => FailureKeepsProtocol(env, w, op);
    case FailAfterFinish(_, _, _) => FailureKeepsProtocol(env, w, op);
    case FailBeforeClaim(_, _, _) => FailureKeepsProtocol(env, w, op);
    case RecoverLease(id) =>
      if id < |w.jobs| && LeaseExpired(w.jobs[id], w.now) {
        RecoverKeeps(env.settings, w.jobs[id], w.now);
        RowChangeKeeps(env, w, t, id);
      }
    case _ =>
  }

  lemma ReplayShape(env: Env, w: World, original: JobId, key: string, reachable: bool, put: Put)
    ensures Appends(env, w, ReplayFailedImport(env, w, original, key, reachable, put).0)
  {
    if original < |w.jobs| && w.jobs[original].status == Failed {
      var x := w.jobs[original].submission;
      var loaded := LoadImportPayload(env, w.store, x, reachable);
      if loaded.Ok? {
        SubmitShape(env, w, ReplayRequest(x, original, loaded.value, key), put);
      }
    }
  }

  /** The protocol invariant of every run as coded. */
  lemma {:induction false} EveryRunKeepsProtocol(env: Env, catalog: Catalog, start: Time, ops: seq<Op>)
    requires ValidSettings(env.settings)
    ensures ProtocolInv(env, Run(env, Init(catalog, start), ops))
  {
    if ops != [] {
      EveryRunKeepsProtocol(env, catalog, start, ops[..|ops| - 1]);
      StepKeepsProtocol(env, Run(env, Init(catalog, start), ops[..|ops| - 1]), ops[|ops| - 1]);
    }
  }

  /** Lease recovery never meets a job without a durable current attempt, in any run. */
  lemma {:induction false} RecoveryNeverFails(env: Env, catalog: Catalog, start: Time, ops: seq<Op>, id: JobId)
    requires ValidSettings(env.settings)
    ensures var w := Run(env, Init(catalog, start), ops);
            id < |w.jobs| && LeaseExpired(w.jobs[id], w.now) ==> Recover(w.jobs[id], w.now).Ok?
  {
    var w := Run(env, Init(catalog, start), ops);
    EveryRunKeepsProtocol(env, catalog, start, ops);
    if id < |w.jobs| && LeaseExpired(w.jobs[id], w.now) { RecoverKeeps(env.settings, w.jobs[id], w.now); }
  }

  /** In every reachable world, a job that is not terminal and left alone satisfies the dispatch or the
      recovery query at every instant beyond the longest configured delay. */
  lemma {:induction false} NoJobIsStuck(env: Env, catalog: Catalog, start: Time, ops: seq<Op>, id: JobId, later: Time)
    requires ValidSettings(env.settings)
    requires var w := Run(env, Init(catalog, start), ops);
             id < |w.jobs| && !Terminal(w.jobs[id].status) && later > w.now + Longest(env.settings) * SECOND
    ensures var job := Run(env, Init(catalog, start), ops).jobs[id];
            DueForDispatch(env.settings, job, later) || LeaseExpired(job, later)
  {
    EveryRunKeepsProtocol(env, catalog, start, ops);
    var w := Run(env, Init(catalog, start), ops);
    NotStuck(env.settings, w.jobs[id], w.now, later);
  }

  // ---------------------------------------------------------------- runs in parts

  lemma RunOfOne(env: Env, w: World, op: Op)
    ensures Run(env, w, [op]) == Exec(env, w, op)
  {
    assert [op][..0] == [];
  }

  lemma RunOfMore(env: Env, w: World, ops: seq<Op>, op: Op)
    ensures Run(env, w, ops + [op]) == Exec(env, Run(env, w, ops), op)
  {
    assert (ops + [op])[..|ops|] == ops;
  }

  lemma {:induction false} RunOfSum(env: Env, w: World, a: seq<Op>, b: seq<Op>)
    ensures Run(env, w, a + b) == Run(env, Run(env, w, a), b)
  {
    if b == [] {
      assert a + b == a;
    } else {
      assert (a + b)[..|a + b| - 1] == a + b[..|b| - 1];
      RunOfSum(env, w, a, b[..|b| - 1]);
    }
  }

  // ------------------------------------------------------------------ bounded claims

  predicate Claims(w: World, op: Op, id: JobId) {
    op.Deliver? && op.job == id && id < |w.jobs| && Claimable(w.jobs[id], w.now)
  }

  /** How often the job was claimed in a run. */
  function ClaimCount(env: Env, w: World, ops: seq<Op>, id: JobId): nat {
    if ops == [] then 0
    else
      var before := ops[..|ops| - 1];
      ClaimCount(env, w, before, id) + (if Claims(Run(env, w, before), ops[|ops| - 1], id) then 1 else 0)
  }

  lemma StepCountsClaims(env: Env, w: World, op: Op, id: JobId)
    ensures var t := Exec(env, w, op);
            && |w.jobs| <= |t.jobs|
            && (id < |w.jobs| ==>
                  t.jobs[id].attemptCount >= w.jobs[id].attemptCount + (if Claims(w, op, id) then 1 else 0))
            && (|w.jobs| <= id < |t.jobs| ==> t.jobs[id].attemptCount == 0)
  {
    match op
    case Receive(_, _, _, _, _, _) => SubmissionAppends(env, w, op);
    case ReplayFailed(_, _, _, _) => SubmissionAppends(env, w, op);
    case _ =>
  }

  lemma {:induction false} ClaimsAreAttempts(env: Env, w: World, ops: seq<Op>, id: JobId)
    requires |w.jobs| == 0
    ensures var t := Run(env, w, ops);
            ClaimCount(env, w, ops, id) <= if id < |t.jobs| then t.jobs[id].attemptCount else 0
  {
    if ops != [] {
      var before, op := ops[..|ops| - 1], ops[|ops| - 1];
      ClaimsAreAttempts(env, w, before, id);
      StepCountsClaims(env, Run(env, w, before), op, id);
    }
  }

  /** In any run as coded, a job is claimed at most `maxAttempts` times. */
  lemma {:induction false} ClaimsAreBounded(env: Env, catalog: Catalog, start: Time, ops: seq<Op>, id: JobId)
    requires ValidSettings(env.settings)
    ensures ClaimCount(env, Init(catalog, start), ops, id) <= env.settings.maxAttempts
  {
    ClaimsAreAttempts(env, Init(catalog, start), ops, id);
    EveryRunKeepsProtocol(env, catalog, start, ops);
    var w := Run(env, Init(catalog, start), ops);
    if id < |w.jobs| {
      assert RowInv(env.settings, w.jobs[id], w.now);
    }
  }

  // --------------------------------------------------------------- the ledger of a run

  /** The ledger events of one operation. A completion imports whether or not its worker is late. */
  function LedgerEvents(env: Env, w: World, op: Op): seq<Event> {
    match op
    case ChangeLedger(e) => if e.Imported? then [] else [e]
    case Finish(claim) =>
      if CanFinish(env, w, claim) then
        var x := w.jobs[claim.job].submission;
        [Imported(claim.job, x.supplier, AdaptRetainedPayload(env, w.store, x).value.records)]
      else []
    case _ => []
  }

  function LedgerHistory(env: Env, w: World, ops: seq<Op>): seq<Event> {
    if ops == [] then []
    else
      var before := ops[..|ops| - 1];
      LedgerHistory(env, w, before) + LedgerEvents(env, Run(env, w, before), ops[|ops| - 1])
  }

  lemma StepReplays(env: Env, w: World, op: Op)
    ensures Exec(env, w, op).ledger == Replay(w.ledger, LedgerEvents(env, w, op))
  {
    match op
    case Receive(_, _, _, _, _, _) => SubmissionAppends(env, w, op);
    case ReplayFailed(_, _, _, _) => SubmissionAppends(env, w, op);
    case Finish(claim) =>
      if CanFinish(env, w, claim) { ReplayOfOne(w.ledger, LedgerEvents(env, w, op)[0]); }
    case ChangeLedger(e) =>
      ReplayOfOne(w.ledger, e);
    case _ =>
  }

  lemma ReplayOfOne(s: State, e: Event)
    ensures Replay(s, [e]) == Apply(s, e)
  {
    assert [e][..0] == [];
  }

  lemma {:induction false} ReplayOfSum(s: State, a: seq<Event>, b: seq<Event>)
    ensures Replay(s, a + b) == Replay(Replay(s, a), b)
  {
    if b == [] {
      assert a + b == a;
    } else {
      assert (a + b)[..|a + b| - 1] == a + b[..|b| - 1];
      ReplayOfSum(s, a, b[..|b| - 1]);
    }
  }

  /** The ledger of every run is the atomic replay of its history: each completion is one import, applied at
      its place with the mappings in force there. */
  lemma {:induction false} LedgerIsReplay(env: Env, w: World, ops: seq<Op>)
    ensures Run(env, w, ops).ledger == Replay(w.ledger, LedgerHistory(env, w, ops))
  {
    if ops != [] {
      var before := ops[..|ops| - 1];
      LedgerIsReplay(env, w, before);
      StepReplays(env, Run(env, w, before), ops[|ops| - 1]);
      ReplayOfSum(w.ledger, LedgerHistory(env, w, before), LedgerEvents(env, Run(env, w, before), ops[|ops| - 1]));
    }
  }

  /** Even with late workers: one snapshot per source key, lineage, and positions as their last write. */
  lemma {:induction false} LedgerOfEveryRun(env: Env, catalog: Catalog, start: Time, ops: seq<Op>)
    ensures var history := LedgerHistory(env, Init(catalog, start), ops);
            LedgerInv(Run(env, Init(catalog, start), ops).ledger, WriteLog(Empty(catalog), history))
  {
    LedgerIsReplay(env, Init(catalog, start), ops);
    WholeHistory(catalog, LedgerHistory(env, Init(catalog, start), ops));
  }
}
