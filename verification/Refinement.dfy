/** A machine in which each job's payload is applied to the ledger in one step, once or never. A job goes through
    it exactly as long as its result is not spoiled, and the whole hub exactly as long as none is. */
module Refinement {
  import opened Domain
  import opened Ledger
  import opened LedgerLaws
  import opened Adapters
  import opened Jobs
  import opened JobLaws
  import opened Hub
  import opened HubLaws
  import opened Sound

  // ------------------------------------------------------------- the simple machine

  datatype Phase = Pending | Applied(errors: seq<RecordError>, counters: Counters) | GivenUp

  datatype Simple = Simple(ledger: State, phases: seq<Phase>)

  datatype Effect =
    | Nothing
    | Open
    | ApplyPayload(job: JobId, supplier: Id, payload: AdapterResult)
    | GiveUp(job: JobId)
    | Change(event: Event)

  /** Only a pending job can be applied or given up. */
  predicate Allowed(a: Simple, e: Effect) {
    match e
    case ApplyPayload(j, _, _) => j < |a.phases| && a.phases[j] == Pending
    case GiveUp(j) => j < |a.phases| && a.phases[j] == Pending
    case Change(event) => !event.Imported?
    case _ => true
  }

  function Do(a: Simple, e: Effect): Simple
    requires Allowed(a, e)
  {
    match e
    case Nothing => a
    case Open => a.(phases := a.phases + [Pending])
    case ApplyPayload(j, supplier, payload) =>
      var o := ApplyInventoryResult(a.ledger, j, supplier, [], payload);
      Simple(o.ledger, a.phases[j := Applied(o.errors, Counters(o.total, o.accepted, o.rejected))])
    case GiveUp(j) => a.(phases := a.phases[j := GivenUp])
    case Change(event) => a.(ledger := Apply(a.ledger, event))
  }

  predicate Moves(a: Simple, e: Effect, b: Simple) {
    Allowed(a, e) && b == Do(a, e)
  }

  // ------------------------------------------------------------------ one job's part

  function At(a: Simple, id: JobId): Option<Phase> {
    if id < |a.phases| then Some(a.phases[id]) else None
  }

  function AppliedBy(ledger: State, e: Effect): Phase
    requires e.ApplyPayload?
  {
    var o := ApplyInventoryResult(ledger, e.job, e.supplier, [], e.payload);
    Applied(o.errors, Counters(o.total, o.accepted, o.rejected))
  }

  /** Job `id` takes its part in the move: it changes its phase only when the effect is on it, and is applied or
      given up only while it is pending. */
  predicate JobMoves(a: Simple, e: Effect, b: Simple, id: JobId) {
    if e.Open? then At(b, id) == if id == |a.phases| then Some(Pending) else At(a, id)
    else if e.ApplyPayload? && e.job == id then At(a, id) == Some(Pending) && At(b, id) == Some(AppliedBy(a.ledger, e))
    else if e.GiveUp? && e.job == id then At(a, id) == Some(Pending) && At(b, id) == Some(GivenUp)
    else At(b, id) == At(a, id)
  }

  /** The ledger takes its part in the move. */
  predicate LedgerMoves(a: Simple, e: Effect, b: Simple) {
    match e
    case ApplyPayload(j, supplier, payload) =>
      b.ledger == ApplyInventoryResult(a.ledger, j, supplier, [], payload).ledger
    case Change(event) => !event.Imported? && b.ledger == Apply(a.ledger, event)
    case _ => b.ledger == a.ledger
  }

  /** A move is the parts of the ledger and of every job taken together. */
  lemma MovesByParts(a: Simple, e: Effect, b: Simple)
    ensures Moves(a, e, b) <==> LedgerMoves(a, e, b) && forall id: JobId :: JobMoves(a, e, b, id)
  {
    if LedgerMoves(a, e, b) && forall id: JobId :: JobMoves(a, e, b, id) {
      if e.ApplyPayload? || e.GiveUp? { assert JobMoves(a, e, b, e.job); }
      var c := Do(a, e);
      SamePhases(b, c) by {
        forall id: JobId ensures At(b, id) == At(c, id) { assert JobMoves(a, e, b, id); }
      }
    }
  }

  lemma SamePhases(b: Simple, c: Simple)
    requires forall id: JobId :: At(b, id) == At(c, id)
    ensures b.phases == c.phases
  {
    assert At(b, |b.phases|) == At(c, |b.phases|) && At(b, |c.phases|) == At(c, |c.phases|);
    forall i | 0 <= i < |b.phases| ensures b.phases[i] == c.phases[i] { assert At(b, i) == At(c, i); }
  }

  // -------------------------------------------------------------------- refinement

  function PhaseOf(job: Job): Phase {
    if job.status == Failed then GivenUp
    else if Succeeding(job.status) then Applied(job.errors, job.counters)
    else Pending
  }

  function Abstraction(w: World): Simple {
    Simple(w.ledger, seq(|w.jobs|, i requires 0 <= i < |w.jobs| => PhaseOf(w.jobs[i])))
  }

  predicate FailsNow(env: Env, w: World, op: Op, id: JobId) {
    && id < |w.jobs| && w.jobs[id].status != Failed
    && id < |Exec(env, w, op).jobs| && Exec(env, w, op).jobs[id].status == Failed
  }

  /** What an operation means to the simple machine. */
  function EffectOf(env: Env, w: World, op: Op): Effect {
    match op
    case Receive(_, _, _, _, _, _) => if |Exec(env, w, op).jobs| > |w.jobs| then Open else Nothing
    case ReplayFailed(_, _, _, _) => if |Exec(env, w, op).jobs| > |w.jobs| then Open else Nothing
    case Finish(claim) =>
      if CanFinish(env, w, claim) then
        var x := w.jobs[claim.job].submission;
        ApplyPayload(claim.job, x.supplier, AdaptRetainedPayload(env, w.store, x).value)
      else Nothing
    case FailAfterClaim(claim, _, _) => if FailsNow(env, w, op, claim.job) then GiveUp(claim.job) else Nothing
    case FailAfterFinish(claim, _, _) => if FailsNow(env, w, op, claim.job) then GiveUp(claim.job) else Nothing
    case FailBeforeClaim(id, _, _) => if FailsNow(env, w, op, id) then GiveUp(id) else Nothing
    case RecoverLease(id) => if FailsNow(env, w, op, id) then GiveUp(id) else Nothing
    case ChangeLedger(event) => if event.Imported? then Nothing else Change(event)
    case _ => Nothing
  }

  /** The operation is the move of the simple machine that it is meant to be. */
  predicate Refines(env: Env, w: World, op: Op) {
    Moves(Abstraction(w), EffectOf(env, w, op), Abstraction(Exec(env, w, op)))
  }

  /** It is for job `id`. */
  predicate RefinesFor(env: Env, w: World, op: Op, id: JobId) {
    JobMoves(Abstraction(w), EffectOf(env, w, op), Abstraction(Exec(env, w, op)), id)
  }

  /** The ledger always takes its part, even in a completion that spoils a result. */
  lemma LedgerRefines(env: Env, w: World, op: Op)
    ensures LedgerMoves(Abstraction(w), EffectOf(env, w, op), Abstraction(Exec(env, w, op)))
  {
    if op.Receive? || op.ReplayFailed? { SubmissionAppends(env, w, op); }
  }

  lemma FinishRefinesFor(env: Env, w: World, claim: InFlight, id: JobId)
    requires JobInv(env, w, id)
    ensures RefinesFor(env, w, Finish(claim), id) <==> !Spoils(env, w, Finish(claim), id)
  {
  }

  lemma FailurePhase(s: Settings, job: Job, e: ImportError, now: Time, worker: string)
    requires AttemptInv(job)
    ensures var row := RecordFailure(s, job, e, now, worker);
            && PhaseOf(row) == (if row.status == Failed then GivenUp else Pending)
            && (SpoilsRow(job, e) <==> Terminal(job.status) && PhaseOf(row) != PhaseOf(job))
  {
  }

  /** What a failure record means to the simple machine. */
  lemma FailureEffect(env: Env, w: World, op: Op, j: JobId)
    requires FailureHits(w, op, j)
    ensures var t := Exec(env, w, op);
            && |t.jobs| == |w.jobs| && (forall i: JobId :: i < |w.jobs| && i != j ==> t.jobs[i] == w.jobs[i])
            && t.jobs[j] == RecordFailure(env.settings, w.jobs[j], op.error, w.now, op.worker)
            && EffectOf(env, w, op) ==
               if w.jobs[j].status != Failed && t.jobs[j].status == Failed then GiveUp(j) else Nothing
  {
    FailureShape(env, w, op, j);
  }

  /** A failure gives the job up, or is not seen by the simple machine, exactly when it does not spoil the row. */
  lemma FailureRefinesFor(env: Env, w: World, op: Op, id: JobId)
    requires ProtocolInv(env, w) && (op.FailAfterClaim? || op.FailAfterFinish? || op.FailBeforeClaim?)
    ensures RefinesFor(env, w, op, id) <==> !Spoils(env, w, op, id)
  {
    if j: JobId :| FailureHits(w, op, j) {
      FailureEffect(env, w, op, j);
      if j == id {
        assert RowInv(env.settings, w.jobs[j], w.now);
        FailurePhase(env.settings, w.jobs[j], op.error, w.now, op.worker);
      } else {
        assert !FailureHits(w, op, id);
      }
    } else {
      NoFailureShape(env, w, op);
    }
  }

  lemma SubmissionRefinesFor(env: Env, w: World, op: Op, id: JobId)
    requires op.Receive? || op.ReplayFailed?
    ensures RefinesFor(env, w, op, id)
  {
    SubmissionAppends(env, w, op);
  }

  lemma RecoverRefinesFor(env: Env, w: World, j: JobId, id: JobId)
    ensures RefinesFor(env, w, RecoverLease(j), id)
  {
  }

  /** Receipts and claims are not seen by the simple machine. */
  lemma QuietRefinesFor(env: Env, w: World, op: Op, id: JobId)
    requires op.Receipt? || op.Deliver? || op.Tick? || op.Stop? || op.ChangeLedger?
    ensures RefinesFor(env, w, op, id)
  {
  }

  /** For one job, a transaction is the move that it is meant to be exactly when it does not spoil that job's result:
      everything else late workers do to it, or anybody to other jobs, is harmless. */
  lemma StepRefinesFor(env: Env, w: World, op: Op, id: JobId)
    requires JobInv(env, w, id)
    ensures RefinesFor(env, w, op, id) <==> !Spoils(env, w, op, id)
  {
    match op
    case Receive(_, _, _, _, _, _) => SubmissionRefinesFor(env, w, op, id);
    case ReplayFailed(_, _, _, _) => SubmissionRefinesFor(env, w, op, id);
    case Finish(claim) => FinishRefinesFor(env, w, claim, id);
    case FailAfterClaim(_, _, _) => FailureRefinesFor(env, w, op, id);
    case FailAfterFinish(_, _, _) => FailureRefinesFor(env, w, op, id);
    case FailBeforeClaim(_, _, _) => FailureRefinesFor(env, w, op, id);
    case RecoverLease(j) => RecoverRefinesFor(env, w, j, id);
    case _ => QuietRefinesFor(env, w, op, id);
  }

  /** For the whole hub, a transaction is the move that it is meant to be exactly when it spoils no result. */
  lemma StepRefines(env: Env, w: World, op: Op)
    requires AllInOrder(env, w)
    ensures Refines(env, w, op) <==> SpoilsNothing(env, w, op)
  {
    LedgerRefines(env, w, op);
    var a, e, b := Abstraction(w), EffectOf(env, w, op), Abstraction(Exec(env, w, op));
    MovesByParts(a, e, b);
    forall id: JobId ensures JobMoves(a, e, b, id) <==> !Spoils(env, w, op, id) {
      StepRefinesFor(env, w, op, id);
    }
  }

  // --------------------------------------------------------- whole runs of the machine

  function Effects(env: Env, w: World, ops: seq<Op>): seq<Effect> {
    if ops == [] then []
    else Effects(env, w, ops[..|ops| - 1]) + [EffectOf(env, Run(env, w, ops[..|ops| - 1]), ops[|ops| - 1])]
  }

  /** `b` is where the simple machine is after `effects`, each of them allowed. */
  ghost predicate Reaches(a: Simple, effects: seq<Effect>, b: Simple) {
    if effects == [] then b == a
    else
      var before, last := effects[..|effects| - 1], effects[|effects| - 1];
      exists mid :: Reaches(a, before, mid) && Moves(mid, last, b)
  }

  // --------------------------------------------------------------- exactly once, per job

  /** Every transaction of the run is its move, for job `id`. */
  predicate RefinesThroughoutFor(env: Env, w: World, ops: seq<Op>, id: JobId) {
    ops == [] ||
    var before := ops[..|ops| - 1];
    RefinesThroughoutFor(env, w, before, id) && RefinesFor(env, Run(env, w, before), ops[|ops| - 1], id)
  }

  /** A job goes through the simple machine in exactly the runs that do not spoil its result. */
  lemma {:induction false} SoundForIsExact(env: Env, w: World, ops: seq<Op>, id: JobId)
    requires ValidSettings(env.settings) && JobInv(env, w, id)
    ensures RefinesThroughoutFor(env, w, ops, id) <==> SoundFor(env, w, ops, id)
  {
    if ops != [] {
      var before := ops[..|ops| - 1];
      SoundForIsExact(env, w, before, id);
      if SoundFor(env, w, before, id) {
        SoundJobKeeps(env, w, before, id);
        StepRefinesFor(env, Run(env, w, before), ops[|ops| - 1], id);
      }
    }
  }

  function Applications(effects: seq<Effect>, job: JobId): nat {
    if effects == [] then 0
    else
      var last := effects[|effects| - 1];
      Applications(effects[..|effects| - 1], job) + (if last.ApplyPayload? && last.job == job then 1 else 0)
  }

  /** In the simple machine a job that started pending, or did not exist, is applied once if it is applied at
      the end, and never otherwise. */
  lemma {:induction false} AppliedAtMostOnce(a: Simple, effects: seq<Effect>, b: Simple, job: JobId)
    requires Reaches(a, effects, b)
    requires job < |a.phases| ==> a.phases[job] == Pending
    ensures Applications(effects, job) == if job < |b.phases| && b.phases[job].Applied? then 1 else 0
  {
    if effects != [] {
      var before, last := effects[..|effects| - 1], effects[|effects| - 1];
      var mid :| Reaches(a, before, mid) && Moves(mid, last, b);
      AppliedAtMostOnce(a, before, mid, job);
    }
  }

  lemma {:induction false} AppliedWhileSound(env: Env, w: World, ops: seq<Op>, id: JobId)
    requires RefinesThroughoutFor(env, w, ops, id) && (id < |w.jobs| ==> PhaseOf(w.jobs[id]) == Pending)
    ensures var p := At(Abstraction(Run(env, w, ops)), id);
            Applications(Effects(env, w, ops), id) == if p.Some? && p.value.Applied? then 1 else 0
  {
    if ops != [] {
      var before := ops[..|ops| - 1];
      AppliedWhileSound(env, w, before, id);
      var effects := Effects(env, w, ops);
      assert effects[..|effects| - 1] == Effects(env, w, before);
      assert RefinesFor(env, Run(env, w, before), ops[|ops| - 1], id);
    }
  }

  /** The main theorem of the protocol. In every run from an empty hub that does not spoil the result of a job,
      whatever late workers do to it and whatever is spoiled elsewhere: its payload was applied exactly once if it
      completed and never otherwise, and if it did not complete it has no snapshots, errors or counts. */
  lemma {:induction false} ExactlyOnce(env: Env, catalog: Catalog, start: Time, ops: seq<Op>, id: JobId)
    requires ValidSettings(env.settings) && SoundFor(env, Init(catalog, start), ops, id)
    ensures var w0, w := Init(catalog, start), Run(env, Init(catalog, start), ops);
            && Applications(Effects(env, w0, ops), id) ==
               (if id < |w.jobs| && Succeeding(w.jobs[id].status) then 1 else 0)
            && (id < |w.jobs| && !Succeeding(w.jobs[id].status) ==>
                  && SnapshotCount(w.ledger.snapshots, id) == 0
                  && w.jobs[id].errors == [] && w.jobs[id].counters == NOTHING_COUNTED)
  {
    var w0 := Init(catalog, start);
    InitIsSound(env, catalog, start, id);
    SoundForIsExact(env, w0, ops, id);
    SoundJobKeeps(env, w0, ops, id);
    AppliedWhileSound(env, w0, ops, id);
  }

  // ------------------------------------------------------------- the hub as a whole

  /** Every transaction of the run is its move of the simple machine. */
  predicate RefinesThroughout(env: Env, w: World, ops: seq<Op>) {
    ops == [] ||
    (RefinesThroughout(env, w, ops[..|ops| - 1]) && Refines(env, Run(env, w, ops[..|ops| - 1]), ops[|ops| - 1]))
  }

  ghost predicate AllInOrder(env: Env, w: World) {
    forall id: JobId :: JobInv(env, w, id)
  }

  lemma SoundRunKeeps(env: Env, w: World, ops: seq<Op>)
    requires ValidSettings(env.settings) && AllInOrder(env, w) && SoundRun(env, w, ops)
    ensures AllInOrder(env, Run(env, w, ops))
  {
    forall id: JobId ensures JobInv(env, Run(env, w, ops), id) { SoundJobKeeps(env, w, ops, id); }
  }

  /** The runs of the hub that refine the simple machine throughout are exactly those that spoil no result. */
  lemma {:induction false} SoundIsExact(env: Env, w: World, ops: seq<Op>)
    requires ValidSettings(env.settings) && AllInOrder(env, w)
    ensures RefinesThroughout(env, w, ops) <==> SoundRun(env, w, ops)
  {
    if ops != [] {
      var before, last := ops[..|ops| - 1], ops[|ops| - 1];
      SoundIsExact(env, w, before);
      SoundSteps(env, w, ops);
      if SoundRun(env, w, before) {
        SoundRunKeeps(env, w, before);
        StepRefines(env, Run(env, w, before), last);
      }
    }
  }

  lemma {:induction false} RefinementReaches(env: Env, w: World, ops: seq<Op>)
    requires RefinesThroughout(env, w, ops)
    ensures Reaches(Abstraction(w), Effects(env, w, ops), Abstraction(Run(env, w, ops)))
  {
    if ops != [] {
      var before, last := ops[..|ops| - 1], ops[|ops| - 1];
      RefinementReaches(env, w, before);
      var effects := Effects(env, w, ops);
      assert effects[..|effects| - 1] == Effects(env, w, before);
      assert Moves(Abstraction(Run(env, w, before)), effects[|effects| - 1], Abstraction(Run(env, w, ops)));
    }
  }

  /** A run of the hub that spoils no result is one of the simple machine, from its empty state. */
  lemma {:induction false} SoundRunReaches(env: Env, catalog: Catalog, start: Time, ops: seq<Op>)
    requires ValidSettings(env.settings) && SoundRun(env, Init(catalog, start), ops)
    ensures Reaches(Simple(Empty(catalog), []), Effects(env, Init(catalog, start), ops),
                    Abstraction(Run(env, Init(catalog, start), ops)))
  {
    var w0 := Init(catalog, start);
    forall id: JobId ensures JobInv(env, w0, id) { InitIsSound(env, catalog, start, id); }
    SoundIsExact(env, w0, ops);
    RefinementReaches(env, w0, ops);
    assert Abstraction(w0) == Simple(Empty(catalog), []);
  }
}
