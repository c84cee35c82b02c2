/** The whole hub as a transition system: the clock, the job table, the object store, the ledger, and the
    workers between their claim and their return. One operation is one committed transaction. */
module Hub {
  import opened Domain
  import opened Ledger
  import opened Adapters
  import opened Jobs

  type Bytes = seq<bv8>

  /** What the hub runs with: settings, the hash, the calendar, and the parsers in front of the adapters. */
  datatype Env = Env(
    settings: Settings,
    hash: Bytes -> Digest,
    dateOf: Time -> string,
    parseSupplierA: Bytes -> Option<SupplierAPayload>,
    splitSupplierB: Bytes -> CsvFile)

  /** `workers` have claimed and not completed, `closing` have completed and not returned. */
  datatype World = World(
    now: Time, jobs: seq<Job>, store: map<string, Bytes>, ledger: State, workers: set<InFlight>, closing: set<InFlight>)

  function Init(catalog: Catalog, now: Time): World {
    World(now, [], map[], Empty(catalog), {}, {})
  }

  // ---------------------------------------------------------------- submission

  function SourceName(t: SourceType): string {
    if t.SupplierAJson? then "supplier_a_json" else "supplier_b_csv"
  }

  function Extension(t: SourceType): string {
    if t.SupplierAJson? then "json" else "csv"
  }

  function BuildRawObjectKey(t: SourceType, sha: Digest, date: string): string {
    "raw/inventory/" + "source=" + SourceName(t) + "/" + "ingest_date=" + date + "/" + sha + "." + Extension(t)
  }

  datatype Request = Request(
    supplier: Id, sourceType: SourceType, adapterVersion: string, content: Bytes, sha: Digest,
    idempotencyKey: string, replayOf: Option<JobId>)

  /** What happens to a put: it is stored, it is refused, or it is stored but not confirmed. */
  datatype Put = Stored | Refused | Unconfirmed

  predicate SameRequestKey(x: Submission, supplier: Id, t: SourceType, idempotencyKey: string) {
    x.supplier == supplier && x.sourceType == t && x.idempotencyKey == idempotencyKey
  }

  /** The job submitted under this key, searched below `n`. */
  function FindJob(jobs: seq<Job>, supplier: Id, t: SourceType, idempotencyKey: string, n: nat): Option<JobId>
    requires n <= |jobs|
  {
    if n == 0 then None
    else if SameRequestKey(jobs[n - 1].submission, supplier, t, idempotencyKey) then Some(n - 1)
    else FindJob(jobs, supplier, t, idempotencyKey, n - 1)
  }

  function SubmissionOf(env: Env, r: Request, now: Time): Submission {
    Submission(r.supplier, r.sourceType, r.adapterVersion, r.sha,
               BuildRawObjectKey(r.sourceType, r.sha, env.dateOf(now)), |r.content|, r.idempotencyKey, r.replayOf, now)
  }

  function Submit(env: Env, w: World, r: Request, put: Put): (World, Result<JobId, ServiceError>) {
    if r.supplier !in w.ledger.catalog.suppliers then
      (w, Err(NotFound))
    else
      match FindJob(w.jobs, r.supplier, r.sourceType, r.idempotencyKey, |w.jobs|)
      case Some(id) =>
        if id < |w.jobs| && w.jobs[id].submission.sha == r.sha then (w, Ok(id)) else (w, Err(Conflict))
      case None =>
        var submission := SubmissionOf(env, r, w.now);
        var stored := w.(store := w.store[submission.objectKey := r.content]);
        match put
        case Refused => (w, Err(Unavailable))
        case Unconfirmed => (stored, Err(Unavailable))
        case Stored => (stored.(jobs := w.jobs + [NewJob(env.settings, submission)]), Ok(|w.jobs|))
  }

  /** Load the retained payload and compare it with the recorded checksum. */
  function LoadImportPayload(env: Env, store: map<string, Bytes>, x: Submission, reachable: bool):
    Result<Bytes, ImportError>
  {
    if !reachable then Err(TransientError)
    else if x.objectKey !in store then Err(PermanentError)
    else if env.hash(store[x.objectKey]) != x.sha then Err(PermanentError)
    else Ok(store[x.objectKey])
  }

  function ReplayRequest(x: Submission, original: JobId, content: Bytes, idempotencyKey: string): Request {
    Request(x.supplier, x.sourceType, x.adapterVersion, content, x.sha, idempotencyKey, Some(original))
  }

  function ReplayFailedImport(env: Env, w: World, original: JobId, idempotencyKey: string, reachable: bool, put: Put):
    (World, Result<JobId, ServiceError>)
  {
    if original >= |w.jobs| then (w, Err(NotFound))
    else if w.jobs[original].status != Failed then (w, Err(Conflict))
    else
      var x := w.jobs[original].submission;
      match LoadImportPayload(env, w.store, x, reachable)
      case Err(e) => (w, Err(if e == TransientError then Unavailable else Conflict))
      case Ok(content) => Submit(env, w, ReplayRequest(x, original, content, idempotencyKey), put)
  }

  // ---------------------------------------------------------------- operations

  datatype Op =
    | Tick(elapsed: nat)
    /** A partner request: the route hashes the content it received. */
    | Receive(supplier: Id, sourceType: SourceType, adapterVersion: string, content: Bytes, idempotencyKey: string,
              put: Put)
    | ReplayFailed(original: JobId, idempotencyKey: string, reachable: bool, put: Put)
    /** A dispatch receipt reaches the row. The service checks the status on a row it read before, so the
        write can land on a job that has moved on. */
    | Receipt(job: JobId)
    /** A message for the job is delivered, for the first time or again. */
    | Deliver(job: JobId, worker: string)
    | Finish(claim: InFlight)
    /** A failure of a worker that had claimed. */
    | FailAfterClaim(claim: InFlight, error: ImportError, worker: string)
    /** A failure of a worker after its completion was committed: the refresh of the row, or the answer to the
        commit, was lost. */
    | FailAfterFinish(claim: InFlight, error: ImportError, worker: string)
    /** A failure of a delivery that could not claim, whatever the job's status. */
    | FailBeforeClaim(job: JobId, error: ImportError, worker: string)
    | RecoverLease(job: JobId)
    /** A worker returns or crashes. */
    | Stop(claim: InFlight)
    | ChangeLedger(event: Event)

  function ExecDeliver(env: Env, w: World, id: JobId, worker: string): World
    requires id < |w.jobs|
  {
    if !Claimable(w.jobs[id], w.now) then w
    else
      var claimed := Claim(env.settings, w.jobs[id], w.now, worker);
      w.(jobs := w.jobs[id := claimed], workers := w.workers + {Claimed(id, claimed)})
  }

  function Adapt(env: Env, t: SourceType, content: Bytes): Result<AdapterResult, ImportError> {
    if t.SupplierAJson? then
      match env.parseSupplierA(content)
      case None => Err(UnexpectedError)
      case Some(payload) => Ok(AdaptSupplierA(payload))
    else
      Ok(AdaptSupplierB(env.splitSupplierB(content)))
  }

  /** What a worker reads back and adapts. */
  function AdaptRetainedPayload(env: Env, store: map<string, Bytes>, x: Submission):
    Result<AdapterResult, ImportError>
  {
    match LoadImportPayload(env, store, x, true)
    case Err(e) => Err(e)
    case Ok(content) => Adapt(env, x.sourceType, content)
  }

  /** The worker is still there and can complete: its payload adapts and its attempt row exists. */
  predicate CanFinish(env: Env, w: World, claim: InFlight) {
    && claim in w.workers && claim.job < |w.jobs|
    && claim.attempt in w.jobs[claim.job].attempts
    && AdaptRetainedPayload(env, w.store, w.jobs[claim.job].submission).Ok?
  }

  function FinishOutcome(env: Env, w: World, claim: InFlight): ImportOutcome
    requires CanFinish(env, w, claim)
  {
    var job := w.jobs[claim.job];
    var result := AdaptRetainedPayload(env, w.store, job.submission).value;
    ApplyInventoryResult(w.ledger, claim.job, job.submission.supplier, job.errors, result)
  }

  function ExecFinish(env: Env, w: World, claim: InFlight): World {
    if !CanFinish(env, w, claim) then w
    else
      var o := FinishOutcome(env, w, claim);
      w.(jobs := w.jobs[claim.job := Complete(w.jobs[claim.job], claim, o, w.now)],
         ledger := o.ledger,
         workers := w.workers - {claim},
         closing := w.closing + {claim})
  }

  function ExecFailure(env: Env, w: World, id: JobId, e: ImportError, worker: string): World
    requires id < |w.jobs|
  {
    w.(jobs := w.jobs[id := RecordFailure(env.settings, w.jobs[id], e, w.now, worker)])
  }

  function ExecRecover(w: World, id: JobId): World
    requires id < |w.jobs|
  {
    if LeaseExpired(w.jobs[id], w.now) && Recover(w.jobs[id], w.now).Ok? then
      w.(jobs := w.jobs[id := Recover(w.jobs[id], w.now).value])
    else w
  }

  function Exec(env: Env, w: World, op: Op): World {
    match op
    case Tick(elapsed) => w.(now := w.now + elapsed)
    case Receive(supplier, t, version, content, key, put) =>
      Submit(env, w, Request(supplier, t, version, content, env.hash(content), key, None), put).0
    case ReplayFailed(original, key, reachable, put) => ReplayFailedImport(env, w, original, key, reachable, put).0
    case Receipt(id) => if id < |w.jobs| then w.(jobs := w.jobs[id := Dispatched(w.jobs[id], w.now)]) else w
    case Deliver(id, worker) => if id < |w.jobs| then ExecDeliver(env, w, id, worker) else w
    case Finish(claim) => ExecFinish(env, w, claim)
    case FailAfterClaim(claim, e, worker) =>
      if claim in w.workers && claim.job < |w.jobs| then
        ExecFailure(env, w, claim.job, e, worker).(workers := w.workers - {claim})
      else w
    case FailAfterFinish(claim, e, worker) =>
      if claim in w.closing && claim.job < |w.jobs| then
        ExecFailure(env, w, claim.job, e, worker).(closing := w.closing - {claim})
      else w
    case FailBeforeClaim(id, e, worker) => if id < |w.jobs| then ExecFailure(env, w, id, e, worker) else w
    case RecoverLease(id) => if id < |w.jobs| then ExecRecover(w, id) else w
    case Stop(claim) => w.(workers := w.workers - {claim}, closing := w.closing - {claim})
    case ChangeLedger(event) => if event.Imported? then w else w.(ledger := Apply(w.ledger, event))
  }

  /** A run as coded: any operations in any order. */
  function Run(env: Env, w: World, ops: seq<Op>): World {
    if ops == [] then w else Exec(env, Run(env, w, ops[..|ops| - 1]), ops[|ops| - 1])
  }

  // ------------------------------------------------------------ ends of an attempt

  /** The operation records a failure on job `id`, whoever reports it. */
  predicate FailureHits(w: World, op: Op, id: JobId) {
    id < |w.jobs| &&
    match op
    case FailAfterClaim(claim, _, _) => claim in w.workers && claim.job == id
    case FailAfterFinish(claim, _, _) => claim in w.closing && claim.job == id
    case FailBeforeClaim(j, _, _) => j == id
    case _ => false
  }

  /** The operation completes job `id`. */
  predicate CompletionHits(env: Env, w: World, op: Op, id: JobId) {
    op.Finish? && op.claim.job == id && CanFinish(env, w, op.claim)
  }

  // ----------------------------------------------------------------- timeliness

  /** No worker is late on job `id`: a worker completes or fails it only while its attempt is the newest and the
      job is processing, and a failure before the claim is recorded only while it is queued. */
  predicate Timely(env: Env, w: World, op: Op, id: JobId) {
    && (CompletionHits(env, w, op, id) ==> Current(w, op.claim))
    && (FailureHits(w, op, id) ==> if op.FailBeforeClaim? then w.jobs[id].status == Queued else Current(w, op.claim))
  }

  predicate Current(w: World, claim: InFlight)
    requires claim.job < |w.jobs|
  {
    w.jobs[claim.job].status == Processing && claim.attempt == w.jobs[claim.job].attemptCount
  }

  predicate TimelyFor(env: Env, w: World, ops: seq<Op>, id: JobId) {
    ops == [] ||
    (TimelyFor(env, w, ops[..|ops| - 1], id) && Timely(env, Run(env, w, ops[..|ops| - 1]), ops[|ops| - 1], id))
  }

  /** No worker is late on any job. */
  ghost predicate TimelyRun(env: Env, w: World, ops: seq<Op>) {
    forall id: JobId :: TimelyFor(env, w, ops, id)
  }

  ghost predicate TimelyForAll(env: Env, w: World, op: Op) {
    forall id: JobId :: Timely(env, w, op, id)
  }

  lemma TimelyOfMore(env: Env, w: World, ops: seq<Op>, op: Op)
    ensures TimelyRun(env, w, ops + [op]) <==> TimelyRun(env, w, ops) && TimelyForAll(env, Run(env, w, ops), op)
  {
    var all := ops + [op];
    assert all[..|ops|] == ops;
    if TimelyRun(env, w, all) {
      forall id: JobId ensures TimelyFor(env, w, ops, id) && Timely(env, Run(env, w, ops), op, id) {
        assert TimelyFor(env, w, all, id);
      }
    } else {
      var id: JobId :| !TimelyFor(env, w, all, id);
      assert !TimelyFor(env, w, ops, id) || !Timely(env, Run(env, w, ops), op, id);
    }
  }
}
