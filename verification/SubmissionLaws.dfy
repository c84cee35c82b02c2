/** Submission and replay over whole runs: retained payloads stay valid, a request key belongs to one job,
    and replay links lead back to older jobs with the same content. */
module SubmissionLaws {
  import opened Domain
  import opened Ledger
  import opened Adapters
  import opened Jobs
  import opened Hub
  import opened HubLaws

  // ------------------------------------------------------------- retained payloads

  /** The object key ends in the digest and the extension, so it determines both. */
  lemma ObjectKeyDeterminesDigest(t: SourceType, sha: Digest, date: string, t': SourceType, sha': Digest, date': string)
    requires BuildRawObjectKey(t, sha, date) == BuildRawObjectKey(t', sha', date')
    ensures t == t' && sha == sha'
  {
    var k, k' := BuildRawObjectKey(t, sha, date), BuildRawObjectKey(t', sha', date');
    var n := |k|;
    assert k[n - 1] == Extension(t)[|Extension(t)| - 1];
    assert k'[n - 1] == Extension(t')[|Extension(t')| - 1];
    assert t == t';
    var stem := n - |Extension(t)| - 1;
    assert k[stem - 64..stem] == sha;
    assert k'[stem - 64..stem] == sha';
  }

  ghost predicate Retained(env: Env, store: map<string, Bytes>, x: Submission) {
    && x.objectKey in store && env.hash(store[x.objectKey]) == x.sha
    && exists date :: x.objectKey == BuildRawObjectKey(x.sourceType, x.sha, date)
  }

  ghost predicate RetentionInv(env: Env, w: World) {
    forall i :: 0 <= i < |w.jobs| ==> Retained(env, w.store, w.jobs[i].submission)
  }

  /** A put of truly hashed content cannot break an earlier payload, even when it replaces its object. */
  lemma PutKeepsRetained(env: Env, store: map<string, Bytes>, x: Submission, t: SourceType, date: string,
                         content: Bytes)
    requires Retained(env, store, x)
    ensures Retained(env, store[BuildRawObjectKey(t, env.hash(content), date) := content], x)
  {
    var key := BuildRawObjectKey(t, env.hash(content), date);
    if x.objectKey == key {
      var d :| x.objectKey == BuildRawObjectKey(x.sourceType, x.sha, d);
      ObjectKeyDeterminesDigest(x.sourceType, x.sha, d, t, env.hash(content), date);
    }
  }

  lemma SubmitKeepsRetention(env: Env, w: World, r: Request, put: Put)
    requires RetentionInv(env, w) && r.sha == env.hash(r.content)
    ensures RetentionInv(env, Submit(env, w, r, put).0)
  {
    var t := Submit(env, w, r, put).0;
    forall i | 0 <= i < |t.jobs| ensures Retained(env, t.store, t.jobs[i].submission) {
      if i < |w.jobs| {
        assert t.jobs[i] == w.jobs[i];
        PutKeepsRetained(env, w.store, w.jobs[i].submission, r.sourceType, env.dateOf(w.now), r.content);
      } else {
        assert t.jobs[i].submission == SubmissionOf(env, r, w.now);
      }
    }
  }

  // --------------------------------------------------------------- keys and links

  ghost predicate KeysUnique(jobs: seq<Job>) {
    forall i, j :: 0 <= i < j < |jobs| ==>
      var x := jobs[i].submission; !SameRequestKey(jobs[j].submission, x.supplier, x.sourceType, x.idempotencyKey)
  }

  /** A replay points to an older job that submitted the same content the same way. */
  ghost predicate LinksBack(jobs: seq<Job>) {
    forall i :: 0 <= i < |jobs| && jobs[i].submission.replayOf.Some? ==>
      && jobs[i].submission.replayOf.value < i
      && SameContent(jobs[i].submission, jobs[jobs[i].submission.replayOf.value].submission)
  }

  predicate SameContent(x: Submission, y: Submission) {
    x.supplier == y.supplier && x.sourceType == y.sourceType && x.adapterVersion == y.adapterVersion && x.sha == y.sha
  }

  ghost predicate SubmissionInv(env: Env, w: World) {
    RetentionInv(env, w) && KeysUnique(w.jobs) && LinksBack(w.jobs)
  }

  lemma {:induction false} FindJobFinds(jobs: seq<Job>, supplier: Id, t: SourceType, key: string, n: nat)
    requires n <= |jobs|
    ensures match FindJob(jobs, supplier, t, key, n)
            case Some(id) => id < n && SameRequestKey(jobs[id].submission, supplier, t, key)
            case None => forall i :: 0 <= i < n ==> !SameRequestKey(jobs[i].submission, supplier, t, key)
  {
    if n > 0 { FindJobFinds(jobs, supplier, t, key, n - 1); }
  }

  lemma SubmitKeepsKeysAndLinks(env: Env, w: World, r: Request, put: Put)
    requires KeysUnique(w.jobs) && LinksBack(w.jobs)
    requires r.replayOf.Some? ==>
               && r.replayOf.value < |w.jobs|
               && SameContent(SubmissionOf(env, r, w.now), w.jobs[r.replayOf.value].submission)
    ensures KeysUnique(Submit(env, w, r, put).0.jobs) && LinksBack(Submit(env, w, r, put).0.jobs)
  {
    FindJobFinds(w.jobs, r.supplier, r.sourceType, r.idempotencyKey, |w.jobs|);
  }

  /** Submissions never change and jobs are never removed. */
  lemma SubmissionsPersist(env: Env, w: World, op: Op)
    ensures var t := Exec(env, w, op);
            |w.jobs| <= |t.jobs| && forall i :: 0 <= i < |w.jobs| ==> t.jobs[i].submission == w.jobs[i].submission
  {
    match op
    case Receive(_, _, _, _, _, _) => SubmissionAppends(env, w, op);
    case ReplayFailed(_, _, _, _) => SubmissionAppends(env, w, op);
    case _ =>
  }

  lemma {:induction false} SubmissionsPersistInRuns(env: Env, w: World, ops: seq<Op>)
    ensures var t := Run(env, w, ops);
            |w.jobs| <= |t.jobs| && forall i :: 0 <= i < |w.jobs| ==> t.jobs[i].submission == w.jobs[i].submission
  {
    if ops != [] {
      SubmissionsPersistInRuns(env, w, ops[..|ops| - 1]);
      SubmissionsPersist(env, Run(env, w, ops[..|ops| - 1]), ops[|ops| - 1]);
    }
  }

  lemma StepKeepsSubmissions(env: Env, w: World, op: Op)
    requires SubmissionInv(env, w)
    ensures SubmissionInv(env, Exec(env, w, op))
  {
    match op
    case Receive(supplier, t, version, content, key, put) =>
      GenuineKeepsSubmissions(env, w, Request(supplier, t, version, content, env.hash(content), key, None), put);
    case ReplayFailed(original, key, reachable, put) =>
      ReplayKeepsSubmissions(env, w, original, key, reachable, put);
    case _ => OtherStepKeepsSubmissions(env, w, op);
  }

  lemma OtherStepKeepsSubmissions(env: Env, w: World, op: Op)
    requires SubmissionInv(env, w) && !op.Receive? && !op.ReplayFailed?
    ensures SubmissionInv(env, Exec(env, w, op))
  {
    SubmissionsPersist(env, w, op);
    SameSubmissionsKeep(env, w, Exec(env, w, op));
  }

  /** Where a request comes from: a partner, whose content is hashed on receipt, or the replay of a failed job,
      with the content that was retained for it. */
  predicate Genuine(env: Env, w: World, r: Request) {
    match r.replayOf
    case None => r.sha == env.hash(r.content)
    case Some(original) =>
      && original < |w.jobs| && w.jobs[original].status == Failed
      && LoadImportPayload(env, w.store, w.jobs[original].submission, true) == Ok(r.content)
      && r == ReplayRequest(w.jobs[original].submission, original, r.content, r.idempotencyKey)
  }

  lemma GenuineKeepsSubmissions(env: Env, w: World, r: Request, put: Put)
    requires SubmissionInv(env, w) && Genuine(env, w, r)
    ensures SubmissionInv(env, Submit(env, w, r, put).0)
  {
    SubmitKeepsRetention(env, w, r, put);
    SubmitKeepsKeysAndLinks(env, w, r, put);
  }

  lemma SameSubmissionsKeep(env: Env, w: World, t: World)
    requires SubmissionInv(env, w) && t.store == w.store && |t.jobs| == |w.jobs|
    requires forall i :: 0 <= i < |w.jobs| ==> t.jobs[i].submission == w.jobs[i].submission
    ensures SubmissionInv(env, t)
  {
    forall i | 0 <= i < |t.jobs| ensures Retained(env, t.store, t.jobs[i].submission) {
      assert Retained(env, w.store, w.jobs[i].submission);
    }
    forall i | 0 <= i < |t.jobs| && t.jobs[i].submission.replayOf.Some?
      ensures t.jobs[i].submission.replayOf.value < i
      ensures SameContent(t.jobs[i].submission, t.jobs[t.jobs[i].submission.replayOf.value].submission)
    {
      assert w.jobs[i].submission.replayOf.Some?;
    }
  }

  lemma ReplayKeepsSubmissions(env: Env, w: World, original: JobId, key: string, reachable: bool, put: Put)
    requires SubmissionInv(env, w)
    ensures SubmissionInv(env, ReplayFailedImport(env, w, original, key, reachable, put).0)
  {
    if original < |w.jobs| && w.jobs[original].status == Failed {
      var x := w.jobs[original].submission;
      var loaded := LoadImportPayload(env, w.store, x, reachable);
      if loaded.Ok? {
        GenuineKeepsSubmissions(env, w, ReplayRequest(x, original, loaded.value, key), put);
      }
    }
  }

  lemma {:induction false} EveryRunKeepsSubmissions(env: Env, catalog: Catalog, start: Time, ops: seq<Op>)
    ensures SubmissionInv(env, Run(env, Init(catalog, start), ops))
  {
    if ops != [] {
      EveryRunKeepsSubmissions(env, catalog, start, ops[..|ops| - 1]);
      StepKeepsSubmissions(env, Run(env, Init(catalog, start), ops[..|ops| - 1]), ops[|ops| - 1]);
    }
  }

  /** In every run the retained payload of every job is there and passes its checksum: a worker that can
      reach the store never gets a load error. */
  lemma {:induction false} ChecksumNeverFails(env: Env, catalog: Catalog, start: Time, ops: seq<Op>, id: JobId)
    requires id < |Run(env, Init(catalog, start), ops).jobs|
    ensures var w := Run(env, Init(catalog, start), ops);
            var loaded := LoadImportPayload(env, w.store, w.jobs[id].submission, true);
            loaded.Ok? && env.hash(loaded.value) == w.jobs[id].submission.sha
  {
    EveryRunKeepsSubmissions(env, catalog, start, ops);
    var w := Run(env, Init(catalog, start), ops);
    assert Retained(env, w.store, w.jobs[id].submission);
  }

  // ------------------------------------------------------------------ idempotence

  lemma AcceptedJobHasKey(env: Env, w: World, r: Request, put: Put)
    requires Submit(env, w, r, put).1.Ok?
    ensures var (t, accepted) := Submit(env, w, r, put);
            && r.supplier in w.ledger.catalog.suppliers && t.ledger == w.ledger
            && accepted.value < |t.jobs|
            && SameRequestKey(t.jobs[accepted.value].submission, r.supplier, r.sourceType, r.idempotencyKey)
            && t.jobs[accepted.value].submission.sha == r.sha
  {
    FindJobFinds(w.jobs, r.supplier, r.sourceType, r.idempotencyKey, |w.jobs|);
  }

  /** A key that belongs to job `id` answers with it or refuses, and changes nothing. */
  lemma KeyAnswers(env: Env, w: World, id: JobId, r: Request, put: Put)
    requires KeysUnique(w.jobs) && id < |w.jobs| && r.supplier in w.ledger.catalog.suppliers
    requires SameRequestKey(w.jobs[id].submission, r.supplier, r.sourceType, r.idempotencyKey)
    ensures Submit(env, w, r, put) == (w, if r.sha == w.jobs[id].submission.sha then Ok(id) else Err(Conflict))
  {
    FindJobFinds(w.jobs, r.supplier, r.sourceType, r.idempotencyKey, |w.jobs|);
  }

  /** Once a request key has been accepted, from a partner or by a replay, it answers with the same job forever:
      the same content changes nothing, different content is refused and changes nothing, whatever ran in
      between. */
  lemma ResubmissionIsIdempotent(env: Env, w0: World, r: Request, put: Put, between: seq<Op>, again: Request, put': Put)
    requires SubmissionInv(env, w0) && Genuine(env, w0, r)
    requires Submit(env, w0, r, put).1.Ok?
    requires again.supplier == r.supplier && again.sourceType == r.sourceType &&
             again.idempotencyKey == r.idempotencyKey
    ensures var (w, accepted) := Submit(env, w0, r, put);
            var later := Run(env, w, between);
            Submit(env, later, again, put') == (later, if again.sha == r.sha then accepted else Err(Conflict))
  {
    var (w, accepted) := Submit(env, w0, r, put);
    AcceptedJobHasKey(env, w0, r, put);
    GenuineKeepsSubmissions(env, w0, r, put);
    RunKeepsSubmissions(env, w, between);
    SubmissionsPersistInRuns(env, w, between);
    CatalogPersists(env, w, between);
    KeyAnswers(env, Run(env, w, between), accepted.value, again, put');
  }

  lemma {:induction false} RunKeepsSubmissions(env: Env, w: World, ops: seq<Op>)
    requires SubmissionInv(env, w)
    ensures SubmissionInv(env, Run(env, w, ops))
  {
    if ops != [] {
      RunKeepsSubmissions(env, w, ops[..|ops| - 1]);
      StepKeepsSubmissions(env, Run(env, w, ops[..|ops| - 1]), ops[|ops| - 1]);
    }
  }

  lemma {:induction false} CatalogPersists(env: Env, w: World, ops: seq<Op>)
    ensures Run(env, w, ops).ledger.catalog == w.ledger.catalog
  {
    LedgerIsReplay(env, w, ops);
    ReplayKeepsCatalog(w.ledger, LedgerHistory(env, w, ops));
  }

  lemma {:induction false} ReplayKeepsCatalog(s: State, history: seq<Event>)
    ensures Ledger.Replay(s, history).catalog == s.catalog
  {
    if history != [] {
      ReplayKeepsCatalog(s, history[..|history| - 1]);
      var e := history[|history| - 1];
      if e.Imported? {
        LedgerLaws.ImportIsFilter(Ledger.Replay(s, history[..|history| - 1]), e.job, e.supplier, e.records,
                                  |e.records|);
        assert e.records[..|e.records|] == e.records;
      }
    }
  }

  // ------------------------------------------------- what a submission answers and writes

  lemma Joins(x: string, y: string, z: string)
    ensures x + y + z == x + (y + z)
  {
  }

  /** The layout of the object key, to the letter. */
  lemma KeyLayout(sha: Digest, date: string)
    ensures BuildRawObjectKey(SupplierAJson, sha, date) ==
            "raw/inventory/source=" + "supplier_a_json" + "/ingest_date=" + date + "/" + sha + ".json"
    ensures BuildRawObjectKey(SupplierBCsv, sha, date) ==
            "raw/inventory/source=" + "supplier_b_csv" + "/ingest_date=" + date + "/" + sha + ".csv"
  {
    KeyParts("supplier_a_json", "json", sha, date);
    KeyParts("supplier_b_csv", "csv", sha, date);
    assert "." + "json" == ".json" && "." + "csv" == ".csv";
  }

  lemma KeyParts(name: string, extension: string, sha: string, date: string)
    ensures "raw/inventory/" + "source=" + name + "/" + "ingest_date=" + date + "/" + sha + "." + extension ==
            "raw/inventory/source=" + name + "/ingest_date=" + date + "/" + sha + ("." + extension)
  {
    var stem := "raw/inventory/source=" + name + "/ingest_date=";
    assert "raw/inventory/" + "source=" == "raw/inventory/source=" && "/" + "ingest_date=" == "/ingest_date=";
    Joins("raw/inventory/source=" + name, "/", "ingest_date=");
    Joins(stem + date + "/" + sha, ".", extension);
  }

  /** The new job of a request that no earlier job answers. */
  predicate Submits(env: Env, w: World, r: Request, t: World) {
    && |t.jobs| == |w.jobs| + 1 && t.jobs[..|w.jobs|] == w.jobs
    && var job := t.jobs[|w.jobs|];
    var x := job.submission;
    && x.supplier == r.supplier && x.sourceType == r.sourceType && x.adapterVersion == r.adapterVersion
    && x.sha == r.sha && x.size == |r.content| && x.idempotencyKey == r.idempotencyKey && x.replayOf == r.replayOf
    && x.createdAt == w.now && x.objectKey == BuildRawObjectKey(r.sourceType, r.sha, env.dateOf(w.now))
    && job.status == Queued && job.attemptCount == 0 && job.attempts == map[]
    && job.maxAttempts == env.settings.maxAttempts && job.errors == [] && job.counters == Counters(0, 0, 0)
    && job.lease == None && job.failure == None && job.nextRetryAt == None && job.dispatchedAt == None
    && job.completedAt == None
  }

  /** The answer to a request under a key that no job has: the put decides. */
  lemma FreshRequestExactly(env: Env, w: World, r: Request, put: Put)
    requires forall i :: 0 <= i < |w.jobs| ==>
               var x := w.jobs[i].submission;
               !(x.supplier == r.supplier && x.sourceType == r.sourceType && x.idempotencyKey == r.idempotencyKey)
    ensures var (t, answer) := Submit(env, w, r, put);
            var stored := w.store[BuildRawObjectKey(r.sourceType, r.sha, env.dateOf(w.now)) := r.content];
            if r.supplier !in w.ledger.catalog.suppliers then t == w && answer == Err(NotFound)
            else if put == Refused then t == w && answer == Err(Unavailable)
            else if put == Unconfirmed then t == w.(store := stored) && answer == Err(Unavailable)
            else Submits(env, w, r, t) && t == w.(store := stored, jobs := t.jobs) && answer == Ok(|w.jobs|)
  {
    FindJobFinds(w.jobs, r.supplier, r.sourceType, r.idempotencyKey, |w.jobs|);
  }

  /** A partner's request is submitted with the hash of the content that it sent, and is no replay. */
  lemma ReceiptOfRequest(env: Env, w: World, supplier: Id, t: SourceType, version: string, content: Bytes, key: string,
                         put: Put)
    ensures Exec(env, w, Receive(supplier, t, version, content, key, put)) ==
            Submit(env, w, Request(supplier, t, version, content, env.hash(content), key, None), put).0
  {
  }

  /** What loading a retained payload answers, and what of it can be adapted. */
  lemma PayloadExactly(env: Env, store: map<string, Bytes>, x: Submission, reachable: bool)
    ensures var loaded := LoadImportPayload(env, store, x, reachable);
            && (loaded.Ok? <==> reachable && x.objectKey in store && env.hash(store[x.objectKey]) == x.sha)
            && (loaded.Ok? ==> loaded.value == store[x.objectKey])
            && (loaded.Err? ==> loaded.error == if reachable then PermanentError else TransientError)
    ensures var loaded, adapted := LoadImportPayload(env, store, x, true), AdaptRetainedPayload(env, store, x);
            && (loaded.Err? ==> adapted == Err(loaded.error))
            && (loaded.Ok? && x.sourceType == SupplierBCsv ==>
                  adapted == Ok(AdaptSupplierB(env.splitSupplierB(loaded.value))))
            && (loaded.Ok? && x.sourceType == SupplierAJson ==>
                  match env.parseSupplierA(loaded.value)
                  case None => adapted == Err(UnexpectedError)
                  case Some(payload) => adapted == Ok(AdaptSupplierA(payload)))
  {
  }

  /** A replay is refused for an unknown job, then for one that has not failed, then for a payload that cannot be had
      now, then for one that is gone or spoiled. Otherwise it is a request of the same content, as a replay of it. */
  lemma ReplayExactly(env: Env, w: World, original: JobId, key: string, reachable: bool, put: Put)
    ensures var answer := ReplayFailedImport(env, w, original, key, reachable, put);
            if original >= |w.jobs| then answer == (w, Err(NotFound))
            else
              var x := w.jobs[original].submission;
              if w.jobs[original].status != Failed then answer == (w, Err(Conflict))
              else if !reachable then answer == (w, Err(Unavailable))
              else if x.objectKey !in w.store || env.hash(w.store[x.objectKey]) != x.sha then
                answer == (w, Err(Conflict))
              else
                answer == Submit(env, w, Request(x.supplier, x.sourceType, x.adapterVersion, w.store[x.objectKey],
                                                 x.sha, key, Some(original)), put)
  {
  }

  // ----------------------------------------------------------------- replay chains

  /** Follow the replay links to the job that started the chain. */
  ghost function ReplayRoot(jobs: seq<Job>, id: JobId): JobId
    requires LinksBack(jobs) && id < |jobs|
  {
    if jobs[id].submission.replayOf.Some? then ReplayRoot(jobs, jobs[id].submission.replayOf.value) else id
  }

  /** Every chain ends in an original submission of the same content. */
  lemma {:induction false} ChainsShareContent(jobs: seq<Job>, id: JobId)
    requires LinksBack(jobs) && id < |jobs|
    ensures var root := ReplayRoot(jobs, id);
            root <= id && jobs[root].submission.replayOf.None? &&
              SameContent(jobs[id].submission, jobs[root].submission)
  {
    if jobs[id].submission.replayOf.Some? {
      ChainsShareContent(jobs, jobs[id].submission.replayOf.value);
    }
  }
}
