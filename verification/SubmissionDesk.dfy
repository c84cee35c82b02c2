/** Submission and replay as the service performs them: look the request key up, put the payload, add the job. */
module SubmissionDesks {
  import opened Domain
  import opened Ledger
  import opened Jobs
  import opened ImportJobs
  import opened Worker
  import opened Hub

  class SubmissionDesk {
    const catalog: Catalog
    var table: seq<ImportJob>
    var store: map<string, Bytes>

    ghost function View(now: Time): World
      reads this, table
    {
      World(now, Rows(table), store, Empty(catalog), {}, {})
    }

    constructor (catalog: Catalog)
      ensures forall now :: View(now) == Init(catalog, now)
    {
      this.catalog := catalog;
      table, store := [], map[];
    }

    method SubmitInventoryImport(env: Env, now: Time, r: Request, put: Put)
      returns (result: Result<JobId, ServiceError>)
      modifies this
      ensures (View(now), result) == Submit(env, old(View(now)), r, put)
    {
      if r.supplier !in catalog.suppliers {
        return Err(NotFound);
      }
      var n := |table|;
      while n > 0
        invariant 0 <= n <= |table|
        invariant FindJob(Rows(table), r.supplier, r.sourceType, r.idempotencyKey, |table|) ==
                  FindJob(Rows(table), r.supplier, r.sourceType, r.idempotencyKey, n)
      {
        var existing := table[n - 1];
        assert Rows(table)[n - 1] == existing.Row();
        if SameRequestKey(existing.submission, r.supplier, r.sourceType, r.idempotencyKey) {
          if existing.submission.sha != r.sha {
            return Err(Conflict);
          }
          return Ok(n - 1);
        }
        n := n - 1;
      }
      var objectKey := BuildRawObjectKey(r.sourceType, r.sha, env.dateOf(now));
      if put.Refused? {
        return Err(Unavailable);
      }
      store := store[objectKey := r.content];
      if put.Unconfirmed? {
        return Err(Unavailable);
      }
      var job := new ImportJob(env.settings,
        Submission(r.supplier, r.sourceType, r.adapterVersion, r.sha, objectKey, |r.content|, r.idempotencyKey,
                   r.replayOf, now));
      ghost var rows := old(Rows(table));
      table := table + [job];
      assert Rows(table) == rows + [job.Row()];
      return Ok(|table| - 1);
    }

    method ReplayFailedImport(env: Env, now: Time, original: JobId, idempotencyKey: string, reachable: bool, put: Put)
      returns (result: Result<JobId, ServiceError>)
      modifies this
      ensures (View(now), result) ==
              Hub.ReplayFailedImport(env, old(View(now)), original, idempotencyKey, reachable, put)
    {
      if original >= |table| {
        return Err(NotFound);
      }
      assert Rows(table)[original] == table[original].Row();
      if table[original].status != Failed {
        return Err(Conflict);
      }
      var x := table[original].submission;
      var content := LoadImportPayload(env, store, x, reachable);
      if content.Err? {
        return Err(if content.error == TransientError then Unavailable else Conflict);
      }
      result := SubmitInventoryImport(env, now, ReplayRequest(x, original, content.value, idempotencyKey), put);
    }
  }
}
