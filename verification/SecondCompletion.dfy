/** Two workers complete the same job: the second one finds every record applied already, and writes counters
    that no longer add up. */
module SecondCompletion {
  import opened Domain
  import opened Ledger
  import opened LedgerLaws
  import opened Adapters
  import opened Jobs
  import opened JobLaws
  import opened Hub
  import opened HubLaws
  import opened Work

  lemma FirstImport(s: State, job: JobId, supplier: Id, r: Record)
    requires CheckRecord(s, supplier, r).Ok? && !Logged(s.snapshots, supplier, KeyOf(r))
    ensures var o := ApplyInventoryResult(s, job, supplier, [], AdapterResult([r], []));
            && o.errors == [] && o.total == 1 && o.accepted == 1 && o.rejected == 0
            && Logged(o.ledger.snapshots, supplier, KeyOf(r))
  {
    ApplyNext(s, job, supplier, [r], 0);
    assert [r][..1] == [r];
    var o := ApplyInventoryResult(s, job, supplier, [], AdapterResult([r], []));
    assert o.errors == [];
    NothingRejected(o.errors);
    assert o.ledger.snapshots[|s.snapshots|].key == KeyOf(r);
  }

  lemma RepeatedImport(s: State, job: JobId, supplier: Id, r: Record)
    requires Logged(s.snapshots, supplier, KeyOf(r))
    ensures var o := ApplyInventoryResult(s, job, supplier, [], AdapterResult([r], []));
            && o.errors == [Rejected(r, DuplicateSourceRecord, None)] && o.ledger == s
            && o.total == 1 && o.accepted == 0 && o.rejected == 1
  {
    ApplyNext(s, job, supplier, [r], 0);
    assert [r][..1] == [r];
    var e := Rejected(r, DuplicateSourceRecord, None);
    var o := ApplyInventoryResult(s, job, supplier, [], AdapterResult([r], []));
    assert o.errors == [e];
    NothingRejected([e]);
    assert RejectedRows([e]) == {r.row} by { assert e in [e]; }
  }

  /** One job with one readable record, not yet applied, and two workers on it. */
  ghost predicate TwoAtLarge(env: Env, w: World, r: Record) {
    && |w.jobs| == 1 && w.jobs[0].errors == [] && w.jobs[0].counters == NOTHING_COUNTED
    && FirstClaim(1) in w.workers && FirstClaim(2) in w.workers
    && 1 in w.jobs[0].attempts && 2 in w.jobs[0].attempts
    && AdaptRetainedPayload(env, w.store, w.jobs[0].submission) == Ok(AdapterResult([r], []))
    && CheckRecord(w.ledger, w.jobs[0].submission.supplier, r).Ok?
    && !Logged(w.ledger.snapshots, w.jobs[0].submission.supplier, KeyOf(r))
  }

  lemma TwoCompletions(env: Env, w: World, r: Record)
    requires TwoAtLarge(env, w, r)
    ensures var t := ExecFinish(env, ExecFinish(env, w, FirstClaim(1)), FirstClaim(2));
            |t.jobs| == 1 && t.jobs[0].counters == Counters(1, 1, 1)
  {
    var supplier := w.jobs[0].submission.supplier;
    FirstImport(w.ledger, 0, supplier, r);
    var w1 := ExecFinish(env, w, FirstClaim(1));
    assert w1.jobs[0].counters == Counters(1, 1, 0) && w1.jobs[0].errors == [];
    assert CanFinish(env, w1, FirstClaim(2));
    RepeatedImport(w1.ledger, 0, supplier, r);
  }

  // ------------------------------------------------------------------ such a run

  /** What claims and recoveries do not touch. */
  ghost predicate SameBase(w: World, t: World) {
    && t.store == w.store && t.ledger == w.ledger && |t.jobs| == |w.jobs|
    && forall i :: 0 <= i < |w.jobs| ==>
         t.jobs[i].submission == w.jobs[i].submission && t.jobs[i].errors == w.jobs[i].errors
  }

  lemma RoundKeepsBase(env: Env, w: World)
    requires env.settings.lease >= 0
    ensures SameBase(w, Run(env, w, Round(env.settings)))
  {
    var claim, wait, recover := Deliver(0, "w"), Tick(env.settings.lease * SECOND + 1), RecoverLease(0);
    var w1 := Exec(env, w, claim);
    var w2 := Exec(env, w1, wait);
    RunOfOne(env, w, claim);
    RunOfOne(env, w1, wait);
    RunOfOne(env, w2, recover);
    RunOfSum(env, w, [claim], [wait]);
    RunOfSum(env, w, [claim] + [wait], [recover]);
  }

  lemma {:induction false} RoundsKeepBase(env: Env, w: World, n: nat)
    requires env.settings.lease >= 0
    ensures SameBase(w, Run(env, w, Rounds(env.settings, n)))
  {
    if n > 0 {
      RoundsKeepBase(env, w, n - 1);
      RoundKeepsBase(env, Run(env, w, Rounds(env.settings, n - 1)));
      RunOfSum(env, w, Rounds(env.settings, n - 1), Round(env.settings));
    }
  }

  function Mapped(row: CsvRow): seq<Op>
    requires row.ValidRow?
  {
    [ChangeLedger(ProductMapped(ProductMappingUpsert(0, row.partnerSku, 0, Case, row.unitsPerCase, true)))]
    + [ChangeLedger(WarehouseMapped(WarehouseMappingUpsert(0, row.depot, 0, true)))]
  }

  function Submitted(content: Bytes): Op {
    Receive(0, SupplierBCsv, "v1", content, "key", Stored)
  }

  /** A submission of one valid row, under mappings that fit it. */
  lemma OneRowSubmitted(env: Env, catalog: Catalog, start: Time, content: Bytes, row: CsvRow)
    requires 0 in catalog.suppliers && 0 in catalog.products && 0 in catalog.warehouses
    requires row.ValidRow? && env.splitSupplierB(content) == Rows([row])
    ensures var w := Run(env, Init(catalog, start), Mapped(row) + [Submitted(content)]);
            var r := SupplierBRecord(row, FIRST_DATA_ROW);
            && AllAbandoned(env, w, 0) && w.jobs[0].errors == [] && w.ledger.snapshots == []
            && AdaptRetainedPayload(env, w.store, w.jobs[0].submission) == Ok(AdapterResult([r], []))
            && CheckRecord(w.ledger, w.jobs[0].submission.supplier, r).Ok?
  {
    var w0, a, b := Init(catalog, start), Mapped(row)[..1], Mapped(row)[1..];
    var w1 := Exec(env, w0, a[0]);
    var w2 := Exec(env, w1, b[0]);
    assert Mapped(row) == a + b && a == [a[0]] && b == [b[0]];
    RunOfOne(env, w0, a[0]);
    RunOfOne(env, w1, b[0]);
    RunOfOne(env, w2, Submitted(content));
    RunOfSum(env, w0, a, b);
    RunOfSum(env, w0, Mapped(row), [Submitted(content)]);
    assert [row][..1] == [row];
    assert AdaptRows([row], 0) == AdapterResult([], []);
    assert AdaptRows([row], 1) == AdapterResult([SupplierBRecord(row, FIRST_DATA_ROW)], []);
  }

  /** The row claimed twice, its first lease having run out. */
  function ClaimedTwice(s: Settings, content: Bytes, row: CsvRow): seq<Op>
    requires row.ValidRow? && s.lease >= 0
  {
    Mapped(row) + [Submitted(content)] + Rounds(s, 2)
  }

  lemma ClaimedTwiceAtLarge(env: Env, catalog: Catalog, start: Time, content: Bytes, row: CsvRow)
    requires ValidSettings(env.settings) && env.settings.maxAttempts >= 2
    requires 0 in catalog.suppliers && 0 in catalog.products && 0 in catalog.warehouses
    requires row.ValidRow? && env.splitSupplierB(content) == Rows([row])
    ensures TwoAtLarge(env, Run(env, Init(catalog, start), ClaimedTwice(env.settings, content, row)),
                       SupplierBRecord(row, FIRST_DATA_ROW))
  {
    var before := Mapped(row) + [Submitted(content)];
    var w := Run(env, Init(catalog, start), before);
    OneRowSubmitted(env, catalog, start, content, row);
    RoundsWork(env, w, 2);
    RoundsKeepBase(env, w, 2);
    RunOfSum(env, Init(catalog, start), before, Rounds(env.settings, 2));
  }

  lemma RunOfTwoMore(env: Env, w: World, ops: seq<Op>, a: Op, b: Op)
    ensures Run(env, w, ops + [a] + [b]) == Exec(env, Exec(env, Run(env, w, ops), a), b)
  {
    RunOfMore(env, w, ops, a);
    RunOfMore(env, w, ops + [a], b);
  }

  /** A run as coded after which total is not accepted plus rejected: a job of one good row is claimed twice, and
      completed by both workers. */
  lemma SecondCompletionSkewsCounters(env: Env, catalog: Catalog, start: Time, content: Bytes, row: CsvRow)
    requires ValidSettings(env.settings) && env.settings.maxAttempts >= 2
    requires 0 in catalog.suppliers && 0 in catalog.products && 0 in catalog.warehouses
    requires row.ValidRow? && env.splitSupplierB(content) == Rows([row])
    ensures var ops := ClaimedTwice(env.settings, content, row) + [Finish(FirstClaim(1))] + [Finish(FirstClaim(2))];
            var t := Run(env, Init(catalog, start), ops);
            |t.jobs| == 1 && t.jobs[0].counters == Counters(1, 1, 1)
  {
    var ops, w0 := ClaimedTwice(env.settings, content, row), Init(catalog, start);
    ClaimedTwiceAtLarge(env, catalog, start, content, row);
    RunOfTwoMore(env, w0, ops, Finish(FirstClaim(1)), Finish(FirstClaim(2)));
    TwoCompletions(env, Run(env, w0, ops), SupplierBRecord(row, FIRST_DATA_ROW));
  }
}
