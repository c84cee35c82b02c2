/** What the ledger keeps over whole histories: which records an import accepts, one snapshot per source
    key, the lineage of every snapshot, and positions as the result of their last write. */
module LedgerLaws {
  import opened Domain
  import opened Ledger

  // ------------------------------------------------- which records are accepted

  /** No earlier record of the file has the same source key, whatever became of it. */
  predicate FirstOccurrence(records: seq<Record>, i: nat)
    requires i < |records|
  {
    forall j :: 0 <= j < i ==> KeyOf(records[j]) != KeyOf(records[i])
  }

  /** Acceptance in terms of the ledger before the import and the file alone. */
  predicate Accepts(s: State, supplier: Id, records: seq<Record>, i: nat)
    requires i < |records|
  {
    && FirstOccurrence(records, i)
    && !Logged(s.snapshots, supplier, KeyOf(records[i]))
    && CheckRecord(s, supplier, records[i]).Ok?
  }

  /** Why record `i` is refused. */
  function Refusal(s: State, supplier: Id, records: seq<Record>, i: nat): RecordError
    requires i < |records| && !Accepts(s, supplier, records, i)
  {
    if !FirstOccurrence(records, i) || Logged(s.snapshots, supplier, KeyOf(records[i])) then
      Rejected(records[i], DuplicateSourceRecord, None)
    else
      CheckRecord(s, supplier, records[i]).error
  }

  function AcceptedSnapshots(s: State, job: JobId, supplier: Id, records: seq<Record>, n: nat): seq<Snapshot>
    requires n <= |records|
  {
    if n == 0 then []
    else
      AcceptedSnapshots(s, job, supplier, records, n - 1) +
      (if Accepts(s, supplier, records, n - 1) then
         var (p, w) := CheckRecord(s, supplier, records[n - 1]).value;
         [SnapshotOf(job, supplier, records[n - 1], p, w)]
       else [])
  }

  function Refusals(s: State, supplier: Id, records: seq<Record>, n: nat): seq<RecordError>
    requires n <= |records|
  {
    if n == 0 then []
    else
      Refusals(s, supplier, records, n - 1) +
      (if Accepts(s, supplier, records, n - 1) then [] else [Refusal(s, supplier, records, n - 1)])
  }

  predicate Occurs(records: seq<Record>, n: nat, key: SourceKey)
    requires n <= |records|
  {
    exists j :: 0 <= j < n && KeyOf(records[j]) == key
  }

  ghost predicate SameMappings(s: State, t: State) {
    s.catalog == t.catalog && s.productMappings == t.productMappings && s.warehouseMappings == t.warehouseMappings
  }

  /** What the import loop knows after `n` records, in terms of the ledger it started from. */
  ghost predicate Filtered(s: State, job: JobId, supplier: Id, records: seq<Record>, n: nat, p: Progress)
    requires n <= |records|
  {
    && SameMappings(p.ledger, s)
    && p.ledger.snapshots == s.snapshots + AcceptedSnapshots(s, job, supplier, records, n)
    && p.accepted == |AcceptedSnapshots(s, job, supplier, records, n)|
    && p.errors == Refusals(s, supplier, records, n)
    && (forall k :: k in p.seen <==> Occurs(records, n, k) && !Logged(s.snapshots, supplier, k))
    && (forall k :: Logged(p.ledger.snapshots, supplier, k) ==> Logged(s.snapshots, supplier, k) || k in p.seen)
  }

  lemma DuplicateTest(s: State, job: JobId, supplier: Id, records: seq<Record>, n: nat, p: Progress)
    requires n < |records| && Filtered(s, job, supplier, records, n, p)
    ensures KeyOf(records[n]) in p.seen || Logged(p.ledger.snapshots, supplier, KeyOf(records[n])) <==>
            !FirstOccurrence(records, n) || Logged(s.snapshots, supplier, KeyOf(records[n]))
  {
    assert FirstOccurrence(records, n) <==> !Occurs(records, n, KeyOf(records[n]));
    LoggedAfterAppend(s.snapshots, AcceptedSnapshots(s, job, supplier, records, n), supplier);
  }

  lemma OccursNext(records: seq<Record>, n: nat)
    requires n < |records|
    ensures forall k :: Occurs(records, n + 1, k) <==> Occurs(records, n, k) || k == KeyOf(records[n])
  {
    forall k | Occurs(records, n, k) ensures Occurs(records, n + 1, k) {
      var j :| 0 <= j < n && KeyOf(records[j]) == k;
    }
  }

  lemma FilterStep(s: State, job: JobId, supplier: Id, records: seq<Record>, n: nat, p: Progress)
    requires n < |records| && Filtered(s, job, supplier, records, n, p)
    ensures Filtered(s, job, supplier, records, n + 1, ApplyRecord(p, job, supplier, records[n]))
  {
    var r := records[n];
    DuplicateTest(s, job, supplier, records, n, p);
    OccursNext(records, n);
    assert CheckRecord(p.ledger, supplier, r) == CheckRecord(s, supplier, r);
    if Accepts(s, supplier, records, n) {
      var (pm, wm) := CheckRecord(s, supplier, r).value;
      var x := SnapshotOf(job, supplier, r, pm, wm);
      LoggedAfterAppend(p.ledger.snapshots, [x], supplier);
    }
  }

  /** The loop, with its growing set of seen keys and growing log, is the filter by `Accepts`. */
  lemma {:induction false} ImportIsFilter(s: State, job: JobId, supplier: Id, records: seq<Record>, n: nat)
    requires n <= |records|
    ensures Filtered(s, job, supplier, records, n, ApplyRecords(s, job, supplier, records[..n]))
  {
    if n > 0 {
      ImportIsFilter(s, job, supplier, records, n - 1);
      assert records[..n][..n - 1] == records[..n - 1];
      FilterStep(s, job, supplier, records, n - 1, ApplyRecords(s, job, supplier, records[..n - 1]));
    }
  }

  lemma LoggedAfterAppend(log: seq<Snapshot>, more: seq<Snapshot>, supplier: Id)
    ensures forall k :: Logged(log + more, supplier, k) <==> Logged(log, supplier, k) || Logged(more, supplier, k)
  {
    forall k ensures Logged(log + more, supplier, k) <==> Logged(log, supplier, k) || Logged(more, supplier, k) {
      if Logged(log, supplier, k) {
        var i :| 0 <= i < |log| && log[i].supplier == supplier && log[i].key == k;
        assert (log + more)[i] == log[i];
      }
      if Logged(more, supplier, k) {
        var i :| 0 <= i < |more| && more[i].supplier == supplier && more[i].key == k;
        assert (log + more)[|log| + i] == more[i];
      }
    }
  }

  /** An accepted record is in the log from then on. */
  lemma {:induction false} AcceptedIsLogged(s: State, job: JobId, supplier: Id, records: seq<Record>, n: nat, i: nat)
    requires i < n <= |records| && Accepts(s, supplier, records, i)
    ensures Logged(AcceptedSnapshots(s, job, supplier, records, n), supplier, KeyOf(records[i]))
  {
    var before := AcceptedSnapshots(s, job, supplier, records, n - 1);
    var all := AcceptedSnapshots(s, job, supplier, records, n);
    if i < n - 1 {
      AcceptedIsLogged(s, job, supplier, records, n - 1, i);
      LoggedAfterAppend(before, all[|before|..], supplier);
      assert all == before + all[|before|..];
    } else {
      assert all[|before|].key == KeyOf(records[i]) && all[|before|].supplier == supplier;
    }
  }

  /** How many of the first `n` records are accepted. */
  function AcceptCount(s: State, supplier: Id, records: seq<Record>, n: nat): nat
    requires n <= |records|
  {
    if n == 0 then 0
    else AcceptCount(s, supplier, records, n - 1) + (if Accepts(s, supplier, records, n - 1) then 1 else 0)
  }

  /** `x` is record `r` in hub units, under the active mappings of its partner names. */
  ghost predicate IsConversion(s: State, job: JobId, supplier: Id, r: Record, x: Snapshot) {
    var pk, wk := (supplier, r.sku), (supplier, r.location);
    && pk in s.productMappings && wk in s.warehouseMappings
    && var p, w := s.productMappings[pk], s.warehouseMappings[wk];
    && p.active && w.active
    && x.job == job && x.supplier == supplier && x.row == r.row && x.observedAt == r.observedAt
    && x.key.reference == r.reference && x.key.sku == r.sku && x.key.location == r.location
    && x.product == p.product && x.warehouse == w.warehouse
    && x.productVersion == p.version && x.warehouseVersion == w.version
    && x.unit == r.unit == p.unit && x.factor == p.factor && (r.factor.Some? ==> r.factor.value == p.factor)
    && x.onHand == r.onHand * p.factor && x.reserved == r.reserved * p.factor
  }

  lemma AcceptedIsConverted(s: State, job: JobId, supplier: Id, r: Record)
    requires CheckRecord(s, supplier, r).Ok?
    ensures var (p, w) := CheckRecord(s, supplier, r).value;
            IsConversion(s, job, supplier, r, SnapshotOf(job, supplier, r, p, w))
  {
  }

  lemma {:induction false} CountOfAccepted(s: State, job: JobId, supplier: Id, records: seq<Record>, n: nat)
    requires n <= |records|
    ensures |AcceptedSnapshots(s, job, supplier, records, n)| == AcceptCount(s, supplier, records, n)
  {
    if n > 0 { CountOfAccepted(s, job, supplier, records, n - 1); }
  }

  /** The snapshots of an import are the conversions of its accepted records, one each and in file order: the
      snapshot of record `i` comes after those of the records accepted before it. */
  lemma {:induction false} SnapshotProvenance(s: State, job: JobId, supplier: Id, records: seq<Record>, n: nat, i: nat)
    requires i < n <= |records| && Accepts(s, supplier, records, i)
    ensures |AcceptedSnapshots(s, job, supplier, records, n)| == AcceptCount(s, supplier, records, n)
    ensures AcceptCount(s, supplier, records, i) < AcceptCount(s, supplier, records, n)
    ensures IsConversion(s, job, supplier, records[i],
                         AcceptedSnapshots(s, job, supplier, records, n)[AcceptCount(s, supplier, records, i)])
  {
    CountOfAccepted(s, job, supplier, records, n);
    CountOfAccepted(s, job, supplier, records, n - 1);
    if i < n - 1 {
      SnapshotProvenance(s, job, supplier, records, n - 1, i);
    } else {
      AcceptedIsConverted(s, job, supplier, records[i]);
    }
  }

  // ------------------------------------------------- when a record is accepted, and why not

  /** An earlier record of the file, or a snapshot of the supplier, has the same reference, article and place. */
  ghost predicate Repeats(s: State, supplier: Id, records: seq<Record>, i: nat)
    requires i < |records|
  {
    var r := records[i];
    || (exists j :: 0 <= j < i && records[j].reference == r.reference && records[j].sku == r.sku
                    && records[j].location == r.location)
    || (exists k :: 0 <= k < |s.snapshots| && s.snapshots[k].supplier == supplier
                    && s.snapshots[k].key.reference == r.reference && s.snapshots[k].key.sku == r.sku
                    && s.snapshots[k].key.location == r.location)
  }

  predicate KnowsProduct(s: State, supplier: Id, r: Record) {
    (supplier, r.sku) in s.productMappings && s.productMappings[(supplier, r.sku)].active
  }

  predicate KnowsWarehouse(s: State, supplier: Id, r: Record) {
    (supplier, r.location) in s.warehouseMappings && s.warehouseMappings[(supplier, r.location)].active
  }

  predicate SameUnit(s: State, supplier: Id, r: Record)
    requires KnowsProduct(s, supplier, r)
  {
    r.unit == s.productMappings[(supplier, r.sku)].unit
  }

  /** A partner that states no factor cannot contradict the mapping. */
  predicate SameFactor(s: State, supplier: Id, r: Record)
    requires KnowsProduct(s, supplier, r)
  {
    r.factor.None? || r.factor.value == s.productMappings[(supplier, r.sku)].factor
  }

  lemma RepeatsExactly(s: State, supplier: Id, records: seq<Record>, i: nat)
    requires i < |records|
    ensures Repeats(s, supplier, records, i) <==>
            !FirstOccurrence(records, i) || Logged(s.snapshots, supplier, KeyOf(records[i]))
  {
    var r := records[i];
    if Repeats(s, supplier, records, i) {
      if j :| 0 <= j < i && records[j].reference == r.reference && records[j].sku == r.sku
              && records[j].location == r.location {
        assert KeyOf(records[j]) == KeyOf(r);
      }
    }
    if j :| 0 <= j < i && KeyOf(records[j]) == KeyOf(r) {
      assert records[j].reference == r.reference && records[j].sku == r.sku && records[j].location == r.location;
    }
    if k :| 0 <= k < |s.snapshots| && s.snapshots[k].supplier == supplier && s.snapshots[k].key == KeyOf(r) {
      assert s.snapshots[k].key.reference == r.reference;
    }
  }

  /** A record is accepted exactly when it repeats nothing, both its names have active mappings, and neither its
      unit nor a factor it states contradicts them. */
  lemma AcceptedExactly(s: State, supplier: Id, records: seq<Record>, i: nat)
    requires i < |records|
    ensures Accepts(s, supplier, records, i) <==>
              && !Repeats(s, supplier, records, i)
              && KnowsProduct(s, supplier, records[i]) && KnowsWarehouse(s, supplier, records[i])
              && SameUnit(s, supplier, records[i]) && SameFactor(s, supplier, records[i])
  {
    RepeatsExactly(s, supplier, records, i);
  }

  /** A refused record is answered with its row and the first condition that it fails. */
  lemma RefusedExactly(s: State, supplier: Id, records: seq<Record>, i: nat)
    requires i < |records| && !Accepts(s, supplier, records, i)
    ensures var r := records[i];
            Refusal(s, supplier, records, i) ==
            if Repeats(s, supplier, records, i) then RecordError(DuplicateSourceRecord, Some(r.row), None)
            else if !KnowsProduct(s, supplier, r) then
              RecordError(ProductMappingNotFound, Some(r.row), Some("external_sku"))
            else if !KnowsWarehouse(s, supplier, r) then
              RecordError(WarehouseMappingNotFound, Some(r.row), Some("external_location"))
            else if !SameUnit(s, supplier, r) then RecordError(SourceUnitMismatch, Some(r.row), Some("source_unit"))
            else RecordError(UnitConversionMismatch, Some(r.row), Some("units_per_source_unit"))
  {
    RepeatsExactly(s, supplier, records, i);
  }

  /** The refusals of an import, one per refused record and in file order. */
  lemma {:induction false} RefusalProvenance(s: State, supplier: Id, records: seq<Record>, n: nat, i: nat)
    requires i < n <= |records| && !Accepts(s, supplier, records, i)
    ensures |Refusals(s, supplier, records, n)| == n - AcceptCount(s, supplier, records, n)
    ensures 0 <= i - AcceptCount(s, supplier, records, i) < |Refusals(s, supplier, records, n)|
    ensures Refusals(s, supplier, records, n)[i - AcceptCount(s, supplier, records, i)] ==
            Refusal(s, supplier, records, i)
  {
    CountOfRefused(s, supplier, records, n);
    CountOfRefused(s, supplier, records, n - 1);
    if i < n - 1 { RefusalProvenance(s, supplier, records, n - 1, i); }
  }

  lemma {:induction false} CountOfRefused(s: State, supplier: Id, records: seq<Record>, n: nat)
    requires n <= |records|
    ensures |Refusals(s, supplier, records, n)| == n - AcceptCount(s, supplier, records, n)
  {
    if n > 0 { CountOfRefused(s, supplier, records, n - 1); }
  }

  /** What one import leaves behind for record `i`: its snapshot at its place among the accepted ones, or its
      refusal at its place among the refused ones, after the errors of the job so far and of the adapter. */
  lemma ImportDecides(s: State, job: JobId, supplier: Id, prior: seq<RecordError>, result: AdapterResult, i: nat)
    requires i < |result.records|
    ensures var o := ApplyInventoryResult(s, job, supplier, prior, result);
            var n, k := |result.records|, AcceptCount(s, supplier, result.records, i);
            var first := |prior| + |result.errors|;
            && 0 <= k <= i && o.accepted == AcceptCount(s, supplier, result.records, n)
            && |o.ledger.snapshots| == |s.snapshots| + o.accepted && s.snapshots <= o.ledger.snapshots
            && |o.errors| == first + n - o.accepted && o.errors[..first] == prior + result.errors
            && if Accepts(s, supplier, result.records, i) then
                 && k < o.accepted
                 && IsConversion(s, job, supplier, result.records[i], o.ledger.snapshots[|s.snapshots| + k])
               else
                 && i - k < n - o.accepted
                 && o.errors[first + i - k] == Refusal(s, supplier, result.records, i)
  {
    var records, n := result.records, |result.records|;
    assert records[..n] == records;
    ImportIsFilter(s, job, supplier, records, n);
    CountOfAccepted(s, job, supplier, records, n);
    CountOfAccepted(s, job, supplier, records, i);
    CountOfRefused(s, supplier, records, n);
    CountOfRefused(s, supplier, records, i);
    if Accepts(s, supplier, records, i) {
      SnapshotProvenance(s, job, supplier, records, n, i);
    } else {
      RefusalProvenance(s, supplier, records, n, i);
    }
  }

  /** Where the snapshot of an accepted record lands. */
  lemma AcceptedLands(s: State, job: JobId, supplier: Id, result: AdapterResult, i: nat) returns (x: Snapshot)
    requires i < |result.records| && Accepts(s, supplier, result.records, i)
    ensures var o := ApplyInventoryResult(s, job, supplier, [], result);
            var k := |s.snapshots| + AcceptCount(s, supplier, result.records, i);
            k < |o.ledger.snapshots| && x == o.ledger.snapshots[k]
    ensures IsConversion(s, job, supplier, result.records[i], x)
  {
    ImportDecides(s, job, supplier, [], result, i);
    var o := ApplyInventoryResult(s, job, supplier, [], result);
    x := o.ledger.snapshots[|s.snapshots| + AcceptCount(s, supplier, result.records, i)];
  }

  // ------------------------------------------------------------- the log only grows

  lemma {:induction false} SnapshotsGrow(s: State, history: seq<Event>)
    ensures s.snapshots <= Replay(s, history).snapshots
  {
    if history != [] {
      var before := Replay(s, history[..|history| - 1]);
      SnapshotsGrow(s, history[..|history| - 1]);
      var e := history[|history| - 1];
      if e.Imported? {
        ImportIsFilter(before, e.job, e.supplier, e.records, |e.records|);
        assert e.records[..|e.records|] == e.records;
      }
    }
  }

  /** Importing the same file again, after anything else that let none of its refused records pass the
      checks, accepts nothing and leaves the ledger as it is. */
  lemma ReimportChangesNothing(s: State, job: JobId, supplier: Id, records: seq<Record>, between: seq<Event>,
                               again: JobId)
    requires var later := Replay(ApplyRecords(s, job, supplier, records).ledger, between);
             forall r :: r in records && CheckRecord(later, supplier, r).Ok? ==> CheckRecord(s, supplier, r).Ok?
    ensures var later := Replay(ApplyRecords(s, job, supplier, records).ledger, between);
            var p := ApplyRecords(later, again, supplier, records);
            p.accepted == 0 && p.ledger == later
  {
    var first := ApplyRecords(s, job, supplier, records).ledger;
    var later := Replay(first, between);
    var n := |records|;
    assert records[..n] == records;
    ImportIsFilter(s, job, supplier, records, n);
    SnapshotsGrow(first, between);
    forall i | 0 <= i < n ensures !Accepts(later, supplier, records, i) {
      if Accepts(later, supplier, records, i) {
        LoggedAfterAppend(first.snapshots, later.snapshots[|first.snapshots|..], supplier);
        assert later.snapshots == first.snapshots + later.snapshots[|first.snapshots|..];
        LoggedAfterAppend(s.snapshots, AcceptedSnapshots(s, job, supplier, records, n), supplier);
        assert records[i] in records;
        if !Logged(s.snapshots, supplier, KeyOf(records[i])) {
          AcceptedIsLogged(s, job, supplier, records, n, i);
        }
        assert false;
      }
    }
    NothingAccepted(later, again, supplier, records, n);
  }

  lemma {:induction false} NothingAccepted(s: State, job: JobId, supplier: Id, records: seq<Record>, n: nat)
    requires n <= |records|
    requires forall i :: 0 <= i < n ==> !Accepts(s, supplier, records, i)
    ensures var p := ApplyRecords(s, job, supplier, records[..n]); p.accepted == 0 && p.ledger == s
  {
    if n > 0 {
      NothingAccepted(s, job, supplier, records, n - 1);
      ImportIsFilter(s, job, supplier, records, n);
      ImportIsFilter(s, job, supplier, records, n - 1);
      assert records[..n][..n - 1] == records[..n - 1];
      assert AcceptedSnapshots(s, job, supplier, records, n) == AcceptedSnapshots(s, job, supplier, records, n - 1);
    }
  }

  // ------------------------------------------------------- one snapshot per source key

  ghost predicate OneSnapshotPerKey(snapshots: seq<Snapshot>) {
    forall i, j :: 0 <= i < j < |snapshots| && snapshots[i].supplier == snapshots[j].supplier ==>
      snapshots[i].key != snapshots[j].key
  }

  // ------------------------------------------------------------------------- lineage

  ghost predicate SameProductLineage(x: Snapshot, y: Snapshot) {
    x.supplier == y.supplier && x.key.sku == y.key.sku && x.productVersion == y.productVersion ==>
      x.product == y.product && x.unit == y.unit && x.factor == y.factor
  }

  ghost predicate SameWarehouseLineage(x: Snapshot, y: Snapshot) {
    x.supplier == y.supplier && x.key.location == y.key.location && x.warehouseVersion == y.warehouseVersion ==>
      x.warehouse == y.warehouse
  }

  /** Any two snapshots that name the same mapping version were converted by the same mapping. */
  ghost predicate Lineage(snapshots: seq<Snapshot>) {
    forall i, j :: 0 <= i < |snapshots| && 0 <= j < |snapshots| ==>
      SameProductLineage(snapshots[i], snapshots[j]) && SameWarehouseLineage(snapshots[i], snapshots[j])
  }

  /** The mapping a snapshot names is no newer than the current one, and is the current one when the
      versions are equal. */
  ghost predicate Traces(s: State, x: Snapshot) {
    var pk, wk := (x.supplier, x.key.sku), (x.supplier, x.key.location);
    && pk in s.productMappings && wk in s.warehouseMappings
    && var p, w := s.productMappings[pk], s.warehouseMappings[wk];
    && x.productVersion <= p.version && x.warehouseVersion <= w.version
    && (x.productVersion == p.version ==> x.product == p.product && x.unit == p.unit && x.factor == p.factor)
    && (x.warehouseVersion == w.version ==> x.warehouse == w.warehouse)
  }

  ghost predicate Traceable(s: State) {
    forall i :: 0 <= i < |s.snapshots| ==> Traces(s, s.snapshots[i])
  }

  /** `t` is later than `s`: no mapping is forgotten, and a mapping whose version is the same is the same. */
  ghost predicate VersionsIdentify(s: State, t: State) {
    && (forall k :: k in s.productMappings ==>
          && k in t.productMappings && s.productMappings[k].version <= t.productMappings[k].version
          && (s.productMappings[k].version == t.productMappings[k].version ==>
                s.productMappings[k] == t.productMappings[k]))
    && (forall k :: k in s.warehouseMappings ==>
          && k in t.warehouseMappings && s.warehouseMappings[k].version <= t.warehouseMappings[k].version
          && (s.warehouseMappings[k].version == t.warehouseMappings[k].version ==>
                s.warehouseMappings[k] == t.warehouseMappings[k]))
  }

  lemma EventKeepsVersions(s: State, e: Event)
    ensures VersionsIdentify(s, Apply(s, e))
  {
    if e.Imported? {
      ImportIsFilter(s, e.job, e.supplier, e.records, |e.records|);
      assert e.records[..|e.records|] == e.records;
    }
  }

  lemma LaterVersionsIdentify(s: State, t: State, u: State)
    requires VersionsIdentify(s, t) && VersionsIdentify(t, u)
    ensures VersionsIdentify(s, u)
  {
  }

  lemma {:induction false} MappingVersionsIdentify(s: State, history: seq<Event>)
    ensures VersionsIdentify(s, Replay(s, history))
  {
    if history != [] {
      var earlier := Replay(s, history[..|history| - 1]);
      MappingVersionsIdentify(s, history[..|history| - 1]);
      EventKeepsVersions(earlier, history[|history| - 1]);
      LaterVersionsIdentify(s, earlier, Replay(s, history));
    }
  }

  /** An upsert leaves exactly what was asked for, touches no other mapping, and counts a version only when
      something differs: asking again changes nothing. */
  lemma UpsertsAreIdempotent(s: State, p: ProductMappingUpsert, w: WarehouseMappingUpsert)
    ensures var r := UpsertProductMapping(s, p);
            && (r.Ok? <==> p.supplier in s.catalog.suppliers && p.product in s.catalog.products)
            && (r.Err? ==> r.error == NotFound) && Apply(s, ProductMapped(p)) == (if r.Ok? then r.value else s)
            && (r.Ok? ==>
                  var t, key := r.value, (p.supplier, p.sku);
                  && UpsertProductMapping(t, p) == Ok(t)
                  && t == s.(productMappings := t.productMappings) &&
                     t.productMappings - {key} == s.productMappings - {key}
                  && key in t.productMappings
                  && t.productMappings[key].(version := 0) == ProductMapping(p.product, p.unit, p.factor, p.active, 0)
                  && t.productMappings[key].version - OldVersion(Lookup(s.productMappings, key)) ==
                     if t.productMappings == s.productMappings then 0 else 1)
    ensures var r := UpsertWarehouseMapping(s, w);
            && (r.Ok? <==> w.supplier in s.catalog.suppliers && w.warehouse in s.catalog.warehouses)
            && (r.Err? ==> r.error == NotFound) && Apply(s, WarehouseMapped(w)) == (if r.Ok? then r.value else s)
            && (r.Ok? ==>
                  var t, key := r.value, (w.supplier, w.location);
                  && UpsertWarehouseMapping(t, w) == Ok(t)
                  && t == s.(warehouseMappings := t.warehouseMappings) &&
                     t.warehouseMappings - {key} == s.warehouseMappings - {key}
                  && key in t.warehouseMappings
                  && t.warehouseMappings[key].(version := 0) == WarehouseMapping(w.warehouse, w.active, 0)
                  && t.warehouseMappings[key].version - OldWarehouseVersion(Lookup(s.warehouseMappings, key)) ==
                     if t.warehouseMappings == s.warehouseMappings then 0 else 1)
  {
    if p.supplier in s.catalog.suppliers && p.product in s.catalog.products {
      var t, key := UpsertProductMapping(s, p).value, (p.supplier, p.sku);
      assert t.productMappings[key := t.productMappings[key]] == t.productMappings;
    }
    if w.supplier in s.catalog.suppliers && w.warehouse in s.catalog.warehouses {
      var t, key := UpsertWarehouseMapping(s, w).value, (w.supplier, w.location);
      assert t.warehouseMappings[key := t.warehouseMappings[key]] == t.warehouseMappings;
    }
  }

  function OldVersion(m: Option<ProductMapping>): int {
    if m.Some? then m.value.version else 0
  }

  function OldWarehouseVersion(m: Option<WarehouseMapping>): int {
    if m.Some? then m.value.version else 0
  }

  // ----------------------------------------------------------------------- positions

  datatype Write = Write(warehouse: Id, product: Id, onHand: Quantity, reserved: Quantity)

  function WriteOf(x: Snapshot): Write {
    Write(x.warehouse, x.product, x.onHand, x.reserved)
  }

  function WritesOf(snapshots: seq<Snapshot>): seq<Write> {
    seq(|snapshots|, i requires 0 <= i < |snapshots| => WriteOf(snapshots[i]))
  }

  /** The position writes of one event: an import writes once per snapshot it adds. */
  function Writes(s: State, e: Event): seq<Write> {
    match e
    case InventorySet(w, p, onHand, reserved) =>
      if SetInventory(s, w, p, onHand, reserved).Ok? then [Write(w, p, onHand, reserved)] else []
    case Imported(job, supplier, records) => WritesOf(AcceptedSnapshots(s, job, supplier, records, |records|))
    case _ => []
  }

  /** The write log of a history. */
  function WriteLog(s: State, history: seq<Event>): seq<Write> {
    if history == [] then []
    else
      var earlier := history[..|history| - 1];
      WriteLog(s, earlier) + Writes(Replay(s, earlier), history[|history| - 1])
  }

  predicate To(w: Write, key: (Id, Id)) {
    (w.warehouse, w.product) == key
  }

  function WriteCount(log: seq<Write>, key: (Id, Id)): nat {
    if log == [] then 0
    else WriteCount(log[..|log| - 1], key) + (if To(log[|log| - 1], key) then 1 else 0)
  }

  /** `i` is the index of the last write to `key`. */
  ghost predicate IsLastWrite(log: seq<Write>, key: (Id, Id), i: int) {
    && 0 <= i < |log| && To(log[i], key)
    && forall j :: i < j < |log| ==> !To(log[j], key)
  }

  /** Every position holds the quantities of the last write to it, its version counts the writes, and
      there is a position exactly where something was written. */
  ghost predicate HoldsLastWrites(positions: map<(Id, Id), Position>, log: seq<Write>) {
    && (forall key :: key in positions <==> WriteCount(log, key) > 0)
    && (forall key :: key in positions ==> positions[key].version == WriteCount(log, key))
    && (forall key, i :: IsLastWrite(log, key, i) ==>
          key in positions && positions[key].onHand == log[i].onHand && positions[key].reserved == log[i].reserved)
  }

  /** A manual set is refused for an unknown warehouse or product, then for a negative quantity, and for nothing
      else; it overwrites one position and counts its version. */
  lemma SetExactly(s: State, warehouse: Id, product: Id, onHand: real, reserved: real)
    ensures var r := SetInventory(s, warehouse, product, onHand, reserved);
            var known := warehouse in s.catalog.warehouses && product in s.catalog.products;
            && (r == Err(NotFound) <==> !known)
            && (r == Err(Invalid) <==> known && (onHand < 0.0 || reserved < 0.0))
            && (r.Ok? <==> known && onHand >= 0.0 && reserved >= 0.0)
            && Apply(s, InventorySet(warehouse, product, onHand, reserved)) == (if r.Ok? then r.value else s)
            && (r.Ok? ==>
                  var key, t := (warehouse, product), r.value;
                  && t == s.(positions := t.positions) && t.positions - {key} == s.positions - {key}
                  && key in t.positions && t.positions[key].onHand == onHand && t.positions[key].reserved == reserved
                  && t.positions[key].version == 1 + if key in s.positions then s.positions[key].version else 0)
  {
  }

  lemma HoldsAfterWrite(positions: map<(Id, Id), Position>, log: seq<Write>, w: Write)
    requires HoldsLastWrites(positions, log)
    ensures HoldsLastWrites(WritePosition(positions, w.warehouse, w.product, w.onHand, w.reserved), log + [w])
  {
    var after := WritePosition(positions, w.warehouse, w.product, w.onHand, w.reserved);
    assert (log + [w])[..|log|] == log;
    forall key, i | IsLastWrite(log + [w], key, i)
      ensures key in after && after[key].onHand == (log + [w])[i].onHand &&
              after[key].reserved == (log + [w])[i].reserved
    {
      if i < |log| {
        assert !To((log + [w])[|log|], key);
        assert forall j :: i < j < |log| ==> (log + [w])[j] == log[j];
        assert IsLastWrite(log, key, i);
      }
    }
  }

  /** Of two records for one article and place, the one applied last decides the position, even when it was
      observed earlier. */
  lemma LaterRecordWins(s: State, job: JobId, supplier: Id, a: Record, b: Record)
    requires a.sku == b.sku && a.location == b.location && a.reference != b.reference
    requires !Logged(s.snapshots, supplier, KeyOf(a)) && !Logged(s.snapshots, supplier, KeyOf(b))
    requires CheckRecord(s, supplier, a).Ok? && CheckRecord(s, supplier, b).Ok?
    ensures var (p, w) := CheckRecord(s, supplier, b).value;
            var positions := ApplyRecords(s, job, supplier, [a, b]).ledger.positions;
            && (w.warehouse, p.product) in positions
            && positions[(w.warehouse, p.product)].onHand == b.onHand * p.factor
            && positions[(w.warehouse, p.product)].reserved == b.reserved * p.factor
  {
    var (p, w) := CheckRecord(s, supplier, a).value;
    var records := [a, b];
    ApplyNext(s, job, supplier, records, 0);
    ApplyNext(s, job, supplier, records, 1);
    assert records[..2] == records;
    LoggedAfterAppend(s.snapshots, [SnapshotOf(job, supplier, a, p, w)], supplier);
  }

  // ------------------------------------------------------------- invariants of events

  ghost predicate LedgerInv(s: State, log: seq<Write>) {
    OneSnapshotPerKey(s.snapshots) && Traceable(s) && Lineage(s.snapshots) && HoldsLastWrites(s.positions, log)
  }

  lemma AddSnapshotKeeps(s: State, log: seq<Write>, x: Snapshot)
    requires LedgerInv(s, log) && Traces(s, x) && !Logged(s.snapshots, x.supplier, x.key)
    requires var p, w := s.productMappings[(x.supplier, x.key.sku)], s.warehouseMappings[(x.supplier, x.key.location)];
             x.productVersion == p.version && x.warehouseVersion == w.version
    ensures LedgerInv(AddSnapshot(s, x), log + [WriteOf(x)])
  {
    HoldsAfterWrite(s.positions, log, WriteOf(x));
    var t := AddSnapshot(s, x);
    forall i | 0 <= i < |t.snapshots| ensures Traces(t, t.snapshots[i]) {
      if i < |s.snapshots| { assert Traces(s, s.snapshots[i]); }
    }
    forall i | 0 <= i < |s.snapshots|
      ensures SameProductLineage(s.snapshots[i], x) && SameWarehouseLineage(s.snapshots[i], x)
    {
      assert Traces(s, s.snapshots[i]);
    }
  }

  /** The ledger after n records of an import satisfies the invariant, with the writes so far. */
  ghost predicate ImportInv(s: State, log: seq<Write>, job: JobId, supplier: Id, records: seq<Record>, n: nat)
    requires n <= |records|
  {
    LedgerInv(ApplyRecords(s, job, supplier, records[..n]).ledger,
              log + WritesOf(AcceptedSnapshots(s, job, supplier, records, n)))
  }

  lemma RecordKeeps(s: State, log: seq<Write>, job: JobId, supplier: Id, records: seq<Record>, n: nat, p: Progress)
    requires n < |records| && Filtered(s, job, supplier, records, n, p)
    requires LedgerInv(p.ledger, log + WritesOf(AcceptedSnapshots(s, job, supplier, records, n)))
    ensures LedgerInv(ApplyRecord(p, job, supplier, records[n]).ledger,
                      log + WritesOf(AcceptedSnapshots(s, job, supplier, records, n + 1)))
  {
    var r := records[n];
    var before := AcceptedSnapshots(s, job, supplier, records, n);
    DuplicateTest(s, job, supplier, records, n, p);
    assert CheckRecord(p.ledger, supplier, r) == CheckRecord(s, supplier, r);
    if Accepts(s, supplier, records, n) {
      var (pm, wm) := CheckRecord(s, supplier, r).value;
      var x := SnapshotOf(job, supplier, r, pm, wm);
      AddSnapshotKeeps(p.ledger, log + WritesOf(before), x);
      assert (log + WritesOf(before)) + [WriteOf(x)] == log + WritesOf(before + [x]);
    } else {
      assert before + [] == before;
    }
  }

  lemma ImportStepKeeps(s: State, log: seq<Write>, job: JobId, supplier: Id, records: seq<Record>, n: nat)
    requires 1 <= n <= |records| && ImportInv(s, log, job, supplier, records, n - 1)
    ensures ImportInv(s, log, job, supplier, records, n)
  {
    ImportIsFilter(s, job, supplier, records, n - 1);
    ApplyNext(s, job, supplier, records, n - 1);
    RecordKeeps(s, log, job, supplier, records, n - 1, ApplyRecords(s, job, supplier, records[..n - 1]));
  }

  lemma {:induction false} ImportKeeps(s: State, log: seq<Write>, job: JobId, supplier: Id, records: seq<Record>,
                                       n: nat)
    requires n <= |records| && LedgerInv(s, log)
    ensures ImportInv(s, log, job, supplier, records, n)
  {
    if n == 0 {
      assert log + WritesOf([]) == log;
    } else {
      ImportKeeps(s, log, job, supplier, records, n - 1);
      ImportStepKeeps(s, log, job, supplier, records, n);
    }
  }

  lemma EventKeeps(s: State, log: seq<Write>, e: Event)
    requires LedgerInv(s, log)
    ensures LedgerInv(Apply(s, e), log + Writes(s, e))
  {
    var t := Apply(s, e);
    match e
    case ProductMapped(_) => MappingEventKeeps(s, log, e);
    case WarehouseMapped(_) => MappingEventKeeps(s, log, e);
    case InventorySet(w, p, onHand, reserved) =>
      if SetInventory(s, w, p, onHand, reserved).Ok? {
        HoldsAfterWrite(s.positions, log, Write(w, p, onHand, reserved));
        forall i | 0 <= i < |t.snapshots| ensures Traces(t, t.snapshots[i]) { assert Traces(s, s.snapshots[i]); }
      } else {
        assert log + [] == log;
      }
    case Imported(job, supplier, records) =>
      ImportKeeps(s, log, job, supplier, records, |records|);
      assert records[..|records|] == records;
  }

  lemma MappingEventKeeps(s: State, log: seq<Write>, e: Event)
    requires LedgerInv(s, log) && (e.ProductMapped? || e.WarehouseMapped?)
    ensures LedgerInv(Apply(s, e), log + Writes(s, e))
  {
    assert log + [] == log;
    var t := Apply(s, e);
    forall i | 0 <= i < |t.snapshots| ensures Traces(t, t.snapshots[i]) { assert Traces(s, s.snapshots[i]); }
  }

  /** The main theorem: from an empty ledger, whatever upserts, manual sets and imports follow one another,
      each source key is applied at most once, mapping versions identify what converted every snapshot, and
      the position table is what its write log says. */
  lemma {:induction false} WholeHistory(catalog: Catalog, history: seq<Event>)
    ensures LedgerInv(Replay(Empty(catalog), history), WriteLog(Empty(catalog), history))
  {
    if history != [] {
      var earlier := history[..|history| - 1];
      WholeHistory(catalog, earlier);
      EventKeeps(Replay(Empty(catalog), earlier), WriteLog(Empty(catalog), earlier), history[|history| - 1]);
    }
  }
}
