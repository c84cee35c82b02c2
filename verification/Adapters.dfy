/** The two partner adapters, from split and validated input to canonical records and errors, and the
    accounting of rows from the adapter through the import. */
module Adapters {
  import opened Domain
  import opened Ledger
  import opened LedgerLaws

  datatype SupplierAItem =
    SupplierAItem(itemNumber: string, location: string, onHand: Quantity, allocation: Quantity, unit: UnitOfMeasure)

  datatype SupplierAPayload = SupplierAPayload(snapshotId: string, capturedAt: Time, items: seq<SupplierAItem>)

  /** Names of the fields a row failed on; a row that fails validation names at least one. */
  type FieldErrors = fields: seq<string> | |fields| > 0 witness ["as_of"]

  datatype CsvRow =
    | ValidRow(snapshotRef: string, asOf: Time, partnerSku: string, depot: string,
               caseCount: Quantity, unitsPerCase: PositiveQuantity)
    | InvalidRow(fields: FieldErrors)

  datatype CsvFile = BadEncoding | MissingHeaders | Rows(rows: seq<CsvRow>)

  // ------------------------------------------------------------------- supplier A

  function SupplierARecord(p: SupplierAPayload, i: nat): Record
    requires i < |p.items|
  {
    var item := p.items[i];
    Record(p.snapshotId, i + 1, item.itemNumber, item.location, p.capturedAt, item.unit, item.onHand, item.allocation,
           None)
  }

  function AdaptSupplierA(p: SupplierAPayload): AdapterResult {
    AdapterResult(seq(|p.items|, i requires 0 <= i < |p.items| => SupplierARecord(p, i)), [])
  }

  method SupplierAInventoryAdapter(p: SupplierAPayload) returns (result: AdapterResult)
    ensures result == AdaptSupplierA(p)
  {
    var records := [];
    var sourceRow := 1;
    while sourceRow <= |p.items|
      invariant 1 <= sourceRow <= |p.items| + 1
      invariant records == AdaptSupplierA(p).records[..sourceRow - 1]
    {
      var item := p.items[sourceRow - 1];
      records := records + [Record(p.snapshotId, sourceRow, item.itemNumber, item.location, p.capturedAt,
                                   item.unit, item.onHand, item.allocation, None)];
      sourceRow := sourceRow + 1;
    }
    result := AdapterResult(records, []);
  }

  // ------------------------------------------------------------------- supplier B

  /** The header is row 1, so data rows start at 2. */
  const FIRST_DATA_ROW := 2

  function RowErrors(row: int, fields: seq<string>): seq<RecordError> {
    seq(|fields|, i requires 0 <= i < |fields| => RecordError(InvalidCsvField, Some(row), Some(fields[i])))
  }

  function SupplierBRecord(row: CsvRow, sourceRow: int): Record
    requires row.ValidRow?
  {
    Record(row.snapshotRef, sourceRow, row.partnerSku, row.depot, row.asOf, Case, row.caseCount, 0.0,
           Some(row.unitsPerCase))
  }

  /** The result after the first `n` data rows. */
  function AdaptRows(rows: seq<CsvRow>, n: nat): AdapterResult
    requires n <= |rows|
  {
    if n == 0 then AdapterResult([], [])
    else
      var before := AdaptRows(rows, n - 1);
      var sourceRow := FIRST_DATA_ROW + n - 1;
      match rows[n - 1]
      case InvalidRow(fields) => before.(errors := before.errors + RowErrors(sourceRow, fields))
      case _ => before.(records := before.records + [SupplierBRecord(rows[n - 1], sourceRow)])
  }

  function AdaptSupplierB(file: CsvFile): AdapterResult {
    match file
    case BadEncoding => AdapterResult([], [RecordError(InvalidFileEncoding, None, None)])
    case MissingHeaders => AdapterResult([], [RecordError(MissingCsvHeaders, None, None)])
    case Rows(rows) => AdaptRows(rows, |rows|)
  }

  method SupplierBInventoryAdapter(file: CsvFile) returns (result: AdapterResult)
    ensures result == AdaptSupplierB(file)
  {
    result := AdapterResult([], []);
    if file.BadEncoding? {
      result := result.(errors := result.errors + [RecordError(InvalidFileEncoding, None, None)]);
      return;
    }
    if file.MissingHeaders? {
      result := result.(errors := result.errors + [RecordError(MissingCsvHeaders, None, None)]);
      return;
    }
    var n := 0;
    while n < |file.rows|
      invariant 0 <= n <= |file.rows|
      invariant result == AdaptRows(file.rows, n)
    {
      var row, sourceRow := file.rows[n], FIRST_DATA_ROW + n;
      n := n + 1;
      if row.InvalidRow? {
        var detail := 0;
        ghost var before := result;
        while detail < |row.fields|
          invariant 0 <= detail <= |row.fields|
          invariant result == before.(errors := before.errors + RowErrors(sourceRow, row.fields)[..detail])
        {
          result := result.(
            errors := result.errors + [RecordError(InvalidCsvField, Some(sourceRow), Some(row.fields[detail]))]);
          detail := detail + 1;
        }
        continue;
      }
      result := result.(
        records := result.records + [Record(row.snapshotRef, sourceRow, row.partnerSku, row.depot, row.asOf,
                                            Case, row.caseCount, 0.0, Some(row.unitsPerCase))]);
    }
  }

  // -------------------------------------------------------------- what a record holds

  /** Every item becomes one record, in order, with its own quantities; there are no errors. */
  lemma SupplierAFields(p: SupplierAPayload)
    ensures var result := AdaptSupplierA(p);
            && result.errors == [] && |result.records| == |p.items|
            && forall i :: 0 <= i < |p.items| ==>
                 var r, item := result.records[i], p.items[i];
                 && r.reference == p.snapshotId && r.row == i + 1 && r.observedAt == p.capturedAt
                 && r.sku == item.itemNumber && r.location == item.location && r.unit == item.unit
                 && r.onHand == item.onHand && r.reserved == item.allocation && r.factor == None
  {
  }

  /** How many of the first `n` rows are valid. */
  function ValidCount(rows: seq<CsvRow>, n: nat): nat
    requires n <= |rows|
  {
    if n == 0 then 0 else ValidCount(rows, n - 1) + (if rows[n - 1].ValidRow? then 1 else 0)
  }

  /** How many fields the first `n` rows failed on. */
  function FieldErrorCount(rows: seq<CsvRow>, n: nat): nat
    requires n <= |rows|
  {
    if n == 0 then 0
    else FieldErrorCount(rows, n - 1) + (if rows[n - 1].InvalidRow? then |rows[n - 1].fields| else 0)
  }

  lemma {:induction false} SupplierBSizes(rows: seq<CsvRow>, n: nat)
    requires n <= |rows|
    ensures |AdaptRows(rows, n).records| == ValidCount(rows, n)
    ensures |AdaptRows(rows, n).errors| == FieldErrorCount(rows, n)
  {
    if n > 0 { SupplierBSizes(rows, n - 1); }
  }

  /** A valid row becomes one record of cases, with nothing reserved; an invalid row becomes one error per field.
      Both keep file order and carry the row number, the header being row 1. */
  lemma {:induction false} SupplierBFields(rows: seq<CsvRow>, n: nat, i: nat)
    requires i < n <= |rows|
    ensures var result, k := AdaptRows(rows, n), ValidCount(rows, i);
            |result.records| == ValidCount(rows, n) &&
            (rows[i].ValidRow? ==>
               && k < |result.records|
               && var r, row := result.records[k], rows[i];
               && r.reference == row.snapshotRef && r.row == i + 2 && r.observedAt == row.asOf
               && r.sku == row.partnerSku && r.location == row.depot && r.unit == Case
               && r.onHand == row.caseCount && r.reserved == 0.0 && r.factor == Some(row.unitsPerCase))
    ensures var result, e := AdaptRows(rows, n), FieldErrorCount(rows, i);
            |result.errors| == FieldErrorCount(rows, n) &&
            (rows[i].InvalidRow? ==>
               && e + |rows[i].fields| <= |result.errors|
               && forall d :: 0 <= d < |rows[i].fields| ==>
                    result.errors[e + d] == RecordError(InvalidCsvField, Some(i + 2), Some(rows[i].fields[d])))
  {
    SupplierBSizes(rows, n);
    SupplierBSizes(rows, n - 1);
    if i < n - 1 { SupplierBFields(rows, n - 1, i); }
  }

  /** A file that cannot be decoded or lacks a header is one error without a row. */
  lemma SupplierBFiles(file: CsvFile)
    ensures file.BadEncoding? ==>
              AdaptSupplierB(file) == AdapterResult([], [RecordError(InvalidFileEncoding, None, None)])
    ensures file.MissingHeaders? ==>
              AdaptSupplierB(file) == AdapterResult([], [RecordError(MissingCsvHeaders, None, None)])
    ensures file.Rows? ==> AdaptSupplierB(file) == AdaptRows(file.rows, |file.rows|)
  {
  }

  /** `x` holds the quantities `onHand` and `reserved` of one partner unit times `factor`. */
  predicate Holds(x: Snapshot, key: SourceKey, row: int, observedAt: Time, onHand: Quantity, reserved: Quantity,
                  factor: PositiveQuantity)
  {
    && x.key == key && x.row == row && x.observedAt == observedAt
    && x.factor == factor && x.onHand == onHand * factor && x.reserved == reserved * factor
  }

  lemma ConversionHolds(s: State, job: JobId, supplier: Id, r: Record, x: Snapshot)
    requires IsConversion(s, job, supplier, r, x)
    ensures var factor := s.productMappings[(supplier, r.sku)].factor;
            && Holds(x, SourceKey(r.reference, r.sku, r.location), r.row, r.observedAt, r.onHand, r.reserved, factor)
            && (r.factor.Some? ==> r.factor.value == factor)
  {
  }

  /** An accepted item of supplier A ends in a snapshot of its own quantities times the factor of its mapping. */
  lemma SupplierAImported(s: State, job: JobId, supplier: Id, p: SupplierAPayload, i: nat) returns (x: Snapshot)
    requires i < |p.items| && Accepts(s, supplier, AdaptSupplierA(p).records, i)
    ensures var o := ApplyInventoryResult(s, job, supplier, [], AdaptSupplierA(p));
            var k := |s.snapshots| + AcceptCount(s, supplier, AdaptSupplierA(p).records, i);
            k < |o.ledger.snapshots| && x == o.ledger.snapshots[k]
    ensures var item := p.items[i];
            && (supplier, item.itemNumber) in s.productMappings
            && Holds(x, SourceKey(p.snapshotId, item.itemNumber, item.location), i + 1, p.capturedAt,
                     item.onHand, item.allocation, s.productMappings[(supplier, item.itemNumber)].factor)
  {
    SupplierAFields(p);
    x := AcceptedLands(s, job, supplier, AdaptSupplierA(p), i);
    ConversionHolds(s, job, supplier, AdaptSupplierA(p).records[i], x);
  }

  /** An accepted row of supplier B ends in a snapshot of its cases times the units per case that it states. */
  lemma SupplierBImported(s: State, job: JobId, supplier: Id, rows: seq<CsvRow>, i: nat) returns (x: Snapshot)
    requires i < |rows| && rows[i].ValidRow?
    requires var records := AdaptSupplierB(Rows(rows)).records;
             ValidCount(rows, i) < |records| && Accepts(s, supplier, records, ValidCount(rows, i))
    ensures var result := AdaptSupplierB(Rows(rows));
            var o := ApplyInventoryResult(s, job, supplier, [], result);
            var k := |s.snapshots| + AcceptCount(s, supplier, result.records, ValidCount(rows, i));
            k < |o.ledger.snapshots| && x == o.ledger.snapshots[k]
    ensures var row := rows[i];
            Holds(x, SourceKey(row.snapshotRef, row.partnerSku, row.depot), i + 2, row.asOf,
                  row.caseCount, 0.0, row.unitsPerCase)
  {
    SupplierBFields(rows, |rows|, i);
    x := AcceptedLands(s, job, supplier, AdaptSupplierB(Rows(rows)), ValidCount(rows, i));
    ConversionHolds(s, job, supplier, AdaptSupplierB(Rows(rows)).records[ValidCount(rows, i)], x);
  }

  // ------------------------------------------------------------------- accounting

  /** Records carry increasing row numbers, no row is both a record and an error, no error is file-level,
      and records and rejected rows together make up `n` rows. */
  ghost predicate RowsAccounted(result: AdapterResult, n: nat) {
    && (forall i, j :: 0 <= i < j < |result.records| ==> result.records[i].row < result.records[j].row)
    && (forall i :: 0 <= i < |result.records| ==> result.records[i].row !in RejectedRows(result.errors))
    && (forall i :: 0 <= i < |result.errors| ==> result.errors[i].row.Some?)
    && |RejectedRows(result.errors)| + |result.records| == n
  }

  ghost predicate FileRejected(result: AdapterResult) {
    result.records == [] && |result.errors| == 1 && result.errors[0].row.None?
  }

  lemma SupplierARowsAccounted(p: SupplierAPayload)
    ensures RowsAccounted(AdaptSupplierA(p), |p.items|)
  {
    assert RejectedRows([]) == {};
  }

  lemma RejectedRowsOfSum(a: seq<RecordError>, b: seq<RecordError>)
    ensures RejectedRows(a + b) == RejectedRows(a) + RejectedRows(b)
  {
    forall x | x in RejectedRows(a) + RejectedRows(b) ensures x in RejectedRows(a + b) {
      if x in RejectedRows(a) {
        var e :| e in a && e.row.Some? && e.row.value == x;
        assert e in a + b;
      } else {
        var e :| e in b && e.row.Some? && e.row.value == x;
        assert e in a + b;
      }
    }
  }

  lemma RejectedRowsOfRow(row: int, fields: FieldErrors)
    ensures RejectedRows(RowErrors(row, fields)) == {row}
  {
    assert RowErrors(row, fields)[0] in RowErrors(row, fields);
  }

  ghost predicate Below(result: AdapterResult, row: int) {
    && (forall i :: 0 <= i < |result.records| ==> result.records[i].row < row)
    && (forall x :: x in RejectedRows(result.errors) ==> x < row)
  }

  lemma RowBecomesErrors(result: AdapterResult, n: nat, row: int, fields: FieldErrors)
    requires RowsAccounted(result, n) && Below(result, row)
    ensures var after := result.(errors := result.errors + RowErrors(row, fields));
            RowsAccounted(after, n + 1) && Below(after, row + 1)
  {
    RejectedRowsOfSum(result.errors, RowErrors(row, fields));
    RejectedRowsOfRow(row, fields);
    var rows := RejectedRows(result.errors);
    assert row !in rows;
    assert RejectedRows(result.errors + RowErrors(row, fields)) == rows + {row};
  }

  lemma {:induction false} SupplierBRowsAccounted(rows: seq<CsvRow>, n: nat)
    requires n <= |rows|
    ensures RowsAccounted(AdaptRows(rows, n), n) && Below(AdaptRows(rows, n), FIRST_DATA_ROW + n)
  {
    if n == 0 {
      assert RejectedRows([]) == {};
    } else {
      SupplierBRowsAccounted(rows, n - 1);
      if rows[n - 1].InvalidRow? {
        RowBecomesErrors(AdaptRows(rows, n - 1), n - 1, FIRST_DATA_ROW + n - 1, rows[n - 1].fields);
      }
    }
  }

  function RowsOf(records: seq<Record>, n: nat): set<int>
    requires n <= |records|
  {
    set i | 0 <= i < n :: records[i].row
  }

  ghost predicate AllOnRows(errors: seq<RecordError>) {
    forall i :: 0 <= i < |errors| ==> errors[i].row.Some?
  }

  /** `accepted` records and the rows of `refusals` make up the `n` rows in `rows`. */
  ghost predicate Counted(accepted: int, refusals: seq<RecordError>, rows: set<int>, n: int) {
    accepted + |RejectedRows(refusals)| == n && RejectedRows(refusals) <= rows && AllOnRows(refusals)
  }

  /** A new row is one more accepted record, or brings the one error `e`. */
  lemma OneMoreRow(accepted: int, before: seq<RecordError>, rows: set<int>, n: int, row: int, e: Option<RecordError>)
    requires Counted(accepted, before, rows, n) && row !in rows && (e.Some? ==> e.value.row == Some(row))
    ensures e.None? ==> Counted(accepted + 1, before, rows + {row}, n + 1)
    ensures e.Some? ==> Counted(accepted, before + [e.value], rows + {row}, n + 1)
  {
    if e.Some? {
      RejectedRowsOfSum(before, [e.value]);
      assert RejectedRows([e.value]) == {row} by { assert e.value in [e.value]; }
    }
  }

  /** How one more record moves the two outcome lists. */
  lemma NextRecord(s: State, job: JobId, supplier: Id, records: seq<Record>, n: nat)
    requires n < |records|
    ensures Accepts(s, supplier, records, n) ==>
              && |AcceptedSnapshots(s, job, supplier, records, n + 1)| ==
                 |AcceptedSnapshots(s, job, supplier, records, n)| + 1
              && Refusals(s, supplier, records, n + 1) == Refusals(s, supplier, records, n)
    ensures !Accepts(s, supplier, records, n) ==>
              && AcceptedSnapshots(s, job, supplier, records, n + 1) == AcceptedSnapshots(s, job, supplier, records, n)
              && Refusals(s, supplier, records, n + 1) ==
                 Refusals(s, supplier, records, n) + [Refusal(s, supplier, records, n)]
              && Refusal(s, supplier, records, n).row == Some(records[n].row)
  {
  }

  lemma NextRecordCounts(s: State, job: JobId, supplier: Id, records: seq<Record>, n: nat)
    requires n < |records| && records[n].row !in RowsOf(records, n)
    requires Counted(|AcceptedSnapshots(s, job, supplier, records, n)|, Refusals(s, supplier, records, n),
                     RowsOf(records, n), n)
    ensures var m := n + 1;
            Counted(|AcceptedSnapshots(s, job, supplier, records, m)|, Refusals(s, supplier, records, m),
                    RowsOf(records, m), m)
  {
    var e := if Accepts(s, supplier, records, n) then None else Some(Refusal(s, supplier, records, n));
    NextRecord(s, job, supplier, records, n);
    OneMoreRow(|AcceptedSnapshots(s, job, supplier, records, n)|, Refusals(s, supplier, records, n),
               RowsOf(records, n), n,
               records[n].row, e);
    assert RowsOf(records, n + 1) == RowsOf(records, n) + {records[n].row};
  }

  /** Each record handled by the loop is either accepted or one more rejected row. */
  lemma {:induction false} EachRecordCountsOnce(s: State, job: JobId, supplier: Id, records: seq<Record>, n: nat)
    requires n <= |records|
    requires forall i, j :: 0 <= i < j < |records| ==> records[i].row < records[j].row
    ensures Counted(|AcceptedSnapshots(s, job, supplier, records, n)|, Refusals(s, supplier, records, n),
                    RowsOf(records, n), n)
  {
    if n == 0 {
      assert RejectedRows([]) == {};
    } else {
      EachRecordCountsOnce(s, job, supplier, records, n - 1);
      NextRecordCounts(s, job, supplier, records, n - 1);
    }
  }

  /** Conservation through one import of a job without earlier errors: every row is accepted or rejected,
      a row with several errors is rejected once, and nothing was rejected iff there are no errors. */
  lemma RowsConserved(s: State, job: JobId, supplier: Id, result: AdapterResult, n: nat)
    requires RowsAccounted(result, n)
    ensures var o := ApplyInventoryResult(s, job, supplier, [], result);
            && o.total == n && o.accepted + o.rejected == n
            && o.accepted == |AcceptedSnapshots(s, job, supplier, result.records, |result.records|)|
            && (o.rejected == 0 <==> o.errors == [])
  {
    var records := result.records;
    var k := |records|;
    assert records[..k] == records;
    ImportIsFilter(s, job, supplier, records, k);
    EachRecordCountsOnce(s, job, supplier, records, k);
    var refusals := Refusals(s, supplier, records, k);
    var o := ApplyInventoryResult(s, job, supplier, [], result);
    assert [] + result.errors == result.errors;
    assert o.errors == result.errors + refusals;
    RejectedRowsOfSum(result.errors, refusals);
    assert RowsOf(records, k) !! RejectedRows(result.errors);
    assert RejectedRows(result.errors) !! RejectedRows(refusals);
    NothingRejected(o.errors);
  }

  lemma NothingRejected(errors: seq<RecordError>)
    ensures RejectedCount(errors) == 0 <==> errors == []
    ensures AllOnRows(errors) ==> RejectedCount(errors) == |RejectedRows(errors)|
  {
    if errors != [] && errors[0].row.Some? {
      assert errors[0] in errors && errors[0].row.value in RejectedRows(errors);
    }
  }

  lemma FileRejectionCountsOnce(s: State, job: JobId, supplier: Id, result: AdapterResult)
    requires FileRejected(result)
    ensures var o := ApplyInventoryResult(s, job, supplier, [], result);
            o.total == 1 && o.accepted == 0 && o.rejected == 1 && o.ledger == s
  {
    var o := ApplyInventoryResult(s, job, supplier, [], result);
    assert o.errors == result.errors;
    assert o.errors[0].row.None?;
    assert RejectedRows(o.errors) == {};
  }

  // ------------------------------------------------------- snapshots of one job

  function SnapshotCount(snapshots: seq<Snapshot>, job: JobId): nat {
    if snapshots == [] then 0
    else SnapshotCount(snapshots[..|snapshots| - 1], job) + (if snapshots[|snapshots| - 1].job == job then 1 else 0)
  }

  lemma {:induction false} SnapshotCountOfSum(a: seq<Snapshot>, b: seq<Snapshot>, job: JobId)
    ensures SnapshotCount(a + b, job) == SnapshotCount(a, job) + SnapshotCount(b, job)
  {
    if b == [] {
      assert a + b == a;
    } else {
      assert (a + b)[..|a + b| - 1] == a + b[..|b| - 1];
      SnapshotCountOfSum(a, b[..|b| - 1], job);
    }
  }

  /** An import adds to the count of its own job exactly what it accepted, and nothing to other jobs. */
  lemma {:induction false} AcceptedAreOwn(s: State, job: JobId, supplier: Id, records: seq<Record>, n: nat,
                                          other: JobId)
    requires n <= |records|
    ensures SnapshotCount(AcceptedSnapshots(s, job, supplier, records, n), other) ==
            if other == job then |AcceptedSnapshots(s, job, supplier, records, n)| else 0
  {
    if n > 0 {
      AcceptedAreOwn(s, job, supplier, records, n - 1, other);
      var before := AcceptedSnapshots(s, job, supplier, records, n - 1);
      var all := AcceptedSnapshots(s, job, supplier, records, n);
      SnapshotCountOfSum(before, all[|before|..], other);
      assert all == before + all[|before|..];
    }
  }
}
