/** The inventory ledger: versioned partner mappings, the snapshot log, and the position table, together
    with the operations that change them, written as functions from state to state. */
module Ledger {
  import opened Domain

  datatype ProductMapping =
    ProductMapping(product: Id, unit: UnitOfMeasure, factor: PositiveQuantity, active: bool, version: int)

  datatype WarehouseMapping = WarehouseMapping(warehouse: Id, active: bool, version: int)

  datatype Position = Position(onHand: Quantity, reserved: Quantity, version: int)

  /** One partner record after adaptation, still in the partner's own names and units. */
  datatype Record = Record(
    reference: string, row: int, sku: string, location: string, observedAt: Time,
    unit: UnitOfMeasure, onHand: Quantity, reserved: Quantity, factor: Option<PositiveQuantity>)

  datatype SourceKey = SourceKey(reference: string, sku: string, location: string)

  datatype Snapshot = Snapshot(
    job: JobId, supplier: Id, product: Id, warehouse: Id, key: SourceKey, observedAt: Time,
    onHand: Quantity, reserved: Quantity, unit: UnitOfMeasure, factor: PositiveQuantity,
    productVersion: int, warehouseVersion: int, row: int)

  datatype ErrorCode =
    | InvalidFileEncoding | MissingCsvHeaders | InvalidCsvField
    | DuplicateSourceRecord | ProductMappingNotFound | WarehouseMappingNotFound
    | SourceUnitMismatch | UnitConversionMismatch

  /** A rejected row, or a rejected file when there is no row. */
  datatype RecordError = RecordError(code: ErrorCode, row: Option<int>, field: Option<string>)

  datatype AdapterResult = AdapterResult(records: seq<Record>, errors: seq<RecordError>)

  datatype Catalog = Catalog(suppliers: set<Id>, products: set<Id>, warehouses: set<Id>)

  datatype State = State(
    catalog: Catalog,
    productMappings: map<(Id, string), ProductMapping>,
    warehouseMappings: map<(Id, string), WarehouseMapping>,
    snapshots: seq<Snapshot>,
    positions: map<(Id, Id), Position>)

  function Empty(catalog: Catalog): State {
    State(catalog, map[], map[], [], map[])
  }

  // ---------------------------------------------------------------- mappings

  datatype ProductMappingUpsert =
    ProductMappingUpsert(supplier: Id, sku: string, product: Id, unit: UnitOfMeasure, factor: PositiveQuantity,
                         active: bool)

  datatype WarehouseMappingUpsert = WarehouseMappingUpsert(supplier: Id, location: string, warehouse: Id, active: bool)

  function UpsertedProductMapping(current: Option<ProductMapping>, r: ProductMappingUpsert): ProductMapping {
    match current
    case None => ProductMapping(r.product, r.unit, r.factor, r.active, 1)
    case Some(m) =>
      if m.product != r.product || m.unit != r.unit || m.factor != r.factor || m.active != r.active then
        ProductMapping(r.product, r.unit, r.factor, r.active, m.version + 1)
      else
        m
  }

  function UpsertedWarehouseMapping(current: Option<WarehouseMapping>, r: WarehouseMappingUpsert): WarehouseMapping {
    match current
    case None => WarehouseMapping(r.warehouse, r.active, 1)
    case Some(m) =>
      if m.warehouse != r.warehouse || m.active != r.active then
        WarehouseMapping(r.warehouse, r.active, m.version + 1)
      else
        m
  }

  function Lookup<K, V>(m: map<K, V>, k: K): Option<V> {
    if k in m then Some(m[k]) else None
  }

  function UpsertProductMapping(s: State, r: ProductMappingUpsert): Result<State, ServiceError> {
    if r.supplier !in s.catalog.suppliers || r.product !in s.catalog.products then
      Err(NotFound)
    else
      var key := (r.supplier, r.sku);
      Ok(s.(productMappings := s.productMappings[key := UpsertedProductMapping(Lookup(s.productMappings, key), r)]))
  }

  function UpsertWarehouseMapping(s: State, r: WarehouseMappingUpsert): Result<State, ServiceError> {
    if r.supplier !in s.catalog.suppliers || r.warehouse !in s.catalog.warehouses then
      Err(NotFound)
    else
      var key := (r.supplier, r.location);
      var mapping := UpsertedWarehouseMapping(Lookup(s.warehouseMappings, key), r);
      Ok(s.(warehouseMappings := s.warehouseMappings[key := mapping]))
  }

  // --------------------------------------------------------------- positions

  /** The effect of one position write: insert with version 1, or overwrite and count one version up. */
  function WritePosition(positions: map<(Id, Id), Position>, warehouse: Id, product: Id, onHand: Quantity,
                         reserved: Quantity):
    map<(Id, Id), Position>
  {
    var key := (warehouse, product);
    positions[key := Position(onHand, reserved, if key in positions then positions[key].version + 1 else 1)]
  }

  /** A manual inventory set; a negative quantity is refused before anything is written. */
  function SetInventory(s: State, warehouse: Id, product: Id, onHand: real, reserved: real):
    Result<State, ServiceError>
  {
    if warehouse !in s.catalog.warehouses || product !in s.catalog.products then
      Err(NotFound)
    else if onHand < 0.0 || reserved < 0.0 then
      Err(Invalid)
    else
      Ok(s.(positions := WritePosition(s.positions, warehouse, product, onHand, reserved)))
  }

  // ----------------------------------------------------------------- imports

  function KeyOf(r: Record): SourceKey {
    SourceKey(r.reference, r.sku, r.location)
  }

  /** The supplier already has a snapshot for this source key. */
  predicate Logged(snapshots: seq<Snapshot>, supplier: Id, key: SourceKey) {
    exists i :: 0 <= i < |snapshots| && snapshots[i].supplier == supplier && snapshots[i].key == key
  }

  function Rejected(r: Record, code: ErrorCode, field: Option<string>): RecordError {
    RecordError(code, Some(r.row), field)
  }

  /** The mapping and unit checks, in the order the hub makes them. */
  function CheckRecord(s: State, supplier: Id, r: Record): Result<(ProductMapping, WarehouseMapping), RecordError> {
    var pk, wk := (supplier, r.sku), (supplier, r.location);
    if pk !in s.productMappings || !s.productMappings[pk].active then
      Err(Rejected(r, ProductMappingNotFound, Some("external_sku")))
    else if wk !in s.warehouseMappings || !s.warehouseMappings[wk].active then
      Err(Rejected(r, WarehouseMappingNotFound, Some("external_location")))
    else if s.productMappings[pk].unit != r.unit then
      Err(Rejected(r, SourceUnitMismatch, Some("source_unit")))
    else if r.factor.Some? && r.factor.value != s.productMappings[pk].factor then
      Err(Rejected(r, UnitConversionMismatch, Some("units_per_source_unit")))
    else
      Ok((s.productMappings[pk], s.warehouseMappings[wk]))
  }

  function Convert(q: Quantity, factor: PositiveQuantity): Quantity {
    ScaledIsNonnegative(q, factor);
    q * factor
  }

  lemma ScaledIsNonnegative(q: Quantity, factor: PositiveQuantity)
    ensures q * factor >= 0.0
  {
  }

  function SnapshotOf(job: JobId, supplier: Id, r: Record, p: ProductMapping, w: WarehouseMapping): Snapshot {
    Snapshot(job, supplier, p.product, w.warehouse, KeyOf(r), r.observedAt,
             Convert(r.onHand, p.factor), Convert(r.reserved, p.factor), r.unit, p.factor,
             p.version, w.version, r.row)
  }

  function AddSnapshot(s: State, snap: Snapshot): State {
    s.(positions := WritePosition(s.positions, snap.warehouse, snap.product, snap.onHand, snap.reserved),
       snapshots := s.snapshots + [snap])
  }

  /** Where the import loop stands: the ledger so far, the keys seen in this file, the acceptance counter,
      and the errors of the records handled so far. */
  datatype Progress = Progress(ledger: State, seen: set<SourceKey>, accepted: nat, errors: seq<RecordError>)

  function ApplyRecord(p: Progress, job: JobId, supplier: Id, r: Record): Progress {
    if KeyOf(r) in p.seen || Logged(p.ledger.snapshots, supplier, KeyOf(r)) then
      p.(errors := p.errors + [Rejected(r, DuplicateSourceRecord, None)])
    else
      match CheckRecord(p.ledger, supplier, r)
      case Err(e) => p.(seen := p.seen + {KeyOf(r)}, errors := p.errors + [e])
      case Ok((pm, wm)) =>
        Progress(AddSnapshot(p.ledger, SnapshotOf(job, supplier, r, pm, wm)), p.seen + {KeyOf(r)}, p.accepted + 1,
                 p.errors)
  }

  /** The import loop over a whole list of records. */
  function ApplyRecords(s: State, job: JobId, supplier: Id, records: seq<Record>): Progress {
    if records == [] then
      Progress(s, {}, 0, [])
    else
      ApplyRecord(ApplyRecords(s, job, supplier, records[..|records| - 1]), job, supplier, records[|records| - 1])
  }

  lemma ApplyNext(s: State, job: JobId, supplier: Id, records: seq<Record>, i: nat)
    requires i < |records|
    ensures ApplyRecords(s, job, supplier, records[..i + 1]) ==
            ApplyRecord(ApplyRecords(s, job, supplier, records[..i]), job, supplier, records[i])
  {
    assert records[..i + 1][..i] == records[..i];
  }

  /** What a completed import leaves behind: the ledger, all errors of the job, and the three counters. */
  datatype ImportOutcome =
    ImportOutcome(ledger: State, errors: seq<RecordError>, total: int, accepted: int, rejected: int)

  function RejectedRows(errors: seq<RecordError>): set<int> {
    set e | e in errors && e.row.Some? :: e.row.value
  }

  function RejectedCount(errors: seq<RecordError>): int {
    |RejectedRows(errors)| + (if exists i :: 0 <= i < |errors| && errors[i].row.None? then 1 else 0)
  }

  /** Apply one adapted file for a job that already carries the errors `prior`. */
  function ApplyInventoryResult(s: State, job: JobId, supplier: Id, prior: seq<RecordError>,
                                result: AdapterResult): ImportOutcome {
    var p := ApplyRecords(s, job, supplier, result.records);
    var errors := prior + result.errors + p.errors;
    ImportOutcome(p.ledger, errors, p.accepted + RejectedCount(errors), p.accepted, RejectedCount(errors))
  }

  // ------------------------------------------------------------------ events

  /** Everything that can happen to the ledger. */
  datatype Event =
    | ProductMapped(product: ProductMappingUpsert)
    | WarehouseMapped(warehouse: WarehouseMappingUpsert)
    | InventorySet(at: Id, of: Id, onHand: real, reserved: real)
    | Imported(job: JobId, supplier: Id, records: seq<Record>)

  function OrElse(r: Result<State, ServiceError>, s: State): State {
    if r.Ok? then r.value else s
  }

  function Apply(s: State, e: Event): State {
    match e
    case ProductMapped(r) => OrElse(UpsertProductMapping(s, r), s)
    case WarehouseMapped(r) => OrElse(UpsertWarehouseMapping(s, r), s)
    case InventorySet(w, p, onHand, reserved) => OrElse(SetInventory(s, w, p, onHand, reserved), s)
    case Imported(job, supplier, records) => ApplyRecords(s, job, supplier, records).ledger
  }

  /** The ledger after a history of events. */
  function Replay(s: State, history: seq<Event>): State {
    if history == [] then s else Apply(Replay(s, history[..|history| - 1]), history[|history| - 1])
  }
}
