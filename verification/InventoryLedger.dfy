/** The ledger as the hub keeps it: tables that the services update in place. Every method is proved
    against the state function of module Ledger. */
module InventoryLedgers {
  import opened Domain
  import opened Ledger

  class InventoryLedger {
    const catalog: Catalog
    var productMappings: map<(Id, string), ProductMapping>
    var warehouseMappings: map<(Id, string), WarehouseMapping>
    var snapshots: seq<Snapshot>
    var positions: map<(Id, Id), Position>

    ghost function Contents(): State
      reads this
    {
      State(catalog, productMappings, warehouseMappings, snapshots, positions)
    }

    constructor (catalog: Catalog)
      ensures Contents() == Empty(catalog)
    {
      this.catalog := catalog;
      productMappings, warehouseMappings, snapshots, positions := map[], map[], [], map[];
    }

    method UpsertProductMapping(r: ProductMappingUpsert) returns (result: Result<ProductMapping, ServiceError>)
      modifies this`productMappings
      ensures Contents() == Apply(old(Contents()), ProductMapped(r))
      ensures result.Ok? <==> Ledger.UpsertProductMapping(old(Contents()), r).Ok?
      ensures result.Ok? ==>
                (r.supplier, r.sku) in productMappings && result.value == productMappings[(r.supplier, r.sku)]
      ensures result.Err? ==> result.error == NotFound
    {
      if r.supplier !in catalog.suppliers || r.product !in catalog.products {
        return Err(NotFound);
      }
      var key := (r.supplier, r.sku);
      var mapping;
      if key !in productMappings {
        mapping := ProductMapping(r.product, r.unit, r.factor, r.active, 1);
      } else {
        mapping := productMappings[key];
        var changed :=
          || mapping.product != r.product || mapping.unit != r.unit
          || mapping.factor != r.factor || mapping.active != r.active;
        if changed {
          mapping := mapping.(product := r.product);
          mapping := mapping.(unit := r.unit);
          mapping := mapping.(factor := r.factor);
          mapping := mapping.(active := r.active);
          mapping := mapping.(version := mapping.version + 1);
        }
      }
      productMappings := productMappings[key := mapping];
      return Ok(mapping);
    }

    method UpsertWarehouseMapping(r: WarehouseMappingUpsert) returns (result: Result<WarehouseMapping, ServiceError>)
      modifies this`warehouseMappings
      ensures Contents() == Apply(old(Contents()), WarehouseMapped(r))
      ensures result.Ok? <==> Ledger.UpsertWarehouseMapping(old(Contents()), r).Ok?
      ensures result.Ok? ==>
                && (r.supplier, r.location) in warehouseMappings
                && result.value == warehouseMappings[(r.supplier, r.location)]
      ensures result.Err? ==> result.error == NotFound
    {
      if r.supplier !in catalog.suppliers || r.warehouse !in catalog.warehouses {
        return Err(NotFound);
      }
      var key := (r.supplier, r.location);
      var mapping;
      if key !in warehouseMappings {
        mapping := WarehouseMapping(r.warehouse, r.active, 1);
      } else {
        mapping := warehouseMappings[key];
        var changed := mapping.warehouse != r.warehouse || mapping.active != r.active;
        if changed {
          mapping := mapping.(warehouse := r.warehouse);
          mapping := mapping.(active := r.active);
          mapping := mapping.(version := mapping.version + 1);
        }
      }
      warehouseMappings := warehouseMappings[key := mapping];
      return Ok(mapping);
    }

    method SetInventory(warehouse: Id, product: Id, onHand: real, reserved: real)
      returns (result: Result<Position, ServiceError>)
      modifies this`positions
      ensures Contents() == Apply(old(Contents()), InventorySet(warehouse, product, onHand, reserved))
      ensures match Ledger.SetInventory(old(Contents()), warehouse, product, onHand, reserved)
              case Ok(_) => (warehouse, product) in positions && result == Ok(positions[(warehouse, product)])
              case Err(e) => result == Err(e)
    {
      if warehouse !in catalog.warehouses || product !in catalog.products {
        return Err(NotFound);
      }
      if onHand < 0.0 || reserved < 0.0 {
        return Err(Invalid);
      }
      OverwritePosition(warehouse, product, onHand, reserved);
      return Ok(positions[(warehouse, product)]);
    }

    method OverwritePosition(warehouse: Id, product: Id, onHand: Quantity, reserved: Quantity)
      modifies this`positions
      ensures positions == WritePosition(old(positions), warehouse, product, onHand, reserved)
    {
      var key := (warehouse, product);
      var position;
      if key !in positions {
        position := Position(onHand, reserved, 1);
      } else {
        position := positions[key];
        position := position.(onHand := onHand);
        position := position.(reserved := reserved);
        position := position.(version := position.version + 1);
      }
      positions := positions[key := position];
    }

    /** One record of an import; `None` means that it was accepted. */
    method ValidateAndApplyRecord(job: JobId, supplier: Id, r: Record, seen: set<SourceKey>)
      returns (error: Option<RecordError>, seenAfter: set<SourceKey>)
      modifies this`positions, this`snapshots
      ensures forall accepted: nat, errors ::
                ApplyRecord(Progress(old(Contents()), seen, accepted, errors), job, supplier, r) ==
                Progress(Contents(), seenAfter, if error.None? then accepted + 1 else accepted,
                         if error.None? then errors else errors + [error.value])
    {
      seenAfter := seen;
      var sourceKey := SourceKey(r.reference, r.sku, r.location);
      if sourceKey in seen || Logged(snapshots, supplier, sourceKey) {
        return Some(Rejected(r, DuplicateSourceRecord, None)), seenAfter;
      }
      seenAfter := seenAfter + {sourceKey};

      var productKey := (supplier, r.sku);
      if productKey !in productMappings || !productMappings[productKey].active {
        return Some(Rejected(r, ProductMappingNotFound, Some("external_sku"))), seenAfter;
      }
      var productMapping := productMappings[productKey];

      var warehouseKey := (supplier, r.location);
      if warehouseKey !in warehouseMappings || !warehouseMappings[warehouseKey].active {
        return Some(Rejected(r, WarehouseMappingNotFound, Some("external_location"))), seenAfter;
      }
      var warehouseMapping := warehouseMappings[warehouseKey];

      if productMapping.unit != r.unit {
        return Some(Rejected(r, SourceUnitMismatch, Some("source_unit"))), seenAfter;
      }
      var conversionFactor := productMapping.factor;
      if r.factor.Some? && r.factor.value != conversionFactor {
        return Some(Rejected(r, UnitConversionMismatch, Some("units_per_source_unit"))), seenAfter;
      }

      var onHand, reserved := Convert(r.onHand, conversionFactor), Convert(r.reserved, conversionFactor);
      OverwritePosition(warehouseMapping.warehouse, productMapping.product, onHand, reserved);
      snapshots := snapshots + [
        Snapshot(job, supplier, productMapping.product, warehouseMapping.warehouse, sourceKey, r.observedAt,
                 onHand, reserved, r.unit, conversionFactor, productMapping.version, warehouseMapping.version, r.row)];
      error := None;
    }

    /** The import loop: errors of the adapter first, then record by record. Returns all errors of the job and
        its three counters. */
    method ApplyInventoryResult(job: JobId, supplier: Id, prior: seq<RecordError>, result: AdapterResult)
      returns (errors: seq<RecordError>, total: int, accepted: int, rejected: int)
      modifies this`positions, this`snapshots
      ensures Ledger.ApplyInventoryResult(old(Contents()), job, supplier, prior, result) ==
              ImportOutcome(Contents(), errors, total, accepted, rejected)
    {
      errors := prior;
      var e := 0;
      while e < |result.errors|
        invariant 0 <= e <= |result.errors|
        invariant errors == prior + result.errors[..e]
      {
        errors := errors + [result.errors[e]];
        e := e + 1;
      }
      accepted := 0;
      var seen := {};
      var i := 0;
      ghost var before := Contents();
      ghost var base := errors;
      ghost var recordErrors := [];
      while i < |result.records|
        invariant 0 <= i <= |result.records|
        invariant ApplyRecords(before, job, supplier, result.records[..i]) ==
                  Progress(Contents(), seen, accepted, recordErrors)
        invariant accepted >= 0
        invariant errors == base + recordErrors
      {
        var record := result.records[i];
        ApplyNext(before, job, supplier, result.records, i);
        var validationError, seenAfter := ValidateAndApplyRecord(job, supplier, record, seen);
        seen := seenAfter;
        if validationError.None? {
          accepted := accepted + 1;
        } else {
          errors := errors + [validationError.value];
          recordErrors := recordErrors + [validationError.value];
        }
        i := i + 1;
      }
      assert result.records[..i] == result.records && result.errors[..e] == result.errors;
      rejected := RejectedCount(errors);
      total := accepted + rejected;
    }
  }
}
