/** Vocabulary shared by every module: optional values, results, time, quantities, and the enumerations
    of the integration hub. */
module Domain {

  datatype Option<+T> = None | Some(value: T)

  datatype Result<+T, +E> = Ok(value: T) | Err(error: E)

  /** An instant or a duration, in microseconds (the resolution of the hub's timestamps). */
  type Time = int

  const SECOND: Time := 1_000_000

  /** Decimal quantities, taken as exact numbers. */
  type Quantity = q: real | q >= 0.0

  type PositiveQuantity = q: real | q > 0.0 witness 1.0

  /** Primary keys of suppliers, products and warehouses. */
  type Id = nat

  /** An import job is identified by its position in the order of creation. */
  type JobId = nat

  datatype UnitOfMeasure = Each | Case | Pallet | Kilogram

  datatype SourceType = SupplierAJson | SupplierBCsv

  datatype ImportStatus = Queued | Processing | Completed | CompletedWithErrors | Failed

  datatype AttemptStatus = Running | Succeeded | RetryScheduled | AttemptFailed | Abandoned

  /** How a service call refuses: the exceptions of the domain layer. */
  datatype ServiceError = NotFound | Conflict | Unavailable | Invalid
}
