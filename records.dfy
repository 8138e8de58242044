/**
 * The rows the engine reads and the movement generator writes: an inventory
 * position (one row per facility and batch) and a stock-movement record.
 * Timestamps are whole microseconds, the resolution of Python's `datetime`;
 * an expiry date that does not parse is `None`.
 */
module Records {
  import opened Wrappers

  /** One inventory position. `expiry` is the start of the expiry day, or `None` when the date string is malformed. */
  datatype InventoryRow = InventoryRow(
    inventoryId: string,
    facilityId: string,
    medId: string,
    batchId: string,
    quantity: int,
    reorderPoint: int,
    expiry: Option<int>)

  /** The five kinds of stock movement. */
  datatype MovementType = Dispense | Restock | TransferOut | TransferIn | ExpiryWithdraw

  /**
   * A movement record. The three transfer fields are absent on every movement
   * except the ones `TransferOut` and `TransferIn` complete.
   */
  datatype Movement = Movement(
    movementId: string,
    inventoryId: string,
    facilityId: string,
    batchId: string,
    medId: string,
    movementType: MovementType,
    quantityBefore: int,
    quantityChange: int,
    quantityAfter: int,
    timestamp: int,
    referenceId: string,
    source: string,
    reason: string,
    transferId: Option<string>,
    destinationFacilityId: Option<string>,
    sourceFacilityId: Option<string>)

  /** Time units: a timestamp counts microseconds. */
  const MicrosPerHour := 3600 * 1000000
  const MicrosPerDay := 24 * MicrosPerHour

  /** The magnitude of a quantity, as the movement code's `abs`. */
  function Abs(x: int): (r: int)
    ensures r >= 0 && (r == x || r == -x)
  {
    if x < 0 then -x else x
  }
}
