/**
 * The stock-movement recorder: each operation adjusts one inventory
 * position's quantity in place, never below zero, and returns the movement
 * record that documents the change.
 */
module Movements {
  import opened Wrappers
  import opened Records

  /** An inventory position whose quantity the recorder updates in place. */
  class InventoryPosition {
    var inventoryId: string
    var facilityId: string
    var medId: string
    var batchId: string
    var quantity: int
    var reorderPoint: int
    var expiry: Option<int>

    constructor (row: InventoryRow)
      ensures Row() == row
    {
      inventoryId, facilityId, medId, batchId := row.inventoryId, row.facilityId, row.medId, row.batchId;
      quantity, reorderPoint, expiry := row.quantity, row.reorderPoint, row.expiry;
    }

    /** The position as a row value. */
    function Row(): InventoryRow
      reads this
    {
      InventoryRow(inventoryId, facilityId, medId, batchId, quantity, reorderPoint, expiry)
    }
  }

  /** `max(0, x)`: the quantity a position is clamped to. */
  function Max0(x: int): (r: int)
    ensures r >= 0 && r >= x
    ensures r == x || r == 0
  {
    if x < 0 then 0 else x
  }

  /** How much an expiry withdrawal takes: the requested amount, but no more than is on hand. */
  function WithdrawAmount(requested: int, onHand: int): (r: int)
    ensures r <= Abs(requested) && r <= onHand
    ensures r == Abs(requested) || r == onHand
  {
    if Abs(requested) <= onHand then Abs(requested) else onHand
  }

  /** A caller's transfer id is kept unless it is missing or empty; then a generated one is used. */
  function ChooseTransferId(given: Option<string>, generated: string): (r: string)
    ensures given.Some? && given.value != "" ==> r == given.value
    ensures given.None? || given.value == "" ==> r == generated
  {
    if given.Some? && given.value != "" then given.value else generated
  }

  /** The source and reason recorded when the caller gives none. */
  const UnknownSource := "UNKNOWN"
  const UnspecifiedReason := "UNSPECIFIED"
  const ExpiryAuditReference := "EXPIRY_AUDIT"

  /**
   * `m` documents the change of a position from `before` to `after`: it copies
   * the position's identifiers, its before and after quantities are the
   * position's, the after quantity is the clamped sum of before and change,
   * and nothing but the quantity changed.
   */
  predicate Documents(m: Movement, before: InventoryRow, after: InventoryRow) {
    && after == before.(quantity := after.quantity)
    && m.inventoryId == before.inventoryId && m.facilityId == before.facilityId
    && m.batchId == before.batchId && m.medId == before.medId
    && m.quantityBefore == before.quantity
    && m.quantityAfter == after.quantity
    && after.quantity == Max0(before.quantity + m.quantityChange)
  }

  /** The common step: apply the change, clamped at zero, and return its record. */
  method RecordMovement(
    inv: InventoryPosition, movementType: MovementType, quantityChange: int, timestamp: int,
    referenceId: string, source: string, reason: string, movementId: string)
    returns (m: Movement)
    modifies inv
    ensures Documents(m, old(inv.Row()), inv.Row())
    ensures inv.quantity >= 0
    ensures m.movementType == movementType && m.quantityChange == quantityChange
    ensures m.movementId == movementId && m.timestamp == timestamp
    ensures m.referenceId == referenceId && m.source == source && m.reason == reason
    ensures m.transferId.None? && m.destinationFacilityId.None? && m.sourceFacilityId.None?
  {
    var previousQuantity := inv.quantity;
    var newQuantity := Max0(previousQuantity + quantityChange);
    m := Movement(movementId, inv.inventoryId, inv.facilityId, inv.batchId, inv.medId, movementType,
                  previousQuantity, quantityChange, newQuantity, timestamp, referenceId, source, reason,
                  None, None, None);
    inv.quantity := newQuantity;
  }

  /** Dispensing takes the absolute amount out: stock held never grows. */
  method RecordDispense(
    inv: InventoryPosition, quantity: int, timestamp: int, source: string, reason: string,
    referenceId: string, movementId: string)
    returns (m: Movement)
    modifies inv
    ensures Documents(m, old(inv.Row()), inv.Row())
    ensures m.movementType == Dispense && m.quantityChange == -Abs(quantity) && m.reason == reason
    ensures m.timestamp == timestamp && m.source == source && m.movementId == movementId && m.referenceId == referenceId
    ensures m.transferId.None? && m.destinationFacilityId.None? && m.sourceFacilityId.None?
    ensures inv.quantity <= Max0(old(inv.quantity))
    ensures old(inv.quantity) >= 0 ==> inv.quantity <= old(inv.quantity)
  {
    m := RecordMovement(inv, Dispense, -Abs(quantity), timestamp, referenceId, source, reason, movementId);
  }

  /** Restocking puts the absolute amount in; from non-negative stock nothing is clamped. */
  method RecordRestock(
    inv: InventoryPosition, quantity: int, timestamp: int, source: string,
    referenceId: string, movementId: string)
    returns (m: Movement)
    modifies inv
    ensures Documents(m, old(inv.Row()), inv.Row())
    ensures m.movementType == Restock && m.quantityChange == Abs(quantity) && m.reason == UnspecifiedReason
    ensures m.timestamp == timestamp && m.source == source && m.movementId == movementId && m.referenceId == referenceId
    ensures m.transferId.None? && m.destinationFacilityId.None? && m.sourceFacilityId.None?
    ensures old(inv.quantity) >= 0 ==> m.quantityAfter == m.quantityBefore + Abs(quantity)
  {
    m := RecordMovement(inv, Restock, Abs(quantity), timestamp, referenceId, source, UnspecifiedReason, movementId);
  }

  /** Stock leaving for another facility: a withdrawal that records the destination and the transfer id. */
  method RecordTransferOut(
    inv: InventoryPosition, quantity: int, timestamp: int, destinationFacilityId: string,
    transferId: Option<string>, generatedTransferId: string, source: string, movementId: string)
    returns (m: Movement)
    modifies inv
    ensures Documents(m, old(inv.Row()), inv.Row())
    ensures m.movementType == TransferOut && m.quantityChange == -Abs(quantity)
    ensures m.timestamp == timestamp && m.source == source && m.movementId == movementId && m.reason == UnspecifiedReason
    ensures m.referenceId == "TRF_TO_" + destinationFacilityId
    ensures m.destinationFacilityId == Some(destinationFacilityId) && m.sourceFacilityId.None?
    ensures m.transferId == Some(ChooseTransferId(transferId, generatedTransferId))
    ensures old(inv.quantity) >= 0 ==> inv.quantity <= old(inv.quantity)
  {
    m := RecordMovement(inv, TransferOut, -Abs(quantity), timestamp, "TRF_TO_" + destinationFacilityId,
                        source, UnspecifiedReason, movementId);
    m := m.(transferId := Some(ChooseTransferId(transferId, generatedTransferId)));
    m := m.(destinationFacilityId := Some(destinationFacilityId));
  }

  /** Stock arriving from another facility: a restock that records the origin and the transfer id. */
  method RecordTransferIn(
    inv: InventoryPosition, quantity: int, timestamp: int, sourceFacilityId: string,
    transferId: Option<string>, generatedTransferId: string, source: string, movementId: string)
    returns (m: Movement)
    modifies inv
    ensures Documents(m, old(inv.Row()), inv.Row())
    ensures m.movementType == TransferIn && m.quantityChange == Abs(quantity)
    ensures m.timestamp == timestamp && m.source == source && m.movementId == movementId && m.reason == UnspecifiedReason
    ensures m.referenceId == "TRF_FROM_" + sourceFacilityId
    ensures m.sourceFacilityId == Some(sourceFacilityId) && m.destinationFacilityId.None?
    ensures m.transferId == Some(ChooseTransferId(transferId, generatedTransferId))
    ensures old(inv.quantity) >= 0 ==> m.quantityAfter == m.quantityBefore + Abs(quantity)
  {
    m := RecordMovement(inv, TransferIn, Abs(quantity), timestamp, "TRF_FROM_" + sourceFacilityId,
                        source, UnspecifiedReason, movementId);
    m := m.(transferId := Some(ChooseTransferId(transferId, generatedTransferId)));
    m := m.(sourceFacilityId := Some(sourceFacilityId));
  }

  /**
   * Removing expired stock withdraws at most what is on hand, so from
   * non-negative stock the clamp never triggers, and asking for at least the
   * whole stock leaves exactly zero.
   */
  method RecordExpiryWithdraw(inv: InventoryPosition, quantity: int, timestamp: int, source: string, movementId: string)
    returns (m: Movement)
    modifies inv
    ensures Documents(m, old(inv.Row()), inv.Row())
    ensures m.movementType == ExpiryWithdraw && m.referenceId == ExpiryAuditReference
    ensures m.timestamp == timestamp && m.source == source && m.movementId == movementId && m.reason == UnspecifiedReason
    ensures m.transferId.None? && m.destinationFacilityId.None? && m.sourceFacilityId.None?
    ensures m.quantityChange == -WithdrawAmount(quantity, old(inv.quantity))
    ensures old(inv.quantity) >= 0 ==> m.quantityAfter == m.quantityBefore + m.quantityChange
    ensures old(inv.quantity) >= 0 && Abs(quantity) >= old(inv.quantity) ==> inv.quantity == 0
  {
    var safeQuantity := WithdrawAmount(quantity, inv.quantity);
    m := RecordMovement(inv, ExpiryWithdraw, -safeQuantity, timestamp, ExpiryAuditReference,
                        source, UnspecifiedReason, movementId);
  }
}
