/**
 * The four snapshot detectors: low stock, stockout, near expiry and expired
 * in stock. Each is a rule on one inventory row, run over the whole snapshot
 * by `RunRule`.
 */
module Detectors {
  import opened Wrappers
  import opened Records
  import opened EventModel

  /** The signature a row-scoped event of type `t` carries. */
  function RowSignature(t: EventType, row: InventoryRow): Signature {
    Signature(t, row.facilityId, row.medId, Some(row.batchId))
  }

  // ---------------------------------------------------------------- low stock

  predicate IsLowStock(row: InventoryRow) {
    0 < row.quantity <= row.reorderPoint
  }

  /** A MEDIUM low-stock event with the quantity and reorder point as evidence, for a row with some but too little stock. */
  function LowStockFor(row: InventoryRow, now: int, stamp: Stamp): (r: Option<Event>)
    ensures r.Some? <==> 0 < row.quantity <= row.reorderPoint
    ensures r.Some? ==> r.value.isActive && r.value.Sig() == RowSignature(LowStock, row)
    ensures r.Some? ==> r.value.severity == Medium && r.value.timestamp == now
    ensures r.Some? ==> r.value.data == map["quantity" := IntDatum(row.quantity), "reorder_point" := IntDatum(row.reorderPoint)]
  {
    if IsLowStock(row) then
      Some(CreateEvent(LowStock, Medium, row.facilityId, row.medId, Some(row.batchId), now,
        Some(map["quantity" := IntDatum(row.quantity), "reorder_point" := IntDatum(row.reorderPoint)]), stamp))
    else None
  }

  function LowStockRule(now: int, stamper: Stamper): Rule<InventoryRow> {
    (i: nat, row: InventoryRow) => LowStockFor(row, now, stamper(LowStock, i))
  }

  function LowStockEvents(inventory: seq<InventoryRow>, now: int, stamper: Stamper): seq<Event> {
    Collect(inventory, LowStockRule(now, stamper))
  }

  method DetectLowStock(inventory: seq<InventoryRow>, now: int, stamper: Stamper) returns (events: seq<Event>)
    ensures events == LowStockEvents(inventory, now, stamper)
    ensures forall e :: e in events <==>
      exists i :: 0 <= i < |inventory| && IsLowStock(inventory[i]) && e == LowStockFor(inventory[i], now, stamper(LowStock, i)).value
    ensures forall e | e in events :: e.eventType == LowStock && e.severity == Medium && e.batchId.Some?
  {
    var rule := LowStockRule(now, stamper);
    events := RunRule(inventory, rule);
    forall i | 0 <= i < |inventory|
      ensures rule(i, inventory[i]) == LowStockFor(inventory[i], now, stamper(LowStock, i))
    {
    }
    forall e {
      CollectMember(inventory, rule, e);
    }
  }

  // ---------------------------------------------------------------- stockout

  predicate IsStockout(row: InventoryRow) {
    row.quantity == 0
  }

  /** A CRITICAL stockout event, with no evidence, for a row holding nothing. */
  function StockoutFor(row: InventoryRow, now: int, stamp: Stamp): (r: Option<Event>)
    ensures r.Some? <==> row.quantity == 0
    ensures r.Some? ==> r.value.isActive && r.value.Sig() == RowSignature(Stockout, row)
    ensures r.Some? ==> r.value.severity == Critical && r.value.timestamp == now && r.value.data == map[]
  {
    if IsStockout(row) then
      Some(CreateEvent(Stockout, Critical, row.facilityId, row.medId, Some(row.batchId), now, None, stamp))
    else None
  }

  function StockoutRule(now: int, stamper: Stamper): Rule<InventoryRow> {
    (i: nat, row: InventoryRow) => StockoutFor(row, now, stamper(Stockout, i))
  }

  function StockoutEvents(inventory: seq<InventoryRow>, now: int, stamper: Stamper): seq<Event> {
    Collect(inventory, StockoutRule(now, stamper))
  }

  method DetectStockout(inventory: seq<InventoryRow>, now: int, stamper: Stamper) returns (events: seq<Event>)
    ensures events == StockoutEvents(inventory, now, stamper)
    ensures forall e :: e in events <==>
      exists i :: 0 <= i < |inventory| && IsStockout(inventory[i]) && e == StockoutFor(inventory[i], now, stamper(Stockout, i)).value
    ensures forall e | e in events :: e.eventType == Stockout && e.severity == Critical && e.batchId.Some?
  {
    var rule := StockoutRule(now, stamper);
    events := RunRule(inventory, rule);
    forall i | 0 <= i < |inventory|
      ensures rule(i, inventory[i]) == StockoutFor(inventory[i], now, stamper(Stockout, i))
    {
    }
    forall e {
      CollectMember(inventory, rule, e);
    }
  }

  // ---------------------------------------------------------------- near expiry

  /** Whole days from `now` to `expiry`, rounded down (negative once the expiry has passed). */
  function DaysToExpiry(expiry: int, now: int): (d: int)
    ensures d * MicrosPerDay <= expiry - now < (d + 1) * MicrosPerDay
  {
    (expiry - now) / MicrosPerDay
  }

  predicate IsNearExpiry(row: InventoryRow, now: int, th: Thresholds) {
    && row.quantity > 0
    && row.expiry.Some?
    && 0 < DaysToExpiry(row.expiry.value, now) <= th.nearExpiryDays
  }

  /**
   * A near-expiry event for a stocked row whose expiry parses and lies within
   * the near-expiry horizon; HIGH at or inside the urgent horizon, MEDIUM
   * beyond it, with the day count as evidence.
   */
  function NearExpiryFor(row: InventoryRow, now: int, th: Thresholds, stamp: Stamp): (r: Option<Event>)
    ensures r.Some? <==> row.quantity > 0 && row.expiry.Some? && 0 < DaysToExpiry(row.expiry.value, now) <= th.nearExpiryDays
    ensures r.Some? ==> r.value.isActive && r.value.Sig() == RowSignature(NearExpiry, row) && r.value.timestamp == now
    ensures r.Some? ==>
      var days := DaysToExpiry(row.expiry.value, now);
      && r.value.data == map["days_to_expiry" := IntDatum(days)]
      && (r.value.severity == High <==> days <= th.urgentExpiryDays)
      && (r.value.severity == Medium <==> days > th.urgentExpiryDays)
  {
    if row.quantity <= 0 then None
    else match row.expiry
      case None => None
      case Some(expiry) =>
        var days := DaysToExpiry(expiry, now);
        if 0 < days <= th.nearExpiryDays then
          var severity := if days <= th.urgentExpiryDays then High else Medium;
          Some(CreateEvent(NearExpiry, severity, row.facilityId, row.medId, Some(row.batchId), now,
            Some(map["days_to_expiry" := IntDatum(days)]), stamp))
        else None
  }

  function NearExpiryRule(now: int, th: Thresholds, stamper: Stamper): Rule<InventoryRow> {
    (i: nat, row: InventoryRow) => NearExpiryFor(row, now, th, stamper(NearExpiry, i))
  }

  function NearExpiryEvents(inventory: seq<InventoryRow>, now: int, th: Thresholds, stamper: Stamper): seq<Event> {
    Collect(inventory, NearExpiryRule(now, th, stamper))
  }

  method DetectNearExpiry(inventory: seq<InventoryRow>, now: int, th: Thresholds, stamper: Stamper) returns (events: seq<Event>)
    ensures events == NearExpiryEvents(inventory, now, th, stamper)
    ensures forall e :: e in events <==>
      exists i :: 0 <= i < |inventory| && IsNearExpiry(inventory[i], now, th) && e == NearExpiryFor(inventory[i], now, th, stamper(NearExpiry, i)).value
    ensures forall e | e in events :: e.eventType == NearExpiry && (e.severity == High || e.severity == Medium) && e.batchId.Some?
  {
    var rule := NearExpiryRule(now, th, stamper);
    events := RunRule(inventory, rule);
    forall i | 0 <= i < |inventory|
      ensures rule(i, inventory[i]) == NearExpiryFor(inventory[i], now, th, stamper(NearExpiry, i))
    {
    }
    forall e {
      CollectMember(inventory, rule, e);
    }
  }

  // ---------------------------------------------------------------- expired in stock

  predicate IsExpiredInStock(row: InventoryRow, now: int) {
    row.quantity > 0 && row.expiry.Some? && now >= row.expiry.value
  }

  /** A HIGH expired-in-stock event, with no evidence, for a stocked row whose parsed expiry has been reached. */
  function ExpiredFor(row: InventoryRow, now: int, stamp: Stamp): (r: Option<Event>)
    ensures r.Some? <==> row.quantity > 0 && row.expiry.Some? && now >= row.expiry.value
    ensures r.Some? ==> r.value.isActive && r.value.Sig() == RowSignature(ExpiredInStock, row)
    ensures r.Some? ==> r.value.severity == High && r.value.timestamp == now && r.value.data == map[]
  {
    if row.quantity <= 0 then None
    else match row.expiry
      case None => None
      case Some(expiry) =>
        if now >= expiry then
          Some(CreateEvent(ExpiredInStock, High, row.facilityId, row.medId, Some(row.batchId), now, None, stamp))
        else None
  }

  function ExpiredRule(now: int, stamper: Stamper): Rule<InventoryRow> {
    (i: nat, row: InventoryRow) => ExpiredFor(row, now, stamper(ExpiredInStock, i))
  }

  function ExpiredEvents(inventory: seq<InventoryRow>, now: int, stamper: Stamper): seq<Event> {
    Collect(inventory, ExpiredRule(now, stamper))
  }

  method DetectExpiredInStock(inventory: seq<InventoryRow>, now: int, stamper: Stamper) returns (events: seq<Event>)
    ensures events == ExpiredEvents(inventory, now, stamper)
    ensures forall e :: e in events <==>
      exists i :: 0 <= i < |inventory| && IsExpiredInStock(inventory[i], now) && e == ExpiredFor(inventory[i], now, stamper(ExpiredInStock, i)).value
    ensures forall e | e in events :: e.eventType == ExpiredInStock && e.severity == High && e.batchId.Some?
  {
    var rule := ExpiredRule(now, stamper);
    events := RunRule(inventory, rule);
    forall i | 0 <= i < |inventory|
      ensures rule(i, inventory[i]) == ExpiredFor(inventory[i], now, stamper(ExpiredInStock, i))
    {
    }
    forall e {
      CollectMember(inventory, rule, e);
    }
  }

  // ---------------------------------------------------------------- properties across rules

  /** No row raises both a low-stock and a stockout event; which one fires depends only on the quantity. */
  lemma StockRulesExclusive(row: InventoryRow, now: int, s1: Stamp, s2: Stamp)
    ensures !(LowStockFor(row, now, s1).Some? && StockoutFor(row, now, s2).Some?)
    ensures row.quantity == 0 ==> StockoutFor(row, now, s2).Some?
    ensures row.quantity > 0 ==> StockoutFor(row, now, s2).None?
  {
  }

  /**
   * For a stocked row with a parseable expiry, at most one of near-expiry and
   * expired-in-stock fires: a reached expiry means a day count of zero or less.
   */
  lemma ExpiryRulesExclusive(row: InventoryRow, now: int, th: Thresholds, s1: Stamp, s2: Stamp)
    ensures !(NearExpiryFor(row, now, th, s1).Some? && ExpiredFor(row, now, s2).Some?)
    ensures row.expiry.Some? && now >= row.expiry.value ==> DaysToExpiry(row.expiry.value, now) <= 0
  {
  }

  /**
   * A stocked batch whose expiry is less than one day ahead raises neither
   * expiry event: its day count rounds down to zero and it has not expired yet.
   */
  lemma LastDayBeforeExpiryIsSilent(row: InventoryRow, now: int, th: Thresholds, s1: Stamp, s2: Stamp)
    requires row.quantity > 0 && row.expiry.Some?
    requires now < row.expiry.value < now + MicrosPerDay
    ensures NearExpiryFor(row, now, th, s1).None? && ExpiredFor(row, now, s2).None?
  {
  }

  /**
   * The urgency boundary under the default thresholds: a batch 14 whole days
   * from expiry (up to one microsecond short of 15) is HIGH, one 15 days away is MEDIUM.
   */
  lemma DefaultUrgencyBoundary(row: InventoryRow, now: int, stamp: Stamp)
    requires row.quantity > 0
    ensures row.expiry == Some(now + 14 * MicrosPerDay) ==>
      NearExpiryFor(row, now, DefaultThresholds, stamp).Some? && NearExpiryFor(row, now, DefaultThresholds, stamp).value.severity == High
    ensures row.expiry == Some(now + 15 * MicrosPerDay - 1) ==>
      NearExpiryFor(row, now, DefaultThresholds, stamp).Some? && NearExpiryFor(row, now, DefaultThresholds, stamp).value.severity == High
    ensures row.expiry == Some(now + 15 * MicrosPerDay) ==>
      NearExpiryFor(row, now, DefaultThresholds, stamp).Some? && NearExpiryFor(row, now, DefaultThresholds, stamp).value.severity == Medium
  {
    if row.expiry == Some(now + 15 * MicrosPerDay - 1) {
      assert DaysToExpiry(row.expiry.value, now) == 14;
    }
  }
}
