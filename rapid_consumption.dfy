/**
 * The rapid-consumption detector: a windowed aggregator that totals the
 * dispensed quantity per (facility, medication) over a trailing window and
 * compares each total against the medication's baseline demand times a
 * multiplier. The baseline is not rescaled to the window length.
 */
module RapidConsumption {
  import opened Wrappers
  import opened Records
  import opened EventModel

  /** A medication catalogue entry; `baseDemand` is `None` when the catalogue holds no figure. */
  datatype MedicationRow = MedicationRow(medId: string, baseDemand: Option<real>)

  /** The grouping key of the aggregator. The batch is deliberately not part of it. */
  datatype ConsumptionKey = ConsumptionKey(facilityId: string, medId: string)

  function WindowStart(now: int, th: Thresholds): int {
    now - th.windowHours * MicrosPerHour
  }

  /** A movement the aggregator counts: a dispense at or after the window start. */
  predicate Counted(m: Movement, windowStart: int) {
    m.movementType == Dispense && m.timestamp >= windowStart
  }

  function KeyOf(m: Movement): ConsumptionKey {
    ConsumptionKey(m.facilityId, m.medId)
  }

  /** The dispensed quantity for `key` in the window: the sum of the absolute changes of the counted movements with that key. */
  function WindowTotal(ms: seq<Movement>, key: ConsumptionKey, windowStart: int): (t: int)
    ensures t >= 0
    decreases |ms|
  {
    if ms == [] then 0
    else
      var n := |ms| - 1;
      var m := ms[n];
      WindowTotal(ms[..n], key, windowStart) + (if Counted(m, windowStart) && KeyOf(m) == key then Abs(m.quantityChange) else 0)
  }

  /** The keys of the counted movements, each once, in the order they first occur. */
  function WindowKeys(ms: seq<Movement>, windowStart: int): (ks: seq<ConsumptionKey>)
    ensures forall a, b :: 0 <= a < b < |ks| ==> ks[a] != ks[b]
    decreases |ms|
  {
    if ms == [] then []
    else
      var n := |ms| - 1;
      var ks := WindowKeys(ms[..n], windowStart);
      if Counted(ms[n], windowStart) && KeyOf(ms[n]) !in ks then ks + [KeyOf(ms[n])] else ks
  }

  /** A key is aggregated exactly when some counted movement carries it. */
  lemma {:induction false} WindowKeysExactly(ms: seq<Movement>, windowStart: int, key: ConsumptionKey)
    ensures key in WindowKeys(ms, windowStart) <==>
      exists i :: 0 <= i < |ms| && Counted(ms[i], windowStart) && KeyOf(ms[i]) == key
    decreases |ms|
  {
    if ms != [] {
      var n := |ms| - 1;
      var prefix := ms[..n];
      WindowKeysExactly(prefix, windowStart, key);
      assert forall i :: 0 <= i < n ==> prefix[i] == ms[i];
      if key in WindowKeys(prefix, windowStart) {
        var i :| 0 <= i < n && Counted(prefix[i], windowStart) && KeyOf(prefix[i]) == key;
        assert Counted(ms[i], windowStart) && KeyOf(ms[i]) == key;
      }
    }
  }

  /** Movement `m` is counted in the window under `key`. */
  predicate CountsFor(m: Movement, key: ConsumptionKey, windowStart: int) {
    Counted(m, windowStart) && KeyOf(m) == key
  }

  /**
   * The keys come in order of first counted occurrence: for an earlier key,
   * some counted movement carries it before any counted movement carries a
   * later key.
   */
  lemma {:induction false} WindowKeysFirstOrder(ms: seq<Movement>, windowStart: int, a: nat, b: nat)
    requires a < b < |WindowKeys(ms, windowStart)|
    ensures exists i :: 0 <= i < |ms| && CountsFor(ms[i], WindowKeys(ms, windowStart)[a], windowStart) &&
                        (forall j :: 0 <= j <= i ==> !CountsFor(ms[j], WindowKeys(ms, windowStart)[b], windowStart))
    decreases |ms|
  {
    var ks := WindowKeys(ms, windowStart);
    var n := |ms| - 1;
    var prefix := ms[..n];
    var before := WindowKeys(prefix, windowStart);
    assert forall j :: 0 <= j < n ==> prefix[j] == ms[j];
    if b < |before| {
      WindowKeysFirstOrder(prefix, windowStart, a, b);
      assert ks[a] == before[a] && ks[b] == before[b];
      var i :| 0 <= i < n && CountsFor(prefix[i], before[a], windowStart) &&
        forall j :: 0 <= j <= i ==> !CountsFor(prefix[j], before[b], windowStart);
      assert CountsFor(ms[i], ks[a], windowStart);
    } else {
      assert ks[b] == KeyOf(ms[n]) && ks[b] !in before;
      assert ks[a] == before[a];
      WindowKeysExactly(prefix, windowStart, ks[a]);
      WindowKeysExactly(prefix, windowStart, ks[b]);
      var i :| 0 <= i < n && Counted(prefix[i], windowStart) && KeyOf(prefix[i]) == ks[a];
      assert CountsFor(ms[i], ks[a], windowStart);
    }
  }

  /** A key with no counted movement has a zero total. */
  lemma {:induction false} WindowTotalOutsideKeys(ms: seq<Movement>, windowStart: int, key: ConsumptionKey)
    requires key !in WindowKeys(ms, windowStart)
    ensures WindowTotal(ms, key, windowStart) == 0
    decreases |ms|
  {
    if ms != [] {
      var n := |ms| - 1;
      WindowTotalOutsideKeys(ms[..n], windowStart, key);
    }
  }

  /** The windowed total is a fold: the total over two logs one after the other is the sum of their totals. */
  lemma {:induction false} WindowTotalAppend(a: seq<Movement>, b: seq<Movement>, key: ConsumptionKey, windowStart: int)
    ensures WindowTotal(a + b, key, windowStart) == WindowTotal(a, key, windowStart) + WindowTotal(b, key, windowStart)
    decreases |b|
  {
    if b == [] {
      assert a + b == a;
    } else {
      var n := |b| - 1;
      WindowTotalAppend(a, b[..n], key, windowStart);
      assert (a + b)[..|a + b| - 1] == a + b[..n];
    }
  }

  /** Only the facility, medication, type, change and time of a movement matter to the total; its batch and all else do not. */
  predicate SameConsumption(m1: Movement, m2: Movement) {
    && m1.facilityId == m2.facilityId && m1.medId == m2.medId
    && m1.movementType == m2.movementType
    && m1.quantityChange == m2.quantityChange && m1.timestamp == m2.timestamp
  }

  lemma {:induction false} WindowTotalIgnoresBatch(ms1: seq<Movement>, ms2: seq<Movement>, key: ConsumptionKey, windowStart: int)
    requires |ms1| == |ms2|
    requires forall i :: 0 <= i < |ms1| ==> SameConsumption(ms1[i], ms2[i])
    ensures WindowTotal(ms1, key, windowStart) == WindowTotal(ms2, key, windowStart)
    decreases |ms1|
  {
    if ms1 != [] {
      var n := |ms1| - 1;
      assert forall i :: 0 <= i < n ==> ms1[..n][i] == ms1[i] && ms2[..n][i] == ms2[i];
      WindowTotalIgnoresBatch(ms1[..n], ms2[..n], key, windowStart);
      assert SameConsumption(ms1[n], ms2[n]);
    }
  }

  // ---------------------------------------------------------------- baseline demand

  /** The catalogue as a lookup table from medication id to baseline demand; a later entry overrides an earlier one. */
  function MedLookup(meds: seq<MedicationRow>): (lookup: map<string, Option<real>>)
    ensures forall id :: id in lookup <==> exists j :: 0 <= j < |meds| && meds[j].medId == id
    decreases |meds|
  {
    if meds == [] then map[]
    else
      var n := |meds| - 1;
      var before := MedLookup(meds[..n]);
      assert forall j :: 0 <= j < n ==> meds[..n][j] == meds[j];
      before[meds[n].medId := meds[n].baseDemand]
  }

  /** The lookup holds the baseline of the last catalogue entry for each medication. */
  lemma {:induction false} MedLookupLastWins(meds: seq<MedicationRow>, j: nat)
    requires j < |meds|
    requires forall k :: j < k < |meds| ==> meds[k].medId != meds[j].medId
    ensures meds[j].medId in MedLookup(meds) && MedLookup(meds)[meds[j].medId] == meds[j].baseDemand
    decreases |meds|
  {
    var n := |meds| - 1;
    var id := meds[j].medId;
    var before := MedLookup(meds[..n]);
    assert MedLookup(meds) == before[meds[n].medId := meds[n].baseDemand];
    if j < n {
      assert forall k :: j < k < n ==> meds[..n][k] == meds[k];
      MedLookupLastWins(meds[..n], j);
      assert meds[n].medId != id;
      assert id in before && before[id] == meds[j].baseDemand;
    }
  }

  /** The baseline for a medication: absent when it is not catalogued or has no figure. */
  function ExpectedDemand(meds: seq<MedicationRow>, medId: string): Option<real> {
    var lookup := MedLookup(meds);
    if medId in lookup then lookup[medId] else None
  }

  // ---------------------------------------------------------------- the rule

  /**
   * A MEDIUM, batch-less rapid-consumption event when a baseline exists, is
   * non-zero, and the total strictly exceeds baseline times multiplier.
   */
  function RapidFor(key: ConsumptionKey, total: int, expected: Option<real>, th: Thresholds, now: int, stamp: Stamp): (r: Option<Event>)
    ensures r.Some? <==> expected.Some? && expected.value != 0.0 && total as real > expected.value * th.multiplier
    ensures r.Some? ==> r.value.isActive && r.value.Sig() == Signature(RapidConsumption, key.facilityId, key.medId, None)
    ensures r.Some? ==> r.value.severity == Medium && r.value.timestamp == now
    ensures r.Some? ==> r.value.data == map["dispensed_quantity" := IntDatum(total), "expected_quantity" := RealDatum(expected.value)]
  {
    match expected
    case None => None
    case Some(demand) =>
      if demand == 0.0 then None
      else if total as real > demand * th.multiplier then
        Some(CreateEvent(RapidConsumption, Medium, key.facilityId, key.medId, None, now,
          Some(map["dispensed_quantity" := IntDatum(total), "expected_quantity" := RealDatum(demand)]), stamp))
      else None
  }

  function RapidRule(ms: seq<Movement>, meds: seq<MedicationRow>, now: int, th: Thresholds, stamper: Stamper): Rule<ConsumptionKey> {
    (i: nat, key: ConsumptionKey) =>
      RapidFor(key, WindowTotal(ms, key, WindowStart(now, th)), ExpectedDemand(meds, key.medId), th, now, stamper(RapidConsumption, i))
  }

  function RapidConsumptionEvents(ms: seq<Movement>, meds: seq<MedicationRow>, now: int, th: Thresholds, stamper: Stamper): seq<Event> {
    Collect(WindowKeys(ms, WindowStart(now, th)), RapidRule(ms, meds, now, th, stamper))
  }

  /** Extending the log by one movement: how the keys change. */
  lemma KeysStep(ms: seq<Movement>, i: nat, windowStart: int)
    requires i < |ms|
    ensures WindowKeys(ms[..i + 1], windowStart) ==
      (if Counted(ms[i], windowStart) && KeyOf(ms[i]) !in WindowKeys(ms[..i], windowStart)
       then WindowKeys(ms[..i], windowStart) + [KeyOf(ms[i])] else WindowKeys(ms[..i], windowStart))
  {
    assert ms[..i + 1][..i] == ms[..i];
  }

  /** Extending the log by one movement: how the total of `key` changes. */
  lemma TotalStep(ms: seq<Movement>, i: nat, key: ConsumptionKey, windowStart: int)
    requires i < |ms|
    ensures WindowTotal(ms[..i + 1], key, windowStart) ==
      WindowTotal(ms[..i], key, windowStart) + (if CountsFor(ms[i], key, windowStart) then Abs(ms[i].quantityChange) else 0)
  {
    assert ms[..i + 1][..i] == ms[..i];
  }

  /** The accumulation loop: the keys in first-occurrence order, and the total for each. */
  method AccumulateDispensed(ms: seq<Movement>, windowStart: int) returns (keys: seq<ConsumptionKey>, totals: map<ConsumptionKey, int>)
    ensures keys == WindowKeys(ms, windowStart)
    ensures forall k :: k in totals <==> k in keys
    ensures forall k :: k in totals ==> totals[k] == WindowTotal(ms, k, windowStart)
  {
    keys, totals := [], map[];
    var i := 0;
    while i < |ms|
      invariant 0 <= i <= |ms|
      invariant keys == WindowKeys(ms[..i], windowStart)
      invariant forall k :: k in totals <==> k in keys
      invariant forall k :: k in totals ==> totals[k] == WindowTotal(ms[..i], k, windowStart)
    {
      KeysStep(ms, i, windowStart);
      forall k {
        TotalStep(ms, i, k, windowStart);
      }
      var m := ms[i];
      if m.movementType == Dispense && m.timestamp >= windowStart {
        var key := KeyOf(m);
        if key !in totals {
          WindowTotalOutsideKeys(ms[..i], windowStart, key);
          keys := keys + [key];
          totals := totals[key := 0];
        }
        totals := totals[key := totals[key] + Abs(m.quantityChange)];
      }
      i := i + 1;
    }
    assert ms[..i] == ms;
  }

  /** At most one event per (facility, medication): no two events share a signature. */
  lemma RapidConsumptionOnePerKey(ms: seq<Movement>, meds: seq<MedicationRow>, now: int, th: Thresholds, stamper: Stamper)
    ensures SigsDistinct(RapidConsumptionEvents(ms, meds, now, th, stamper))
  {
    var keys := WindowKeys(ms, WindowStart(now, th));
    var rule := RapidRule(ms, meds, now, th, stamper);
    var events := Collect(keys, rule);
    var idx := CollectOrigins(keys, rule);
    forall a, b | 0 <= a < b < |events|
      ensures events[a].Sig() != events[b].Sig()
    {
      var ka, kb := keys[idx[a]], keys[idx[b]];
      var ws := WindowStart(now, th);
      assert rule(idx[a], ka) == Some(events[a]);
      assert rule(idx[b], kb) == Some(events[b]);
      assert RapidFor(ka, WindowTotal(ms, ka, ws), ExpectedDemand(meds, ka.medId), th, now, stamper(RapidConsumption, idx[a])) == Some(events[a]);
      assert RapidFor(kb, WindowTotal(ms, kb, ws), ExpectedDemand(meds, kb.medId), th, now, stamper(RapidConsumption, idx[b])) == Some(events[b]);
      assert events[a].Sig() == Signature(RapidConsumption, ka.facilityId, ka.medId, None);
      assert events[b].Sig() == Signature(RapidConsumption, kb.facilityId, kb.medId, None);
      assert ka != kb;
    }
  }

  method DetectRapidConsumption(ms: seq<Movement>, meds: seq<MedicationRow>, now: int, th: Thresholds, stamper: Stamper)
    returns (events: seq<Event>)
    ensures events == RapidConsumptionEvents(ms, meds, now, th, stamper)
    ensures forall e | e in events :: e.eventType == RapidConsumption && e.severity == Medium && e.batchId.None?
    ensures SigsDistinct(events)
  {
    var windowStart := WindowStart(now, th);
    var keys, totals := AccumulateDispensed(ms, windowStart);
    var lookup := MedLookup(meds);
    var rule := RapidRule(ms, meds, now, th, stamper);
    events := [];
    var i := 0;
    while i < |keys|
      invariant 0 <= i <= |keys|
      invariant events == Collect(keys[..i], rule)
    {
      CollectStep(keys, i, rule);
      var key := keys[i];
      var expected := if key.medId in lookup then lookup[key.medId] else None;
      var candidate := RapidFor(key, totals[key], expected, th, now, stamper(RapidConsumption, i));
      assert candidate == rule(i, key) by {
        assert totals[key] == WindowTotal(ms, key, windowStart);
        assert expected == ExpectedDemand(meds, key.medId);
      }
      if candidate.Some? {
        events := events + [candidate.value];
      }
      i := i + 1;
    }
    assert keys[..i] == keys;
    RapidConsumptionOnePerKey(ms, meds, now, th, stamper);
    RapidConsumptionShape(ms, meds, now, th, stamper);
  }

  /** Every rapid-consumption event is MEDIUM and carries no batch. */
  lemma RapidConsumptionShape(ms: seq<Movement>, meds: seq<MedicationRow>, now: int, th: Thresholds, stamper: Stamper)
    ensures forall e | e in RapidConsumptionEvents(ms, meds, now, th, stamper) ::
      e.eventType == RapidConsumption && e.severity == Medium && e.batchId.None?
  {
    var keys := WindowKeys(ms, WindowStart(now, th));
    var rule := RapidRule(ms, meds, now, th, stamper);
    forall e | e in Collect(keys, rule)
      ensures e.eventType == RapidConsumption && e.severity == Medium && e.batchId.None?
    {
      CollectMember(keys, rule, e);
      var i :| 0 <= i < |keys| && rule(i, keys[i]) == Some(e);
      var key := keys[i];
      assert RapidFor(key, WindowTotal(ms, key, WindowStart(now, th)), ExpectedDemand(meds, key.medId), th, now, stamper(RapidConsumption, i)) == Some(e);
    }
  }

  /** The strict comparison: with a baseline of 50 and a multiplier of 2, a total of 120 fires and a total of 100 does not. */
  lemma StrictThresholdExample(key: ConsumptionKey, now: int, stamp: Stamp)
    ensures RapidFor(key, 120, Some(50.0), DefaultThresholds, now, stamp).Some?
    ensures RapidFor(key, 120, Some(50.0), DefaultThresholds, now, stamp).value.data
      == map["dispensed_quantity" := IntDatum(120), "expected_quantity" := RealDatum(50.0)]
    ensures RapidFor(key, 100, Some(50.0), DefaultThresholds, now, stamp).None?
  {
  }

  /** A dispense of `amount` units at `at`, otherwise like `m`. */
  function DispenseLike(m: Movement, amount: int, at: int): Movement {
    m.(movementType := Dispense, quantityChange := -amount, timestamp := at)
  }

  /**
   * A log for one (facility, medication): dispenses of 70 and `second` units
   * in the last 24 hours, a restock of 500 in the window and a dispense of 30
   * thirty hours ago.
   */
  function ScenarioLog(m: Movement, second: int, now: int): seq<Movement> {
    [DispenseLike(m, 70, now - MicrosPerHour), m.(movementType := Restock, quantityChange := 500, timestamp := now - MicrosPerHour),
     DispenseLike(m, second, now - 2 * MicrosPerHour), DispenseLike(m, 30, now - 30 * MicrosPerHour)]
  }

  /** A log of one counted movement: its key alone, with its amount. */
  lemma SingleCountedLog(x: Movement, key: ConsumptionKey, windowStart: int)
    requires CountsFor(x, key, windowStart)
    ensures WindowKeys([x], windowStart) == [key]
    ensures WindowTotal([x], key, windowStart) == Abs(x.quantityChange)
  {
    assert [x][..0] == [];
  }

  /** A log whose only counted key is `key` keeps that property over a movement that is uncounted or has that key. */
  lemma SingleKeyExtend(p: seq<Movement>, x: Movement, key: ConsumptionKey, windowStart: int, total: int)
    requires WindowKeys(p, windowStart) == [key] && WindowTotal(p, key, windowStart) == total
    requires Counted(x, windowStart) ==> KeyOf(x) == key
    ensures WindowKeys(p + [x], windowStart) == [key]
    ensures WindowTotal(p + [x], key, windowStart) == total + (if Counted(x, windowStart) then Abs(x.quantityChange) else 0)
  {
    assert (p + [x])[..|p|] == p;
  }

  /** Only the two dispenses inside the 24-hour window count: one key, total 70 + `second`. */
  lemma ScenarioWindow(m: Movement, second: int, now: int)
    requires second >= 0
    ensures WindowKeys(ScenarioLog(m, second, now), WindowStart(now, DefaultThresholds)) == [KeyOf(m)]
    ensures WindowTotal(ScenarioLog(m, second, now), KeyOf(m), WindowStart(now, DefaultThresholds)) == 70 + second
  {
    var ws := WindowStart(now, DefaultThresholds);
    var key := KeyOf(m);
    var ms := ScenarioLog(m, second, now);
    assert CountsFor(ms[0], key, ws) && Abs(ms[0].quantityChange) == 70;
    assert !Counted(ms[1], ws);
    assert CountsFor(ms[2], key, ws) && Abs(ms[2].quantityChange) == second;
    assert !Counted(ms[3], ws);
    SingleCountedLog(ms[0], key, ws);
    SingleKeyExtend([ms[0]], ms[1], key, ws, 70);
    SingleKeyExtend([ms[0]] + [ms[1]], ms[2], key, ws, 70);
    SingleKeyExtend([ms[0]] + [ms[1]] + [ms[2]], ms[3], key, ws, 70 + second);
    assert [ms[0]] + [ms[1]] + [ms[2]] + [ms[3]] == ms;
  }

  /**
   * Against a baseline of 50 and the default multiplier of 2, the scenario
   * log with a second dispense of 50 (total 120) raises one event with
   * evidence {120, 50}; with one of 30 (total 100) it raises none.
   */
  lemma WindowScenario(m: Movement, second: int, now: int, stamper: Stamper)
    requires second == 50 || second == 30
    ensures
      var events := RapidConsumptionEvents(ScenarioLog(m, second, now), [MedicationRow(m.medId, Some(50.0))], now, DefaultThresholds, stamper);
      && (second == 50 ==> |events| == 1 && events[0].data == map["dispensed_quantity" := IntDatum(120), "expected_quantity" := RealDatum(50.0)])
      && (second == 30 ==> events == [])
  {
    var key := KeyOf(m);
    var ms := ScenarioLog(m, second, now);
    ScenarioWindow(m, second, now);
    var meds := [MedicationRow(m.medId, Some(50.0))];
    assert meds[..0] == [];
    assert ExpectedDemand(meds, m.medId) == Some(50.0);
    var rule := RapidRule(ms, meds, now, DefaultThresholds, stamper);
    assert [key][..0] == [];
    assert rule(0, key) == RapidFor(key, 70 + second, Some(50.0), DefaultThresholds, now, stamper(RapidConsumption, 0));
  }
}
