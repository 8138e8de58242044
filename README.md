# MedGuard risk events and stock movements in Dafny

This project models two pieces of the MedGuard pharmacy-inventory simulator.

**Risk-event engine** (`events/events.py`). It has five rules that read an inventory snapshot or a movement log and raise risk events, plus one orchestrator. The rules are:
- LOW_STOCK;
- STOCKOUT;
- NEAR_EXPIRY;
- EXPIRED_IN_STOCK;
- RAPID_CONSUMPTION.

The orchestrator (`generate_events`) runs all five rules in a fixed order. It then drops every candidate whose signature (event type, facility, medication, batch) is already held by an active stored event, or by an earlier candidate of the same pass.

**Movement recorder** (`src/medguard/data/generators/movements.py`). Each operation changes one inventory position's quantity in place, never letting it go below zero. It returns the movement record that documents the change. The operations are:
- dispense;
- restock;
- transfer out;
- transfer in;
- expiry withdrawal.

Layout:
- `wrappers.dfy`: `Option`.
- `records.dfy`: the inventory row, the movement record and `Abs`.
- `event_model.dfy`:
  - severities, event types, signatures and the event record;
  - `CreateEvent`;
  - the default thresholds;
  - `Collect`, the generic per-input scan that every rule is an instance of, with `RunRule`, the loop that computes it.
- `detectors.dfy`: the four inventory rules. Each rule is a per-row function, a specification over the whole inventory, and a method that runs the loop.
- `rapid_consumption.dfy`: the windowed per-(facility, medication) dispense totals and the consumption rule.
- `orchestrator.dfy`: the active-signature index, the duplicate filter and `GenerateEvents`, with lemmas about uniqueness, order, suppression and re-running.
- `movements.dfy`: the class `InventoryPosition`, updated in place by the recording methods.

Modelling choices:
- **Time.** Times are whole microseconds (`int`), the resolution of Python's `datetime`, so `(expiry - now).days`, `now >= expiry` and the window test are exact. An expiry date is `Option<int>`, where `None` stands for a date string that `strptime` rejects. The rapid-consumption window length is a whole number of hours.
- **Defaults.** Python's default arguments become explicit parameters: callers pass `UnknownSource` ("UNKNOWN") for the default `source` and the recorder fills in `UnspecifiedReason` ("UNSPECIFIED") where the source does.
- **Days to expiry.** `(expiry - now).days` is `(expiry - now) / MicrosPerDay`, where `MicrosPerDay` is 86400 * 10^6. Dafny's division is Euclidean, which equals Python's floor division for a positive divisor.
- **Rapid-consumption threshold.** The multiplier and `base_demand` are `real`s. The window total is compared with `base_demand * multiplier` exactly as written: the baseline is not rescaled to the window length.
- **Ids and clocks.** The random parts of event ids and the detection clock come from a `Stamper`, a function from (event type, position in that rule's input) to a token and a detection time. An event id is `"EVT_"` followed by the token. Movement ids, reference ids and generated transfer ids are plain parameters.
- **Existing events.** A stored event carries `isActive: Option<bool>`. A missing flag counts as active, as `e.get("is_active", True)` does.

## Model

| member | source | states |
|---|---|---|
| EventModel.Severity.Level | events/events.py:6-11 | severity ranks lie in 1..4, and rank 4 is held by CRITICAL alone |
| EventModel.SeverityScale | events/events.py:6-11 | the ranks form a strict scale INFO < MEDIUM < HIGH < CRITICAL, and distinct severities have distinct ranks |
| EventModel.CreateEvent | events/events.py:29-56 | the event is active, its source is SIMULATION, and type, severity, facility, medication, batch and timestamp pass through unchanged; missing data becomes the empty map; the id is `EVT_` plus the stamp's token and `detected_at` is the stamp's time |
| EventModel.Collect | events/events.py:61-87 | a rule scan raises at most one event per input |
| EventModel.RunRule | events/events.py:63-85 | the append loop over the inputs returns exactly the scan `Collect` |
| EventModel.Firing | events/events.py:63-85 | the positions of the inputs a rule fires on: one per raised event, each a valid input index |
| EventModel.FiringIncreasing | events/events.py:63-85 | those positions strictly increase, so events appear in input order |
| EventModel.FiringExactly | events/events.py:63-85 | an input position is among them iff the rule fires on that input |
| EventModel.FiringYields | events/events.py:63-85 | the k-th raised event is the one the rule produces for the k-th firing input |
| EventModel.CollectOrigins | events/events.py:63-85 | combined: one event per firing input, none for the others, in input order |
| EventModel.CollectMember | events/events.py:63-85 | an event is in the scan iff some input's rule result is that event |
| EventModel.CollectSigsAgree | events/events.py:63-85 | two rules that agree on every input's signature give scans with the same signature sequence |
| Records.Abs | src/medguard/data/generators/movements.py:19 | the magnitude of a quantity: non-negative and equal to x or -x |
| Detectors.LowStockFor | events/events.py:63-85 | a row raises LOW_STOCK iff 0 < quantity <= reorder point; the event is MEDIUM, active, carries the row's signature and the current time, with data {quantity, reorder_point} |
| Detectors.DetectLowStock | events/events.py:60-87 | the loop returns the low-stock scan; an event is in the result iff it is the event of some low-stock row; every event is MEDIUM with a batch |
| Detectors.StockoutFor | events/events.py:93-105 | a row raises STOCKOUT iff its quantity is 0; the event is CRITICAL with empty data and the row's signature |
| Detectors.DetectStockout | events/events.py:90-107 | the loop returns the stockout scan; an event is in the result iff it is the event of some row at zero; every event is CRITICAL |
| Detectors.DaysToExpiry | events/events.py:126 | whole days to expiry, rounded down: d days means the distance lies in [d, d+1) days |
| Detectors.NearExpiryFor | events/events.py:117-146 | no event for quantity <= 0 or an unparseable expiry; otherwise NEAR_EXPIRY iff 0 < days <= near threshold; HIGH iff days <= urgent threshold, MEDIUM otherwise; data {days_to_expiry: days} |
| Detectors.DetectNearExpiry | events/events.py:110-148 | the loop returns the near-expiry scan; an event is in the result iff it is the event of some near-expiry row |
| Detectors.ExpiredFor | events/events.py:157-177 | EXPIRED_IN_STOCK iff quantity > 0, the expiry parses and now >= expiry; HIGH, empty data |
| Detectors.DetectExpiredInStock | events/events.py:151-179 | the loop returns the expired scan; an event is in the result iff it is the event of some expired row with stock |
| Detectors.StockRulesExclusive | events/events.py:67-94 | no row raises both LOW_STOCK and STOCKOUT |
| Detectors.ExpiryRulesExclusive | events/events.py:126-166 | now >= expiry forces days <= 0, so no row raises both NEAR_EXPIRY and EXPIRED_IN_STOCK |
| Detectors.LastDayBeforeExpiryIsSilent | events/events.py:126-166 | stock expiring less than one day ahead raises neither expiry event |
| Detectors.DefaultUrgencyBoundary | events/events.py:128-133 | with the default thresholds, 14 days and 15 days minus one microsecond are HIGH and 15 days is MEDIUM |
| RapidConsumption.WindowTotal | events/events.py:195-206 | the windowed dispensed total of a key is a fold over the log and never negative |
| RapidConsumption.WindowKeys | events/events.py:195-206 | the keys of the totals dictionary, each at most once |
| RapidConsumption.WindowKeysFirstOrder | events/events.py:205-206 | the keys come in insertion order: for an earlier key, a counted dispense carries it before any counted dispense carries a later key (this order is the order of `dispensed.items()` and so of the events) |
| RapidConsumption.WindowKeysExactly | events/events.py:197-205 | a key is present iff some DISPENSE movement at or after the window start has that facility and medication |
| RapidConsumption.WindowTotalOutsideKeys | events/events.py:195-206 | a key with no counted dispense totals 0 |
| RapidConsumption.WindowTotalAppend | events/events.py:197-206 | the total over two log segments is the sum of their totals |
| RapidConsumption.WindowTotalIgnoresBatch | events/events.py:205-206 | logs that differ only in batches, ids and other uncounted fields give the same totals |
| RapidConsumption.MedLookup | events/events.py:213 | the lookup has exactly the listed medication ids, and a later row for the same id overrides an earlier one |
| RapidConsumption.MedLookupLastWins | events/events.py:213 | the value for an id is the base demand of the last row carrying it |
| RapidConsumption.RapidFor | events/events.py:216-239 | RAPID_CONSUMPTION iff the base demand is present and non-zero and the total strictly exceeds demand * multiplier; MEDIUM, no batch, data {dispensed_quantity, expected_quantity} |
| RapidConsumption.AccumulateDispensed | events/events.py:191-206 | the accumulation loop yields the window keys in order and each key's total is the windowed fold |
| RapidConsumption.RapidConsumptionOnePerKey | events/events.py:215-239 | no two rapid-consumption events share a signature |
| RapidConsumption.DetectRapidConsumption | events/events.py:182-241 | the detector returns the specified event sequence; every event is MEDIUM with no batch; signatures are distinct |
| RapidConsumption.RapidConsumptionShape | events/events.py:221-238 | every rapid-consumption event has type RAPID_CONSUMPTION, MEDIUM severity and no batch |
| RapidConsumption.StrictThresholdExample | events/events.py:220 | with base demand 50 and multiplier 2, a total of 120 fires and 100 does not |
| RapidConsumption.ScenarioWindow | events/events.py:197-206 | in the scenario log, the restock and the dispense thirty hours back are not counted: one key, with total 70 plus the second dispense |
| RapidConsumption.WindowScenario | events/events.py:191-220 | restocks and dispenses older than the window are not counted: 70 + 50 in window fires with data {120, 50}, 70 + 30 does not |
| Orchestrator.ActiveSignaturesExactly | events/events.py:258-262 | a signature is indexed iff some existing event with is_active true or absent has it |
| Orchestrator.ActiveSignaturesAppend | events/events.py:258-262 | indexing two lists of existing events gives the union of their indexes |
| Orchestrator.StoredSignatures | events/events.py:259-261 | stored active events index exactly their own signatures |
| Orchestrator.DedupSignatures | events/events.py:277-288 | the filtered output's signatures are the candidates' signatures minus the active ones |
| Orchestrator.DedupUnique | events/events.py:277-288 | no two filtered events share a signature |
| Orchestrator.KeptPositions | events/events.py:277-288 | the candidate positions the filter keeps: one per output event, each a valid index |
| Orchestrator.KeptIncreasing | events/events.py:277-288 | the kept positions strictly increase: the output keeps the candidates' order |
| Orchestrator.KeptYields | events/events.py:277-288 | the k-th output event is the candidate at the k-th kept position |
| Orchestrator.KeptExactly | events/events.py:277-288 | a candidate is kept iff its signature is not active and no earlier candidate has it |
| Orchestrator.DedupOrigins | events/events.py:277-288 | combined: the output is the subsequence of candidates at exactly the first occurrences of non-active signatures |
| Orchestrator.DedupAllSuppressed | events/events.py:285-287 | candidates whose signatures are all already indexed yield nothing |
| Orchestrator.DedupSameSigs | events/events.py:277-288 | the filter depends only on signatures: candidate lists with equal signature sequences give outputs with equal signature sequences |
| Orchestrator.DedupSubset | events/events.py:285-286 | every output event is a candidate |
| Orchestrator.IndexActiveSignatures | events/events.py:258-262 | the indexing loop collects exactly the signatures of active existing events |
| Orchestrator.DetectAll | events/events.py:265-274 | the detection phase returns low-stock, stockout, near-expiry, expired and rapid-consumption candidates concatenated in that order |
| Orchestrator.FilterNew | events/events.py:277-288 | the filtering loop returns the specified filter; outputs have distinct signatures, none of them active, and together cover every candidate signature that is not active |
| Orchestrator.GenerateEvents | events/events.py:245-289 | the result is the specified new-event sequence; signatures are distinct; no event shares a signature with an active existing event; every non-suppressed candidate signature appears |
| Orchestrator.CandidatesAreActive | events/events.py:55 | every candidate is active |
| Orchestrator.CandidateSigsIgnoreStamps | events/events.py:265-274 | the candidates' signature sequence does not depend on ids or detection clock |
| Orchestrator.RerunRaisesNothing | events/events.py:255-289 | re-running with the earlier output added to the existing events, under any ids and clock, returns nothing |
| Orchestrator.RerunSameSignatures | events/events.py:245-289 | two runs over the same data under different ids and clocks produce the same signatures in the same order |
| Orchestrator.LowStockOnlyCandidates | events/events.py:265-274 | a row with 5 units, reorder point 10 and no parseable expiry yields a single LOW_STOCK candidate |
| Orchestrator.SuppressionScenario | events/events.py:258-288 | for that row, a stored LOW_STOCK event with is_active false suppresses nothing (one MEDIUM event with data {5, 10}), while one with is_active true or absent suppresses it |
| Movements.Max0 | src/medguard/data/generators/movements.py:127 | the clamped quantity is non-negative, at least the raw sum, and equals the sum or 0 |
| Movements.WithdrawAmount | src/medguard/data/generators/movements.py:96 | an expiry withdrawal takes at most the requested magnitude and at most the stock on hand, and equals one of them |
| Movements.ChooseTransferId | src/medguard/data/generators/movements.py:61 | a non-empty caller transfer id is kept unchanged; a missing or empty one is replaced by the generated id |
| Movements.RecordMovement | src/medguard/data/generators/movements.py:107-146 | only the position's quantity changes, to max(0, before + change), so it is never negative; the record copies the ids, type, change, timestamp, reference, source and reason, and holds the before and after quantities |
| Movements.RecordDispense | src/medguard/data/generators/movements.py:6-24 | records a DISPENSE of -abs(quantity) with the caller's timestamp, source, reason, reference and movement id and no transfer fields; from non-negative stock the quantity never increases |
| Movements.RecordRestock | src/medguard/data/generators/movements.py:27-38 | records a RESTOCK of +abs(quantity) with the caller's timestamp, source, reference and movement id, reason UNSPECIFIED and no transfer fields; from non-negative stock after = before + abs(quantity), no clamping |
| Movements.RecordTransferOut | src/medguard/data/generators/movements.py:41-63 | records a TRANSFER_OUT of -abs(quantity) with reference TRF_TO_ plus destination, the destination facility and the chosen transfer id, with the caller's timestamp, source and movement id and reason UNSPECIFIED; stock never increases from non-negative stock |
| Movements.RecordTransferIn | src/medguard/data/generators/movements.py:66-87 | records a TRANSFER_IN of +abs(quantity) with reference TRF_FROM_ plus origin, the source facility and the chosen transfer id, with the caller's timestamp, source and movement id and reason UNSPECIFIED; after = before + abs(quantity) from non-negative stock |
| Movements.RecordExpiryWithdraw | src/medguard/data/generators/movements.py:90-104 | withdraws min(abs(quantity), on hand) under reference EXPIRY_AUDIT with the caller's timestamp, source and movement id, reason UNSPECIFIED and no transfer fields; from non-negative stock the clamp never triggers, and asking for at least the whole stock leaves exactly 0 |

## Left out

- `seed_historical_movements` in `src/medguard/data/generators/movements.py`: randomised fixture generation from a seeded generator with floating-point demand arithmetic.
- `uuid.uuid4()` and `datetime.now()` in `create_event`: replaced by the `Stamper` parameter. Event ids are therefore not shown to be unique.
- `random.randint` for movement, reference and transfer ids: these are parameters of the recording methods, so their `MOV_`, `DIS_`, `RES_` and `TXF_` prefixes and number ranges are not modelled.
- A fractional `RAPID_CONSUMPTION_WINDOW_HOURS`, which `timedelta(hours=...)` accepts: the window length is an integer number of hours.
- The `details` text of every event: free-form f-string formatting.
- Date parsing and formatting (`strptime`, `fromisoformat`, `isoformat`): times are integer microseconds.
  - A missing `expiry_date` key and a `None` date raise in the source, not `ValueError`. The model does not separate these from an unparseable date.
  - A medication row without a `base_demand` key raises `KeyError` in the source. The model treats it as a missing base demand.
- Floating-point rounding in `base_demand * multiplier`: reals are exact.
- The unused `inventory` argument of `detect_rapid_consumption` and its commented-out block (events/events.py:209-211).
- `src/medguard/db/database.py`, `src/medguard/scripts/seed_db.py`, `src/medguard/agent/tools.py` and `src/medguard/agent/agent.py`: database, seeding script, SQL tool and network client. They are not part of this model.
- Movements.RecordTransferOut, Movements.RecordTransferIn: the source builds the movement dictionary and then adds the transfer fields to it. The model builds the movement as a value and sets those fields by record update, so aliasing of the returned dictionary is not captured.
- Orchestrator.GenerateEvents: the three phases are separate methods (`IndexActiveSignatures`, `DetectAll`, `FilterNew`). The first phase's set is handed to the last as a value rather than shared and mutated.
