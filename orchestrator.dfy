/**
 * The orchestrator: builds the signature index of the active existing events,
 * runs the five detectors in a fixed order, and keeps each candidate whose
 * signature is neither already active nor raised earlier in the same pass.
 */
module Orchestrator {
  import opened Wrappers
  import opened Records
  import opened EventModel
  import opened Detectors
  import opened RapidConsumption

  /**
   * An event row as the caller hands it back. `isActive` is `None` when the
   * row has no such field; `batchId` is `None` when the field is missing or null.
   */
  datatype ExistingEvent = ExistingEvent(
    eventType: EventType,
    facilityId: string,
    medId: string,
    batchId: Option<string>,
    isActive: Option<bool>)
  {
    /** A missing flag counts as active; only an explicit false does not. */
    predicate IsActive() {
      isActive != Some(false)
    }

    function Sig(): Signature {
      Signature(eventType, facilityId, medId, batchId)
    }
  }

  /** An event as it reads back once stored. */
  function Stored(e: Event): ExistingEvent {
    ExistingEvent(e.eventType, e.facilityId, e.medId, e.batchId, Some(e.isActive))
  }

  function StoredAll(es: seq<Event>): seq<ExistingEvent> {
    seq(|es|, k requires 0 <= k < |es| => Stored(es[k]))
  }

  // ---------------------------------------------------------------- signature index

  /** The signature index: the signatures of the active existing events. */
  function ActiveSignatures(existing: seq<ExistingEvent>): set<Signature>
    decreases |existing|
  {
    if existing == [] then {}
    else
      var n := |existing| - 1;
      ActiveSignatures(existing[..n]) + (if existing[n].IsActive() then {existing[n].Sig()} else {})
  }

  /** A signature is indexed exactly when some active existing event carries it; inactive events index nothing. */
  lemma {:induction false} ActiveSignaturesExactly(existing: seq<ExistingEvent>, s: Signature)
    ensures s in ActiveSignatures(existing) <==> exists e :: e in existing && e.IsActive() && e.Sig() == s
    decreases |existing|
  {
    if existing != [] {
      var n := |existing| - 1;
      var prefix := existing[..n];
      ActiveSignaturesExactly(prefix, s);
      assert existing == prefix + [existing[n]];
    }
  }

  lemma {:induction false} ActiveSignaturesAppend(a: seq<ExistingEvent>, b: seq<ExistingEvent>)
    ensures ActiveSignatures(a + b) == ActiveSignatures(a) + ActiveSignatures(b)
    decreases |b|
  {
    if b == [] {
      assert a + b == a;
    } else {
      var n := |b| - 1;
      ActiveSignaturesAppend(a, b[..n]);
      assert (a + b)[..|a + b| - 1] == a + b[..n];
    }
  }

  /** Storing active events indexes exactly their signatures. */
  lemma {:induction false} StoredSignatures(es: seq<Event>)
    requires forall e | e in es :: e.isActive
    ensures ActiveSignatures(StoredAll(es)) == SigsOf(es)
    decreases |es|
  {
    if es != [] {
      var n := |es| - 1;
      var prefix := es[..n];
      StoredSignatures(prefix);
      var stored := StoredAll(es);
      assert |stored| == |es| && stored[n] == Stored(es[n]);
      assert stored[..n] == StoredAll(prefix);
      assert stored[n].IsActive() && stored[n].Sig() == es[n].Sig();
      assert ActiveSignatures(stored) == ActiveSignatures(StoredAll(prefix)) + {es[n].Sig()};
      assert es == prefix + [es[n]];
      SigsOfAppend(prefix, [es[n]]);
    }
  }

  // ---------------------------------------------------------------- deduplication

  function SigsOf(es: seq<Event>): set<Signature> {
    set e | e in es :: e.Sig()
  }

  lemma SigsOfAppend(a: seq<Event>, b: seq<Event>)
    ensures SigsOf(a + b) == SigsOf(a) + SigsOf(b)
  {
    assert forall e :: e in a + b <==> e in a || e in b;
  }

  lemma SigsOfFromSigSeq(a: seq<Event>, b: seq<Event>)
    requires SigSeq(a) == SigSeq(b)
    ensures SigsOf(a) == SigsOf(b)
  {
    forall s | s in SigsOf(a) ensures s in SigsOf(b) {
      var e :| e in a && e.Sig() == s;
      var k :| 0 <= k < |a| && a[k] == e;
      assert SigSeq(b)[k] == s;
    }
    forall s | s in SigsOf(b) ensures s in SigsOf(a) {
      var e :| e in b && e.Sig() == s;
      var k :| 0 <= k < |b| && b[k] == e;
      assert SigSeq(a)[k] == s;
    }
  }

  /**
   * The filtering pass over the candidates: the last candidate is kept when
   * its signature is neither active nor held by an event already kept.
   */
  function Dedup(active: set<Signature>, cands: seq<Event>): seq<Event>
    decreases |cands|
  {
    if cands == [] then []
    else
      var n := |cands| - 1;
      var kept := Dedup(active, cands[..n]);
      if cands[n].Sig() in active + SigsOf(kept) then kept else kept + [cands[n]]
  }

  /** The i-th candidate is the first with its signature. */
  predicate FirstOccurrence(c: seq<Event>, i: nat)
    requires i < |c|
  {
    forall j :: 0 <= j < i ==> c[j].Sig() != c[i].Sig()
  }

  /** The output carries exactly the candidate signatures that are not active. */
  lemma {:induction false} DedupSignatures(active: set<Signature>, c: seq<Event>)
    ensures SigsOf(Dedup(active, c)) == SigsOf(c) - active
    decreases |c|
  {
    if c != [] {
      var n := |c| - 1;
      var p := c[..n];
      var kept := Dedup(active, p);
      DedupSignatures(active, p);
      assert c == p + [c[n]];
      SigsOfAppend(p, [c[n]]);
      SigsOfAppend(kept, [c[n]]);
      assert SigsOf([c[n]]) == {c[n].Sig()};
    }
  }

  /** No two output events share a signature. */
  lemma {:induction false} DedupUnique(active: set<Signature>, c: seq<Event>)
    ensures SigsDistinct(Dedup(active, c))
    decreases |c|
  {
    if c != [] {
      var n := |c| - 1;
      var kept := Dedup(active, c[..n]);
      var r := Dedup(active, c);
      DedupUnique(active, c[..n]);
      if c[n].Sig() !in active + SigsOf(kept) {
        assert r == kept + [c[n]];
        forall a, b | 0 <= a < b < |r| ensures r[a].Sig() != r[b].Sig() {
          if b < |kept| {
            assert r[a] == kept[a] && r[b] == kept[b];
          } else {
            assert r[a] == kept[a] && kept[a] in kept && r[b] == c[n];
            assert kept[a].Sig() in SigsOf(kept);
          }
        }
      } else {
        assert r == kept;
      }
    }
  }

  /** The positions of the candidates the filtering pass keeps. */
  function KeptPositions(active: set<Signature>, c: seq<Event>): (idx: seq<nat>)
    ensures |idx| == |Dedup(active, c)|
    ensures forall k :: 0 <= k < |idx| ==> idx[k] < |c|
    decreases |c|
  {
    if c == [] then []
    else
      var n := |c| - 1;
      var before := KeptPositions(active, c[..n]);
      if c[n].Sig() in active + SigsOf(Dedup(active, c[..n])) then before else before + [n]
  }

  lemma {:induction false} KeptIncreasing(active: set<Signature>, c: seq<Event>)
    ensures forall k, l :: 0 <= k < l < |KeptPositions(active, c)| ==> KeptPositions(active, c)[k] < KeptPositions(active, c)[l]
    decreases |c|
  {
    if c != [] {
      var n := |c| - 1;
      KeptIncreasing(active, c[..n]);
      var before := KeptPositions(active, c[..n]);
      assert forall k :: 0 <= k < |before| ==> before[k] < n;
    }
  }

  lemma {:induction false} KeptYields(active: set<Signature>, c: seq<Event>, k: nat)
    requires k < |KeptPositions(active, c)|
    ensures Dedup(active, c)[k] == c[KeptPositions(active, c)[k]]
    decreases |c|
  {
    var n := |c| - 1;
    var p := c[..n];
    var before := KeptPositions(active, p);
    if k < |before| {
      KeptYields(active, p, k);
      assert p[before[k]] == c[before[k]];
      assert KeptPositions(active, c)[k] == before[k];
      assert Dedup(active, c)[k] == Dedup(active, p)[k];
    }
  }

  /** The last candidate is the first with its signature exactly when no earlier candidate carries that signature. */
  lemma FirstOccurrenceOfLast(c: seq<Event>)
    requires c != []
    ensures FirstOccurrence(c, |c| - 1) <==> c[|c| - 1].Sig() !in SigsOf(c[..|c| - 1])
  {
    var n := |c| - 1;
    var p := c[..n];
    if c[n].Sig() in SigsOf(p) {
      var e :| e in p && e.Sig() == c[n].Sig();
      var j :| 0 <= j < n && p[j] == e;
      assert c[j] == e;
    }
    if !FirstOccurrence(c, n) {
      var j :| 0 <= j < n && c[j].Sig() == c[n].Sig();
      assert p[j] in p;
    }
  }

  lemma {:induction false} KeptExactly(active: set<Signature>, c: seq<Event>, i: nat)
    requires i < |c|
    ensures i in KeptPositions(active, c) <==> c[i].Sig() !in active && FirstOccurrence(c, i)
    decreases |c|
  {
    var n := |c| - 1;
    var p := c[..n];
    if i < n {
      KeptExactly(active, p, i);
      assert forall j :: 0 <= j <= i ==> p[j] == c[j];
      assert FirstOccurrence(c, i) == FirstOccurrence(p, i);
    } else {
      DedupSignatures(active, p);
      FirstOccurrenceOfLast(c);
    }
  }

  /**
   * The output is the subsequence of the candidates at exactly the positions
   * that hold the first occurrence of a signature that is not active.
   */
  lemma DedupOrigins(active: set<Signature>, c: seq<Event>) returns (idx: seq<nat>)
    ensures |idx| == |Dedup(active, c)|
    ensures forall k :: 0 <= k < |idx| ==> idx[k] < |c| && Dedup(active, c)[k] == c[idx[k]]
    ensures forall k, l :: 0 <= k < l < |idx| ==> idx[k] < idx[l]
    ensures forall i :: 0 <= i < |c| ==> (i in idx <==> c[i].Sig() !in active && FirstOccurrence(c, i))
  {
    idx := KeptPositions(active, c);
    KeptIncreasing(active, c);
    forall k | 0 <= k < |idx| ensures Dedup(active, c)[k] == c[idx[k]] {
      KeptYields(active, c, k);
    }
    forall i | 0 <= i < |c| ensures i in idx <==> c[i].Sig() !in active && FirstOccurrence(c, i) {
      KeptExactly(active, c, i);
    }
  }

  /** Candidates whose signatures are all already indexed yield nothing. */
  lemma {:induction false} DedupAllSuppressed(active: set<Signature>, c: seq<Event>)
    requires SigsOf(c) <= active
    ensures Dedup(active, c) == []
    decreases |c|
  {
    if c != [] {
      var n := |c| - 1;
      assert c == c[..n] + [c[n]];
      SigsOfAppend(c[..n], [c[n]]);
      DedupAllSuppressed(active, c[..n]);
      assert c[n] in c;
    }
  }

  /** Deduplication looks only at signatures: equal signature lists give equal output signature lists. */
  lemma {:induction false} DedupSameSigs(active: set<Signature>, c1: seq<Event>, c2: seq<Event>)
    requires SigSeq(c1) == SigSeq(c2)
    ensures SigSeq(Dedup(active, c1)) == SigSeq(Dedup(active, c2))
    decreases |c1|
  {
    assert |c1| == |SigSeq(c1)| == |c2|;
    if c1 != [] {
      var n := |c1| - 1;
      var p1, p2 := c1[..n], c2[..n];
      assert SigSeq(p1) == SigSeq(c1)[..n] == SigSeq(c2)[..n] == SigSeq(p2);
      DedupSameSigs(active, p1, p2);
      var k1, k2 := Dedup(active, p1), Dedup(active, p2);
      SigsOfFromSigSeq(k1, k2);
      assert c1[n].Sig() == SigSeq(c1)[n] == c2[n].Sig();
      SigSeqAppend(k1, [c1[n]]);
      SigSeqAppend(k2, [c2[n]]);
    }
  }

  lemma {:induction false} DedupSubset(active: set<Signature>, c: seq<Event>)
    ensures forall e | e in Dedup(active, c) :: e in c
    decreases |c|
  {
    if c != [] {
      var n := |c| - 1;
      DedupSubset(active, c[..n]);
      assert forall e | e in c[..n] :: e in c;
    }
  }

  // ---------------------------------------------------------------- the pass

  /** All candidates, detector by detector in the fixed order. */
  function Candidates(inventory: seq<InventoryRow>, movements: seq<Movement>, meds: seq<MedicationRow>,
                      now: int, th: Thresholds, stamper: Stamper): seq<Event>
  {
    LowStockEvents(inventory, now, stamper)
    + StockoutEvents(inventory, now, stamper)
    + NearExpiryEvents(inventory, now, th, stamper)
    + ExpiredEvents(inventory, now, stamper)
    + RapidConsumptionEvents(movements, meds, now, th, stamper)
  }

  /** What one evaluation pass returns. */
  function NewEvents(inventory: seq<InventoryRow>, movements: seq<Movement>, meds: seq<MedicationRow>,
                     now: int, existing: seq<ExistingEvent>, th: Thresholds, stamper: Stamper): seq<Event>
  {
    Dedup(ActiveSignatures(existing), Candidates(inventory, movements, meds, now, th, stamper))
  }

  /** The first loop of a pass: index the signatures of the active existing events. */
  method IndexActiveSignatures(existing: seq<ExistingEvent>) returns (seen: set<Signature>)
    ensures seen == ActiveSignatures(existing)
    ensures forall x | x in existing && x.IsActive() :: x.Sig() in seen
  {
    seen := {};
    var i := 0;
    while i < |existing|
      invariant 0 <= i <= |existing|
      invariant seen == ActiveSignatures(existing[..i])
    {
      assert existing[..i + 1][..i] == existing[..i];
      var e := existing[i];
      if e.IsActive() {
        seen := seen + {e.Sig()};
      }
      i := i + 1;
    }
    assert existing[..i] == existing;
    forall x | x in existing && x.IsActive() ensures x.Sig() in seen {
      ActiveSignaturesExactly(existing, x.Sig());
    }
  }

  /** Run the five detectors in their fixed order and concatenate what they raise. */
  method DetectAll(inventory: seq<InventoryRow>, movements: seq<Movement>, meds: seq<MedicationRow>,
                   now: int, th: Thresholds, stamper: Stamper)
    returns (all: seq<Event>)
    ensures all == Candidates(inventory, movements, meds, now, th, stamper)
  {
    all := DetectLowStock(inventory, now, stamper);
    var more := DetectStockout(inventory, now, stamper);
    all := all + more;
    more := DetectNearExpiry(inventory, now, th, stamper);
    all := all + more;
    more := DetectExpiredInStock(inventory, now, stamper);
    all := all + more;
    more := DetectRapidConsumption(movements, meds, now, th, stamper);
    all := all + more;
  }

  /**
   * The second loop of a pass: keep each candidate whose signature is not yet
   * in the index, adding it to the index as it is kept.
   */
  method FilterNew(active: set<Signature>, all: seq<Event>) returns (newEvents: seq<Event>)
    ensures newEvents == Dedup(active, all)
    ensures SigsDistinct(newEvents)
    ensures forall e | e in newEvents :: e.Sig() !in active
    ensures SigsOf(newEvents) == SigsOf(all) - active
  {
    var seen := active;
    newEvents := [];
    var j := 0;
    while j < |all|
      invariant 0 <= j <= |all|
      invariant newEvents == Dedup(active, all[..j])
      invariant seen == active + SigsOf(newEvents)
    {
      assert all[..j + 1][..j] == all[..j];
      var event := all[j];
      if event.Sig() !in seen {
        SigsOfAppend(newEvents, [event]);
        assert SigsOf([event]) == {event.Sig()};
        newEvents := newEvents + [event];
        seen := seen + {event.Sig()};
      }
      j := j + 1;
    }
    assert all[..j] == all;
    DedupUnique(active, all);
    DedupSignatures(active, all);
    assert forall e | e in newEvents :: e.Sig() in SigsOf(newEvents);
  }

  /**
   * One evaluation pass: the new events, no two with the same signature and
   * none with the signature of an active existing event, covering every
   * candidate signature that is not already active.
   */
  method GenerateEvents(inventory: seq<InventoryRow>, movements: seq<Movement>, meds: seq<MedicationRow>,
                        now: int, existing: seq<ExistingEvent>, th: Thresholds, stamper: Stamper)
    returns (newEvents: seq<Event>)
    ensures newEvents == NewEvents(inventory, movements, meds, now, existing, th, stamper)
    ensures SigsDistinct(newEvents)
    ensures forall e, x | e in newEvents && x in existing && x.IsActive() :: e.Sig() != x.Sig()
    ensures SigsOf(newEvents) == SigsOf(Candidates(inventory, movements, meds, now, th, stamper)) - ActiveSignatures(existing)
  {
    var seen := IndexActiveSignatures(existing);
    var all := DetectAll(inventory, movements, meds, now, th, stamper);
    newEvents := FilterNew(seen, all);
  }

  // ---------------------------------------------------------------- re-evaluation

  /** Every candidate starts active. */
  lemma CandidatesAreActive(inventory: seq<InventoryRow>, movements: seq<Movement>, meds: seq<MedicationRow>,
                            now: int, th: Thresholds, stamper: Stamper)
    ensures forall e | e in Candidates(inventory, movements, meds, now, th, stamper) :: e.isActive
  {
    var ws := WindowStart(now, th);
    var keys := WindowKeys(movements, ws);
    forall e | e in Candidates(inventory, movements, meds, now, th, stamper) ensures e.isActive {
      if e in LowStockEvents(inventory, now, stamper) {
        CollectMember(inventory, LowStockRule(now, stamper), e);
        var i :| 0 <= i < |inventory| && LowStockRule(now, stamper)(i, inventory[i]) == Some(e);
        assert LowStockFor(inventory[i], now, stamper(LowStock, i)) == Some(e);
      } else if e in StockoutEvents(inventory, now, stamper) {
        CollectMember(inventory, StockoutRule(now, stamper), e);
        var i :| 0 <= i < |inventory| && StockoutRule(now, stamper)(i, inventory[i]) == Some(e);
        assert StockoutFor(inventory[i], now, stamper(Stockout, i)) == Some(e);
      } else if e in NearExpiryEvents(inventory, now, th, stamper) {
        CollectMember(inventory, NearExpiryRule(now, th, stamper), e);
        var i :| 0 <= i < |inventory| && NearExpiryRule(now, th, stamper)(i, inventory[i]) == Some(e);
        assert NearExpiryFor(inventory[i], now, th, stamper(NearExpiry, i)) == Some(e);
      } else if e in ExpiredEvents(inventory, now, stamper) {
        CollectMember(inventory, ExpiredRule(now, stamper), e);
        var i :| 0 <= i < |inventory| && ExpiredRule(now, stamper)(i, inventory[i]) == Some(e);
        assert ExpiredFor(inventory[i], now, stamper(ExpiredInStock, i)) == Some(e);
      } else {
        var rule := RapidRule(movements, meds, now, th, stamper);
        CollectMember(keys, rule, e);
        var i :| 0 <= i < |keys| && rule(i, keys[i]) == Some(e);
        var key := keys[i];
        assert RapidFor(key, WindowTotal(movements, key, ws), ExpectedDemand(meds, key.medId), th, now, stamper(RapidConsumption, i)) == Some(e);
      }
    }
  }

  /** The candidates' signatures do not depend on the identifiers or detection clocks the factory draws. */
  lemma CandidateSigsIgnoreStamps(inventory: seq<InventoryRow>, movements: seq<Movement>, meds: seq<MedicationRow>,
                                  now: int, th: Thresholds, st1: Stamper, st2: Stamper)
    ensures SigSeq(Candidates(inventory, movements, meds, now, th, st1)) == SigSeq(Candidates(inventory, movements, meds, now, th, st2))
  {
    forall i | 0 <= i < |inventory|
      ensures OptSig(LowStockRule(now, st1)(i, inventory[i])) == OptSig(LowStockRule(now, st2)(i, inventory[i]))
      ensures OptSig(StockoutRule(now, st1)(i, inventory[i])) == OptSig(StockoutRule(now, st2)(i, inventory[i]))
      ensures OptSig(NearExpiryRule(now, th, st1)(i, inventory[i])) == OptSig(NearExpiryRule(now, th, st2)(i, inventory[i]))
      ensures OptSig(ExpiredRule(now, st1)(i, inventory[i])) == OptSig(ExpiredRule(now, st2)(i, inventory[i]))
    {
      var row := inventory[i];
      assert LowStockRule(now, st1)(i, row) == LowStockFor(row, now, st1(LowStock, i));
      assert LowStockRule(now, st2)(i, row) == LowStockFor(row, now, st2(LowStock, i));
      assert StockoutRule(now, st1)(i, row) == StockoutFor(row, now, st1(Stockout, i));
      assert StockoutRule(now, st2)(i, row) == StockoutFor(row, now, st2(Stockout, i));
      assert NearExpiryRule(now, th, st1)(i, row) == NearExpiryFor(row, now, th, st1(NearExpiry, i));
      assert NearExpiryRule(now, th, st2)(i, row) == NearExpiryFor(row, now, th, st2(NearExpiry, i));
      assert ExpiredRule(now, st1)(i, row) == ExpiredFor(row, now, st1(ExpiredInStock, i));
      assert ExpiredRule(now, st2)(i, row) == ExpiredFor(row, now, st2(ExpiredInStock, i));
    }
    CollectSigsAgree(inventory, LowStockRule(now, st1), LowStockRule(now, st2));
    CollectSigsAgree(inventory, StockoutRule(now, st1), StockoutRule(now, st2));
    CollectSigsAgree(inventory, NearExpiryRule(now, th, st1), NearExpiryRule(now, th, st2));
    CollectSigsAgree(inventory, ExpiredRule(now, st1), ExpiredRule(now, st2));

    var ws := WindowStart(now, th);
    var keys := WindowKeys(movements, ws);
    var r1, r2 := RapidRule(movements, meds, now, th, st1), RapidRule(movements, meds, now, th, st2);
    forall i | 0 <= i < |keys| ensures OptSig(r1(i, keys[i])) == OptSig(r2(i, keys[i])) {
      var key := keys[i];
      var total, expected := WindowTotal(movements, key, ws), ExpectedDemand(meds, key.medId);
      assert r1(i, key) == RapidFor(key, total, expected, th, now, st1(RapidConsumption, i));
      assert r2(i, key) == RapidFor(key, total, expected, th, now, st2(RapidConsumption, i));
    }
    CollectSigsAgree(keys, r1, r2);

    var l1, s1, n1, x1, c1 := LowStockEvents(inventory, now, st1), StockoutEvents(inventory, now, st1),
      NearExpiryEvents(inventory, now, th, st1), ExpiredEvents(inventory, now, st1), RapidConsumptionEvents(movements, meds, now, th, st1);
    var l2, s2, n2, x2, c2 := LowStockEvents(inventory, now, st2), StockoutEvents(inventory, now, st2),
      NearExpiryEvents(inventory, now, th, st2), ExpiredEvents(inventory, now, st2), RapidConsumptionEvents(movements, meds, now, th, st2);
    SigSeqAppend(l1, s1);
    SigSeqAppend(l1 + s1, n1);
    SigSeqAppend(l1 + s1 + n1, x1);
    SigSeqAppend(l1 + s1 + n1 + x1, c1);
    SigSeqAppend(l2, s2);
    SigSeqAppend(l2 + s2, n2);
    SigSeqAppend(l2 + s2 + n2, x2);
    SigSeqAppend(l2 + s2 + n2 + x2, c2);
  }

  /**
   * Re-evaluating the same snapshot after storing the pass's output raises
   * nothing, whatever identifiers and clocks the second pass draws.
   */
  lemma RerunRaisesNothing(inventory: seq<InventoryRow>, movements: seq<Movement>, meds: seq<MedicationRow>,
                           now: int, existing: seq<ExistingEvent>, th: Thresholds, st1: Stamper, st2: Stamper)
    ensures var out := NewEvents(inventory, movements, meds, now, existing, th, st1);
      NewEvents(inventory, movements, meds, now, existing + StoredAll(out), th, st2) == []
  {
    var active := ActiveSignatures(existing);
    var c1 := Candidates(inventory, movements, meds, now, th, st1);
    var c2 := Candidates(inventory, movements, meds, now, th, st2);
    var out := Dedup(active, c1);
    CandidatesAreActive(inventory, movements, meds, now, th, st1);
    DedupSubset(active, c1);
    StoredSignatures(out);
    ActiveSignaturesAppend(existing, StoredAll(out));
    DedupSignatures(active, c1);
    CandidateSigsIgnoreStamps(inventory, movements, meds, now, th, st1, st2);
    SigsOfFromSigSeq(c1, c2);
    DedupAllSuppressed(ActiveSignatures(existing + StoredAll(out)), c2);
  }

  /** Two passes over the same snapshot and index return the same signatures in the same order, whatever identifiers they draw. */
  lemma RerunSameSignatures(inventory: seq<InventoryRow>, movements: seq<Movement>, meds: seq<MedicationRow>,
                            now: int, existing: seq<ExistingEvent>, th: Thresholds, st1: Stamper, st2: Stamper)
    ensures SigSeq(NewEvents(inventory, movements, meds, now, existing, th, st1))
         == SigSeq(NewEvents(inventory, movements, meds, now, existing, th, st2))
  {
    CandidateSigsIgnoreStamps(inventory, movements, meds, now, th, st1, st2);
    DedupSameSigs(ActiveSignatures(existing),
      Candidates(inventory, movements, meds, now, th, st1), Candidates(inventory, movements, meds, now, th, st2));
  }

  /** The candidates of a one-row snapshot with no movements, for a row that is low on stock and has no parseable expiry. */
  lemma LowStockOnlyCandidates(row: InventoryRow, now: int, th: Thresholds, stamper: Stamper)
    requires row.quantity == 5 && row.reorderPoint == 10 && row.expiry.None?
    ensures Candidates([row], [], [], now, th, stamper) == [LowStockFor(row, now, stamper(LowStock, 0)).value]
  {
    var inv := [row];
    assert inv[..0] == [];
    var low := LowStockFor(row, now, stamper(LowStock, 0));
    assert LowStockEvents(inv, now, stamper) == [low.value];
    assert StockoutRule(now, stamper)(0, row) == StockoutFor(row, now, stamper(Stockout, 0)) == None;
    assert StockoutEvents(inv, now, stamper) == [];
    assert NearExpiryRule(now, th, stamper)(0, row) == NearExpiryFor(row, now, th, stamper(NearExpiry, 0)) == None;
    assert NearExpiryEvents(inv, now, th, stamper) == [];
    assert ExpiredRule(now, stamper)(0, row) == ExpiredFor(row, now, stamper(ExpiredInStock, 0)) == None;
    assert ExpiredEvents(inv, now, stamper) == [];
    assert RapidConsumptionEvents([], [], now, th, stamper) == [];
  }

  /**
   * A row with 5 units against a reorder point of 10 (and an unparseable
   * expiry) raises one MEDIUM low-stock event; an active existing event with
   * its signature suppresses it, an inactive one does not.
   */
  lemma SuppressionScenario(row: InventoryRow, now: int, th: Thresholds, stamper: Stamper, flag: Option<bool>)
    requires row.quantity == 5 && row.reorderPoint == 10 && row.expiry.None?
    ensures var x := ExistingEvent(LowStock, row.facilityId, row.medId, Some(row.batchId), flag);
      var out := NewEvents([row], [], [], now, [x], th, stamper);
      && (flag == Some(false) ==>
            (&& |out| == 1 && out[0].Sig() == x.Sig() && out[0].severity == Medium
             && out[0].data == map["quantity" := IntDatum(5), "reorder_point" := IntDatum(10)]))
      && (flag != Some(false) ==> out == [])
  {
    LowStockOnlyCandidates(row, now, th, stamper);
    var low := LowStockFor(row, now, stamper(LowStock, 0)).value;
    var x := ExistingEvent(LowStock, row.facilityId, row.medId, Some(row.batchId), flag);
    assert [x][..0] == [];
    assert ActiveSignatures([x]) == if x.IsActive() then {x.Sig()} else {};
    assert low.Sig() == x.Sig();
    var c := [low];
    assert c[..0] == [];
    assert SigsOf([]) == {};
    assert Dedup(ActiveSignatures([x]), c) == if x.IsActive() then [] else [low];
  }
}
