/**
 * The event record every detector produces, the factory that builds it, the
 * thresholds the detectors read, and the scan that turns a per-row rule into
 * a detector's list of candidate events.
 */
module EventModel {
  import opened Wrappers

  /** The four severities, in the order their numeric levels give them. */
  datatype Severity = Info | Medium | High | Critical {

    /** The numeric level of the severity table. */
    function Level(): (r: int)
      ensures 1 <= r <= 4
      ensures r == 4 <==> this == Critical
    {
      match this
      case Info => 1
      case Medium => 2
      case High => 3
      case Critical => 4
    }
  }

  /** The severity table is a strict scale: INFO < MEDIUM < HIGH < CRITICAL. */
  lemma SeverityScale()
    ensures Info.Level() < Medium.Level() < High.Level() < Critical.Level()
    ensures forall s: Severity, t: Severity :: s.Level() == t.Level() ==> s == t
  {
  }

  /** The five event types, in detector order. */
  datatype EventType = LowStock | Stockout | NearExpiry | ExpiredInStock | RapidConsumption

  /** A value of an event's evidence payload: a count, or a demand figure. */
  datatype Datum = IntDatum(i: int) | RealDatum(r: real)

  type Evidence = map<string, Datum>

  /** The identity deduplication works on. The batch is absent for aggregate events. */
  datatype Signature = Signature(eventType: EventType, facilityId: string, medId: string, batchId: Option<string>)

  /**
   * What the factory draws from its environment for one event: the random
   * part of the identifier and the wall-clock instant of detection.
   */
  datatype Stamp = Stamp(token: string, detectedAt: int)

  /** Supplies the stamp for the event a detector of the given type raises for its k-th input. */
  type Stamper = (EventType, nat) -> Stamp

  datatype Event = Event(
    eventId: string,
    eventType: EventType,
    severity: Severity,
    facilityId: string,
    medId: string,
    batchId: Option<string>,
    timestamp: int,
    detectedAt: int,
    data: Evidence,
    source: string,
    isActive: bool)
  {
    function Sig(): Signature {
      Signature(eventType, facilityId, medId, batchId)
    }
  }

  const EventIdPrefix := "EVT_"
  const SimulationSource := "SIMULATION"

  /**
   * The event factory. Every event starts active, tagged as a simulation
   * event, with the caller's classification passed through and an empty
   * evidence payload when none is given.
   */
  function CreateEvent(
    eventType: EventType, severity: Severity, facilityId: string, medId: string,
    batchId: Option<string>, timestamp: int, data: Option<Evidence>, stamp: Stamp): (e: Event)
    ensures e.isActive && e.source == "SIMULATION"
    ensures e.Sig() == Signature(eventType, facilityId, medId, batchId)
    ensures e.severity == severity && e.timestamp == timestamp
    ensures data.Some? ==> e.data == data.value
    ensures data.None? ==> e.data == map[]
    ensures e.eventId == "EVT_" + stamp.token && e.detectedAt == stamp.detectedAt
  {
    Event(EventIdPrefix + stamp.token, eventType, severity, facilityId, medId, batchId,
          timestamp, stamp.detectedAt, data.GetOr(map[]), SimulationSource, true)
  }

  /** The tunable thresholds of the detectors. */
  datatype Thresholds = Thresholds(
    nearExpiryDays: int,
    urgentExpiryDays: int,
    windowHours: int,
    multiplier: real)

  const DefaultThresholds := Thresholds(30, 14, 24, 2.0)

  /** A detector's rule: the event (if any) it raises for its k-th input. */
  type Rule<-T> = (nat, T) -> Option<Event>

  function Emitted(o: Option<Event>): seq<Event> {
    match o
    case Some(e) => [e]
    case None => []
  }

  /** The events a rule raises over its inputs, in input order. */
  function Collect<T>(xs: seq<T>, rule: Rule<T>): (r: seq<Event>)
    ensures |r| <= |xs|
    decreases |xs|
  {
    if xs == [] then []
    else
      var n := |xs| - 1;
      Collect(xs[..n], rule) + Emitted(rule(n, xs[n]))
  }

  /** One more input extends the scan by what its rule raises. */
  lemma CollectStep<T>(xs: seq<T>, i: nat, rule: Rule<T>)
    requires i < |xs|
    ensures Collect(xs[..i + 1], rule) == Collect(xs[..i], rule) + Emitted(rule(i, xs[i]))
  {
    assert xs[..i + 1][..i] == xs[..i];
  }

  /** The detector loop: visit each input once and append what its rule raises. */
  method RunRule<T>(xs: seq<T>, rule: Rule<T>) returns (events: seq<Event>)
    ensures events == Collect(xs, rule)
  {
    events := [];
    var i := 0;
    while i < |xs|
      invariant 0 <= i <= |xs|
      invariant events == Collect(xs[..i], rule)
    {
      assert xs[..i + 1][..i] == xs[..i];
      var candidate := rule(i, xs[i]);
      if candidate.Some? {
        events := events + [candidate.value];
      }
      i := i + 1;
    }
    assert xs[..i] == xs;
  }

  /** The positions of the inputs the rule fires on, in input order. */
  function Firing<T>(xs: seq<T>, rule: Rule<T>): (idx: seq<nat>)
    ensures |idx| == |Collect(xs, rule)|
    ensures forall k :: 0 <= k < |idx| ==> idx[k] < |xs|
    decreases |xs|
  {
    if xs == [] then []
    else
      var n := |xs| - 1;
      Firing(xs[..n], rule) + (if rule(n, xs[n]).Some? then [n] else [])
  }

  lemma {:induction false} FiringIncreasing<T>(xs: seq<T>, rule: Rule<T>)
    ensures forall k, l :: 0 <= k < l < |Firing(xs, rule)| ==> Firing(xs, rule)[k] < Firing(xs, rule)[l]
    decreases |xs|
  {
    if xs != [] {
      var n := |xs| - 1;
      FiringIncreasing(xs[..n], rule);
      var before := Firing(xs[..n], rule);
      assert Firing(xs, rule) == before + (if rule(n, xs[n]).Some? then [n] else []);
      assert forall k :: 0 <= k < |before| ==> before[k] < n;
    }
  }

  lemma {:induction false} FiringExactly<T>(xs: seq<T>, rule: Rule<T>, i: nat)
    requires i < |xs|
    ensures i in Firing(xs, rule) <==> rule(i, xs[i]).Some?
    decreases |xs|
  {
    var n := |xs| - 1;
    var prefix := xs[..n];
    if i < n {
      FiringExactly(prefix, rule, i);
      assert prefix[i] == xs[i];
    }
  }

  lemma {:induction false} FiringYields<T>(xs: seq<T>, rule: Rule<T>, k: nat)
    requires k < |Firing(xs, rule)|
    ensures rule(Firing(xs, rule)[k], xs[Firing(xs, rule)[k]]) == Some(Collect(xs, rule)[k])
    decreases |xs|
  {
    var n := |xs| - 1;
    var prefix := xs[..n];
    var before := Firing(prefix, rule);
    if k < |before| {
      FiringYields(prefix, rule, k);
      assert prefix[before[k]] == xs[before[k]];
      assert Firing(xs, rule)[k] == before[k];
      assert Collect(xs, rule)[k] == Collect(prefix, rule)[k];
    }
  }

  /**
   * Exactly one event per input whose rule fires, none for the others, in
   * input order: the k-th event comes from input idx[k], the indices
   * increase, and the indices are exactly the firing inputs.
   */
  lemma CollectOrigins<T>(xs: seq<T>, rule: Rule<T>) returns (idx: seq<nat>)
    ensures |idx| == |Collect(xs, rule)|
    ensures forall k :: 0 <= k < |idx| ==> idx[k] < |xs| && rule(idx[k], xs[idx[k]]) == Some(Collect(xs, rule)[k])
    ensures forall k, l :: 0 <= k < l < |idx| ==> idx[k] < idx[l]
    ensures forall i :: 0 <= i < |xs| ==> (i in idx <==> rule(i, xs[i]).Some?)
  {
    idx := Firing(xs, rule);
    FiringIncreasing(xs, rule);
    forall k | 0 <= k < |idx| ensures rule(idx[k], xs[idx[k]]) == Some(Collect(xs, rule)[k]) {
      FiringYields(xs, rule, k);
    }
    forall i | 0 <= i < |xs| ensures i in idx <==> rule(i, xs[i]).Some? {
      FiringExactly(xs, rule, i);
    }
  }

  /** An event is raised exactly when the rule yields it for some input. */
  lemma CollectMember<T>(xs: seq<T>, rule: Rule<T>, e: Event)
    ensures e in Collect(xs, rule) <==> exists i :: 0 <= i < |xs| && rule(i, xs[i]) == Some(e)
  {
    var events := Collect(xs, rule);
    var idx := CollectOrigins(xs, rule);
    if e in events {
      var k :| 0 <= k < |events| && events[k] == e;
      assert rule(idx[k], xs[idx[k]]) == Some(e);
    }
    if i :| 0 <= i < |xs| && rule(i, xs[i]) == Some(e) {
      var k :| 0 <= k < |idx| && idx[k] == i;
      assert events[k] == e;
    }
  }

  /** The signatures of a list of events, position by position. */
  function SigSeq(es: seq<Event>): seq<Signature> {
    seq(|es|, k requires 0 <= k < |es| => es[k].Sig())
  }

  /** No two events of the list share a signature. */
  predicate SigsDistinct(es: seq<Event>) {
    forall a, b :: 0 <= a < b < |es| ==> es[a].Sig() != es[b].Sig()
  }

  function OptSig(o: Option<Event>): Option<Signature> {
    match o
    case Some(e) => Some(e.Sig())
    case None => None
  }

  /**
   * Two rules that fire on the same inputs with the same signatures raise
   * lists with the same signatures, whatever identifiers and clocks they use.
   */
  lemma {:induction false} CollectSigsAgree<T>(xs: seq<T>, r1: Rule<T>, r2: Rule<T>)
    requires forall i :: 0 <= i < |xs| ==> OptSig(r1(i, xs[i])) == OptSig(r2(i, xs[i]))
    ensures SigSeq(Collect(xs, r1)) == SigSeq(Collect(xs, r2))
    decreases |xs|
  {
    if xs != [] {
      var n := |xs| - 1;
      var prefix := xs[..n];
      assert forall i :: 0 <= i < n ==> prefix[i] == xs[i];
      CollectSigsAgree(prefix, r1, r2);
      assert OptSig(r1(n, xs[n])) == OptSig(r2(n, xs[n]));
      SigSeqAppend(Collect(prefix, r1), Emitted(r1(n, xs[n])));
      SigSeqAppend(Collect(prefix, r2), Emitted(r2(n, xs[n])));
    }
  }

  lemma SigSeqAppend(a: seq<Event>, b: seq<Event>)
    ensures SigSeq(a + b) == SigSeq(a) + SigSeq(b)
  {
  }
}
