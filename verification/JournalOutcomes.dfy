/** Every logged version of a dispatch is justified by the observation logged with it, in every run. */
module JournalOutcomes {
  import opened Outcomes
  import opened Clocks
  import opened Requests
  import opened Decisions
  import opened Dispatches
  import opened Transitions
  import opened TransitionFacts
  import opened DispatchOutcomes
  import opened JournalTables
  import opened JournalSpec
  import opened JournalCapacity
  import opened JournalSteps
  import opened JournalLog
  import opened JournalSafety
  import opened JournalRuns
  import opened JournalChanges

  // ---- the claim ----

  /** Version `v` follows from version `v - 1` by this observation, made at the clock logged with it. */
  ghost predicate Explains(h: seq<Dispatch>, c: seq<Clock>, dispatches: Dispatched, v: nat, o: Observation) {
    && 0 < v < |h| && v < |c| && o.now == Some(c[v])
    && exists child :: JustifiedAt(dispatches, h, v, o, child)
  }

  ghost predicate JustifiedAt(
    dispatches: Dispatched, h: seq<Dispatch>, v: nat, o: Observation, child: Option<Dispatch>)
    requires 0 < v < |h|
  {
    JustifiedBy(dispatches, h[v - 1], h[v], o, child)
  }

  ghost predicate ExplainsVersion(db: Database, k: DispatchKey, v: nat, o: Observation) {
    Explains(DispatchHistory(db.events, k), ClockHistory(db.events, k), db.dispatches, v, o)
  }

  ghost predicate Seen(events: seq<Event>, k: DispatchKey, v: nat, o: Observation) {
    ObservationEvent(DispatchRow(k), v, o) in events
  }

  ghost predicate Witnessed(events: seq<Event>, k: DispatchKey, v: nat) {
    exists o :: Seen(events, k, v, o)
  }

  ghost predicate Explained(db: Database) {
    && (forall k, v, o :: Seen(db.events, k, v, o) ==> ExplainsVersion(db, k, v, o))
    && (forall k, v: nat :: k in db.dispatches && 0 < v <= db.dispatches[k].version ==> Witnessed(db.events, k, v))
  }

  // ---- transactions that log no dispatch ----

  lemma SeenGrew(db: Database, d: Delta, after: Database, k: DispatchKey, v: nat, o: Observation)
    requires Grew(db, d, after) && RowShape(d.rows)
    ensures Seen(db.events, k, v, o) ==> Seen(after.events, k, v, o)
    ensures Seen(after.events, k, v, o) ==>
              Seen(db.events, k, v, o) || ObservationEvent(DispatchRow(k), v, o) in d.before + d.behind
  {
    var e := ObservationEvent(DispatchRow(k), v, o);
    assert e !in d.rows;
    assert e in after.events <==> e in db.events || e in d.before || e in d.rows || e in d.behind;
  }

  lemma SameHistory(db: Database, d: Delta, after: Database, k: DispatchKey)
    requires Grew(db, d, after) && RowShape(d.rows)
    requires |d.rows| == 2 ==> !d.rows[1].record.DispatchRow?
    requires |d.rows| > 0 ==> !d.rows[0].DispatchEvent?
    ensures DispatchHistory(after.events, k) == DispatchHistory(db.events, k)
    ensures ClockHistory(after.events, k) == ClockHistory(db.events, k)
  {
    ReadGrown(db, d, after, DispatchRow(k), k);
  }

  lemma ExplainedUntouched(db: Database, d: Delta, after: Database, record: Option<RecordKey>)
    requires Explained(db) && Grew(db, d, after) && RowShape(d.rows) && after.dispatches == db.dispatches
    requires Watches(d, record) && (record.Some? ==> !record.value.DispatchRow?)
    requires |d.rows| == 2 ==> !d.rows[1].record.DispatchRow?
    requires |d.rows| > 0 ==> !d.rows[0].DispatchEvent?
    ensures Explained(after)
  {
    forall k, v, o | Seen(after.events, k, v, o) ensures ExplainsVersion(after, k, v, o) {
      SeenGrew(db, d, after, k, v, o);
      assert ExplainsVersion(db, k, v, o);
      SameHistory(db, d, after, k);
    }
    forall k, v: nat | k in after.dispatches && 0 < v <= after.dispatches[k].version
      ensures Witnessed(after.events, k, v)
    {
      WitnessStays(db, d, after, k, v);
    }
  }

  lemma WitnessStays(db: Database, d: Delta, after: Database, k: DispatchKey, v: nat)
    requires Explained(db) && Grew(db, d, after) && RowShape(d.rows)
    requires k in db.dispatches && 0 < v <= db.dispatches[k].version
    ensures Witnessed(after.events, k, v)
  {
    assert Witnessed(db.events, k, v);
    var o :| Seen(db.events, k, v, o);
    SeenGrew(db, d, after, k, v, o);
  }

  // ---- transactions that log one ----

  /** A settled row stays when an unsettled or new row is written. */
  lemma SettledRowStays(dispatches: Dispatched, k: DispatchKey, x: Dispatch, c: Dispatch)
    requires SettledRow(dispatches, c) && (k in dispatches ==> !dispatches[k].settled)
    ensures SettledRow(dispatches[k := x], c)
  {
  }

  lemma ExplainsLater(
    h: seq<Dispatch>, c: seq<Clock>, dispatches: Dispatched, v: nat, o: Observation, k: DispatchKey, x: Dispatch,
    hs: seq<Dispatch>, cs: seq<Clock>)
    requires Explains(h, c, dispatches, v, o) && (k in dispatches ==> !dispatches[k].settled)
    ensures Explains(h + hs, c + cs, dispatches[k := x], v, o)
  {
    var child :| JustifiedAt(dispatches, h, v, o, child);
    if child.Some? {
      SettledRowStays(dispatches, k, x, child.value);
    }
    assert (h + hs)[v - 1] == h[v - 1] && (h + hs)[v] == h[v];
    assert JustifiedAt(dispatches[k := x], h + hs, v, o, child);
  }

  /** Observations logged before a dispatch row was written still explain their versions. */
  lemma EarlierExplains(
    db: Database, d: Delta, after: Database, k: DispatchKey, x: Dispatch, sampled: Clock, j: DispatchKey, v: nat,
    o: Observation)
    requires Grew(db, d, after) && after.dispatches == db.dispatches[k := x]
    requires d.rows == [DispatchEvent(k, x.version, x), ClockEvent(DispatchRow(k), x.version, sampled)]
    requires ExplainsVersion(db, j, v, o) && (k in db.dispatches ==> !db.dispatches[k].settled)
    ensures ExplainsVersion(after, j, v, o)
  {
    ReadGrown(db, d, after, DispatchRow(j), j);
    var h, c := DispatchHistory(db.events, j), ClockHistory(db.events, j);
    var hs, cs := if j == k then [x] else [], if j == k then [sampled] else [];
    ExplainsLater(h, c, db.dispatches, v, o, k, x, hs, cs);
    assert DispatchHistory(after.events, j) == h + hs && ClockHistory(after.events, j) == c + cs;
  }

  lemma ExplainedInserted(db: Database, d: Delta, after: Database, x: Dispatch, sampled: Clock)
    requires RowidsStored(db) && Explained(db) && AddsDispatch(db, d, after, x, sampled)
    ensures Explained(after)
  {
    forall k, v, o | Seen(after.events, k, v, o) ensures ExplainsVersion(after, k, v, o) {
      SeenGrew(db, d, after, k, v, o);
      assert ExplainsVersion(db, k, v, o);
      EarlierExplains(db, d, after, KeyOf(x), x, sampled, k, v, o);
    }
    forall k, v: nat | k in after.dispatches && 0 < v <= after.dispatches[k].version
      ensures Witnessed(after.events, k, v)
    {
      WitnessStays(db, d, after, k, v);
    }
  }

  /** The step just logged: the row before, the row after, and the observation between them. */
  ghost predicate StepLogged(
    db: Database, d: Delta, after: Database, k: DispatchKey, x: Dispatch, sampled: Clock, o: Observation) {
    && Grew(db, d, after) && Observes(d, DispatchRow(k), x.version, o)
    && k in db.dispatches && !db.dispatches[k].settled && x.version == db.dispatches[k].version + 1
    && after.dispatches == db.dispatches[k := x]
    && d.rows == [DispatchEvent(k, x.version, x), ClockEvent(DispatchRow(k), x.version, sampled)]
    && o.now == Some(sampled) && o.dispatchOperation.Some?
  }

  lemma LatestExplains(
    db: Database, d: Delta, after: Database, k: DispatchKey, x: Dispatch, sampled: Clock, o: Observation,
    child: Option<Dispatch>)
    requires HistoryOf(db, k) && StepLogged(db, d, after, k, x, sampled, o)
    requires JustifiedBy(db.dispatches, db.dispatches[k], x, o, child)
    ensures ExplainsVersion(after, k, x.version, o)
  {
    ReadGrown(db, d, after, DispatchRow(k), k);
    var h, c := DispatchHistory(db.events, k), ClockHistory(db.events, k);
    assert |h| == x.version && |c| == |h|;
    if child.Some? {
      SettledRowStays(db.dispatches, k, x, child.value);
    }
    assert JustifiedAt(after.dispatches, h + [x], x.version, o, child);
  }

  lemma StepSeen(
    db: Database, d: Delta, after: Database, k: DispatchKey, x: Dispatch, sampled: Clock, o: Observation)
    requires StepLogged(db, d, after, k, x, sampled, o)
    ensures Seen(after.events, k, x.version, o)
    ensures forall j, v, p :: Seen(after.events, j, v, p) ==>
                                Seen(db.events, j, v, p) || (j == k && v == x.version && p == o)
  {
    assert o.(now := None) != EMPTY_OBSERVATION;
    assert ObservationEvent(DispatchRow(k), x.version, o) in after.events;
    forall j, v, p | Seen(after.events, j, v, p)
      ensures Seen(db.events, j, v, p) || (j == k && v == x.version && p == o)
    {
      SeenGrew(db, d, after, j, v, p);
    }
  }

  lemma ExplainedStepped(
    db: Database, d: Delta, after: Database, k: DispatchKey, x: Dispatch, sampled: Clock, o: Observation,
    child: Option<Dispatch>)
    requires Explained(db) && HistoryOf(db, k) && StepLogged(db, d, after, k, x, sampled, o)
    requires JustifiedBy(db.dispatches, db.dispatches[k], x, o, child)
    ensures Explained(after)
  {
    StepSeen(db, d, after, k, x, sampled, o);
    LatestExplains(db, d, after, k, x, sampled, o, child);
    forall j, v, p | Seen(after.events, j, v, p) ensures ExplainsVersion(after, j, v, p) {
      if Seen(db.events, j, v, p) {
        assert ExplainsVersion(db, j, v, p);
        EarlierExplains(db, d, after, k, x, sampled, j, v, p);
      }
    }
    forall j, v: nat | j in after.dispatches && 0 < v <= after.dispatches[j].version
      ensures Witnessed(after.events, j, v)
    {
      if j == k && v == x.version {
        assert Seen(after.events, k, v, o);
      } else {
        WitnessStays(db, d, after, j, v);
      }
    }
  }

  // ---- every step of a run ----

  lemma ExplainedMoved(
    db: Database, d: Delta, after: Database, k: DispatchKey, x: Dispatch, o: Observation, child: Option<Dispatch>,
    at: Clock)
    requires RowidsStored(db) && HistoriesLawful(db) && Explained(db) && MovesDispatch(db, d, after, k, x, o, child, at)
    ensures Explained(after)
  {
    assert HistoryOf(db, k);
    ExplainedStepped(db, d, after, k, x, at, o, child);
  }

  lemma ChangeExplained(db: Database, d: Delta, after: Database, change: Change)
    requires RowidsStored(db) && HistoriesLawful(db) && Explained(db) && Made(db, d, after, change).Pass?
    ensures Explained(after)
  {
    match change
    case Unchanged =>
    case NothingStored => ExplainedUntouched(db, d, after, None);
    case RequestAdded(v) => ExplainedUntouched(db, d, after, None);
    case RequestMoved(k, v, final, o, at) => ExplainedUntouched(db, d, after, Some(RequestRow(k)));
    case DecisionWritten(v, w) => ExplainedUntouched(db, d, after, None);
    case DecisionMoved(a, v, q, o, at) => ExplainedUntouched(db, d, after, Some(DecisionRow(a)));
    case DispatchAdded(x, at) => ExplainedInserted(db, d, after, x, at);
    case DispatchMoved(k, x, o, child, at) => ExplainedMoved(db, d, after, k, x, o, child, at);
  }

  // ---- what an explained step says ----

  lemma ExplainingChild(db: Database, k: DispatchKey, v: nat, o: Observation) returns (child: Option<Dispatch>)
    requires ExplainsVersion(db, k, v, o)
    ensures var h, c := DispatchHistory(db.events, k), ClockHistory(db.events, k);
            && 0 < v < |h| && v < |c| && o.now == Some(c[v])
            && JustifiedBy(db.dispatches, h[v - 1], h[v], o, child)
  {
    child :| JustifiedAt(db.dispatches, DispatchHistory(db.events, k), v, o, child);
  }

  /** Settled by an operator: succeeded exactly when attested so, failed exactly when attested absent. */
  ghost predicate ByOperator(d: Dispatch, o: Observation) {
    && o.dispatchOperation == Some(OpSettle) && o.dispatchRecovery.Some?
    && var r := o.dispatchRecovery.value;
    && (d.state == Succeeded <==> r.effectAttestedSucceeded) && (d.state == Failed <==> r.effectDefinitivelyAbsent)
    && d.evidence == Some(r.evidence) && d.recoveryOperatorEvent == Some(r.operatorEvent)
    && r.attemptId == d.attemptId && r.expectedVersion + 1 == d.version && r.authenticatedCurrent && r.cleanupProven
  }

  /** Settled by its worker's report of success, proved, under the claim it consumed. */
  ghost predicate ByWorker(d: Dispatch, o: Observation) {
    && o.dispatchOperation == Some(OpReport) && o.dispatchReadback.Some?
    && var r := o.dispatchReadback.value;
    && d.state == Succeeded && r.effect == EffectSucceeded && r.cleanupProven && r.evidence.Some?
    && d.evidence == r.evidence && r.attemptId == d.attemptId && d.claimConsumed && d.claimHash == Some(r.claimHash)
  }

  /** Settled by a reconciliation child that found the effect of the consumed claim, proved. */
  ghost predicate ByReading(dispatches: Dispatched, d: Dispatch, o: Observation, child: Option<Dispatch>) {
    && o.dispatchOperation == Some(OpLookup) && child.Some? && SettledRow(dispatches, child.value)
    && var c := child.value;
    && d.state == Succeeded && c.reconciliationEffect == Some(EffectSucceeded) && c.reconciliationCleanupProven
    && c.evidence.Some? && d.evidence == c.evidence && c.parentAttemptId == Some(d.attemptId) && d.claimConsumed
  }

  lemma SettlesBy(dispatches: Dispatched, d: Dispatch, e: Dispatch, o: Observation, child: Option<Dispatch>)
    requires JustifiedBy(dispatches, d, e, o, child) && !d.settled && e.settled && e.kind == Initial
    ensures ByOperator(e, o) || ByWorker(e, o) || ByReading(dispatches, e, o, child)
    ensures e.state == Failed ==> ByOperator(e, o)
  {
  }
}
