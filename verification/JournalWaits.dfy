/** The waits between lookups and between reconciliation children, read from the log of any run. */
module JournalWaits {
  import opened Outcomes
  import opened Clocks
  import opened Requests
  import opened Decisions
  import opened Dispatches
  import opened Transitions
  import opened TransitionFacts
  import opened DispatchOutcomes
  import opened JournalTables
  import opened JournalSpec
  import opened JournalCapacity
  import opened JournalSteps
  import opened JournalLog
  import opened JournalSafety
  import opened JournalRuns
  import opened JournalChanges
  import opened JournalOutcomes

  /** One, five and thirty seconds, in nanoseconds. */
  function Wait(n: nat): int {
    if n == 0 then 1_000_000_000 else if n == 1 then 5_000_000_000 else 30_000_000_000
  }

  // ---- the clocks and lookup counts the journal reads back ----

  function At(c: seq<Clock>, v: nat): Option<Clock> {
    if v < |c| then Some(c[v]) else None
  }

  /** The first version with this many lookups. */
  function FirstIn(h: seq<Dispatch>, n: nat): Option<nat> {
    if h == [] then None
    else
      var earlier := FirstIn(h[..|h| - 1], n);
      if earlier.Some? then earlier
      else if h[|h| - 1].reconciliationLookups == n then Some(|h| - 1)
      else None
  }

  ghost predicate ClocksFound(events: seq<Event>, k: DispatchKey) {
    forall v: nat :: FindClock(events, DispatchRow(k), v) == At(ClockHistory(events, k), v)
  }

  ghost predicate LookupsFound(events: seq<Event>, k: DispatchKey) {
    forall n: nat :: FirstWithLookups(events, k, n) == FirstIn(DispatchHistory(events, k), n)
  }

  /** What the journal finds in its log is what the dispatch's history holds. */
  ghost predicate Timed(events: seq<Event>) {
    forall k :: ClocksFound(events, k) && LookupsFound(events, k)
  }

  lemma FindAppend(events: seq<Event>, e: Event, k: DispatchKey, v: nat, n: nat)
    ensures FindClock(events + [e], DispatchRow(k), v) ==
            if e.ClockEvent? && e.record == DispatchRow(k) && e.version == v then Some(e.clock)
            else FindClock(events, DispatchRow(k), v)
    ensures FirstWithLookups(events + [e], k, n) ==
            if FirstWithLookups(events, k, n).Some? then FirstWithLookups(events, k, n)
            else if e.DispatchEvent? && e.dispatchKey == k && e.dispatch.reconciliationLookups == n then Some(e.version)
            else None
  {
    assert (events + [e])[..|events|] == events;
  }

  predicate Silent(e: Event) {
    !e.DispatchEvent? && !(e.ClockEvent? && e.record.DispatchRow?)
  }

  lemma FirstGrows(h: seq<Dispatch>, x: Dispatch, n: nat)
    ensures FirstIn(h + [x], n) == if FirstIn(h, n).Some? then FirstIn(h, n)
                                   else if x.reconciliationLookups == n then Some(|h|) else None
  {
    assert (h + [x])[..|h|] == h;
  }

  /** A clock logged at the next place of its history is found there. */
  lemma ClockAppend(events: seq<Event>, e: Event, k: DispatchKey)
    requires ClocksFound(events, k)
    requires e.ClockEvent? && e.record == DispatchRow(k) ==> e.version == |ClockHistory(events, k)|
    ensures ClocksFound(events + [e], k)
  {
    ReadAppend(events, e, DispatchRow(k), k);
    forall v: nat ensures FindClock(events + [e], DispatchRow(k), v) == At(ClockHistory(events + [e], k), v) {
      FindAppend(events, e, k, v, 0);
      assert FindClock(events, DispatchRow(k), v) == At(ClockHistory(events, k), v);
    }
  }

  lemma LookupAppend(events: seq<Event>, e: Event, k: DispatchKey)
    requires LookupsFound(events, k)
    requires e.DispatchEvent? && e.dispatchKey == k ==> e.version == |DispatchHistory(events, k)|
    ensures LookupsFound(events + [e], k)
  {
    var h := DispatchHistory(events, k);
    ReadAppend(events, e, DispatchRow(k), k);
    forall n: nat ensures FirstWithLookups(events + [e], k, n) == FirstIn(DispatchHistory(events + [e], k), n) {
      FindAppend(events, e, k, 0, n);
      assert FirstWithLookups(events, k, n) == FirstIn(h, n);
      if e.DispatchEvent? && e.dispatchKey == k {
        FirstGrows(h, e.dispatch, n);
      } else {
        assert h + [] == h;
      }
    }
  }

  lemma TimedAppend(events: seq<Event>, e: Event)
    requires Timed(events)
    requires e.DispatchEvent? ==> e.version == |DispatchHistory(events, e.dispatchKey)|
    requires e.ClockEvent? && e.record.DispatchRow? ==> e.version == |ClockHistory(events, e.record.dispatch)|
    ensures Timed(events + [e])
  {
    forall k ensures ClocksFound(events + [e], k) && LookupsFound(events + [e], k) {
      assert ClocksFound(events, k) && LookupsFound(events, k);
      ClockAppend(events, e, k);
      LookupAppend(events, e, k);
    }
  }

  lemma {:induction false} SilentAll(events: seq<Event>, es: seq<Event>)
    requires Timed(events) && forall e :: e in es ==> Silent(e)
    ensures Timed(events + es)
    decreases |es|
  {
    if es == [] {
      assert events + es == events;
    } else {
      SilentAll(events, es[..|es| - 1]);
      assert Silent(es[|es| - 1]);
      TimedAppend(events + es[..|es| - 1], es[|es| - 1]);
      assert events + es == events + es[..|es| - 1] + [es[|es| - 1]];
    }
  }

  /** A dispatch version and its clock, logged at the next place of its history. */
  lemma VersionLogged(events: seq<Event>, k: DispatchKey, x: Dispatch, at: Clock)
    requires Timed(events) && |DispatchHistory(events, k)| == |ClockHistory(events, k)| == x.version
    ensures Timed(events + [DispatchEvent(k, x.version, x)] + [ClockEvent(DispatchRow(k), x.version, at)])
  {
    var row := DispatchEvent(k, x.version, x);
    TimedAppend(events, row);
    ReadAppend(events, row, DispatchRow(k), k);
    TimedAppend(events + [row], ClockEvent(DispatchRow(k), x.version, at));
  }

  lemma TimedGrown(db: Database, d: Delta, after: Database)
    requires Timed(db.events) && Grew(db, d, after) && Timed(db.events + d.before + d.rows)
    ensures Timed(after.events)
  {
    SilentAll(db.events + d.before + d.rows, d.behind);
  }

  lemma TimedUntouched(db: Database, d: Delta, after: Database)
    requires Timed(db.events) && Grew(db, d, after) && RowShape(d.rows)
    requires |d.rows| == 2 ==> !d.rows[1].record.DispatchRow?
    requires |d.rows| > 0 ==> !d.rows[0].DispatchEvent?
    ensures Timed(after.events)
  {
    SilentAll(db.events, d.before);
    SilentAll(db.events + d.before, d.rows);
    TimedGrown(db, d, after);
  }

  lemma TimedLogged(db: Database, d: Delta, after: Database, k: DispatchKey, x: Dispatch, at: Clock)
    requires Timed(db.events) && Grew(db, d, after) && HistoryOf(db, k)
    requires d.rows == [DispatchEvent(k, x.version, x), ClockEvent(DispatchRow(k), x.version, at)]
    requires x.version == if k in db.dispatches then db.dispatches[k].version + 1 else 0
    ensures Timed(after.events)
  {
    var base := db.events + d.before;
    SilentAll(db.events, d.before);
    ReadAuxiliary(db.events, d.before, DispatchRow(k), k);
    VersionLogged(base, k, x, at);
    assert base + d.rows == base + [d.rows[0]] + [d.rows[1]];
    TimedGrown(db, d, after);
  }

  lemma ChangeTimed(db: Database, d: Delta, after: Database, change: Change)
    requires RowidsStored(db) && HistoriesLawful(db) && Timed(db.events) && Made(db, d, after, change).Pass?
    ensures Timed(after.events)
  {
    match change
    case Unchanged =>
    case DispatchAdded(x, at) =>
      assert HistoryOf(db, KeyOf(x));
      TimedLogged(db, d, after, KeyOf(x), x, at);
    case DispatchMoved(k, x, o, child, at) =>
      assert HistoryOf(db, k);
      TimedLogged(db, d, after, k, x, at);
    case _ => TimedUntouched(db, d, after);
  }

  // ---- lookups ----

  /** Version `j` is the first with `n` lookups: the one the `n`th lookup made, or the very first. */
  ghost predicate CountsFrom(h: seq<Dispatch>, j: nat, n: nat) {
    j < |h| && h[j].reconciliationLookups == n && forall i :: 0 <= i < j ==> h[i].reconciliationLookups != n
  }

  lemma {:induction false} FirstIs(h: seq<Dispatch>, n: nat)
    requires FirstIn(h, n).Some?
    ensures CountsFrom(h, FirstIn(h, n).value, n)
    decreases |h|
  {
    var front := h[..|h| - 1];
    if FirstIn(front, n).Some? {
      FirstIs(front, n);
    } else {
      NoneEarlier(front, n);
      assert forall i :: 0 <= i < |h| - 1 ==> h[i] == front[i];
    }
  }

  lemma {:induction false} NoneEarlier(h: seq<Dispatch>, n: nat)
    requires FirstIn(h, n).None?
    ensures forall i :: 0 <= i < |h| ==> h[i].reconciliationLookups != n
    decreases |h|
  {
    if h != [] {
      var front := h[..|h| - 1];
      NoneEarlier(front, n);
      assert forall i :: 0 <= i < |h| - 1 ==> h[i] == front[i];
    }
  }

  lemma {:induction false} LookupsRise(h: seq<Dispatch>, c: seq<Clock>, i: nat, j: nat)
    requires LawfulHistory(h, c) && i <= j < |h|
    ensures h[i].reconciliationLookups <= h[j].reconciliationLookups
    decreases j
  {
    if i < j {
      LookupsRise(h, c, i, j - 1);
      assert Evolves(h[j - 1], h[j], c[j]);
    }
  }

  /** The clock a lookup waits from is the one logged with the version that last counted a lookup. */
  ghost predicate WaitsFrom(h: seq<Dispatch>, c: seq<Clock>, v: nat, started: Clock, j: nat)
    requires 0 < v < |h|
  {
    j < v && j < |c| && CountsFrom(h, j, h[v - 1].reconciliationLookups) && started == c[j]
  }

  ghost predicate Waited(h: seq<Dispatch>, c: seq<Clock>, v: nat, o: Observation) {
    o.dispatchOperation == Some(OpLookup) ==>
      && 0 < v < |h| && o.reconciliationStarted.Some?
      && exists j :: WaitsFrom(h, c, v, o.reconciliationStarted.value, j)
  }

  ghost predicate WaitedVersion(db: Database, k: DispatchKey, v: nat, o: Observation) {
    Waited(DispatchHistory(db.events, k), ClockHistory(db.events, k), v, o)
  }

  ghost predicate AllWaited(db: Database) {
    forall k, v, o :: Seen(db.events, k, v, o) ==> WaitedVersion(db, k, v, o)
  }

  /** The journal's lookup clock is the one logged with the version that last counted a lookup. */
  lemma LookupClockLogged(db: Database, k: DispatchKey) returns (j: nat)
    requires Timed(db.events) && HistoryOf(db, k) && k in db.dispatches && KeyOf(db.dispatches[k]) == k
    requires DispatchLookupClock(db, db.dispatches[k]).Ok?
    ensures var h, c := DispatchHistory(db.events, k), ClockHistory(db.events, k);
            && CountsFrom(h, j, db.dispatches[k].reconciliationLookups)
            && j < |c| && DispatchLookupClock(db, db.dispatches[k]) == Ok(c[j])
  {
    var h, c, n := DispatchHistory(db.events, k), ClockHistory(db.events, k), db.dispatches[k].reconciliationLookups;
    j := 0;
    if n == 0 {
      LookupsRise(h, c, 0, |h| - 1);
    } else {
      assert LookupsFound(db.events, k);
      assert FirstWithLookups(db.events, k, n) == FirstIn(h, n);
      FirstIs(h, n);
      j := FirstIn(h, n).value;
    }
    assert ClocksFound(db.events, k);
    assert FindClock(db.events, DispatchRow(k), j) == At(c, j);
  }

  lemma WaitsLater(
    h: seq<Dispatch>, c: seq<Clock>, v: nat, o: Observation, hs: seq<Dispatch>, cs: seq<Clock>)
    requires Waited(h, c, v, o)
    ensures Waited(h + hs, c + cs, v, o)
  {
    if o.dispatchOperation == Some(OpLookup) {
      var j :| WaitsFrom(h, c, v, o.reconciliationStarted.value, j);
      assert WaitsFrom(h + hs, c + cs, v, o.reconciliationStarted.value, j);
    }
  }

  lemma WaitedUntouched(db: Database, d: Delta, after: Database, record: Option<RecordKey>)
    requires AllWaited(db) && Grew(db, d, after) && RowShape(d.rows) && Watches(d, record)
    requires record.Some? ==> !record.value.DispatchRow?
    ensures AllWaited(after)
  {
    forall k, v, o | Seen(after.events, k, v, o) ensures WaitedVersion(after, k, v, o) {
      SeenGrew(db, d, after, k, v, o);
      assert WaitedVersion(db, k, v, o);
      GrownWaited(db, d, after, k, v, o);
    }
  }

  lemma GrownWaited(db: Database, d: Delta, after: Database, k: DispatchKey, v: nat, o: Observation)
    requires Grew(db, d, after) && RowShape(d.rows) && WaitedVersion(db, k, v, o)
    ensures WaitedVersion(after, k, v, o)
  {
    var h, c := DispatchHistory(db.events, k), ClockHistory(db.events, k);
    var ours := d.rows != [] && d.rows[0].DispatchEvent? && d.rows[0].dispatchKey == k;
    var hs := if ours then [d.rows[0].dispatch] else [];
    var cs := if |d.rows| == 2 && d.rows[1].record == DispatchRow(k) then [d.rows[1].clock] else [];
    ReadGrown(db, d, after, DispatchRow(k), k);
    WaitsLater(h, c, v, o, hs, cs);
  }

  lemma WaitsNow(h: seq<Dispatch>, c: seq<Clock>, x: Dispatch, at: Clock, o: Observation, j: nat)
    requires h != [] && CountsFrom(h, j, h[|h| - 1].reconciliationLookups) && j < |c|
    requires o.reconciliationStarted == Some(c[j])
    ensures Waited(h + [x], c + [at], |h|, o)
  {
    assert WaitsFrom(h + [x], c + [at], |h|, c[j], j);
  }

  lemma LatestWaited(db: Database, d: Delta, after: Database, k: DispatchKey, x: Dispatch, o: Observation, at: Clock)
    requires RowidsStored(db) && Timed(db.events) && HistoryOf(db, k) && k in db.dispatches
    requires KeyOf(db.dispatches[k]) == k && Grounded(db, db.dispatches[k], o) && Grew(db, d, after)
    requires d.rows == [DispatchEvent(k, x.version, x), ClockEvent(DispatchRow(k), x.version, at)]
    requires x.version == db.dispatches[k].version + 1
    ensures WaitedVersion(after, k, x.version, o)
  {
    var h, c := DispatchHistory(db.events, k), ClockHistory(db.events, k);
    ReadGrown(db, d, after, DispatchRow(k), k);
    if o.dispatchOperation == Some(OpLookup) {
      var j := LookupClockLogged(db, k);
      WaitsNow(h, c, x, at, o, j);
    }
  }

  lemma WaitedMoved(
    db: Database, d: Delta, after: Database, k: DispatchKey, x: Dispatch, o: Observation, child: Option<Dispatch>,
    at: Clock)
    requires RowidsStored(db) && HistoriesLawful(db) && Keyed(db.decisions, db.dispatches, db.rowids)
    requires Timed(db.events) && AllWaited(db) && MovesDispatch(db, d, after, k, x, o, child, at)
    ensures AllWaited(after)
  {
    assert HistoryOf(db, k);
    LatestWaited(db, d, after, k, x, o, at);
    StepSeen(db, d, after, k, x, at, o);
    forall j, v, p | Seen(after.events, j, v, p) ensures WaitedVersion(after, j, v, p) {
      if Seen(db.events, j, v, p) {
        assert WaitedVersion(db, j, v, p);
        GrownWaited(db, d, after, j, v, p);
      }
    }
  }

  lemma ChangeWaited(db: Database, d: Delta, after: Database, change: Change)
    requires RowidsStored(db) && HistoriesLawful(db) && Keyed(db.decisions, db.dispatches, db.rowids)
    requires Timed(db.events) && AllWaited(db) && Made(db, d, after, change).Pass?
    ensures AllWaited(after)
  {
    match change
    case Unchanged =>
    case NothingStored => WaitedUntouched(db, d, after, None);
    case RequestAdded(v) => WaitedUntouched(db, d, after, None);
    case RequestMoved(k, v, final, o, at) => WaitedUntouched(db, d, after, Some(RequestRow(k)));
    case DecisionWritten(v, w) => WaitedUntouched(db, d, after, None);
    case DecisionMoved(a, v, q, o, at) => WaitedUntouched(db, d, after, Some(DecisionRow(a)));
    case DispatchAdded(x, at) => WaitedUntouched(db, d, after, None);
    case DispatchMoved(k, x, o, child, at) => WaitedMoved(db, d, after, k, x, o, child, at);
  }

  // ---- reconciliation children ----

  /** The dispatch a child's wait is counted from: its elder sibling, or the parent. */
  function Before(keys: seq<DispatchKey>, a: string, i: nat): DispatchKey
    requires i < |keys|
  {
    if i == 0 then InitialKey(a) else keys[i - 1]
  }

  ghost predicate SpacedAt(keys: seq<DispatchKey>, dispatches: Dispatched, a: string, i: nat)
    requires i < |keys|
  {
    var p := Before(keys, a, i);
    p in dispatches && keys[i] in dispatches && Passed(dispatches[p].started, dispatches[keys[i]].started, Wait(i))
  }

  /** Each child was prepared no sooner than its wait after the one before, on one continuous clock. */
  ghost predicate Spaced(rowids: seq<DispatchKey>, dispatches: Dispatched) {
    forall a :: SpacedFor(rowids, dispatches, a)
  }

  ghost predicate SpacedFor(rowids: seq<DispatchKey>, dispatches: Dispatched, a: string) {
    SpacedFamily(ChildKeys(rowids, a), dispatches, a)
  }

  ghost predicate SpacedFamily(keys: seq<DispatchKey>, dispatches: Dispatched, a: string) {
    forall i :: 0 <= i < |keys| ==> SpacedAt(keys, dispatches, a, i)
  }

  lemma SpacedStepped(rowids: seq<DispatchKey>, dispatches: Dispatched, k: DispatchKey, x: Dispatch)
    requires Spaced(rowids, dispatches) && k in dispatches && x.started == dispatches[k].started
    ensures Spaced(rowids, dispatches[k := x])
  {
    var after := dispatches[k := x];
    forall a ensures SpacedFor(rowids, after, a) {
      assert SpacedFor(rowids, dispatches, a);
      SpacedKept(ChildKeys(rowids, a), dispatches, after, a);
    }
  }

  /** Start clocks never change. */
  lemma SpacedKept(keys: seq<DispatchKey>, dispatches: Dispatched, after: Dispatched, a: string)
    requires SpacedFamily(keys, dispatches, a)
    requires forall k :: k in dispatches ==> k in after && after[k].started == dispatches[k].started
    ensures SpacedFamily(keys, after, a)
  {
    forall i | 0 <= i < |keys| ensures SpacedAt(keys, after, a, i) {
      assert SpacedAt(keys, dispatches, a, i);
    }
  }

  lemma SpacedAppended(keys: seq<DispatchKey>, dispatches: Dispatched, a: string, k: DispatchKey)
    requires SpacedFamily(keys, dispatches, a) && SpacedAt(keys + [k], dispatches, a, |keys|)
    ensures SpacedFamily(keys + [k], dispatches, a)
  {
    forall i | 0 <= i <= |keys| ensures SpacedAt(keys + [k], dispatches, a, i) {
      if i < |keys| {
        assert SpacedAt(keys, dispatches, a, i);
      }
    }
  }

  lemma ChildSpaced(db: Database, x: Dispatch, at: Clock)
    requires RowidsStored(db) && AdmittedDispatch(db, x, at) && x.kind == Reconcile
    ensures SpacedAt(ChildKeys(db.rowids, x.approvalId) + [KeyOf(x)], db.dispatches[KeyOf(x) := x], x.approvalId,
                     |ChildKeys(db.rowids, x.approvalId)|)
  {
    var keys, children := ChildKeys(db.rowids, x.approvalId), Children(db, x.approvalId);
    var parent := db.dispatches[InitialKey(x.approvalId)];
    var n := |keys|;
    assert Reconcilable(db, parent, x);
    var from := if children == [] then parent.started else children[n - 1].started;
    ElapsedExact(from, x.started, Backoff(n));
    if n > 0 {
      assert keys[n - 1] in keys && children[n - 1] == db.dispatches[keys[n - 1]];
    }
  }

  lemma SpacedInserted(db: Database, x: Dispatch, at: Clock)
    requires RowidsStored(db) && Spaced(db.rowids, db.dispatches) && AdmittedDispatch(db, x, at)
    ensures Spaced(db.rowids + [KeyOf(x)], db.dispatches[KeyOf(x) := x])
  {
    var rowids, after := db.rowids + [KeyOf(x)], db.dispatches[KeyOf(x) := x];
    forall a ensures SpacedFor(rowids, after, a) {
      assert SpacedFor(db.rowids, db.dispatches, a);
      SpacedGrows(db, x, at, a);
    }
  }

  lemma SpacedGrows(db: Database, x: Dispatch, at: Clock, a: string)
    requires RowidsStored(db) && SpacedFor(db.rowids, db.dispatches, a) && AdmittedDispatch(db, x, at)
    ensures SpacedFor(db.rowids + [KeyOf(x)], db.dispatches[KeyOf(x) := x], a)
  {
    ChildKeysAppend(db.rowids, KeyOf(x), a);
    SpacedKept(ChildKeys(db.rowids, a), db.dispatches, db.dispatches[KeyOf(x) := x], a);
    if IsChildOf(KeyOf(x), a) {
      ChildSpaced(db, x, at);
      SpacedAppended(ChildKeys(db.rowids, a), db.dispatches[KeyOf(x) := x], a, KeyOf(x));
    } else {
      assert ChildKeys(db.rowids, a) + [] == ChildKeys(db.rowids, a);
    }
  }

  lemma ChangeSpaced(db: Database, d: Delta, after: Database, change: Change)
    requires RowidsStored(db) && Spaced(db.rowids, db.dispatches) && Made(db, d, after, change).Pass?
    ensures Spaced(after.rowids, after.dispatches)
  {
    match change
    case DispatchAdded(x, at) => SpacedInserted(db, x, at);
    case DispatchMoved(k, x, o, child, at) => SpacedStepped(db.rowids, db.dispatches, k, x);
    case _ =>
  }

  // ---- what a wait comes to ----

  lemma LookupWaits(h: seq<Dispatch>, c: seq<Clock>, v: nat, o: Observation, child: Option<Dispatch>) returns (j: nat)
    requires 0 < v < |h| && v < |c| && o.now == Some(c[v]) && Justified(h[v - 1], h[v], o, child)
    requires o.dispatchOperation == Some(OpLookup) && Waited(h, c, v, o)
    ensures j < v && CountsFrom(h, j, h[v - 1].reconciliationLookups)
    ensures h[v].reconciliationLookups == h[v - 1].reconciliationLookups + 1
    ensures Passed(c[j], c[v], Wait(h[v - 1].reconciliationLookups))
  {
    j :| WaitsFrom(h, c, v, o.reconciliationStarted.value, j);
  }

  lemma EmptyTimed(db: Database)
    requires db == EMPTY_DATABASE
    ensures Timed(db.events) && Spaced(db.rowids, db.dispatches)
  {
    forall k ensures ClocksFound(db.events, k) && LookupsFound(db.events, k) {
    }
    forall a ensures SpacedFor(db.rowids, db.dispatches, a) {
    }
  }
}
