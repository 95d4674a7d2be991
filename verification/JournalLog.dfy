/**
  * The tables refine the log: versions are gapless, replay rebuilds the tables, and a dispatch's log is a lawful
  * history.
  */
module JournalLog {
  import opened Outcomes
  import opened Clocks
  import opened Requests
  import opened Decisions
  import opened Dispatches
  import opened Transitions
  import opened TransitionFacts
  import opened JournalTables
  import opened JournalSpec
  import opened JournalSteps

  // ---- reading the log ----

  datatype Tables = Tables(requests: map<CreationKey, Request>, decisions: map<string, Decision>,
                           dispatches: map<DispatchKey, Dispatch>)

  function TablesOf(db: Database): Tables {
    Tables(map k | k in db.requests :: db.requests[k].value, db.decisions, db.dispatches)
  }

  function ReplayEvent(t: Tables, e: Event): Tables {
    match e
    case RequestEvent(k, _, r) => t.(requests := t.requests[k := r])
    case DecisionEvent(a, _, d) => t.(decisions := t.decisions[a := d])
    case DispatchEvent(k, _, d) => t.(dispatches := t.dispatches[k := d])
    case _ => t
  }

  function Replay(events: seq<Event>): Tables {
    if events == [] then
      Tables(map[], map[], map[]) else ReplayEvent(Replay(events[..|events| - 1]), events[|events| - 1])
  }

  predicate LogsRecord(e: Event, record: RecordKey) {
    SlotOf(e).RecordSlot? && SlotOf(e).record == record
  }

  /** Versions logged for one record, in log order. */
  function LoggedVersions(events: seq<Event>, record: RecordKey): seq<nat> {
    if events == [] then []
    else
      var e := events[|events| - 1];
      LoggedVersions(events[..|events| - 1], record) + (if LogsRecord(e, record) then [e.version] else [])
  }

  function DispatchHistory(events: seq<Event>, k: DispatchKey): seq<Dispatch> {
    if events == [] then []
    else
      var e := events[|events| - 1];
      DispatchHistory(events[..|events| - 1], k) + (if e.DispatchEvent? && e.dispatchKey == k then [e.dispatch] else [])
  }

  function ClockHistory(events: seq<Event>, k: DispatchKey): seq<Clock> {
    if events == [] then []
    else
      var e := events[|events| - 1];
      ClockHistory(events[..|events| - 1], k) + (if e.ClockEvent? && e.record == DispatchRow(k) then [e.clock] else [])
  }

  function Upto(n: nat): seq<nat> {
    seq(n, i => i)
  }

  /** How many versions a record has: its current version plus one, or none. */
  function VersionCount(db: Database, record: RecordKey): nat {
    match record
    case RequestRow(k) => if k in db.requests then db.requests[k].value.version + 1 else 0
    case DecisionRow(a) => if a in db.decisions then db.decisions[a].version + 1 else 0
    case DispatchRow(k) => if k in db.dispatches then db.dispatches[k].version + 1 else 0
  }

  ghost predicate LogRefined(db: Database) {
    && Replay(db.events) == TablesOf(db)
    && forall record :: LoggedVersions(db.events, record) == Upto(VersionCount(db, record))
  }

  /** One dispatch's complete history: contiguous versions, each a lawful evolution at its own logged clock. */
  ghost predicate LawfulHistory(h: seq<Dispatch>, c: seq<Clock>) {
    && |h| == |c| > 0
    && h[0].state == Preparing && !h[0].settled && h[0].started == c[0]
    && (forall i :: 0 <= i < |h| ==> h[i].version == i && WellFormed(h[i]))
    && (forall i :: 0 < i < |h| ==> Evolves(h[i - 1], h[i], c[i]))
  }

  ghost predicate HistoryOf(db: Database, k: DispatchKey) {
    var h := DispatchHistory(db.events, k);
    var c := ClockHistory(db.events, k);
    if k in db.dispatches then LawfulHistory(h, c) && h[|h| - 1] == db.dispatches[k] else h == [] && c == []
  }

  ghost predicate HistoriesLawful(db: Database) {
    forall k :: HistoryOf(db, k)
  }

  // ---- how the log grows ----

  /** Reading the log after one more event. */
  lemma ReadAppend(events: seq<Event>, e: Event, record: RecordKey, k: DispatchKey)
    ensures Replay(events + [e]) == ReplayEvent(Replay(events), e)
    ensures LoggedVersions(events + [e], record) == LoggedVersions(events, record)
                                                    + (if LogsRecord(e, record) then [e.version] else [])
    ensures DispatchHistory(events + [e], k) == DispatchHistory(events, k)
                                                + (if e.DispatchEvent? && e.dispatchKey == k then [e.dispatch] else [])
    ensures ClockHistory(events + [e], k) == ClockHistory(events, k)
                                             + (if e.ClockEvent? && e.record == DispatchRow(k) then [e.clock] else [])
  {
    assert (events + [e])[..|events|] == events;
  }

  /** Auxiliary events change nothing that is read back. */
  lemma {:induction false} ReadAuxiliary(events: seq<Event>, es: seq<Event>, record: RecordKey, k: DispatchKey)
    requires forall e :: e in es ==> Auxiliary(e)
    ensures Replay(events + es) == Replay(events)
    ensures LoggedVersions(events + es, record) == LoggedVersions(events, record)
    ensures DispatchHistory(events + es, k) == DispatchHistory(events, k)
    ensures ClockHistory(events + es, k) == ClockHistory(events, k)
    decreases |es|
  {
    if es == [] {
      assert events + es == events;
    } else {
      var e := es[|es| - 1];
      assert Auxiliary(e);
      assert events + es == events + es[..|es| - 1] + [e];
      ReadAuxiliary(events, es[..|es| - 1], record, k);
      ReadAppend(events + es[..|es| - 1], e, record, k);
    }
  }

  ghost predicate RowShape(rows: seq<Event>) {
    && |rows| <= 2
    && (|rows| == 2 ==> rows[1].ClockEvent?)
    && (|rows| > 0 ==> SlotOf(rows[0]).RecordSlot?)
  }

  lemma ReadRows(events: seq<Event>, rows: seq<Event>, record: RecordKey, k: DispatchKey)
    requires RowShape(rows)
    ensures Replay(events + rows) == if rows == [] then Replay(events) else ReplayEvent(Replay(events), rows[0])
    ensures LoggedVersions(events + rows, record) == LoggedVersions(events, record)
                                                     + (if rows != [] && LogsRecord(rows[0], record) then
                                                          [rows[0].version] else [])
    ensures DispatchHistory(events + rows, k) == DispatchHistory(events, k)
                                                 + (if rows != [] && rows[0].DispatchEvent?
                                                       && rows[0].dispatchKey == k then [rows[0].dispatch] else [])
    ensures ClockHistory(events + rows, k) == ClockHistory(events, k)
                                              + (if |rows| == 2 && rows[1].record == DispatchRow(k) then
                                                   [rows[1].clock] else [])
  {
    if rows == [] {
      assert events + rows == events;
    } else if |rows| == 1 {
      assert rows == [rows[0]];
      ReadAppend(events, rows[0], record, k);
    } else {
      assert events + rows == events + [rows[0]] + [rows[1]];
      ReadAppend(events, rows[0], record, k);
      ReadAppend(events + [rows[0]], rows[1], record, k);
    }
  }

  /** A committed transaction adds its row event, and its clock, and nothing else that is read back. */
  lemma ReadGrown(db: Database, d: Delta, after: Database, record: RecordKey, k: DispatchKey)
    requires Grew(db, d, after) && RowShape(d.rows)
    ensures Replay(after.events) == if d.rows == [] then Replay(db.events)
                                    else ReplayEvent(Replay(db.events), d.rows[0])
    ensures LoggedVersions(after.events, record) == LoggedVersions(db.events, record)
                                                    + (if d.rows != [] && LogsRecord(d.rows[0], record) then
                                                         [d.rows[0].version] else [])
    ensures DispatchHistory(after.events, k) == DispatchHistory(db.events, k)
                                                + (if d.rows != [] && d.rows[0].DispatchEvent?
                                                      && d.rows[0].dispatchKey == k then [d.rows[0].dispatch] else [])
    ensures ClockHistory(after.events, k) == ClockHistory(db.events, k)
                                             + (if |d.rows| == 2 && d.rows[1].record == DispatchRow(k) then
                                                  [d.rows[1].clock] else [])
  {
    ReadAuxiliary(db.events, d.before, record, k);
    ReadRows(db.events + d.before, d.rows, record, k);
    ReadAuxiliary(db.events + d.before + d.rows, d.behind, record, k);
  }

  /** Storing the logged record at the next version keeps the refinement. */
  lemma RefinementKept(db: Database, d: Delta, after: Database)
    requires LogRefined(db) && Grew(db, d, after) && RowShape(d.rows)
    requires TablesOf(after) == if d.rows == [] then TablesOf(db) else ReplayEvent(TablesOf(db), d.rows[0])
    requires d.rows != [] ==>
               d.rows[0].version == VersionCount(db, SlotOf(d.rows[0]).record) ==
               VersionCount(after, SlotOf(d.rows[0]).record) - 1
    requires forall record :: d.rows == [] || !LogsRecord(d.rows[0], record) ==>
                                VersionCount(after, record) == VersionCount(db, record)
    ensures LogRefined(after)
  {
    forall record ensures LoggedVersions(after.events, record) == Upto(VersionCount(after, record)) {
      ReadGrown(db, d, after, record, InitialKey(""));
      if d.rows != [] && LogsRecord(d.rows[0], record) {
        assert Upto(VersionCount(db, record)) + [d.rows[0].version] == Upto(VersionCount(after, record));
      }
    }
    ReadGrown(db, d, after, RequestRow(CreationKey("", "", "", 0)), InitialKey(""));
  }

  /** Transactions that log no dispatch event leave every dispatch history alone. */
  lemma HistoriesUntouched(db: Database, d: Delta, after: Database)
    requires HistoriesLawful(db) && Grew(db, d, after) && RowShape(d.rows) && after.dispatches == db.dispatches
    requires |d.rows| == 2 ==> !d.rows[1].record.DispatchRow?
    requires |d.rows| > 0 ==> !d.rows[0].DispatchEvent?
    ensures HistoriesLawful(after)
  {
    forall k ensures HistoryOf(after, k) {
      ReadGrown(db, d, after, DispatchRow(k), k);
      assert HistoryOf(db, k);
    }
  }

  lemma LawfulHistoryExtended(h: seq<Dispatch>, c: seq<Clock>, x: Dispatch, sampled: Clock)
    requires WellFormed(x)
    requires if h == [] then c == [] && x.version == 0 && x.state == Preparing && !x.settled && x.started == sampled
             else LawfulHistory(h, c) && Evolves(h[|h| - 1], x, sampled)
    ensures LawfulHistory(h + [x], c + [sampled])
  {
  }

  /** Logging a first version, or a lawful next version, keeps every dispatch history lawful. */
  lemma HistoriesExtended(db: Database, d: Delta, after: Database, k: DispatchKey, x: Dispatch, sampled: Clock)
    requires HistoriesLawful(db) && Grew(db, d, after) && after.dispatches == db.dispatches[k := x]
    requires d.rows == [DispatchEvent(k, x.version, x), ClockEvent(DispatchRow(k), x.version, sampled)]
    requires WellFormed(x)
    requires k !in db.dispatches ==> x.version == 0 && x.state == Preparing && !x.settled && x.started == sampled
    requires k in db.dispatches ==> Evolves(db.dispatches[k], x, sampled)
    ensures HistoriesLawful(after)
  {
    forall j ensures HistoryOf(after, j) {
      ReadGrown(db, d, after, DispatchRow(j), j);
      assert HistoryOf(db, j);
      if j == k {
        HistoryExtended(db, d, after, k, x, sampled);
      }
    }
  }

  lemma HistoryExtended(db: Database, d: Delta, after: Database, k: DispatchKey, x: Dispatch, sampled: Clock)
    requires HistoryOf(db, k) && Grew(db, d, after) && k in after.dispatches && after.dispatches[k] == x
    requires d.rows == [DispatchEvent(k, x.version, x), ClockEvent(DispatchRow(k), x.version, sampled)]
    requires WellFormed(x)
    requires k !in db.dispatches ==> x.version == 0 && x.state == Preparing && !x.settled && x.started == sampled
    requires k in db.dispatches ==> Evolves(db.dispatches[k], x, sampled)
    ensures HistoryOf(after, k)
  {
    ReadGrown(db, d, after, DispatchRow(k), k);
    LawfulHistoryExtended(DispatchHistory(db.events, k), ClockHistory(db.events, k), x, sampled);
  }

  // ---- what a lawful history says ----

  lemma {:induction false} Identity(h: seq<Dispatch>, c: seq<Clock>, i: nat, j: nat)
    requires LawfulHistory(h, c) && i <= j < |h|
    ensures SameDispatch(h[i], h[j])
    ensures h[i].claimConsumed ==> h[j].claimConsumed
    ensures forall n :: n in Nonces(h[i]) ==> n in Nonces(h[j])
    decreases j
  {
    if i < j {
      Identity(h, c, i, j - 1);
      assert Evolves(h[j - 1], h[j], c[j]);
    }
  }

  ghost predicate ConsumesAt(h: seq<Dispatch>, i: int) {
    0 < i < |h| && h[i].claimConsumed && !h[i - 1].claimConsumed
  }

  /**
    * At most one outward effect. A history consumes its claim at most once; once consumed it stays consumed and is
    * never preparing, ready or held again; and the consumption happened on the start clock's boot, inside the
    * original 60 s window, within 5 s of the logged readiness, after at most 3 launches.
    */
  lemma AtMostOneEffect(h: seq<Dispatch>, c: seq<Clock>, i: nat)
    requires LawfulHistory(h, c) && ConsumesAt(h, i)
    ensures forall j :: ConsumesAt(h, j) ==> j == i
    ensures forall j :: i <= j < |h| ==>
                          h[j].claimConsumed && h[j].claimHash == h[i].claimHash
                          && h[j].state !in {Preparing, Ready, Held}
    ensures 1 < i && h[i - 1].state == Ready && h[i].launchAttempts <= MAX_LAUNCHES
    ensures c[i].bootId == c[0].bootId && c[0].mono <= c[i].mono < c[0].mono + DISPATCH_WINDOW
    ensures c[i].mono < c[i - 1].mono + CLAIM_WINDOW
  {
    forall j | ConsumesAt(h, j) ensures j == i {
      if j < i {
        Identity(h, c, j, i - 1);
      } else if i < j {
        Identity(h, c, i, j - 1);
      }
    }
    ClaimKept(h, c, i);
    assert Evolves(h[i - 1], h[i], c[i]);
    assert Evolves(h[i - 2], h[i - 1], c[i - 1]);
    Identity(h, c, 0, i - 1);
  }

  lemma {:induction false} ClaimKept(h: seq<Dispatch>, c: seq<Clock>, i: nat)
    requires LawfulHistory(h, c) && i < |h| && h[i].claimConsumed
    ensures forall j :: i <= j < |h| ==> h[j].claimConsumed && h[j].claimHash == h[i].claimHash
    decreases |h| - i
  {
    if i + 1 < |h| {
      assert Evolves(h[i], h[i + 1], c[i + 1]);
      ClaimKept(h, c, i + 1);
    }
  }
}
