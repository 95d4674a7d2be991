/** What the journal never admits, in any run: a denied intent again, too many requests, a contradicted absence. */
module JournalAdmissions {
  import opened Outcomes
  import opened Clocks
  import opened Requests
  import opened Decisions
  import opened Dispatches
  import opened Transitions
  import opened TransitionFacts
  import opened DispatchOutcomes
  import opened RequestOutcomes
  import opened JournalTables
  import opened JournalSpec
  import opened JournalCapacity
  import opened JournalSteps
  import opened JournalLog
  import opened JournalSafety
  import opened JournalRuns
  import opened JournalChanges
  import opened JournalOutcomes

  // ---- denials ----

  /** The request is asked: admitted, or filed. */
  predicate Asks(e: Event) {
    e.RequestEvent? && (e.version == 0 || e.request.phase == Filed)
  }

  predicate Repeats(denial: Event, asked: Event) {
    denial.DenialEvent? && Asks(asked) && asked.request.denialIdentity == Some(denial.identity)
  }

  /** No request is asked with a fingerprint denied earlier in the log. */
  ghost predicate NoneRepeats(events: seq<Event>) {
    forall i, j :: 0 <= i < j < |events| ==> !Repeats(events[i], events[j])
  }

  /** Every logged denial is in the table, under the session of its fingerprint. */
  ghost predicate DenialsListed(events: seq<Event>, denials: map<DenialIdentity, DenialRow>) {
    && (forall e :: e in events && e.DenialEvent? ==> e.identity in denials)
    && (forall i :: i in denials ==> denials[i].sessionKey == i.sessionKey)
  }

  lemma ListedGrown(db: Database, d: Delta, after: Database)
    requires DenialsListed(db.events, db.denials) && Grew(db, d, after) && RowShape(d.rows) && Notes(db, d, after)
    ensures DenialsListed(after.events, after.denials)
  {
    forall e | e in after.events && e.DenialEvent? ensures e.identity in after.denials {
      assert e in db.events || e in d.before || e in d.rows || e in d.behind;
    }
  }

  lemma {:induction false} QuietRepeats(events: seq<Event>, es: seq<Event>)
    requires NoneRepeats(events) && forall e :: e in es ==> !Asks(e)
    ensures NoneRepeats(events + es)
  {
    var all := events + es;
    forall i, j | 0 <= i < j < |all| ensures !Repeats(all[i], all[j]) {
      if j < |events| {
        assert !Repeats(events[i], events[j]);
      } else {
        assert all[j] in es;
      }
    }
  }

  lemma AskedAppended(events: seq<Event>, e: Event, denials: map<DenialIdentity, DenialRow>)
    requires NoneRepeats(events) && DenialsListed(events, denials)
    requires Asks(e) && e.request.denialIdentity.Some? ==> e.request.denialIdentity.value !in denials
    ensures NoneRepeats(events + [e])
  {
    var all := events + [e];
    forall i, j | 0 <= i < j < |all| ensures !Repeats(all[i], all[j]) {
      if j < |events| {
        assert !Repeats(events[i], events[j]);
      } else {
        assert all[i] == events[i] && events[i] in events;
      }
    }
  }

  lemma RepeatsGrown(db: Database, d: Delta, after: Database)
    requires NoneRepeats(db.events) && DenialsListed(db.events, db.denials) && Grew(db, d, after) && RowShape(d.rows)
    requires d.rows != [] && Asks(d.rows[0]) ==> d.before == []
    requires d.rows != [] && Asks(d.rows[0]) && d.rows[0].request.denialIdentity.Some? ==>
               d.rows[0].request.denialIdentity.value !in db.denials
    ensures NoneRepeats(after.events)
  {
    QuietRepeats(db.events, d.before);
    var base := db.events + d.before;
    if d.rows == [] {
      assert base + d.rows == base;
    } else if Asks(d.rows[0]) {
      assert base == db.events;
      AskedAppended(base, d.rows[0], db.denials);
      assert base + d.rows == base + [d.rows[0]] + d.rows[1..];
      QuietRepeats(base + [d.rows[0]], d.rows[1..]);
    } else {
      QuietRepeats(base, d.rows);
    }
    QuietRepeats(base + d.rows, d.behind);
  }

  /** A request admitted afresh is not denied. */
  lemma AdmittedUndenied(db: Database, v: Request)
    requires RequestAdmission(db, v) == Ok(true) && v.key !in db.requests && DenialsListed(db.events, db.denials)
    ensures v.denialIdentity.Some? && v.denialIdentity.value !in db.denials
  {
    var i := RequestDenialKey(v.intent, v.origin, v.resolved);
    assert i in db.denials ==> i in SessionDenials(db, v.origin.sessionKey);
  }

  lemma FiledUndenied(db: Database, k: CreationKey, v: Request, final: Request, o: Observation)
    requires AdvancedBy(db, k, v, o) && Refreshed(db, v, final) && DenialsListed(db.events, db.denials)
    ensures final.phase == Filed && final.denialIdentity.Some? ==> final.denialIdentity.value !in db.denials
  {
    var i := Fingerprint(v.origin, v.intent, v.resolved);
    assert v.denialIdentity == Some(i);
    assert i in db.denials ==> i in SessionDenials(db, v.origin.sessionKey);
  }

  ghost predicate Undenied(db: Database) {
    NoneRepeats(db.events) && DenialsListed(db.events, db.denials)
  }

  lemma UndeniedAdded(db: Database, d: Delta, after: Database, v: Request)
    requires Undenied(db) && AddsRequest(db, d, after, v)
    ensures Undenied(after)
  {
    ListedGrown(db, d, after);
    AdmittedUndenied(db, v);
    RepeatsGrown(db, d, after);
  }

  lemma UndeniedMoved(
    db: Database, d: Delta, after: Database, k: CreationKey, v: Request, final: Request, o: Observation, at: Clock)
    requires Undenied(db) && MovesRequest(db, d, after, k, v, final, o, at)
    ensures Undenied(after)
  {
    ListedGrown(db, d, after);
    FiledUndenied(db, k, v, final, o);
    RepeatsGrown(db, d, after);
  }

  lemma UndeniedElsewhere(db: Database, d: Delta, after: Database)
    requires Undenied(db) && Grew(db, d, after) && RowShape(d.rows) && Notes(db, d, after)
    requires d.rows != [] ==> !d.rows[0].RequestEvent?
    ensures Undenied(after)
  {
    ListedGrown(db, d, after);
    RepeatsGrown(db, d, after);
  }

  lemma ChangeUndenied(db: Database, d: Delta, after: Database, change: Change)
    requires RowidsStored(db) && Undenied(db) && Made(db, d, after, change).Pass?
    ensures Undenied(after)
  {
    match change
    case Unchanged =>
    case RequestAdded(v) => UndeniedAdded(db, d, after, v);
    case RequestMoved(k, v, final, o, at) => UndeniedMoved(db, d, after, k, v, final, o, at);
    case _ => UndeniedElsewhere(db, d, after);
  }

  // ---- bounds ----

  function Open(requests: Requested): set<CreationKey> {
    set k | k in requests && requests[k].outstanding
  }

  function OnBead(requests: Requested, workstream: string, bead: string): set<CreationKey> {
    set k | k in requests && requests[k].outstanding && requests[k].workstream == workstream && requests[k].bead == bead
  }

  ghost predicate BeadsBounded(requests: Requested) {
    forall w, b :: |OnBead(requests, w, b)| <= 2
  }

  /** 4,096 records of each kind, 128 outstanding requests, and two of those for each bead. */
  ghost predicate Bounded(db: Database) {
    && |db.requests| <= 4096 && |db.dispatches| <= 4096
    && |Open(db.requests)| <= 128 && BeadsBounded(db.requests)
  }

  /** A row that was there keeps its bead and can only stop being outstanding. */
  lemma BoundsOnRow(requests: Requested, k: CreationKey, row: Row)
    requires k in requests && (row.outstanding ==> requests[k].outstanding)
    requires row.workstream == requests[k].workstream && row.bead == requests[k].bead
    requires |Open(requests)| <= 128 && BeadsBounded(requests)
    ensures |Open(requests[k := row])| <= 128 && BeadsBounded(requests[k := row])
    ensures requests[k := row].Keys == requests.Keys
  {
    var after := requests[k := row];
    SubsetSize(Open(after), Open(requests));
    forall w, b ensures |OnBead(after, w, b)| <= 2 {
      SubsetSize(OnBead(after, w, b), OnBead(requests, w, b));
    }
  }

  /** A new row is one more of its bead. */
  lemma BoundsOnNew(requests: Requested, k: CreationKey, row: Row)
    requires k !in requests && |Open(requests)| < 128 && BeadsBounded(requests)
    requires |OnBead(requests, row.workstream, row.bead)| < 2
    ensures |Open(requests[k := row])| <= 128 && BeadsBounded(requests[k := row])
  {
    var after := requests[k := row];
    SubsetSize(Open(after), Open(requests) + {k});
    forall w, b ensures |OnBead(after, w, b)| <= 2 {
      if w == row.workstream && b == row.bead {
        SubsetSize(OnBead(after, w, b), OnBead(requests, w, b) + {k});
      } else {
        SubsetSize(OnBead(after, w, b), OnBead(requests, w, b));
      }
    }
  }

  lemma RoomForRequest(db: Database, v: Request)
    requires RequestAdmission(db, v) == Ok(true) && v.key !in db.requests
    ensures |db.requests| < 4096 && |Open(db.requests)| < 128
    ensures |OnBead(db.requests, v.origin.workstream, v.origin.bead)| < 2
  {
    assert Open(db.requests) == OutstandingKeys(db);
    assert OnBead(db.requests, v.origin.workstream, v.origin.bead) ==
           set k | k in OutstandingKeys(db) && db.requests[k].workstream == v.origin.workstream
                   && db.requests[k].bead == v.origin.bead;
  }

  lemma BoundedAdded(db: Database, d: Delta, after: Database, v: Request)
    requires Bounded(db) && AddsRequest(db, d, after, v)
    ensures Bounded(after)
  {
    RoomForRequest(db, v);
    BoundsOnNew(db.requests, v.key, Row(v.origin.workstream, v.origin.bead, true, v));
    assert |after.requests| == |db.requests| + 1;
  }

  lemma BoundedMoved(
    db: Database, d: Delta, after: Database, k: CreationKey, v: Request, final: Request, o: Observation, at: Clock)
    requires RowsAgree(db) && Bounded(db) && MovesRequest(db, d, after, k, v, final, o, at)
    ensures Bounded(after)
  {
    var row := StoreRequest(db, k, final).requests[k];
    BoundsOnRow(db.requests, k, row);
    assert after.requests == db.requests[k := row];
    assert |after.requests.Keys| == |db.requests.Keys|;
  }

  lemma ChangeBounded(db: Database, d: Delta, after: Database, change: Change)
    requires RowidsStored(db) && RowsAgree(db) && Bounded(db) && Made(db, d, after, change).Pass?
    ensures Bounded(after)
  {
    match change
    case RequestAdded(v) => BoundedAdded(db, d, after, v);
    case RequestMoved(k, v, final, o, at) => BoundedMoved(db, d, after, k, v, final, o, at);
    case DispatchAdded(x, at) => assert |after.dispatches| == |db.dispatches| + 1;
    case DispatchMoved(k, x, o, child, at) => assert after.dispatches.Keys == db.dispatches.Keys;
    case _ =>
  }

  // ---- attested absence ----

  /** An operator's settlement that attests the effect absent. */
  predicate AttestsAbsence(o: Observation) {
    && o.dispatchOperation == Some(OpSettle) && o.dispatchRecovery.Some?
    && o.dispatchRecovery.value.effectDefinitivelyAbsent
  }

  predicate ReportsSuccess(o: Observation) {
    o.dispatchReadback.Some? && o.dispatchReadback.value.effect == EffectSucceeded
  }

  ghost predicate NoReport(events: seq<Event>, k: DispatchKey, v: nat) {
    forall u: nat, p :: u < v && Seen(events, k, u, p) ==> !ReportsSuccess(p)
  }

  ghost predicate NoReading(dispatches: Dispatched, a: string) {
    forall c :: c in dispatches && IsChildOf(c, a) ==> dispatches[c].reconciliationEffect != Some(EffectSucceeded)
  }

  ghost predicate Uncontradicted(db: Database) {
    forall k, v, o :: Seen(db.events, k, v, o) && k.InitialKey? && AttestsAbsence(o) ==>
                        NoReport(db.events, k, v) && NoReading(db.dispatches, k.approvalId)
  }

  /** What was settled by an operator is settled for good, at its last version. */
  lemma SettledLast(db: Database, k: DispatchKey, v: nat, o: Observation)
    requires HistoryOf(db, k) && ExplainsVersion(db, k, v, o) && o.dispatchOperation == Some(OpSettle)
    ensures k in db.dispatches && db.dispatches[k].settled
  {
    var h, c := DispatchHistory(db.events, k), ClockHistory(db.events, k);
    assert v + 1 < |h| ==> Evolves(h[v], h[v + 1], c[v + 1]);
    var child := ExplainingChild(db, k, v, o);
  }

  lemma AbsenceAcknowledged(db: Database, k: DispatchKey, o: Observation, v: nat)
    requires Keyed(db.decisions, db.dispatches, db.rowids) && RowidsStored(db)
    requires k in db.dispatches && k.InitialKey? && Grounded(db, db.dispatches[k], o) && AttestsAbsence(o)
    ensures NoReport(db.events, k, v) && NoReading(db.dispatches, k.approvalId)
  {
    var prior := db.dispatches[k];
    forall u: nat, p | u < v && Seen(db.events, k, u, p) ensures !ReportsSuccess(p) {
      var i :| 0 <= i < |db.events| && db.events[i] == ObservationEvent(DispatchRow(k), u, p);
      assert KeyOf(prior) == k;
    }
    var keys, children := ChildKeys(db.rowids, k.approvalId), Children(db, k.approvalId);
    var facts := Dispositions(prior, children);
    forall c | c in db.dispatches && IsChildOf(c, k.approvalId)
      ensures db.dispatches[c].reconciliationEffect != Some(EffectSucceeded)
    {
      var i :| 0 <= i < |keys| && keys[i] == c;
      assert facts[i] in facts;
    }
  }

  /** Under a settled parent nothing about its children changes. */
  lemma ReadingsStay(db: Database, a: string, k: DispatchKey, x: Dispatch)
    requires FamilySound(db.rowids, db.dispatches, a) && (forall c :: c in db.dispatches ==> c in db.rowids)
    requires InitialKey(a) in db.dispatches && db.dispatches[InitialKey(a)].settled
    requires k in db.dispatches && !db.dispatches[k].settled && NoReading(db.dispatches, a)
    ensures NoReading(db.dispatches[k := x], a)
  {
    if IsChildOf(k, a) {
      OneOpenChild(db.rowids, db.dispatches, a, k, k);
    }
  }

  lemma NoNewChild(db: Database, x: Dispatch, at: Clock, a: string)
    requires RowidsStored(db) && AdmittedDispatch(db, x, at)
    requires InitialKey(a) in db.dispatches && db.dispatches[InitialKey(a)].settled
    ensures !IsChildOf(KeyOf(x), a)
  {
  }

  lemma UncontradictedElsewhere(db: Database, d: Delta, after: Database, record: Option<RecordKey>)
    requires Uncontradicted(db) && Grew(db, d, after) && RowShape(d.rows) && Watches(d, record)
    requires (record.Some? ==> !record.value.DispatchRow?) && after.dispatches == db.dispatches
    ensures Uncontradicted(after)
  {
    forall k, v, o | Seen(after.events, k, v, o) ensures Seen(db.events, k, v, o) {
      SeenGrew(db, d, after, k, v, o);
    }
  }

  lemma SeenNone(db: Database, d: Delta, after: Database)
    requires Grew(db, d, after) && RowShape(d.rows) && Watches(d, None)
    ensures forall k, v, o :: Seen(after.events, k, v, o) ==> Seen(db.events, k, v, o)
  {
    forall k, v, o | Seen(after.events, k, v, o) ensures Seen(db.events, k, v, o) {
      SeenGrew(db, d, after, k, v, o);
    }
  }

  lemma UncontradictedAdded(db: Database, d: Delta, after: Database, x: Dispatch, at: Clock)
    requires JournalInv(db) && Explained(db) && Uncontradicted(db) && AddsDispatch(db, d, after, x, at)
    ensures Uncontradicted(after)
  {
    SeenNone(db, d, after);
    forall k, v, o | Seen(after.events, k, v, o) && k.InitialKey? && AttestsAbsence(o)
      ensures NoReport(after.events, k, v) && NoReading(after.dispatches, k.approvalId)
    {
      assert HistoryOf(db, k);
      SettledLast(db, k, v, o);
      assert NoReport(db.events, k, v);
      NoNewReading(db, x, at, k.approvalId);
    }
  }

  lemma NoNewReading(db: Database, x: Dispatch, at: Clock, a: string)
    requires RowidsStored(db) && AdmittedDispatch(db, x, at) && NoReading(db.dispatches, a)
    requires InitialKey(a) in db.dispatches && db.dispatches[InitialKey(a)].settled
    ensures NoReading(db.dispatches[KeyOf(x) := x], a)
  {
    NoNewChild(db, x, at, a);
  }

  lemma OldReports(
    db: Database, d: Delta, after: Database, k: DispatchKey, x: Dispatch, o: Observation, at: Clock, j: DispatchKey,
    v: nat)
    requires StepLogged(db, d, after, k, x, at, o) && NoReport(db.events, j, v) && j != k
    ensures NoReport(after.events, j, v)
  {
    StepSeen(db, d, after, k, x, at, o);
  }

  lemma UncontradictedOld(
    db: Database, d: Delta, after: Database, k: DispatchKey, x: Dispatch, o: Observation, at: Clock, j: DispatchKey,
    v: nat, p: Observation)
    requires HistoryOf(db, j) && ExplainsVersion(db, j, v, p) && StepLogged(db, d, after, k, x, at, o)
    requires FamilySound(db.rowids, db.dispatches, j.approvalId) && Keyed(db.decisions, db.dispatches, db.rowids)
    requires j.InitialKey? && AttestsAbsence(p) && NoReport(db.events, j, v) && NoReading(db.dispatches, j.approvalId)
    ensures NoReport(after.events, j, v) && NoReading(after.dispatches, j.approvalId)
  {
    SettledLast(db, j, v, p);
    ReadingsStay(db, j.approvalId, k, x);
    OldReports(db, d, after, k, x, o, at, j, v);
  }

  lemma UncontradictedNew(
    db: Database, d: Delta, after: Database, k: DispatchKey, x: Dispatch, o: Observation, at: Clock)
    requires Keyed(db.decisions, db.dispatches, db.rowids) && RowidsStored(db) && Explained(db)
    requires StepLogged(db, d, after, k, x, at, o) && k.InitialKey? && AttestsAbsence(o)
    requires Grounded(db, db.dispatches[k], o)
    ensures NoReport(after.events, k, x.version) && NoReading(after.dispatches, k.approvalId)
  {
    AbsenceAcknowledged(db, k, o, x.version);
    StepSeen(db, d, after, k, x, at, o);
  }

  lemma UncontradictedMoved(
    db: Database, d: Delta, after: Database, k: DispatchKey, x: Dispatch, o: Observation, child: Option<Dispatch>,
    at: Clock)
    requires JournalInv(db) && Explained(db) && Uncontradicted(db) && MovesDispatch(db, d, after, k, x, o, child, at)
    ensures Uncontradicted(after)
  {
    assert StepLogged(db, d, after, k, x, at, o);
    StepSeen(db, d, after, k, x, at, o);
    forall j, v, p | Seen(after.events, j, v, p) && j.InitialKey? && AttestsAbsence(p)
      ensures NoReport(after.events, j, v) && NoReading(after.dispatches, j.approvalId)
    {
      if Seen(db.events, j, v, p) {
        assert HistoryOf(db, j) && FamilySound(db.rowids, db.dispatches, j.approvalId);
        UncontradictedOld(db, d, after, k, x, o, at, j, v, p);
      } else {
        UncontradictedNew(db, d, after, k, x, o, at);
      }
    }
  }

  lemma ChangeUncontradicted(db: Database, d: Delta, after: Database, change: Change)
    requires JournalInv(db) && Explained(db) && Uncontradicted(db) && Made(db, d, after, change).Pass?
    ensures Uncontradicted(after)
  {
    match change
    case Unchanged =>
    case NothingStored => UncontradictedElsewhere(db, d, after, None);
    case RequestAdded(v) => UncontradictedElsewhere(db, d, after, None);
    case RequestMoved(k, v, final, o, at) => UncontradictedElsewhere(db, d, after, Some(RequestRow(k)));
    case DecisionWritten(v, w) => UncontradictedElsewhere(db, d, after, None);
    case DecisionMoved(a, v, q, o, at) => UncontradictedElsewhere(db, d, after, Some(DecisionRow(a)));
    case DispatchAdded(x, at) => UncontradictedAdded(db, d, after, x, at);
    case DispatchMoved(k, x, o, child, at) => UncontradictedMoved(db, d, after, k, x, o, child, at);
  }

  lemma EmptyAdmitted(db: Database)
    requires db == EMPTY_DATABASE
    ensures Undenied(db) && Bounded(db) && Uncontradicted(db)
  {
    assert Open(db.requests) == {};
    forall w, b ensures |OnBead(db.requests, w, b)| <= 2 {
      assert OnBead(db.requests, w, b) == {};
    }
  }
}
