/** What holds of the journal's log and tables in every run. */
module JournalTheorems {
  import opened Outcomes
  import opened Clocks
  import opened Requests
  import opened Decisions
  import opened Dispatches
  import opened Transitions
  import opened TransitionFacts
  import opened DispatchOutcomes
  import opened JournalTables
  import opened JournalSpec
  import opened JournalCapacity
  import opened JournalSteps
  import opened JournalLog
  import opened JournalSafety
  import opened JournalRuns
  import opened JournalChanges
  import opened JournalOutcomes
  import opened JournalWaits
  import opened JournalAdmissions
  import JournalDecisions
  import JournalRequests
  import JournalPreparation

  // ---- what every run keeps ----

  /** Steps explained and waited for, stages in order, nothing denied, crowded or contradicted. */
  ghost predicate Recorded(db: Database) {
    && Explained(db) && Timed(db.events) && AllWaited(db) && Spaced(db.rowids, db.dispatches)
    && JournalDecisions.StagesLawful(db) && JournalRequests.StagesLawful(db)
    && Undenied(db) && Bounded(db) && Uncontradicted(db)
  }

  lemma ChangeDispatches(db: Database, d: Delta, after: Database, change: Change)
    requires JournalInv(db) && Made(db, d, after, change).Pass?
    requires Explained(db) && Timed(db.events) && AllWaited(db) && Spaced(db.rowids, db.dispatches)
    requires Uncontradicted(db)
    ensures Explained(after) && Timed(after.events) && AllWaited(after) && Spaced(after.rowids, after.dispatches)
    ensures Uncontradicted(after)
  {
    ChangeExplained(db, d, after, change);
    ChangeTimed(db, d, after, change);
    ChangeWaited(db, d, after, change);
    ChangeSpaced(db, d, after, change);
    ChangeUncontradicted(db, d, after, change);
  }

  lemma ChangeRecords(db: Database, d: Delta, after: Database, change: Change)
    requires JournalInv(db) && Made(db, d, after, change).Pass?
    requires JournalDecisions.StagesLawful(db) && JournalRequests.StagesLawful(db) && Undenied(db) && Bounded(db)
    ensures JournalDecisions.StagesLawful(after) && JournalRequests.StagesLawful(after)
    ensures Undenied(after) && Bounded(after)
  {
    JournalDecisions.ChangeStaged(db, d, after, change);
    JournalRequests.ChangeStaged(db, d, after, change);
    ChangeUndenied(db, d, after, change);
    ChangeBounded(db, d, after, change);
  }

  lemma StepRecorded(db: Database, op: Op, after: Database)
    requires JournalInv(db) && after == After(db, op) && Recorded(db)
    ensures Recorded(after)
  {
    var d, change := StepChanges(db, op, after);
    ChangeDispatches(db, d, after, change);
    ChangeRecords(db, d, after, change);
  }

  lemma EmptyRecorded(db: Database)
    requires db == EMPTY_DATABASE
    ensures Recorded(db)
  {
    EmptyTimed(db);
    EmptyAdmitted(db);
  }

  lemma {:induction false} RunRecorded(dbs: seq<Database>, ops: seq<Op>, n: nat)
    requires IsRun(dbs, ops) && n < |dbs|
    ensures Recorded(dbs[n])
  {
    if n == 0 {
      EmptyRecorded(dbs[0]);
    } else {
      RunRecorded(dbs, ops, n - 1);
      RunKeeps(dbs, ops, n - 1);
      assert StepAt(dbs, ops, n - 1);
      StepRecorded(dbs[n - 1], ops[n - 1], dbs[n]);
    }
  }

  lemma ReachedRecorded(db: Database)
    requires Reached(db)
    ensures Recorded(db)
  {
    var dbs, ops, n: nat :| IsRun(dbs, ops) && n < |dbs| && dbs[n] == db;
    RunRecorded(dbs, ops, n);
  }

  // ---- dispatches ----

  /**
    * Every observation logged for a dispatch version, in any run, justifies that version from the one before it, at
    * the clock logged with it. The child a lookup read is a settled row and stays one.
    */
  lemma StepsJustifiedOverRuns(db: Database, k: DispatchKey, v: nat, o: Observation) returns (child: Option<Dispatch>)
    requires Reached(db) && ObservationEvent(DispatchRow(k), v, o) in db.events
    ensures var h, c := DispatchHistory(db.events, k), ClockHistory(db.events, k);
            && 0 < v < |h| && v < |c| && o.now == Some(c[v]) && Justified(h[v - 1], h[v], o, child)
    ensures child.Some? ==>
              && child.value.settled && KeyOf(child.value) in db.dispatches
              && db.dispatches[KeyOf(child.value)] == child.value
  {
    ReachedRecorded(db);
    assert Seen(db.events, k, v, o);
    child := ExplainingChild(db, k, v, o);
  }

  /** Every version of a dispatch after the first has its observation in the log. */
  lemma StepsObservedOverRuns(db: Database, k: DispatchKey, v: nat) returns (o: Observation)
    requires Reached(db) && k in db.dispatches && 0 < v <= db.dispatches[k].version
    ensures ObservationEvent(DispatchRow(k), v, o) in db.events
  {
    ReachedRecorded(db);
    assert Witnessed(db.events, k, v);
    o :| Seen(db.events, k, v, o);
  }

  /**
    * How every settled initial dispatch of every run came by its outcome, read from the log: an operator's attestation
    * either way, or the worker's or a child's proved success. So a failure is settled only by an operator who attested
    * the effect absent.
    */
  lemma OutcomesOverRuns(db: Database, k: DispatchKey) returns (o: Observation, child: Option<Dispatch>)
    requires Reached(db) && k in db.dispatches && k.InitialKey? && db.dispatches[k].settled
    ensures var d := db.dispatches[k];
            && ObservationEvent(DispatchRow(k), d.version, o) in db.events
            && (ByOperator(d, o) || ByWorker(d, o) || ByReading(db.dispatches, d, o, child))
    ensures db.dispatches[k].state == Failed ==> ByOperator(db.dispatches[k], o)
  {
    ReachedHistory(db, k);
    ReachedFamilies(db);
    var h, c := DispatchHistory(db.events, k), ClockHistory(db.events, k);
    var v := db.dispatches[k].version;
    assert v == |h| - 1 && v > 0;
    assert Evolves(h[v - 1], h[v], c[v]);
    o := StepsObservedOverRuns(db, k, v);
    child := StepsJustifiedOverRuns(db, k, v, o);
    SettlesBy(db.dispatches, h[v - 1], h[v], o, child);
  }

  /** What a completed request of any run says of its dispatch: settled, and succeeded or absent as recorded. */
  lemma CompletionsOverRuns(db: Database, r: CreationKey)
    requires Reached(db) && r in db.requests && db.requests[r].value.phase == Completed
    ensures var v := db.requests[r].value;
            && v.approvalId.Some? && InitialKey(v.approvalId.value) in db.dispatches
            && var d := db.dispatches[InitialKey(v.approvalId.value)];
            && d.settled && v.contextDigest == Some(d.digest) && v.requestRevision == d.revision
            && (v.completionEffect == Some(CompletedSucceeded) <==> d.state == Succeeded)
            && (v.completionEffect == Some(CompletedAbsent) <==> d.state == Failed)
  {
    ReachedKeeps(db);
    assert CompletedBySettlement(db.requests[r].value, db.dispatches);
  }

  /**
    * The first, second and third lookups of every run come one, five and thirty seconds after the start, the first and
    * the second lookup: by the clocks logged with those versions, on one boot and without drift.
    */
  lemma LookupsSpacedOverRuns(db: Database, k: DispatchKey, v: nat, o: Observation) returns (j: nat)
    requires Reached(db) && ObservationEvent(DispatchRow(k), v, o) in db.events
    requires o.dispatchOperation == Some(OpLookup)
    ensures var h, c := DispatchHistory(db.events, k), ClockHistory(db.events, k);
            && j < v < |h| && v < |c| && CountsFrom(h, j, h[v - 1].reconciliationLookups)
            && h[v].reconciliationLookups == h[v - 1].reconciliationLookups + 1
            && Passed(c[j], c[v], Wait(h[v - 1].reconciliationLookups))
  {
    var child := StepsJustifiedOverRuns(db, k, v, o);
    ReachedRecorded(db);
    assert Seen(db.events, k, v, o);
    j := LookupWaits(DispatchHistory(db.events, k), ClockHistory(db.events, k), v, o, child);
  }

  /** An approval's children start one, five and thirty seconds after the parent, the first and the second child. */
  lemma ChildrenSpacedOverRuns(db: Database, a: string, i: nat)
    requires Reached(db) && i < |ChildKeys(db.rowids, a)|
    ensures var keys := ChildKeys(db.rowids, a);
            var p := if i == 0 then InitialKey(a) else keys[i - 1];
            && p in db.dispatches && keys[i] in db.dispatches
            && Passed(db.dispatches[p].started, db.dispatches[keys[i]].started, Wait(i))
  {
    ReachedRecorded(db);
    assert SpacedFor(db.rowids, db.dispatches, a);
    assert SpacedAt(ChildKeys(db.rowids, a), db.dispatches, a, i);
  }

  /**
    * An attested absence never contradicts the log: when an operator settled an initial dispatch as definitively
    * absent, no earlier report of its worker and no reading of any of its children, then or since, found success.
    */
  lemma AbsenceOverRuns(db: Database, k: DispatchKey, v: nat, o: Observation)
    requires Reached(db) && k.InitialKey? && ObservationEvent(DispatchRow(k), v, o) in db.events
    requires o.dispatchOperation == Some(OpSettle) && o.dispatchRecovery.Some?
    requires o.dispatchRecovery.value.effectDefinitivelyAbsent
    ensures forall u: nat, p :: u < v && Seen(db.events, k, u, p) && p.dispatchReadback.Some? ==>
                                  p.dispatchReadback.value.effect != EffectSucceeded
    ensures forall c :: c in db.dispatches && IsChildOf(c, k.approvalId) ==>
                          db.dispatches[c].reconciliationEffect != Some(EffectSucceeded)
  {
    ReachedRecorded(db);
    assert Seen(db.events, k, v, o);
    assert NoReport(db.events, k, v);
  }

  /** So it is in every state of every run. */
  lemma AdmissionOverRuns(db: Database, v: Dispatch, x: Dispatch, at: Clock)
    requires Reached(db)
    ensures JournalPreparation.RowsStored(db)
    ensures DispatchAdmission(db, v, at) == Ok(x) <==> JournalPreparation.Admits(db, v, x, at)
  {
    ReachedFamilies(db);
    JournalPreparation.RowsKeyed(db, v.approvalId);
    JournalPreparation.AdmissionExact(db, v, x, at);
  }

  // ---- decisions and requests ----

  /**
    * In every run: a decision that becomes committed was natively written, closed and pinned in the three versions
    * before, for the same event; and that native write was issued by the journal from a pending decision, or found
    * standing when it overtook an invalid one.
    */
  lemma StagesOverRuns(db: Database, a: string, i: nat)
    requires Reached(db) && 0 < i < |JournalDecisions.DecisionHistory(db.events, a)|
    ensures var h := JournalDecisions.DecisionHistory(db.events, a);
            && (h[i].phase == Committed && h[i - 1].phase != Committed ==> JournalDecisions.Passed(h, i))
            && (h[i].phase == WriteIssued ==> JournalDecisions.Issued(h, i))
            && (h[i].phase == Committed && h[i - 1].phase == Committed ==> h[i].event == h[i - 1].event)
  {
    ReachedRecorded(db);
    assert JournalDecisions.StagesOf(db, a);
    JournalDecisions.HistoryPassed(JournalDecisions.DecisionHistory(db.events, a), i);
  }

  /** In every run a filed request went through every stage, in order, at one revision and with one ask. */
  lemma FilingsOverRuns(db: Database, k: CreationKey, i: nat)
    requires Reached(db) && i < |JournalRequests.RequestHistory(db.events, k)|
    requires JournalRequests.RequestHistory(db.events, k)[i].phase == Filed
    ensures JournalRequests.Filings(JournalRequests.RequestHistory(db.events, k), i)
  {
    ReachedRecorded(db);
    assert JournalRequests.StagesOf(db, k);
    JournalRequests.HistoryFiles(JournalRequests.RequestHistory(db.events, k), i);
  }

  /** In every run the creation of a request's shell is issued at its second version and at no other. */
  lemma CreationIssuedOnce(db: Database, k: CreationKey, i: nat)
    requires Reached(db) && 0 < i < |JournalRequests.RequestHistory(db.events, k)|
    requires var h := JournalRequests.RequestHistory(db.events, k); h[i].createIssued && !h[i - 1].createIssued
    ensures i == 1
  {
    ReachedRecorded(db);
    assert JournalRequests.StagesOf(db, k);
    JournalRequests.HistoryIssues(JournalRequests.RequestHistory(db.events, k), i);
  }

  /**
    * A denial is final for its session: in no run is a request admitted or filed after a denial of the same workstream,
    * session, effect and target, however its explanation or alias reads.
    */
  lemma DeniedStaysDenied(db: Database, i: nat, j: nat)
    requires Reached(db) && i < j < |db.events| && db.events[i].DenialEvent?
    requires db.events[j].RequestEvent? && (db.events[j].version == 0 || db.events[j].request.phase == Filed)
    ensures db.events[j].request.denialIdentity != Some(db.events[i].identity)
  {
    ReachedRecorded(db);
    assert !Repeats(db.events[i], db.events[j]);
  }

  /** At most 4,096 requests and dispatches, 128 outstanding requests and two of one bead, in every run. */
  lemma BoundsOverRuns(db: Database, workstream: string, bead: string)
    requires Reached(db)
    ensures |db.requests| <= 4096 && |db.dispatches| <= 4096
    ensures |set k | k in db.requests && db.requests[k].outstanding| <= 128
    ensures |set k | k in db.requests && db.requests[k].outstanding && db.requests[k].workstream == workstream
                     && db.requests[k].bead == bead| <= 2
  {
    ReachedRecorded(db);
    assert |OnBead(db.requests, workstream, bead)| <= 2;
  }
}
