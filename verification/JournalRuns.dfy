/** The journal's invariant is kept by every transaction, so it holds after every run. */
module JournalRuns {
  import opened Outcomes
  import opened Clocks
  import opened Requests
  import opened Decisions
  import opened Dispatches
  import opened Transitions
  import opened TransitionFacts
  import opened JournalTables
  import opened JournalSpec
  import opened JournalCapacity
  import opened JournalSteps
  import opened JournalLog
  import opened JournalSafety

  ghost predicate Families(rowids: seq<DispatchKey>, dispatches: Dispatched) {
    forall a :: FamilySound(rowids, dispatches, a)
  }

  ghost predicate JournalInv(db: Database) {
    && RowsAgree(db)
    && CapacityHolds(db)
    && Keyed(db.decisions, db.dispatches, db.rowids)
    && LogRefined(db)
    && HistoriesLawful(db)
    && LocksExact(db.dispatches, db.resources)
    && Families(db.rowids, db.dispatches)
    && ChainHolds(db.requests, db.decisions, db.dispatches)
  }

  /** One step only appends to the log and keeps every approval chain. */
  ghost predicate Advances(db: Database, after: Database) {
    db.events <= after.events && ChainKept(db, after)
  }

  lemma ChainKeptTransfer(db: Database, mid: Database, after: Database)
    requires ChainKept(db, mid)
    requires after.requests == mid.requests && after.decisions == mid.decisions && after.dispatches == mid.dispatches
    ensures ChainKept(db, after)
  {
  }

  lemma GrewPrefix(db: Database, d: Delta, after: Database)
    requires Grew(db, d, after)
    ensures db.events <= after.events
  {
    assert after.events == db.events + (d.before + d.rows + d.behind);
  }

  // ---- requests ----

  /** The log after one request row was stored at its next version. */
  lemma RequestLogged(db: Database, d: Delta, after: Database, k: CreationKey, row: Row)
    requires LogRefined(db) && HistoriesLawful(db) && Grew(db, d, after) && RowShape(d.rows)
    requires d.rows != [] && d.rows[0] == RequestEvent(k, row.value.version, row.value)
    requires |d.rows| == 2 ==> d.rows[1].record == RequestRow(k)
    requires row.value.version == VersionCount(db, RequestRow(k))
    requires after.requests == db.requests[k := row] && after.decisions == db.decisions
    requires after.dispatches == db.dispatches
    ensures LogRefined(after) && HistoriesLawful(after)
  {
    assert TablesOf(after).requests == TablesOf(db).requests[k := row.value];
    RefinementKept(db, d, after);
    HistoriesUntouched(db, d, after);
  }

  lemma AdmittedRequest(db: Database, v: Request)
    requires RequestAdmission(db, v) == Ok(true)
    ensures v.key !in db.requests && v.version == 0 && v.phase == AllocationIntent
  {
  }

  lemma AddRequestKeeps(db: Database, v: Request, after: Database)
    requires JournalInv(db) && v.key !in db.requests && v.version == 0 && v.phase == AllocationIntent
    requires CommitEvents(Begin(InsertRequest(db, v), None), [RequestEvent(v.key, 0, v)]) == Ok(after)
    ensures JournalInv(after) && Advances(db, after)
  {
    var d := AddRequestStep(db, v);
    RequestAdded(db, v, d, after);
  }

  lemma RequestAdded(db: Database, v: Request, d: Delta, after: Database)
    requires JournalInv(db) && v.key !in db.requests && v.version == 0 && v.phase == AllocationIntent
    requires CapacityHolds(after) && Grew(db, d, after) && d.rows == [RequestEvent(v.key, 0, v)]
    requires after == InsertRequest(db, v).(events := after.events)
    ensures JournalInv(after) && Advances(db, after)
  {
    GrewPrefix(db, d, after);
    RequestLogged(db, d, after, v.key, Row(v.origin.workstream, v.origin.bead, true, v));
    ChainOnNewRequest(db, v);
    ChainKeptTransfer(db, InsertRequest(db, v), after);
  }

  lemma TransitionRequestKeeps(
    db: Database, k: CreationKey, owner: Option<CreationKey>, v: Request, o: Observation, sampled: Clock,
    after: Database)
    requires JournalInv(db) && k in db.requests && (owner.Some? ==> Holds(db, owner.value))
    requires RequestEvolves(db.requests[k].value, v, Lookup(db.decisions, OrEmpty(v.approvalId)),
                            Lookup(db.dispatches, InitialKey(OrEmpty(v.approvalId))))
    requires ApplyRequest(db, k, owner, v, o, sampled) == Ok(after)
    ensures JournalInv(after) && Advances(db, after)
  {
    var d, final := ApplyRequestStep(db, k, owner, v, o, sampled);
    RequestRowStored(db, d, after, k, final, sampled);
  }

  lemma RequestRowStored(db: Database, d: Delta, after: Database, k: CreationKey, final: Request, sampled: Clock)
    requires JournalInv(db) && CapacityHolds(after) && Grew(db, d, after) && RequestStored(db, k, final, after)
    requires d.rows == [RequestEvent(k, final.version, final), ClockEvent(RequestRow(k), final.version, sampled)]
    ensures JournalInv(after) && Advances(db, after)
  {
    GrewPrefix(db, d, after);
    RequestLogged(db, d, after, k, StoreRequest(db, k, final).requests[k]);
    ChainOnRequestStep(db, k, final);
    ChainKeptTransfer(db, StoreRequest(db, k, final), after);
  }

  // ---- decisions ----

  lemma DecisionLogged(db: Database, d: Delta, after: Database, a: string, v: Decision)
    requires LogRefined(db) && HistoriesLawful(db) && Grew(db, d, after) && RowShape(d.rows)
    requires d.rows != [] && d.rows[0] == DecisionEvent(a, v.version, v)
    requires |d.rows| == 2 ==> d.rows[1].record == DecisionRow(a)
    requires v.version == VersionCount(db, DecisionRow(a))
    requires after.requests == db.requests && after.decisions == db.decisions[a := v]
    requires after.dispatches == db.dispatches
    ensures LogRefined(after) && HistoriesLawful(after)
  {
    assert TablesOf(after).requests == TablesOf(db).requests;
    RefinementKept(db, d, after);
    HistoriesUntouched(db, d, after);
  }

  lemma NoRowsLogged(db: Database, d: Delta, after: Database)
    requires LogRefined(db) && HistoriesLawful(db) && Grew(db, d, after) && d.rows == []
    requires after == db.(denials := after.denials, events := after.events)
    ensures LogRefined(after) && HistoriesLawful(after)
  {
    assert TablesOf(after) == TablesOf(db);
    RefinementKept(db, d, after);
    HistoriesUntouched(db, d, after);
  }

  lemma NothingLogged(db: Database, d: Delta, after: Database)
    requires JournalInv(db) && CapacityHolds(after) && Grew(db, d, after) && d.rows == []
    requires after == db.(denials := after.denials, events := after.events)
    ensures JournalInv(after) && Advances(db, after)
  {
    GrewPrefix(db, d, after);
    NoRowsLogged(db, d, after);
    ChainKeptTransferSelf(db);
    ChainKeptTransfer(db, db, after);
  }

  /** A written decision is new, or replaces an invalid one at the next version. */
  lemma DecisionPlanFacts(db: Database, v: Decision)
    requires DecisionAdmission(db, v).Ok? && DecisionAdmission(db, v).value.write.Some?
    ensures var w := DecisionAdmission(db, v).value.write.value;
            && w.approvalId == v.approvalId
            && (if v.approvalId in db.decisions
                then db.decisions[v.approvalId].phase == Invalid && w.version == db.decisions[v.approvalId].version + 1
                else w.version == 0)
  {
  }

  lemma DecisionRowStored(db: Database, d: Delta, after: Database, a: string, v: Decision)
    requires JournalInv(db) && CapacityHolds(after) && Grew(db, d, after) && RowShape(d.rows)
    requires d.rows != [] && d.rows[0] == DecisionEvent(a, v.version, v)
    requires (|d.rows| == 2 ==> d.rows[1].record == DecisionRow(a))
    requires v.approvalId == a && v.version == VersionCount(db, DecisionRow(a))
    requires a in db.decisions ==> DecisionEvolves(db.decisions[a], v) || db.decisions[a].phase == Invalid
    requires after == db.(decisions := db.decisions[a := v], denials := after.denials, events := after.events)
    ensures JournalInv(after) && Advances(db, after)
  {
    GrewPrefix(db, d, after);
    DecisionLogged(db, d, after, a, v);
    ChainOnDecision(db, a, v);
    ChainKeptTransfer(db, db.(decisions := db.decisions[a := v]), after);
  }

  lemma AddDecisionKeeps(db: Database, v: Decision, after: Database)
    requires JournalInv(db) && AddDecision(db, v) == Ok(after)
    ensures JournalInv(after) && Advances(db, after)
  {
    var plan := DecisionAdmission(db, v).value;
    DecisionPlanOwner(db, v);
    var d := WriteDecisionStep(db, v, plan);
    if plan.write.Some? {
      DecisionPlanFacts(db, v);
      DecisionRowStored(db, d, after, v.approvalId, plan.write.value);
    } else {
      NothingLogged(db, d, after);
    }
  }

  lemma TransitionDecisionKeeps(
    db: Database, a: string, owner: Option<CreationKey>, v: Decision, o: Observation, sampled: Clock, after: Database)
    requires JournalInv(db) && a in db.decisions && v.approvalId == a && (owner.Some? ==> Holds(db, owner.value))
    requires DecisionEvolves(db.decisions[a], v) && ApplyDecision(db, a, owner, v, o, sampled) == Ok(after)
    ensures JournalInv(after) && Advances(db, after)
  {
    var d := ApplyDecisionStep(db, a, owner, v, o, sampled);
    DecisionRowStored(db, d, after, a, v);
  }

  lemma RecordDenialKeeps(db: Database, r: Request, x: Decision, after: Database)
    requires JournalInv(db) && RecordDenial(db, r, x) == Ok(after)
    ensures JournalInv(after) && Advances(db, after)
  {
    var d := RecordDenialStep(db, r, x);
    NothingLogged(db, d, after);
  }

  // ---- dispatches ----

  /** What an admitted dispatch is: a fresh well-formed record under a committed approval for a filed request. */
  ghost predicate AdmittedDispatch(db: Database, x: Dispatch, sampled: Clock)
    requires RowidsStored(db)
  {
    && x.version == 0 && x.state == Preparing && !x.settled && x.started == sampled && x.reconciliationAttempts == []
    && WellFormed(x) && KeyOf(x) !in db.dispatches
    && Approved(db.decisions, x) && (exists r :: AdmittedFor(db.requests, x, r))
    && (x.kind == Initial ==> forall l :: l in LocksOf(x) ==> l !in db.resources)
    && (x.kind == Reconcile ==>
          InitialKey(x.approvalId) in db.dispatches && Reconcilable(db, db.dispatches[InitialKey(x.approvalId)], x))
  }

  lemma PreparedFacts(db: Database, v: Dispatch, sampled: Clock)
    requires PreparedDispatch(db, v, sampled).Ok?
    ensures var x := PreparedDispatch(db, v, sampled).value;
            && x.version == 0 && x.state == Preparing && !x.settled && x.started == sampled
            && x.reconciliationAttempts == []
            && WellFormed(x) && KeyOf(x) !in db.dispatches
  {
  }

  lemma GateFacts(db: Database, x: Dispatch)
    requires ApprovalGate(db, x).Ok?
    ensures Approved(db.decisions, x) && exists r :: AdmittedFor(db.requests, x, r)
  {
    var r :| r in db.requests && UniqueRequest(db, x.approvalId, r)
             && RequestFor(db, x.approvalId).value == db.requests[r].value;
    assert AdmittedFor(db.requests, x, r);
  }

  lemma AdmissionFacts(db: Database, v: Dispatch, sampled: Clock)
    requires RowidsStored(db) && DispatchAdmission(db, v, sampled).Ok?
    ensures AdmittedDispatch(db, DispatchAdmission(db, v, sampled).value, sampled)
  {
    var x := PreparedDispatch(db, v, sampled).value;
    AdmissionParts(db, v, sampled);
    PreparedFacts(db, v, sampled);
    GateFacts(db, x);
  }

  /** What an admission consists of. */
  lemma AdmissionParts(db: Database, v: Dispatch, sampled: Clock)
    requires RowidsStored(db) && DispatchAdmission(db, v, sampled).Ok?
    ensures PreparedDispatch(db, v, sampled) == DispatchAdmission(db, v, sampled)
    ensures var x := DispatchAdmission(db, v, sampled).value;
            && ApprovalGate(db, x).Ok?
            && (x.kind == Initial ==> forall l :: l in LocksOf(x) ==> l !in db.resources)
            && (x.kind == Reconcile ==>
                  InitialKey(x.approvalId) in db.dispatches
                  && Reconcilable(db, db.dispatches[InitialKey(x.approvalId)], x))
  {
  }

  lemma DispatchLogged(db: Database, d: Delta, after: Database, k: DispatchKey, x: Dispatch, sampled: Clock)
    requires LogRefined(db) && HistoriesLawful(db) && Grew(db, d, after)
    requires d.rows == [DispatchEvent(k, x.version, x), ClockEvent(DispatchRow(k), x.version, sampled)]
    requires WellFormed(x)
    requires k !in db.dispatches ==> x.version == 0 && x.state == Preparing && !x.settled && x.started == sampled
    requires k in db.dispatches ==> Evolves(db.dispatches[k], x, sampled)
    requires after.requests == db.requests && after.decisions == db.decisions
    requires after.dispatches == db.dispatches[k := x]
    ensures LogRefined(after) && HistoriesLawful(after)
  {
    assert TablesOf(after).requests == TablesOf(db).requests;
    RefinementKept(db, d, after);
    HistoriesExtended(db, d, after, k, x, sampled);
  }

  lemma InsertedFamilies(db: Database, x: Dispatch, sampled: Clock)
    requires JournalInv(db) && AdmittedDispatch(db, x, sampled)
    ensures Families(db.rowids + [KeyOf(x)], db.dispatches[KeyOf(x) := x])
  {
    if x.kind == Reconcile {
      ReconcilableChild(db, x);
    }
    var rowids, after := db.rowids + [KeyOf(x)], db.dispatches[KeyOf(x) := x];
    forall a ensures FamilySound(rowids, after, a) {
      assert FamilySound(db.rowids, db.dispatches, a);
      if x.kind == Initial {
        FamilyOnInsertInitial(db.rowids, db.dispatches, x, a);
      } else {
        FamilyOnInsertChild(db.rowids, db.dispatches, x, a);
      }
    }
  }

  lemma InsertedKeyed(db: Database, x: Dispatch)
    requires Keyed(db.decisions, db.dispatches, db.rowids) && KeyOf(x) !in db.dispatches && WellFormed(x)
    ensures Keyed(db.decisions, db.dispatches[KeyOf(x) := x], db.rowids + [KeyOf(x)])
  {
    NoDuplicatesAppend(db.rowids, KeyOf(x));
  }

  lemma AddDispatchKeeps(db: Database, x: Dispatch, owner: Option<CreationKey>, sampled: Clock, after: Database)
    requires JournalInv(db) && AdmittedDispatch(db, x, sampled) && (owner.Some? ==> Holds(db, owner.value))
    requires CommitEvents(Begin(InsertDispatch(db, x), owner), DispatchEvents(x, sampled)) == Ok(after)
    ensures JournalInv(after) && Advances(db, after)
  {
    var d := InsertDispatchStep(db, x, owner, sampled);
    GrewPrefix(db, d, after);
    DispatchLogged(db, d, after, KeyOf(x), x, sampled);
    InsertedFamilies(db, x, sampled);
    InsertedKeyed(db, x);
    LocksOnInsert(db.dispatches, db.resources, x);
    var r :| AdmittedFor(db.requests, x, r);
    ChainOnNewDispatch(db, x, r);
    ChainKeptTransfer(db, InsertDispatch(db, x), after);
  }

  lemma SteppedFamily(db: Database, k: DispatchKey, x: Dispatch, sampled: Clock)
    requires JournalInv(db) && DispatchStored(db, k, x, sampled)
    ensures FamilySound(db.rowids, db.dispatches[k := x], k.approvalId)
  {
    assert FamilySound(db.rowids, db.dispatches, k.approvalId);
    if k.ReconcileKey? {
      FamilyOnChildStep(db.rowids, db.dispatches, k, x, sampled);
    } else {
      if x.settled {
        SettledNeedsChildren(db, k, x, sampled);
      }
      AttemptsReadChildren(db, k, x, sampled);
      FamilyOnParentStep(db.rowids, db.dispatches, x, sampled, k.approvalId);
    }
  }

  lemma SteppedFamilies(db: Database, k: DispatchKey, x: Dispatch, sampled: Clock)
    requires JournalInv(db) && DispatchStored(db, k, x, sampled)
    ensures Families(db.rowids, db.dispatches[k := x])
  {
    SteppedFamily(db, k, x, sampled);
    var after := db.dispatches[k := x];
    forall a ensures FamilySound(db.rowids, after, a) {
      if k.approvalId != a {
        assert FamilySound(db.rowids, db.dispatches, a);
        FamilyElsewhere(db.rowids, db.dispatches, k, x, a);
      }
    }
  }

  lemma SettledNeedsChildren(db: Database, k: DispatchKey, x: Dispatch, sampled: Clock)
    requires JournalInv(db) && DispatchStored(db, k, x, sampled) && k.InitialKey? && x.settled
    ensures forall c :: c in ChildKeys(db.rowids, k.approvalId) ==> c in db.dispatches && db.dispatches[c].settled
  {
    var keys := ChildKeys(db.rowids, k.approvalId);
    var children := Children(db, k.approvalId);
    forall c | c in keys ensures c in db.dispatches && db.dispatches[c].settled {
      var i :| 0 <= i < |keys| && keys[i] == c;
      assert children[i] in children;
    }
  }

  lemma AttemptsReadChildren(db: Database, k: DispatchKey, x: Dispatch, sampled: Clock)
    requires Keyed(db.decisions, db.dispatches, db.rowids) && DispatchStored(db, k, x, sampled) && k.InitialKey?
    ensures forall n :: n in x.reconciliationAttempts ==>
                          n in db.dispatches[k].reconciliationAttempts || SettledChild(db.dispatches, k.approvalId, n)
  {
    var prior := db.dispatches[k];
    if x.reconciliationLookups != prior.reconciliationLookups {
      var c :| c in db.dispatches && ReadableChild(prior, db.dispatches[c])
               && x.reconciliationAttempts == prior.reconciliationAttempts + [db.dispatches[c].attemptId];
      assert KeyOf(db.dispatches[c]) == c;
      assert SettledChild(db.dispatches, k.approvalId, db.dispatches[c].attemptId);
    }
  }

  lemma TransitionDispatchKeeps(
    db: Database, k: DispatchKey, owner: Option<CreationKey>, x: Dispatch, o: Observation, sampled: Clock,
    after: Database)
    requires JournalInv(db) && DispatchStored(db, k, x, sampled) && (owner.Some? ==> Holds(db, owner.value))
    requires ApplyDispatch(db, k, owner, x, o, sampled) == Ok(after)
    ensures JournalInv(after) && Advances(db, after)
  {
    var d := ApplyDispatchStep(db, k, owner, x, o, sampled);
    DispatchRowStored(db, d, after, k, x, sampled);
  }

  lemma SteppedKeyed(db: Database, k: DispatchKey, x: Dispatch)
    requires Keyed(db.decisions, db.dispatches, db.rowids) && k in db.dispatches && KeyOf(x) == k && WellFormed(x)
    ensures Keyed(db.decisions, db.dispatches[k := x], db.rowids)
  {
  }

  lemma DispatchRowStored(db: Database, d: Delta, after: Database, k: DispatchKey, x: Dispatch, sampled: Clock)
    requires JournalInv(db) && DispatchStored(db, k, x, sampled) && CapacityHolds(after) && Grew(db, d, after)
    requires d.rows == [DispatchEvent(k, x.version, x), ClockEvent(DispatchRow(k), x.version, sampled)]
    requires after == StoreDispatch(db, k, x).(events := after.events)
    ensures JournalInv(after) && Advances(db, after)
  {
    GrewPrefix(db, d, after);
    DispatchLogged(db, d, after, k, x, sampled);
    SteppedFamilies(db, k, x, sampled);
    SteppedKeyed(db, k, x);
    SteppedLocks(db, k, x, sampled);
    SteppedChain(db, k, x, sampled);
  }

  lemma SteppedLocks(db: Database, k: DispatchKey, x: Dispatch, sampled: Clock)
    requires RowidsStored(db) && LocksExact(db.dispatches, db.resources) && DispatchStored(db, k, x, sampled)
    ensures LocksExact(StoreDispatch(db, k, x).dispatches, StoreDispatch(db, k, x).resources)
  {
    assert LocksOf(x) == LocksOf(db.dispatches[k]);
    LocksOnStore(db.dispatches, db.resources, k, x);
  }

  lemma SteppedChain(db: Database, k: DispatchKey, x: Dispatch, sampled: Clock)
    requires ChainHolds(db.requests, db.decisions, db.dispatches)
    requires RowidsStored(db) && DispatchStored(db, k, x, sampled)
    ensures ChainHolds(db.requests, db.decisions, StoreDispatch(db, k, x).dispatches)
    ensures ChainKept(db, StoreDispatch(db, k, x))
  {
    ChainOnDispatchStep(db, k, x);
  }

  // ---- runs ----

  /** A transaction that goes through leaves a sound state that is the same or only grew. */
  ghost predicate Steps(db: Database, r: Result<Database>) {
    r.Ok? ==> JournalInv(r.value) && (r.value == db || Advances(db, r.value))
  }

  lemma AddRequestSteps(db: Database, v: Request)
    requires JournalInv(db)
    ensures Steps(db, AddRequest(db, v))
  {
    var r := AddRequest(db, v);
    if r.Ok? && RequestAdmission(db, v) == Ok(true) {
      AdmittedRequest(db, v);
      AddRequestKeeps(db, v, r.value);
    }
  }

  lemma AddDecisionSteps(db: Database, v: Decision)
    requires JournalInv(db)
    ensures Steps(db, AddDecision(db, v))
  {
    var r := AddDecision(db, v);
    if r.Ok? {
      AddDecisionKeeps(db, v, r.value);
    }
  }

  lemma RecordDenialSteps(db: Database, v: Request, x: Decision)
    requires JournalInv(db)
    ensures Steps(db, RecordDenial(db, v, x))
  {
    var r := RecordDenial(db, v, x);
    if r.Ok? {
      RecordDenialKeeps(db, v, x, r.value);
    }
  }

  lemma AddDispatchSteps(db: Database, v: Dispatch, sampled: Clock)
    requires JournalInv(db)
    ensures Steps(db, AddDispatch(db, v, sampled))
  {
    var r := AddDispatch(db, v, sampled);
    if r.Ok? {
      AdmissionFacts(db, v, sampled);
      var x := DispatchAdmission(db, v, sampled).value;
      if x.kind == Initial {
        AddDispatchKeeps(db, x, None, sampled, r.value);
      } else {
        OwnerHolds(db, x.approvalId);
        AddDispatchKeeps(db, x, OwnerFor(db, x.approvalId).value, sampled, r.value);
      }
    }
  }

  lemma DispatchSteps(db: Database, k: DispatchKey, n: nat, v: Dispatch, o: Observation, sampled: Clock)
    requires JournalInv(db)
    ensures Steps(db, TransitionDispatch(db, k, n, v, o, sampled))
  {
    var r, plan := TransitionDispatch(db, k, n, v, o, sampled), PlanDispatch(db, k, n, v, o, sampled);
    if r.Ok? && plan.value.Store? {
      PlanDispatchFacts(db, k, n, v, o, sampled);
      TransitionDispatchKeeps(db, k, plan.value.owner, plan.value.value, plan.value.observation, sampled, r.value);
    }
  }

  lemma RequestSteps(db: Database, k: CreationKey, n: nat, v: Request, o: Observation, sampled: Clock)
    requires JournalInv(db)
    ensures Steps(db, TransitionRequest(db, k, n, v, o, sampled))
  {
    var r, plan := TransitionRequest(db, k, n, v, o, sampled), PlanRequest(db, k, n, v, o, sampled);
    if r.Ok? && plan.value.Store? {
      PlanRequestFacts(db, k, n, v, o, sampled);
      TransitionRequestKeeps(db, k, plan.value.owner, v, plan.value.observation, sampled, r.value);
    }
  }

  lemma DecisionSteps(db: Database, a: string, n: nat, v: Decision, o: Observation, sampled: Clock)
    requires JournalInv(db)
    ensures Steps(db, TransitionDecision(db, a, n, v, o, sampled))
  {
    var r, plan := TransitionDecision(db, a, n, v, o, sampled), PlanDecision(db, a, n, v, o, sampled);
    if r.Ok? && plan.value.Store? {
      PlanDecisionFacts(db, a, n, v, o, sampled);
      TransitionDecisionKeeps(db, a, plan.value.owner, v, plan.value.observation, sampled, r.value);
    }
  }

  lemma OpSteps(db: Database, op: Op)
    requires JournalInv(db)
    ensures Steps(db, Perform(db, op))
  {
    match op
    case OpAddRequest(v) => AddRequestSteps(db, v);
    case OpAddDecision(v) => AddDecisionSteps(db, v);
    case OpAddDispatch(v, sampled) => AddDispatchSteps(db, v, sampled);
    case OpRecordDenial(v, x) => RecordDenialSteps(db, v, x);
    case OpRequest(k, n, v, o, sampled) => RequestSteps(db, k, n, v, o, sampled);
    case OpDecision(a, n, v, o, sampled) => DecisionSteps(db, a, n, v, o, sampled);
    case OpDispatch(k, n, v, o, sampled) => DispatchSteps(db, k, n, v, o, sampled);
  }

  lemma SettledKeeps(db: Database, r: Result<Database>)
    requires JournalInv(db) && Steps(db, r)
    ensures JournalInv(Settled(db, r)) && Advances(db, Settled(db, r))
  {
    ChainKeptTransferSelf(db);
  }

  lemma StepKeeps(db: Database, op: Op)
    requires JournalInv(db)
    ensures JournalInv(After(db, op)) && Advances(db, After(db, op))
  {
    OpSteps(db, op);
    SettledKeeps(db, Perform(db, op));
  }

  lemma ChainKeptTransferSelf(db: Database)
    ensures ChainKept(db, db)
  {
  }

  lemma EmptyInv()
    ensures JournalInv(EMPTY_DATABASE)
  {
    forall a ensures FamilySound([], map[], a) {
      assert ChildKeys([], a) == [];
    }
    assert TablesOf(EMPTY_DATABASE) == Tables(map[], map[], map[]);
    forall record ensures LoggedVersions([], record) == Upto(VersionCount(EMPTY_DATABASE, record)) {
    }
    forall k ensures HistoryOf(EMPTY_DATABASE, k) {
    }
  }

  /** Runs of any operations exist. */
  lemma {:induction false} RunsExist(ops: seq<Op>) returns (dbs: seq<Database>)
    ensures IsRun(dbs, ops)
  {
    if ops == [] {
      dbs := [EMPTY_DATABASE];
    } else {
      var before := RunsExist(ops[..|ops| - 1]);
      dbs := RunGrows(before, ops);
    }
  }

  lemma RunGrows(before: seq<Database>, ops: seq<Op>) returns (dbs: seq<Database>)
    requires ops != [] && IsRun(before, ops[..|ops| - 1])
    ensures IsRun(dbs, ops)
  {
    var after := After(before[|ops| - 1], ops[|ops| - 1]);
    dbs := before + [after];
    forall i | 0 <= i < |ops| ensures StepAt(dbs, ops, i) {
      if i < |ops| - 1 {
        assert StepAt(before, ops[..|ops| - 1], i);
      }
    }
  }

  /** Every run of the journal, from the empty database, keeps the whole invariant. */
  lemma {:induction false} RunKeeps(dbs: seq<Database>, ops: seq<Op>, n: nat)
    requires IsRun(dbs, ops) && n < |dbs|
    ensures JournalInv(dbs[n])
  {
    if n == 0 {
      EmptyInv();
    } else {
      RunKeeps(dbs, ops, n - 1);
      RunAdvances(dbs, ops, n);
    }
  }

  lemma RunAdvances(dbs: seq<Database>, ops: seq<Op>, n: nat)
    requires IsRun(dbs, ops) && 0 < n < |dbs| && JournalInv(dbs[n - 1])
    ensures JournalInv(dbs[n]) && Advances(dbs[n - 1], dbs[n])
  {
    assert StepAt(dbs, ops, n - 1);
    StepKeeps(dbs[n - 1], ops[n - 1]);
  }

  lemma ReachedKeeps(db: Database)
    requires Reached(db)
    ensures JournalInv(db)
  {
    var dbs, ops, n: nat :| IsRun(dbs, ops) && n < |dbs| && dbs[n] == db;
    RunKeeps(dbs, ops, n);
  }

  // ---- the main theorems, over every run ----

  /** The log plus every unspent terminal reserve fits in 16,384 events after every transaction of every run. */
  lemma CapacityOverRuns(db: Database)
    requires Reached(db)
    ensures |db.events| + Reserved(db) <= MAX_EVENTS
    ensures forall k :: ReserveUsed(db.events, k) <= TERMINAL_RESERVE
  {
    ReachedKeeps(db);
  }

  /** The tables are exactly the replay of the log, and every record's logged versions are 0..v without gaps. */
  lemma LogRebuildsTables(db: Database, record: RecordKey)
    requires Reached(db)
    ensures Replay(db.events) == TablesOf(db)
    ensures LoggedVersions(db.events, record) == Upto(VersionCount(db, record))
  {
    ReachedKeeps(db);
  }

  lemma ReachedHistory(db: Database, k: DispatchKey)
    requires Reached(db)
    ensures HistoryOf(db, k)
  {
    ReachedKeeps(db);
  }

  /** At most one outward effect per approval, with its timing, read from the log of any run. */
  lemma OneEffectPerApproval(db: Database, a: string, i: int)
    requires Reached(db) && ConsumesAt(DispatchHistory(db.events, InitialKey(a)), i)
    ensures var h, c := DispatchHistory(db.events, InitialKey(a)), ClockHistory(db.events, InitialKey(a));
            && |c| == |h|
            && (forall j :: ConsumesAt(h, j) ==> j == i)
            && (forall j :: i <= j < |h| ==> h[j].claimConsumed && h[j].state !in {Preparing, Ready, Held})
            && 1 < i && h[i - 1].state == Ready && h[i].launchAttempts <= MAX_LAUNCHES
            && c[i].bootId == c[0].bootId && c[0].mono <= c[i].mono < c[0].mono + DISPATCH_WINDOW
            && c[i].mono < c[i - 1].mono + CLAIM_WINDOW
  {
    ReachedHistory(db, InitialKey(a));
    AtMostOneEffect(DispatchHistory(db.events, InitialKey(a)), ClockHistory(db.events, InitialKey(a)), i);
  }

  /** Reconciliation children never consume a claim. */
  lemma ChildrenNeverAct(db: Database, k: DispatchKey)
    requires Reached(db) && k in db.dispatches && k.ReconcileKey?
    ensures !db.dispatches[k].claimConsumed && db.dispatches[k].claimHash.None?
  {
    ReachedFamilies(db);
  }

  /** What later states owe to a dispatch that was once admitted. */
  ghost predicate StillStands(earlier: Database, now: Database, k: DispatchKey, r: CreationKey) {
    && earlier.events <= now.events
    && k in earlier.dispatches && k in now.dispatches
    && var d := earlier.dispatches[k];
    && SameDispatch(d, now.dispatches[k])
    && Approved(now.decisions, d)
    && AdmittedFor(now.requests, d, r)
    && DecisionKept(earlier.decisions, now.decisions, d.approvalId)
    && r in earlier.requests
    && (earlier.requests[r].value.phase == Completed ==> now.requests[r] == earlier.requests[r])
    && (now.requests[r].value.phase == Completed ==> CompletedBySettlement(now.requests[r].value, now.dispatches))
  }

  lemma StandsOneMore(earlier: Database, db: Database, after: Database, k: DispatchKey, r: CreationKey)
    requires StillStands(earlier, db, k, r) && Advances(db, after)
    requires ChainHolds(after.requests, after.decisions, after.dispatches)
    ensures StillStands(earlier, after, k, r)
  {
    assert AdmittedFor(db.requests, db.dispatches[k], r);
    assert AdmissionKept(db.requests, after.requests, db.dispatches[k], r);
    assert Approved(db.decisions, db.dispatches[k]);
    assert DecisionKept(db.decisions, after.decisions, db.dispatches[k].approvalId);
    assert SameDispatch(db.dispatches[k], after.dispatches[k]);
  }

  lemma RunChains(dbs: seq<Database>, ops: seq<Op>, n: nat)
    requires IsRun(dbs, ops) && n < |dbs|
    ensures ChainHolds(dbs[n].requests, dbs[n].decisions, dbs[n].dispatches)
  {
    RunKeeps(dbs, ops, n);
  }

  lemma ChainStep(dbs: seq<Database>, ops: seq<Op>, n: nat)
    requires IsRun(dbs, ops) && 0 < n < |dbs|
    ensures Advances(dbs[n - 1], dbs[n])
  {
    RunKeeps(dbs, ops, n - 1);
    RunAdvances(dbs, ops, n);
  }

  /**
    * The end-to-end approval chain: from admission on, in every later state of the run, approval and request still
    * stand.
    */
  lemma {:induction false} ChainOverRuns(
    dbs: seq<Database>, ops: seq<Op>, m: nat, n: nat, k: DispatchKey, r: CreationKey)
    requires IsRun(dbs, ops) && m <= n < |dbs| && k in dbs[m].dispatches
    requires AdmittedFor(dbs[m].requests, dbs[m].dispatches[k], r)
    ensures StillStands(dbs[m], dbs[n], k, r)
    decreases n
  {
    RunChains(dbs, ops, n);
    if m < n {
      ChainOverRuns(dbs, ops, m, n - 1, k, r);
      ChainStep(dbs, ops, n);
      StandsOneMore(dbs[m], dbs[n - 1], dbs[n], k, r);
    } else {
      StandsAtOnce(dbs[m], k, r);
    }
  }

  lemma StandsAtOnce(db: Database, k: DispatchKey, r: CreationKey)
    requires ChainHolds(db.requests, db.decisions, db.dispatches)
    requires k in db.dispatches && AdmittedFor(db.requests, db.dispatches[k], r)
    ensures StillStands(db, db, k, r)
  {
  }

  /**
    * Every dispatch of every run was admitted against some request, which is filed or was completed by its
    * settlement.
    */
  lemma EveryDispatchApproved(db: Database, k: DispatchKey)
    requires Reached(db) && k in db.dispatches
    ensures Approved(db.decisions, db.dispatches[k])
    ensures exists r :: AdmittedFor(db.requests, db.dispatches[k], r)
  {
    ReachedKeeps(db);
  }

  /** In every run lock rows are exactly those of the unsettled initial dispatches: a settled one has none. */
  lemma LocksOverRuns(db: Database)
    requires Reached(db)
    ensures LocksExact(db.dispatches, db.resources)
  {
    ReachedKeeps(db);
  }

  /** In every run no two unsettled initial dispatches share a resource, a target or an approval. */
  lemma ExclusionOverRuns(db: Database, j: DispatchKey, k: DispatchKey)
    requires Reached(db) && Holding(db.dispatches, j) && Holding(db.dispatches, k) && j != k
    ensures var d := db.dispatches;
            d[j].resource != d[k].resource && d[j].target != d[k].target && d[j].approvalId != d[k].approvalId
  {
    LocksOverRuns(db);
    ResourceExclusion(db.dispatches, db.resources, j, k);
  }

  lemma ReachedFamilies(db: Database)
    requires Reached(db)
    ensures Families(db.rowids, db.dispatches) && Keyed(db.decisions, db.dispatches, db.rowids)
  {
    ReachedKeeps(db);
  }

  /** In every run an approval has at most one open child, and only while its parent is open. */
  lemma OneOpenChildOverRuns(db: Database, a: string, j: DispatchKey, k: DispatchKey)
    requires Reached(db)
    requires j in db.dispatches && IsChildOf(j, a) && !db.dispatches[j].settled
    requires k in db.dispatches && IsChildOf(k, a) && !db.dispatches[k].settled
    ensures j == k && InitialKey(a) in db.dispatches && !db.dispatches[InitialKey(a)].settled
  {
    ReachedFamilies(db);
    assert FamilySound(db.rowids, db.dispatches, a);
    OneOpenChild(db.rowids, db.dispatches, a, j, k);
  }

  /** In every run the startup and claim nonces of a dispatch are distinct, and no child of it presents one of them. */
  lemma ParentNoncesOverRuns(db: Database, a: string)
    requires Reached(db) && InitialKey(a) in db.dispatches
    ensures NoDuplicates(Nonces(db.dispatches[InitialKey(a)]))
    ensures forall j :: j in db.dispatches && IsChildOf(j, a) ==>
                          db.dispatches[j].startupHash !in Nonces(db.dispatches[InitialKey(a)])
  {
    ReachedFamilies(db);
    assert FamilySound(db.rowids, db.dispatches, a);
    forall j | j in db.dispatches && IsChildOf(j, a)
      ensures db.dispatches[j].startupHash !in Nonces(db.dispatches[InitialKey(a)])
    {
      ChildNonceFresh(db.rowids, db.dispatches, a, j);
    }
  }

  /** In every run two children of an approval present different nonces. */
  lemma SiblingNoncesOverRuns(db: Database, a: string, j: DispatchKey, k: DispatchKey)
    requires Reached(db) && j in db.dispatches && IsChildOf(j, a) && k in db.dispatches && IsChildOf(k, a) && j != k
    ensures db.dispatches[j].startupHash != db.dispatches[k].startupHash
  {
    ReachedFamilies(db);
    assert FamilySound(db.rowids, db.dispatches, a);
    SiblingNoncesDiffer(db.rowids, db.dispatches, a, j, k);
  }

  /**
    * Children are bounded, applied lookups count distinct settled children, and the parent's nonces are distinct, in
    * every run.
    */
  lemma FamiliesOverRuns(db: Database, a: string)
    requires Reached(db) && InitialKey(a) in db.dispatches
    ensures var p := db.dispatches[InitialKey(a)];
            && |set k | k in db.dispatches && IsChildOf(k, a)| <= 3
            && p.reconciliationLookups == |p.reconciliationAttempts| <= 3
            && NoDuplicates(p.reconciliationAttempts)
            && (forall n :: n in p.reconciliationAttempts ==>
                              ReconcileKey(a, n) in db.dispatches && db.dispatches[ReconcileKey(a, n)].settled)
            && NoDuplicates(Nonces(p))
  {
    ReachedFamilies(db);
    assert FamilySound(db.rowids, db.dispatches, a);
    BoundedReconciliation(db.rowids, db.dispatches, a);
  }
}
