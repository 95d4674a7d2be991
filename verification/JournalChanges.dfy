/** The seven ways a transaction changes the journal, each with the evidence that admitted it. */
module JournalChanges {
  import opened Outcomes
  import opened Clocks
  import opened Requests
  import opened Decisions
  import opened Dispatches
  import opened Transitions
  import opened TransitionFacts
  import opened DispatchOutcomes
  import opened DecisionOutcomes
  import opened RequestOutcomes
  import opened JournalTables
  import opened JournalSpec
  import opened JournalCapacity
  import opened JournalSteps
  import opened JournalLog
  import opened JournalSafety
  import opened JournalRuns

  datatype Change =
    | Unchanged
    | NothingStored
    | RequestAdded(added: Request)
    | RequestMoved(key: CreationKey, proposed: Request, final: Request, evidence: Observation, at: Clock)
    | DecisionWritten(event: Decision, written: Decision)
    | DecisionMoved(approvalId: string, moved: Decision, request: Request, evidence: Observation, at: Clock)
    | DispatchAdded(admitted: Dispatch, at: Clock)
    | DispatchMoved(dispatchKey: DispatchKey, stored: Dispatch, evidence: Observation, child: Option<Dispatch>,
                    at: Clock)

  // ---- admission of a decision ----

  /** A native event that overtook the invalid decision must be the one now offered. */
  predicate Replaces(p: Decision, e: Decision) {
    && p.phase == Invalid && e.version == p.version + 1 && e.invalidReason == None && e.observedNativeEvent == None
    && (if p.observedNativeEvent == None then e.phase == Pending && e.nativeEventId == None
        else p.observedNativeEvent == Some(e.event) && e.phase == NativeWritten
             && e.nativeEventId == Some(e.event.eventId))
  }

  /** An event that was invalidated before is not offered again, unless it is the one the native record holds. */
  predicate Spent(events: seq<Event>, v: Decision) {
    exists i :: 0 <= i < |events| && events[i].DecisionEvent? && events[i].approvalId == v.approvalId
                && events[i].decision.phase == Invalid && events[i].decision.event == v.event
  }

  /** The decision row an admitted event writes. */
  ghost predicate Writes(db: Database, v: Decision, w: Decision) {
    && RequestFor(db, v.approvalId).Ok? && Opens(RequestFor(db, v.approvalId).value, v)
    && (if v.approvalId in db.decisions then
          var p := db.decisions[v.approvalId];
          && Replaces(p, w) && (p.observedNativeEvent == None ==> !Spent(db.events, v))
          && w == v.(version := w.version, phase := w.phase, nativeEventId := w.nativeEventId)
        else w == v)
  }

  /** Admission writes exactly these rows, and none for an event identifier already used for something else. */
  lemma WriteExact(db: Database, v: Decision, w: Decision)
    requires forall a :: a in db.decisions ==> db.decisions[a].approvalId == a
    ensures DecisionAdmission(db, v).Ok? && DecisionAdmission(db, v).value.write == Some(w) <==>
            && Writes(db, v, w)
            && (SlotTaken(db.events, InboxSlot(v.approvalId, v.event.eventId)) ==>
                  InboxEvent(v.approvalId, v.event.eventId, v) in db.events)
  {
    if RequestFor(db, v.approvalId).Ok? {
      BeginExact(RequestFor(db, v.approvalId).value, v);
    }
  }

  // ---- the changes ----

  ghost predicate Logged(db: Database, d: Delta, after: Database, record: Option<RecordKey>) {
    Grew(db, d, after) && RowShape(d.rows) && Notes(db, d, after) && Watches(d, record)
  }

  ghost predicate StoresNothing(db: Database, d: Delta, after: Database) {
    && Logged(db, d, after, None) && d.rows == []
    && after == db.(denials := after.denials, events := after.events)
  }

  ghost predicate AddsRequest(db: Database, d: Delta, after: Database, v: Request) {
    && Logged(db, d, after, None) && d.rows == [RequestEvent(v.key, 0, v)] && d.before == []
    && RequestAdmission(db, v) == Ok(true) && v.key !in db.requests
    && after == InsertRequest(db, v).(events := after.events)
  }

  /** The evidence that admitted a request step: the approval's decision and dispatch at that time. */
  ghost predicate AdvancedBy(db: Database, k: CreationKey, v: Request, o: Observation) {
    k in db.requests
    && Advanced(db.requests[k].value, v, Lookup(db.decisions, OrEmpty(v.approvalId)),
                Lookup(db.dispatches, InitialKey(OrEmpty(v.approvalId))), o)
  }

  ghost predicate MovesRequest(
    db: Database, d: Delta, after: Database, k: CreationKey, v: Request, final: Request, o: Observation, at: Clock) {
    && Logged(db, d, after, Some(RequestRow(k))) && AdvancedBy(db, k, v, o) && Refreshed(db, v, final)
    && RequestStored(db, k, final, after) && (v.phase != Denied ==> d.before == [])
    && d.rows == [RequestEvent(k, final.version, final), ClockEvent(RequestRow(k), final.version, at)]
  }

  ghost predicate WritesDecision(db: Database, d: Delta, after: Database, v: Decision, w: Decision) {
    && Logged(db, d, after, None) && Writes(db, v, w)
    && d.rows == [DecisionEvent(v.approvalId, w.version, w)]
    && after == db.(decisions := db.decisions[v.approvalId := w], events := after.events)
  }

  ghost predicate MovesDecision(
    db: Database, d: Delta, after: Database, a: string, v: Decision, q: Request, o: Observation, at: Clock) {
    && Logged(db, d, after, Some(DecisionRow(a))) && a in db.decisions && Decided(db.decisions[a], v, q, o)
    && d.rows == [DecisionEvent(a, v.version, v), ClockEvent(DecisionRow(a), v.version, at)]
    && after == db.(decisions := db.decisions[a := v], denials := after.denials, events := after.events)
  }

  ghost predicate AddsDispatch(db: Database, d: Delta, after: Database, x: Dispatch, at: Clock)
    requires RowidsStored(db)
  {
    && Logged(db, d, after, None) && AdmittedDispatch(db, x, at) && |db.dispatches| < MAX_RECORDS
    && d.rows == [DispatchEvent(KeyOf(x), 0, x), ClockEvent(DispatchRow(KeyOf(x)), 0, at)]
    && after == InsertDispatch(db, x).(events := after.events)
  }

  /** A settled row of the dispatch table. */
  ghost predicate SettledRow(dispatches: Dispatched, c: Dispatch) {
    c.settled && KeyOf(c) in dispatches && dispatches[KeyOf(c)] == c
  }

  /** The child a lookup read is a settled row. */
  ghost predicate JustifiedBy(
    dispatches: Dispatched, d: Dispatch, e: Dispatch, o: Observation, child: Option<Dispatch>) {
    Justified(d, e, o, child) && (child.Some? ==> SettledRow(dispatches, child.value))
  }

  /** A lookup's wait is counted from the clock the journal logged; an operator acknowledges the journal's facts. */
  ghost predicate Grounded(db: Database, prior: Dispatch, o: Observation)
    requires RowidsStored(db)
  {
    && (o.dispatchOperation == Some(OpLookup) ==>
          DispatchLookupClock(db, prior).Ok? && o.reconciliationStarted == Some(DispatchLookupClock(db, prior).value))
    && (prior.kind == Initial && o.dispatchRecovery.Some? ==> RecoveryAcknowledged(db, prior, o.dispatchRecovery.value))
  }

  ghost predicate MovesDispatch(
    db: Database, d: Delta, after: Database, k: DispatchKey, x: Dispatch, o: Observation, child: Option<Dispatch>,
    at: Clock)
    requires RowidsStored(db)
  {
    && Grew(db, d, after) && Notes(db, d, after) && Observes(d, DispatchRow(k), x.version, o)
    && DispatchStored(db, k, x, at) && o.now == Some(at)
    && JustifiedBy(db.dispatches, db.dispatches[k], x, o, child) && Grounded(db, db.dispatches[k], o)
    && d.rows == [DispatchEvent(k, x.version, x), ClockEvent(DispatchRow(k), x.version, at)]
    && after == StoreDispatch(db, k, x).(events := after.events)
  }

  ghost predicate Makes(db: Database, d: Delta, after: Database, change: Change)
    requires RowidsStored(db)
  {
    match change
    case Unchanged => after == db
    case NothingStored => StoresNothing(db, d, after)
    case RequestAdded(v) => AddsRequest(db, d, after, v)
    case RequestMoved(k, v, final, o, at) => MovesRequest(db, d, after, k, v, final, o, at)
    case DecisionWritten(v, w) => WritesDecision(db, d, after, v, w)
    case DecisionMoved(a, v, q, o, at) => MovesDecision(db, d, after, a, v, q, o, at)
    case DispatchAdded(x, at) => AddsDispatch(db, d, after, x, at)
    case DispatchMoved(k, x, o, child, at) => MovesDispatch(db, d, after, k, x, o, child, at)
  }

  /** The same, as one answer. */
  ghost function Made(db: Database, d: Delta, after: Database, change: Change): Check
    requires RowidsStored(db)
  {
    if Makes(db, d, after, change) then Pass else Fail("change")
  }

  // ---- requests ----

  lemma AddRequestChanges(db: Database, v: Request) returns (d: Delta, change: Change)
    requires JournalInv(db) && AddRequest(db, v).Ok?
    ensures Makes(db, d, AddRequest(db, v).value, change)
  {
    d, change := Delta([], [], []), Unchanged;
    if RequestAdmission(db, v) == Ok(true) {
      AdmittedRequest(db, v);
      d := AddRequestStep(db, v);
      change := RequestAdded(v);
    }
  }

  lemma PlanAdvanced(
    db: Database, k: CreationKey, n: nat, v: Request, o: Observation, sampled: Clock, plan: Plan<Request>)
    returns (evidence: Observation)
    requires RowidsStored(db) && PlanRequest(db, k, n, v, o, sampled) == Ok(plan) && plan.Store?
    ensures plan.value == v && AdvancedBy(db, k, v, evidence)
  {
    var prior := db.requests[k].value;
    var observed := RecoveryClock(db, OfRequest(prior), Sampled(o, sampled), sampled).value;
    evidence := ProposalAdvanced(db, k, prior, v, observed);
  }

  lemma ProposalAdvanced(db: Database, k: CreationKey, prior: Request, v: Request, o: Observation)
    returns (evidence: Observation)
    requires RequestProposal(db, prior, v, o).Ok? && v != prior && k in db.requests && db.requests[k].value == prior
    ensures RequestProposal(db, prior, v, o).value == v && AdvancedBy(db, k, v, evidence)
  {
    var issued := if prior.phase == AllocationUnknown then
      FindObservation(db.events, RequestRow(prior.key), prior.version) else None;
    var started := if issued.Some? then issued.value.now else None;
    evidence := if prior.phase == AllocationUnknown then o.(allocationStarted := started) else o;
    RequestExact(prior, v, Lookup(db.decisions, OrEmpty(v.approvalId)),
                 Lookup(db.dispatches, InitialKey(OrEmpty(v.approvalId))), evidence);
  }

  lemma RequestChanges(db: Database, k: CreationKey, n: nat, v: Request, o: Observation, sampled: Clock)
    returns (d: Delta, change: Change)
    requires JournalInv(db) && TransitionRequest(db, k, n, v, o, sampled).Ok?
    ensures Makes(db, d, TransitionRequest(db, k, n, v, o, sampled).value, change)
  {
    var plan := PlanRequest(db, k, n, v, o, sampled).value;
    d, change := Delta([], [], []), Unchanged;
    if plan.Store? {
      PlanRequestFacts(db, k, n, v, o, sampled);
      var evidence := PlanAdvanced(db, k, n, v, o, sampled, plan);
      d, change := ApplyRequestChanges(db, k, plan.owner, v, plan.observation, sampled, evidence);
    }
  }

  lemma ApplyRequestChanges(
    db: Database, k: CreationKey, owner: Option<CreationKey>, v: Request, o: Observation, sampled: Clock,
    evidence: Observation)
    returns (d: Delta, change: Change)
    requires CapacityHolds(db) && RowsAgree(db) && RowidsStored(db) && (owner.Some? ==> Holds(db, owner.value))
    requires AdvancedBy(db, k, v, evidence)
    requires RequestEvolves(db.requests[k].value, v, Lookup(db.decisions, OrEmpty(v.approvalId)),
                            Lookup(db.dispatches, InitialKey(OrEmpty(v.approvalId))))
    requires ApplyRequest(db, k, owner, v, o, sampled).Ok?
    ensures Makes(db, d, ApplyRequest(db, k, owner, v, o, sampled).value, change)
  {
    var final;
    d, final := ApplyRequestStep(db, k, owner, v, o, sampled);
    change := RequestMoved(k, v, final, evidence, sampled);
  }

  // ---- decisions ----

  lemma WriteChanges(db: Database, v: Decision, plan: DecisionPlan) returns (d: Delta, change: Change)
    requires CapacityHolds(db) && RowidsStored(db) && (plan.owner.Some? ==> Holds(db, plan.owner.value))
    requires WriteDecision(db, v, plan).Ok? && (plan.write.Some? ==> Writes(db, v, plan.write.value))
    ensures Makes(db, d, WriteDecision(db, v, plan).value, change)
  {
    d := WriteDecisionStep(db, v, plan);
    change := if plan.write.Some? then DecisionWritten(v, plan.write.value) else NothingStored;
  }

  lemma PlanWrites(db: Database, v: Decision, plan: DecisionPlan)
    requires Keyed(db.decisions, db.dispatches, db.rowids)
    requires DecisionAdmission(db, v) == Ok(plan) && plan.write.Some?
    ensures Writes(db, v, plan.write.value)
  {
    WriteExact(db, v, plan.write.value);
  }

  lemma AddDecisionChanges(db: Database, v: Decision) returns (d: Delta, change: Change)
    requires JournalInv(db) && AddDecision(db, v).Ok?
    ensures Makes(db, d, AddDecision(db, v).value, change)
  {
    var plan := DecisionAdmission(db, v).value;
    DecisionPlanOwner(db, v);
    if plan.write.Some? {
      PlanWrites(db, v, plan);
    }
    d, change := WriteChanges(db, v, plan);
  }

  lemma PlanDecided(
    db: Database, a: string, n: nat, v: Decision, o: Observation, sampled: Clock, plan: Plan<Decision>)
    returns (q: Request, evidence: Observation)
    requires RowidsStored(db) && PlanDecision(db, a, n, v, o, sampled) == Ok(plan) && plan.Store?
    ensures a in db.decisions && Decided(db.decisions[a], v, q, evidence) && plan.value == v
  {
    var prior := db.decisions[a];
    q := RequestFor(db, prior.approvalId).value;
    evidence := RecoveryClock(db, OfDecision(prior), Sampled(o, sampled), sampled).value;
    DecisionExact(prior, v, q, evidence);
  }

  lemma ApplyDecisionChanges(
    db: Database, a: string, owner: Option<CreationKey>, v: Decision, o: Observation, sampled: Clock, q: Request,
    evidence: Observation)
    returns (d: Delta)
    requires CapacityHolds(db) && (owner.Some? ==> Holds(db, owner.value))
    requires a in db.decisions && Decided(db.decisions[a], v, q, evidence)
    requires ApplyDecision(db, a, owner, v, o, sampled).Ok?
    ensures MovesDecision(db, d, ApplyDecision(db, a, owner, v, o, sampled).value, a, v, q, evidence, sampled)
  {
    d := ApplyDecisionStep(db, a, owner, v, o, sampled);
  }

  lemma DecisionChanges(db: Database, a: string, n: nat, v: Decision, o: Observation, sampled: Clock)
    returns (d: Delta, change: Change)
    requires JournalInv(db) && TransitionDecision(db, a, n, v, o, sampled).Ok?
    ensures Makes(db, d, TransitionDecision(db, a, n, v, o, sampled).value, change)
  {
    var plan := PlanDecision(db, a, n, v, o, sampled).value;
    d, change := Delta([], [], []), Unchanged;
    if plan.Store? {
      PlanDecisionFacts(db, a, n, v, o, sampled);
      var q, evidence := PlanDecided(db, a, n, v, o, sampled, plan);
      d := ApplyDecisionChanges(db, a, plan.owner, v, plan.observation, sampled, q, evidence);
      change := DecisionMoved(a, v, q, evidence, sampled);
    }
  }

  lemma RecordDenialChanges(db: Database, r: Request, x: Decision) returns (d: Delta, change: Change)
    requires JournalInv(db) && RecordDenial(db, r, x).Ok?
    ensures Makes(db, d, RecordDenial(db, r, x).value, change)
  {
    d := RecordDenialStep(db, r, x);
    change := NothingStored;
  }

  // ---- dispatches ----

  lemma InsertChanges(db: Database, x: Dispatch, owner: Option<CreationKey>, at: Clock) returns (d: Delta)
    requires CapacityHolds(db) && RowidsStored(db) && (owner.Some? ==> Holds(db, owner.value))
    requires AdmittedDispatch(db, x, at) && |db.dispatches| < MAX_RECORDS
    requires CommitEvents(Begin(InsertDispatch(db, x), owner), DispatchEvents(x, at)).Ok?
    ensures AddsDispatch(db, d, CommitEvents(Begin(InsertDispatch(db, x), owner), DispatchEvents(x, at)).value, x, at)
  {
    d := InsertDispatchStep(db, x, owner, at);
  }

  lemma RoomForDispatch(db: Database, v: Dispatch, sampled: Clock)
    requires RowidsStored(db) && DispatchAdmission(db, v, sampled).Ok?
    ensures |db.dispatches| < MAX_RECORDS
  {
  }

  lemma AddDispatchChanges(db: Database, v: Dispatch, sampled: Clock) returns (d: Delta, change: Change)
    requires JournalInv(db) && AddDispatch(db, v, sampled).Ok?
    ensures Makes(db, d, AddDispatch(db, v, sampled).value, change)
  {
    AdmissionFacts(db, v, sampled);
    RoomForDispatch(db, v, sampled);
    var x := DispatchAdmission(db, v, sampled).value;
    if x.kind == Initial {
      d := InsertChanges(db, x, None, sampled);
    } else {
      OwnerHolds(db, x.approvalId);
      d := InsertChanges(db, x, OwnerFor(db, x.approvalId).value, sampled);
    }
    change := DispatchAdded(x, sampled);
  }

  /** The row a dispatch observation names. */
  function ReadRow(dispatches: Dispatched, o: Observation): Option<Dispatch> {
    if o.reconciliationKey.Some? then Lookup(dispatches, o.reconciliationKey.value) else None
  }

  lemma ProposalParts(db: Database, k: DispatchKey, prior: Dispatch, v: Dispatch, o: Observation)
    requires RowidsStored(db) && DispatchProposal(db, k, prior, v, o).Ok?
    ensures var read, logged := ReadRow(db.dispatches, o), LoggedObservation(db, prior, v, o);
            && DispatchCandidate(prior, v, logged, read) == Ok(v) && logged.now == o.now
            && logged.dispatchRecovery == o.dispatchRecovery
            && DispatchProposal(db, k, prior, v, o).value == WithLookup(prior, v, read)
            && (v.reconciliationLookups != prior.reconciliationLookups ==>
                  && DispatchLookupClock(db, prior).Ok?
                  && logged.reconciliationStarted == Some(DispatchLookupClock(db, prior).value))
  {
  }

  lemma CandidateJustified(d: Dispatch, e: Dispatch, o: Observation, read: Option<Dispatch>)
    requires DispatchCandidate(d, e, o, read) == Ok(e) && e != d
    ensures Justified(d, WithLookup(d, e, read), o, read)
  {
    CandidateKeepsAttempts(d, e, o, read);
    CandidateExact(d, e, o, read);
  }

  /** Only a lookup needs its child, and that child is settled. */
  lemma ReadChild(dispatches: Dispatched, d: Dispatch, e: Dispatch, o: Observation, read: Option<Dispatch>)
    returns (child: Option<Dispatch>)
    requires Justified(d, e, o, read)
    requires read.Some? ==> KeyOf(read.value) in dispatches && dispatches[KeyOf(read.value)] == read.value
    ensures JustifiedBy(dispatches, d, e, o, child)
    ensures o.dispatchOperation == Some(OpLookup) ==> e.reconciliationLookups != d.reconciliationLookups
  {
    child := if o.dispatchOperation == Some(OpLookup) then read else None;
  }

  lemma ProposalJustified(db: Database, k: DispatchKey, prior: Dispatch, v: Dispatch, o: Observation)
    returns (child: Option<Dispatch>)
    requires RowidsStored(db) && Keyed(db.decisions, db.dispatches, db.rowids)
    requires k in db.dispatches && db.dispatches[k] == prior && v != prior && DispatchProposal(db, k, prior, v, o).Ok?
    requires prior.kind == Initial && o.dispatchRecovery.Some? ==>
               RecoveryAcknowledged(db, prior, o.dispatchRecovery.value)
    ensures var logged := LoggedObservation(db, prior, v, o);
            && JustifiedBy(db.dispatches, prior, DispatchProposal(db, k, prior, v, o).value, logged, child)
            && Grounded(db, prior, logged) && logged.now == o.now
  {
    ProposalParts(db, k, prior, v, o);
    var read, logged := ReadRow(db.dispatches, o), LoggedObservation(db, prior, v, o);
    CandidateJustified(prior, v, logged, read);
    child := ReadChild(db.dispatches, prior, WithLookup(prior, v, read), logged, read);
  }

  lemma RecoveryFacts(db: Database, prior: Dispatch, o: Observation, sampled: Clock)
    requires RowidsStored(db) && RecoveryClock(db, OfDispatch(prior), o, sampled).Ok?
    ensures prior.kind == Initial && o.dispatchRecovery.Some? ==>
              RecoveryAcknowledged(db, prior, o.dispatchRecovery.value)
  {
  }

  lemma PlanJustified(
    db: Database, k: DispatchKey, n: nat, v: Dispatch, o: Observation, sampled: Clock, plan: Plan<Dispatch>)
    returns (child: Option<Dispatch>)
    requires RowidsStored(db) && Keyed(db.decisions, db.dispatches, db.rowids)
    requires PlanDispatch(db, k, n, v, o, sampled) == Ok(plan) && plan.Store?
    ensures k in db.dispatches && JustifiedBy(db.dispatches, db.dispatches[k], plan.value, plan.observation, child)
    ensures Grounded(db, db.dispatches[k], plan.observation) && plan.observation.now == Some(sampled)
  {
    var prior, seen := db.dispatches[k], Sampled(o, sampled);
    RecoveryClockNow(db, OfDispatch(prior), seen, sampled);
    RecoveryFacts(db, prior, seen, sampled);
    child := ProposalJustified(db, k, prior, v, seen);
  }

  lemma PlanFacts(
    db: Database, k: DispatchKey, n: nat, v: Dispatch, o: Observation, sampled: Clock, plan: Plan<Dispatch>)
    returns (child: Option<Dispatch>)
    requires RowidsStored(db) && RowsAgree(db) && Keyed(db.decisions, db.dispatches, db.rowids)
    requires PlanDispatch(db, k, n, v, o, sampled) == Ok(plan) && plan.Store?
    ensures DispatchStored(db, k, plan.value, sampled) && (plan.owner.Some? ==> Holds(db, plan.owner.value))
    ensures JustifiedBy(db.dispatches, db.dispatches[k], plan.value, plan.observation, child)
    ensures Grounded(db, db.dispatches[k], plan.observation) && plan.observation.now == Some(sampled)
  {
    PlanDispatchFacts(db, k, n, v, o, sampled);
    child := PlanJustified(db, k, n, v, o, sampled, plan);
  }

  lemma ApplyDispatchChanges(
    db: Database, k: DispatchKey, owner: Option<CreationKey>, x: Dispatch, o: Observation, at: Clock,
    child: Option<Dispatch>)
    returns (d: Delta, change: Change)
    requires CapacityHolds(db) && RowidsStored(db) && (owner.Some? ==> Holds(db, owner.value))
    requires DispatchStored(db, k, x, at) && o.now == Some(at)
    requires JustifiedBy(db.dispatches, db.dispatches[k], x, o, child) && Grounded(db, db.dispatches[k], o)
    requires ApplyDispatch(db, k, owner, x, o, at).Ok?
    ensures Makes(db, d, ApplyDispatch(db, k, owner, x, o, at).value, change)
  {
    d := ApplyDispatchStep(db, k, owner, x, o, at);
    change := DispatchMoved(k, x, o, child, at);
  }

  lemma PlanChanges(
    db: Database, k: DispatchKey, n: nat, v: Dispatch, o: Observation, sampled: Clock, plan: Plan<Dispatch>)
    returns (d: Delta, change: Change)
    requires JournalInv(db) && PlanDispatch(db, k, n, v, o, sampled) == Ok(plan) && plan.Store?
    requires ApplyDispatch(db, k, plan.owner, plan.value, plan.observation, sampled).Ok?
    ensures Makes(db, d, ApplyDispatch(db, k, plan.owner, plan.value, plan.observation, sampled).value, change)
  {
    var child := PlanFacts(db, k, n, v, o, sampled, plan);
    d, change := ApplyDispatchChanges(db, k, plan.owner, plan.value, plan.observation, sampled, child);
  }

  lemma DispatchChanges(db: Database, k: DispatchKey, n: nat, v: Dispatch, o: Observation, sampled: Clock)
    returns (d: Delta, change: Change)
    requires JournalInv(db) && TransitionDispatch(db, k, n, v, o, sampled).Ok?
    ensures Makes(db, d, TransitionDispatch(db, k, n, v, o, sampled).value, change)
  {
    var plan := PlanDispatch(db, k, n, v, o, sampled).value;
    d, change := Delta([], [], []), Unchanged;
    if plan.Store? {
      d, change := PlanChanges(db, k, n, v, o, sampled, plan);
    }
  }

  // ---- every operation ----

  /** Every committed operation makes one of the changes. */
  lemma OpChanges(db: Database, op: Op) returns (d: Delta, change: Change)
    requires JournalInv(db) && Perform(db, op).Ok?
    ensures Makes(db, d, Perform(db, op).value, change)
  {
    match op
    case OpAddRequest(v) => d, change := AddRequestChanges(db, v);
    case OpAddDecision(v) => d, change := AddDecisionChanges(db, v);
    case OpAddDispatch(v, sampled) => d, change := AddDispatchChanges(db, v, sampled);
    case OpRecordDenial(v, x) => d, change := RecordDenialChanges(db, v, x);
    case OpRequest(k, n, v, o, sampled) => d, change := RequestChanges(db, k, n, v, o, sampled);
    case OpDecision(a, n, v, o, sampled) => d, change := DecisionChanges(db, a, n, v, o, sampled);
    case OpDispatch(k, n, v, o, sampled) => d, change := DispatchChanges(db, k, n, v, o, sampled);
  }

  /** Every step makes one of the changes, a rolled back one none. */
  lemma StepChanges(db: Database, op: Op, after: Database) returns (d: Delta, change: Change)
    requires JournalInv(db) && after == After(db, op)
    ensures Made(db, d, after, change).Pass?
  {
    d, change := Delta([], [], []), Unchanged;
    if Perform(db, op).Ok? {
      d, change := OpChanges(db, op);
    }
  }
}
