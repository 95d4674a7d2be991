/**
  * The fixture journal's tables, its append-only event log and its admission rules
  * (src/heterodyne/actions/journal.py).
  */
module JournalTables {
  import opened Outcomes
  import opened Clocks
  import opened Requests
  import opened Decisions
  import opened Dispatches
  import opened Transitions

  const MAX_OUTSTANDING: nat := 128
  const MAX_RECORDS: nat := 4096
  const MAX_EVENTS: nat := 16_384
  const TERMINAL_RESERVE: nat := 96

  datatype RecordKey =
    | RequestRow(request: CreationKey)
    | DecisionRow(approvalId: string)
    | DispatchRow(dispatch: DispatchKey)

  datatype Event =
    | RequestEvent(requestKey: CreationKey, version: nat, request: Request)
    | DecisionEvent(approvalId: string, version: nat, decision: Decision)
    | DispatchEvent(dispatchKey: DispatchKey, version: nat, dispatch: Dispatch)
    | ClockEvent(record: RecordKey, version: nat, clock: Clock)
    | ObservationEvent(record: RecordKey, version: nat, observation: Observation)
    | InboxEvent(approvalId: string, eventId: string, decision: Decision)
    | DenialEvent(identity: DenialIdentity, requestKey: CreationKey, decision: Decision)
    | UsageEvent(owner: CreationKey, version: nat, amount: nat)

  /** UNIQUE(kind, key, version). */
  datatype Slot =
    | RecordSlot(record: RecordKey, version: nat)
    | ClockSlot(record: RecordKey, version: nat)
    | ObservationSlot(record: RecordKey, version: nat)
    | InboxSlot(approvalId: string, eventId: string)
    | DenialSlot(identity: DenialIdentity)
    | UsageSlot(owner: CreationKey, version: nat)

  function SlotOf(e: Event): Slot {
    match e
    case RequestEvent(k, v, _) => RecordSlot(RequestRow(k), v)
    case DecisionEvent(a, v, _) => RecordSlot(DecisionRow(a), v)
    case DispatchEvent(k, v, _) => RecordSlot(DispatchRow(k), v)
    case ClockEvent(r, v, _) => ClockSlot(r, v)
    case ObservationEvent(r, v, _) => ObservationSlot(r, v)
    case InboxEvent(a, i, _) => InboxSlot(a, i)
    case DenialEvent(i, _, _) => DenialSlot(i)
    case UsageEvent(o, v, _) => UsageSlot(o, v)
  }

  datatype Row = Row(workstream: string, bead: string, outstanding: bool, value: Request)
  datatype Lock = ResourceLock(resource: string) | EffectLock(target: string) | ApprovalLock(approvalId: string)
  datatype DenialRow = DenialRow(sessionKey: string, approvalId: string)

  /** The SQLite database; `rowids` is the insertion order of the dispatches table. */
  datatype Database = Database(
    requests: map<CreationKey, Row>,
    decisions: map<string, Decision>,
    dispatches: map<DispatchKey, Dispatch>,
    rowids: seq<DispatchKey>,
    resources: map<Lock, DispatchKey>,
    denials: map<DenialIdentity, DenialRow>,
    events: seq<Event>)

  const EMPTY_DATABASE: Database := Database(map[], map[], map[], [], map[], map[], [])

  predicate SlotTaken(events: seq<Event>, slot: Slot) {
    exists i :: 0 <= i < |events| && SlotOf(events[i]) == slot
  }

  function FindClock(events: seq<Event>, record: RecordKey, version: nat): Option<Clock> {
    if events == [] then None
    else
      var e := events[|events| - 1];
      if e.ClockEvent? && e.record == record && e.version == version then Some(e.clock)
      else FindClock(events[..|events| - 1], record, version)
  }

  function FindObservation(events: seq<Event>, record: RecordKey, version: nat): Option<Observation> {
    if events == [] then None
    else
      var e := events[|events| - 1];
      if e.ObservationEvent? && e.record == record && e.version == version then Some(e.observation)
      else FindObservation(events[..|events| - 1], record, version)
  }

  // ---- locating records ----

  function KeyOf(d: Dispatch): DispatchKey {
    if d.kind == Initial then InitialKey(d.approvalId) else ReconcileKey(d.approvalId, d.attemptId)
  }

  predicate UniqueRequest(db: Database, approvalId: string, k: CreationKey) {
    && k in db.requests
    && db.requests[k].value.approvalId == Some(approvalId)
    && forall other :: other in db.requests && db.requests[other].value.approvalId == Some(approvalId) ==> other == k
  }

  function RequestFor(db: Database, approvalId: string): (r: Result<Request>)
    ensures r.Ok? <==> exists k :: k in db.requests && UniqueRequest(db, approvalId, k)
    ensures r.Ok? ==>
              exists k :: k in db.requests && UniqueRequest(db, approvalId, k) && r.value == db.requests[k].value
  {
    if exists k :: k in db.requests && UniqueRequest(db, approvalId, k) then
      var k :| k in db.requests && UniqueRequest(db, approvalId, k);
      Ok(db.requests[k].value)
    else Refused("unique-durable-request-required")
  }

  predicate IsChildOf(k: DispatchKey, approvalId: string) {
    k.ReconcileKey? && k.approvalId == approvalId
  }

  /** Keys of an approval's reconciliation children, in rowid order. */
  function ChildKeys(rowids: seq<DispatchKey>, approvalId: string): (r: seq<DispatchKey>)
    ensures forall k :: k in r <==> k in rowids && IsChildOf(k, approvalId)
    ensures forall i :: 0 <= i < |r| ==> IsChildOf(r[i], approvalId)
  {
    if rowids == [] then []
    else
      var rest := ChildKeys(rowids[..|rowids| - 1], approvalId);
      var last := rowids[|rowids| - 1];
      if IsChildOf(last, approvalId) then rest + [last] else rest
  }

  function Children(db: Database, approvalId: string): seq<Dispatch>
    requires forall k :: k in db.rowids ==> k in db.dispatches
  {
    var keys := ChildKeys(db.rowids, approvalId);
    seq(|keys|, i requires 0 <= i < |keys| => db.dispatches[keys[i]])
  }

  // ---- denials ----

  predicate DenialProvenance(db: Database, identity: DenialIdentity, approvalId: string, sessionKey: string) {
    var request := RequestFor(db, approvalId);
    && request.Ok?
    && request.value.origin.sessionKey == sessionKey
    && request.value.denialIdentity == Some(identity)
    && identity == RequestDenialKey(request.value.intent, request.value.origin, request.value.resolved)
    && approvalId in db.decisions
    && var d := db.decisions[approvalId];
    && d.phase == Committed && d.event.verdict == Deny
    && Some(d.approvalId) == request.value.approvalId && Some(d.digest) == request.value.contextDigest
    && d.requestRevision == request.value.requestRevision
    && d.event.digest == d.digest && d.event.approvalId == d.approvalId
  }

  function SessionDenials(db: Database, sessionKey: string): set<DenialIdentity> {
    set i | i in db.denials && db.denials[i].sessionKey == sessionKey
  }

  function IsDenied(db: Database, identity: Option<DenialIdentity>, sessionKey: string): Result<bool> {
    if exists i :: i in db.denials && db.denials[i].sessionKey == sessionKey
                   && !DenialProvenance(db, i, db.denials[i].approvalId, sessionKey)
    then Refused("legacy-denial-domain-needs-provenance")
    else Ok(identity.Some? && identity.value in SessionDenials(db, sessionKey))
  }

  predicate DenialCommitted(r: Request, decision: Option<Decision>) {
    && decision.Some? && decision.value.phase == Committed && decision.value.event.verdict == Deny
    && r.approvalId == Some(decision.value.approvalId)
    && r.contextDigest == Some(decision.value.digest)
    && r.requestRevision == decision.value.requestRevision
    && r.denialIdentity == Some(RequestDenialKey(r.intent, r.origin, r.resolved))
  }

  // ---- admissions ----

  function OutstandingKeys(db: Database): set<CreationKey> {
    set k | k in db.requests && db.requests[k].outstanding
  }

  /** add_request's checks: Ok(true) admits a fresh row, Ok(false) acknowledges an exact replay. */
  function RequestAdmission(db: Database, v: Request): Result<bool> {
    if v.version != 0 || v.phase != AllocationIntent then Refused("request-not-initial")
    else if v.key in db.requests then
      if RequestEvent(v.key, 0, v) in db.events then Ok(false) else Refused("creation-key-conflict")
    else if v.denialIdentity != Some(RequestDenialKey(v.intent, v.origin, v.resolved)) then
      Refused("denial-identity-not-derived")
    else
      var denied :- IsDenied(db, v.denialIdentity, v.origin.sessionKey);
      var history := SessionDenials(db, v.origin.sessionKey);
      if denied then Refused("same-session-denied-intent")
      else if |history| > 64 || !(history <= v.priorDenials) then Refused("denial-history-required")
      else if |db.requests| >= MAX_RECORDS then Refused("fixture-record-capacity-needs-recovery")
      else if |OutstandingKeys(db)| >= MAX_OUTSTANDING then Refused("global-pending-capacity")
      else if |set k | k in OutstandingKeys(db) && db.requests[k].workstream == v.origin.workstream
                       && db.requests[k].bead == v.origin.bead| >= 2
      then Refused("two-outstanding-per-bead")
      else Ok(true)
  }

  function TerminalBudget(r: Request): Option<CreationKey> {
    if Terminal(r.phase) then None else Some(r.key)
  }

  /** What add_decision does: who pays, whether the inbox event is new, and the row it writes. */
  datatype DecisionPlan = DecisionPlan(owner: Option<CreationKey>, inbox: bool, write: Option<Decision>,
                                       outcome: string)

  function DecisionAdmission(db: Database, v: Decision): Result<DecisionPlan> {
    if v.version != 0 || v.phase != Pending then Refused("decision-not-initial")
    else
      var seen := SlotTaken(db.events, InboxSlot(v.approvalId, v.event.eventId));
      var prior := Lookup(db.decisions, v.approvalId);
      if seen && InboxEvent(v.approvalId, v.event.eventId, v) !in db.events then Refused("decision-event-id-conflict")
      else if seen && prior.Some? && prior.value.phase != Invalid then
        Ok(DecisionPlan(None, false, None, if prior.value.event == v.event then "duplicate" else "superseded"))
      else
        var request :- RequestFor(db, v.approvalId);
        var expected :- BeginDecision(request, v.event, v.purpose, OrEmpty(request.contextDigest),
                                      v.heartProposalPending);
        if expected != v then Refused("decision-not-bound-to-durable-request")
        else
          var owner := if prior.None? && v.event.verdict == Deny then TerminalBudget(request) else None;
          if prior.None? then Ok(DecisionPlan(owner, !seen, Some(v), "recorded"))
          else Ok(Replacement(db, v, prior.value, !seen))
  }

  /** A later event may replace only an invalid decision, and never with an already invalidated event. */
  function Replacement(db: Database, v: Decision, prior: Decision, inbox: bool): DecisionPlan {
    if
      || prior.phase != Invalid
      || (prior.observedNativeEvent.Some? && prior.observedNativeEvent != Some(v.event))
      || (prior.observedNativeEvent.None?
          && exists i :: 0 <= i < |db.events| && db.events[i].DecisionEvent? && db.events[i].approvalId == v.approvalId
                         && db.events[i].decision.phase == Invalid && db.events[i].decision.event == v.event)
    then DecisionPlan(None, inbox, None, "superseded")
    else
      var native := prior.observedNativeEvent;
      DecisionPlan(None, inbox,
                   Some(v.(version := prior.version + 1,
                        phase := if native.Some? then NativeWritten else Pending,
                        nativeEventId := if native.Some? then Some(native.value.eventId) else None)),
                   "recorded")
  }

  function LocksOf(d: Dispatch): set<Lock> {
    {ResourceLock(d.resource), EffectLock(d.target), ApprovalLock(d.approvalId)}
  }

  function Stamped(v: Dispatch, sampled: Clock): Dispatch {
    v.(started := sampled, deadline := sampled.mono + DISPATCH_WINDOW, preparationDeadline := sampled.mono
    + PREPARATION_WINDOW)
  }

  /** The record add_dispatch would store: exactly what preparation builds at the sampled clock. */
  function PreparedDispatch(db: Database, v: Dispatch, sampled: Clock): Result<Dispatch> {
    if v.version != 0 || v.state != Preparing then Refused("dispatch-not-initial")
    else if KeyOf(v) in db.dispatches then Refused("dispatch-already-exists-no-initial-replay")
    else if !ValidClock(sampled) then Refused("invalid-clock")
    else
      var value := Stamped(v, sampled);
      var expected :-
        if v.kind == Initial then
          Prepare(v.approvalId, v.revision, v.digest, v.target, v.attemptId, v.resource, v.startupHash, sampled)
        else if InitialKey(v.approvalId) !in db.dispatches then Refused("fixture-record-missing-decision-or-request")
        else PrepareReconciliation(db.dispatches[InitialKey(v.approvalId)], v.attemptId, v.startupHash, sampled);
      if value != (if v.kind == Initial then
                     expected else expected.(retiredStartups := v.retiredStartups, retiredNonces := v.retiredNonces))
      then Refused("dispatch-not-initial")
      else Ok(value)
  }

  /**
    * The approval behind a dispatch: a filed request and its committed execution approval, for exactly this digest
    * and revision.
    */
  function ApprovalGate(db: Database, d: Dispatch): Result<Request> {
    if d.approvalId !in db.decisions then Refused("fixture-record-missing-decision-or-request")
    else
      var decision := db.decisions[d.approvalId];
      var request :- RequestFor(db, d.approvalId);
      if request.phase != Filed || request.contextDigest != Some(d.digest) || request.requestRevision != d.revision
      then Refused("dispatch-request-not-filed")
      else if
          || decision.phase != Committed || decision.event.verdict != Approve || decision.purpose != Execution
          || decision.digest != d.digest || decision.requestRevision != d.revision
        then Refused("dispatch-decision-not-committed-approve")
        else Ok(request)
  }

  function DispatchAdmission(db: Database, v: Dispatch, sampled: Clock): Result<Dispatch>
    requires forall k :: k in db.rowids ==> k in db.dispatches
  {
    var value :- PreparedDispatch(db, v, sampled);
    var _ :- ApprovalGate(db, value);
    if |db.dispatches| >= MAX_RECORDS then Refused("fixture-record-capacity-needs-recovery")
    else if value.kind == Reconcile then
      if InitialKey(value.approvalId) in db.dispatches
         && Reconcilable(db, db.dispatches[InitialKey(value.approvalId)], value)
      then Ok(value) else Refused("reconcile-refused")
    else if exists l :: l in LocksOf(value) && l in db.resources then Refused("resource-still-held")
    else Ok(value)
  }

  function Used(previous: Dispatch): set<string> {
    (set n | n in previous.retiredStartups) + (set n | n in previous.retiredNonces) + {previous.startupHash}
    + (if previous.claimHash.Some? then {previous.claimHash.value} else {})
  }

  /** One turn of _add_reconciliation's loop over the parent and its earlier children. */
  predicate Precedes(parent: Dispatch, previous: Dispatch, v: Dispatch) {
    && (previous.kind == Reconcile ==>
          && previous.launchAttempts == 1 && previous.settled
          && (previous.reconciliationEffect.Some? ==> previous.attemptId in parent.reconciliationAttempts))
    && v.attemptId != previous.attemptId
    && v.startupHash !in Used(previous)
    && Used(previous) <= (set n | n in v.retiredStartups) + (set n | n in v.retiredNonces)
  }

  predicate AllPrecede(parent: Dispatch, children: seq<Dispatch>, v: Dispatch) {
    forall i :: 0 <= i < |children| ==> Precedes(parent, children[i], v)
  }

  predicate ParentBinding(parent: Dispatch, v: Dispatch) {
    && parent.kind == Initial && !parent.settled && (parent.state == Uncertain || parent.state == Failed)
    && Some(parent.attemptId) == v.parentAttemptId && parent.revision == v.revision && parent.digest == v.digest
    && parent.target == v.target && parent.resource == v.resource
    && (forall n :: n in parent.retiredStartups + [parent.startupHash] ==> n in v.retiredStartups)
    && (forall n :: n in parent.retiredNonces + OptionSeq(parent.claimHash) ==> n in v.retiredNonces)
  }

  /** _add_reconciliation: at most three children, each due, each after its predecessor settled and was read. */
  predicate Reconcilable(db: Database, parent: Dispatch, v: Dispatch)
    requires forall k :: k in db.rowids ==> k in db.dispatches
  {
    var children := Children(db, v.approvalId);
    && ParentBinding(parent, v)
    && Precedes(parent, parent, v)
    && AllPrecede(parent, children, v)
    && |children| < 3
    && var elapsed :=
         ClockElapsed(if children == [] then parent.started else children[|children| - 1].started, v.started);
    && elapsed.Ok? && elapsed.value >= Backoff(|children|)
  }

  // ---- transitions ----

  datatype Record = OfRequest(request: Request) | OfDecision(decision: Decision) | OfDispatch(dispatch: Dispatch)

  /** The clock is sampled inside the transaction and overrides any caller time. */
  function Sampled(o: Observation, now: Clock): Observation {
    var d := o.dispatchRecovery;
    var a := o.allocationRecovery;
    var b := o.abandonmentRecovery;
    o.(now := Some(now),
    dispatchRecovery := if d.Some? && d.value.clockDiscontinuity then Some(d.value.(observedNow := Some(now))) else d,
    allocationRecovery := if a.Some? && a.value.clockDiscontinuity then Some(a.value.(observedNow := Some(now))) else a,
    abandonmentRecovery := if b.Some? && b.value.clockDiscontinuity then Some(b.value.(observedNow := Some(now)))
    else b)
  }

  function One(b: bool): nat {
    if b then 1 else 0
  }

  predicate WorkerSucceeded(events: seq<Event>, k: DispatchKey) {
    exists i :: 0 <= i < |events| && events[i].ObservationEvent? && events[i].record == DispatchRow(k)
                && events[i].observation.dispatchReadback.Some?
                && events[i].observation.dispatchReadback.value.effect == EffectSucceeded
  }

  /** The first logged version of a dispatch with this many applied lookups. */
  function FirstWithLookups(events: seq<Event>, k: DispatchKey, lookups: nat): Option<nat> {
    if events == [] then None
    else
      var earlier := FirstWithLookups(events[..|events| - 1], k, lookups);
      var e := events[|events| - 1];
      if earlier.Some? then earlier
      else if e.DispatchEvent? && e.dispatchKey == k && e.dispatch.reconciliationLookups == lookups then Some(e.version)
      else None
  }

  /** The journal's own record of when the current lookup wait began. */
  function DispatchLookupClock(db: Database, d: Dispatch): Result<Clock> {
    var record := DispatchRow(KeyOf(d));
    if d.reconciliationLookups == 0 then
      if FindClock(db.events, record, 0) == Some(d.started) then
        Ok(d.started) else Refused("journal-clock-provenance-required")
    else
      var version := FirstWithLookups(db.events, KeyOf(d), d.reconciliationLookups);
      var observed := if version.Some? then FindObservation(db.events, record, version.value) else None;
      if observed.None? || observed.value.now.None? then Refused("reconciliation-clock-history-required")
      else if FindClock(db.events, record, version.value) != observed.value.now then
        Refused("journal-clock-provenance-required")
      else Ok(observed.value.now.value)
  }

  function Dispositions(parent: Dispatch, children: seq<Dispatch>): seq<ReconciliationDisposition> {
    seq(|children|, i requires 0 <= i < |children| => Disposition(parent, children[i]))
  }

  /** Operator recovery of an initial dispatch must acknowledge exactly the journal's child facts. */
  predicate RecoveryAcknowledged(db: Database, d: Dispatch, recovery: DispatchRecovery)
    requires forall k :: k in db.rowids ==> k in db.dispatches
  {
    var children := Children(db, d.approvalId);
    var facts := Dispositions(d, children);
    var unread := exists f :: f in facts && f.effect.Some? && !f.applied;
    && !(recovery.effectDefinitivelyAbsent
         && (WorkerSucceeded(db.events, KeyOf(d)) || exists f :: f in facts && f.effect == Some(EffectSucceeded)))
    && (unread || recovery.completedReconciliationAttempts != [] || recovery.observedReconciliations != [] ==>
          && (forall c :: c in children ==> c.settled && c.cleanupProven && c.launchAttempts == 1)
          && multiset(facts) == multiset(recovery.observedReconciliations)
          && (recovery.completedReconciliationAttempts != [] ==>
                |children| == 3 && multiset(AttemptIds(facts)) == multiset(recovery.completedReconciliationAttempts)))
  }

  function RecoveryClock(db: Database, prior: Record, o: Observation, sampled: Clock): Result<Observation>
    requires forall k :: k in db.rowids ==> k in db.dispatches
  {
    var count := One(o.dispatchRecovery.Some?) + One(o.allocationRecovery.Some?) + One(o.abandonmentRecovery.Some?)
                 + One(o.cancellationRecovery.Some?);
    if count > 1 then Refused("multiple-recovery-observations")
    else if count == 1 && (prior.OfDispatch? != o.dispatchRecovery.Some? || prior.OfDecision?) then
      Refused("clock-recovery-record-mismatch")
    else if prior.OfDispatch? && prior.dispatch.kind == Initial && o.dispatchRecovery.Some?
            && !RecoveryAcknowledged(db, prior.dispatch, o.dispatchRecovery.value)
    then Refused("reconciliation-exhaustion-provenance-required")
    else if o.dispatchRecovery.Some? && o.dispatchRecovery.value.clockDiscontinuity && prior.OfDispatch? then
        var started :- DispatchLookupClock(db, prior.dispatch);
        if o.dispatchRecovery.value.clockAnchor != Some(started) then Refused("recovery-clock-anchor-mismatch")
        else Discontinuous(o, started, sampled)
      else if prior.OfRequest?
              && ((o.allocationRecovery.Some? && o.allocationRecovery.value.clockDiscontinuity)
                  || (o.abandonmentRecovery.Some? && o.abandonmentRecovery.value.clockDiscontinuity)) then
        var started := FindClock(db.events, RequestRow(prior.request.key), prior.request.version);
        if started.None? then Refused("journal-clock-provenance-required") else Discontinuous(o, started.value, sampled)
      else Ok(o)
  }

  function Discontinuous(o: Observation, started: Clock, sampled: Clock): Result<Observation> {
    if Continuous(started, sampled) then Refused("clock-recovery-not-discontinuous") else Ok(o.(now := Some(sampled)))
  }

  /** Which steps may spend the owner's reserve. */
  predicate RecoveryProgress(prior: Record, value: Record) {
    match (prior, value)
    case (OfRequest(p), OfRequest(v)) => Terminal(v.phase) || p.phase == AllocationUnknown
    case (OfDecision(p), OfDecision(v)) => v.phase != p.phase
    case (OfDispatch(p), OfDispatch(v)) =>
      || v.settled || v.reconciliationLookups > p.reconciliationLookups
      || (v.state == Held && (p.state == Preparing || p.state == Ready))
      || (v.state == Uncertain && (p.state == Ready || p.state == Executing))
      || (v.state == Failed && (p.state == Executing || p.state == Uncertain))
    case _ => false
  }

  /** The record a request transition stores, before any denial is written. */
  function RequestProposal(db: Database, prior: Request, value: Request, o: Observation): Result<Request> {
    var decision := Lookup(db.decisions, OrEmpty(value.approvalId));
    var dispatch := Lookup(db.dispatches, InitialKey(OrEmpty(value.approvalId)));
    var issued := if prior.phase == AllocationUnknown then
                    FindObservation(db.events, RequestRow(prior.key), prior.version) else None;
    var started := if issued.Some? then issued.value.now else None;
    if prior.phase == AllocationUnknown
       && (started.None? || FindClock(db.events, RequestRow(prior.key), prior.version) != started)
    then Refused("journal-clock-provenance-required")
    else
      var observation := if prior.phase == AllocationUnknown then o.(allocationStarted := started) else o;
      var candidate :- RequestCandidate(prior, value, decision, dispatch, observation);
      if candidate != value then Refused("request-transition-not-closed") else Ok(value)
  }

  /** A live request also picks up every denial recorded for its session. */
  function RefreshedDenials(db: Database, prior: Request, value: Request): Result<Request> {
    if Terminal(value.phase) then Ok(value)
    else
      var denied :- if value.requestRevision != prior.requestRevision || value.phase == Filed
                    then IsDenied(db, value.denialIdentity, value.origin.sessionKey) else Ok(false);
      var history := value.priorDenials + SessionDenials(db, value.origin.sessionKey);
      if denied then Refused("same-session-denied-intent")
      else if |history| > 64 then Refused("denial-history-capacity-needs-recovery")
      else Ok(value.(priorDenials := history))
  }

  /** The dispatch record a transition stores: a lookup also names the child it read. */
  function DispatchProposal(
    db: Database, key: DispatchKey, prior: Dispatch, value: Dispatch, o: Observation): Result<Dispatch>
    requires forall k :: k in db.rowids ==> k in db.dispatches
  {
    if o.reconciliationKey.Some? && o.reconciliationKey.value !in db.dispatches then
      Refused("fixture-record-missing-decision-or-request")
    else
      var reconciliation := if o.reconciliationKey.Some? then Some(db.dispatches[o.reconciliationKey.value]) else None;
      var looked := value.reconciliationLookups != prior.reconciliationLookups;
      var started :- if looked then DispatchLookupClock(db, prior) else Ok(prior.started);
      var observation := if looked then o.(reconciliationStarted := Some(started)) else o;
      var candidate :- DispatchCandidate(prior, value, observation, reconciliation);
      if candidate != value then Refused("dispatch-transition-not-closed")
      else if looked && reconciliation.None? then Refused("reconciliation-record-required")
      else
        var final := if looked then
                       value.(reconciliationAttempts := prior.reconciliationAttempts
                       + [reconciliation.value.attemptId]) else value;
        if KeyOf(final) != key then Refused("immutable-approval-binding")
        else if final.settled && final.kind == Initial && exists c :: c in Children(db, final.approvalId) && !c.settled
        then Refused("reconciliation-invocation-still-held")
        else Ok(final)
  }

  /** The observation a dispatch transition logs also carries the lookup clock it used. */
  function LoggedObservation(db: Database, prior: Dispatch, value: Dispatch, o: Observation): Observation {
    if value.reconciliationLookups == prior.reconciliationLookups then o
    else
      var started := DispatchLookupClock(db, prior);
      if started.Ok? then o.(reconciliationStarted := Some(started.value)) else o
  }
}
