/** What each journal transaction does to the database, as functions: the specification the class is proved against. */
module JournalSpec {
  import opened Outcomes
  import opened Clocks
  import opened Requests
  import opened Decisions
  import opened Dispatches
  import opened Transitions
  import opened JournalTables

  // ---- the event-capacity allocator ----

  /** Durable reserve already spent by one request. */
  function ReserveUsed(events: seq<Event>, k: CreationKey): nat {
    if events == [] then 0
    else
      var e := events[|events| - 1];
      ReserveUsed(events[..|events| - 1], k) + (if e.UsageEvent? && e.owner == k then e.amount else 0)
  }

  /** The part of the 96-event reserve an outstanding request still holds. */
  function Unspent(db: Database, k: CreationKey): nat {
    if k in db.requests && db.requests[k].outstanding && ReserveUsed(db.events, k) < TERMINAL_RESERVE
    then TERMINAL_RESERVE - ReserveUsed(db.events, k) else 0
  }

  ghost function UnspentSum(db: Database, keys: set<CreationKey>): nat {
    if keys == {} then 0
    else
      var k :| k in keys;
      Unspent(db, k) + UnspentSum(db, keys - {k})
  }

  ghost function Reserved(db: Database): nat {
    UnspentSum(db, db.requests.Keys)
  }

  /** coalesce(max(version), 0) + 1 over one owner's usage events. */
  function NextUsageVersion(events: seq<Event>, k: CreationKey): nat {
    if events == [] then 1
    else
      var e := events[|events| - 1];
      var earlier := NextUsageVersion(events[..|events| - 1], k);
      if e.UsageEvent? && e.owner == k && e.version >= earlier then e.version + 1 else earlier
  }

  /** An open transaction: the working database, the request that may pay, and the events it has paid for. */
  datatype Tx = Tx(db: Database, owner: Option<CreationKey>, spent: nat)

  function Begin(db: Database, owner: Option<CreationKey>): Tx {
    Tx(db, owner, 0)
  }

  function Tail(e: Event): nat {
    One(!e.UsageEvent?)
  }

  ghost predicate Budgeted(tx: Tx) {
    |tx.db.events| + 1 > MAX_EVENTS - Reserved(tx.db) || tx.spent > 0
  }

  ghost function OtherReserves(tx: Tx, o: CreationKey): int {
    var remaining := TERMINAL_RESERVE - ReserveUsed(tx.db.events, o);
    Reserved(tx.db) - (if o in tx.db.requests && tx.db.requests[o].outstanding then remaining else 0)
  }

  /** `_event`: ordinary while the log has room beyond every reserve, otherwise paid from the owner's reserve. */
  ghost function Emit(tx: Tx, e: Event): Result<Tx> {
    var next := |tx.db.events| + 1;
    var appended := tx.db.(events := tx.db.events + [e]);
    if Budgeted(tx) then
      if tx.owner.None? then Refused("fixture-event-capacity-needs-recovery")
      else
        var o := tx.owner.value;
        if
          || tx.spent + 1 + Tail(e) > TERMINAL_RESERVE - ReserveUsed(tx.db.events, o)
          || next + Tail(e) > MAX_EVENTS - OtherReserves(tx, o)
        then Refused("fixture-terminal-capacity-budget-exhausted")
        else if next > MAX_EVENTS then Refused("fixture-event-capacity-needs-recovery")
          else if SlotTaken(tx.db.events, SlotOf(e)) then Refused("unique-event")
          else Ok(tx.(db := appended, spent := tx.spent + 1))
    else if next > MAX_EVENTS then Refused("fixture-event-capacity-needs-recovery")
    else if SlotTaken(tx.db.events, SlotOf(e)) then Refused("unique-event")
    else Ok(tx.(db := appended))
  }

  ghost function EmitAll(tx: Tx, es: seq<Event>): Result<Tx>
    decreases |es|
  {
    if es == [] then Ok(tx)
    else
      var next :- Emit(tx, es[0]);
      EmitAll(next, es[1..])
  }

  /** `transaction` on exit: a transaction that spent reserve records its use as one more event. */
  ghost function Commit(tx: Tx): Result<Database> {
    if tx.spent == 0 then Ok(tx.db)
    else if tx.owner.None? then Refused("fixture-capacity-owner-required")
    else
      var paid :- Emit(tx, UsageEvent(tx.owner.value, NextUsageVersion(tx.db.events, tx.owner.value), tx.spent + 1));
      Ok(paid.db)
  }

  /** The end of every transaction: log its events in order and commit. */
  ghost function CommitEvents(tx: Tx, es: seq<Event>): Result<Database> {
    var logged :- EmitAll(tx, es);
    Commit(logged)
  }

  // ---- transactions ----

  ghost predicate RowidsStored(db: Database) {
    forall k :: k in db.rowids ==> k in db.dispatches
  }

  function InsertRequest(db: Database, v: Request): Database {
    db.(requests := db.requests[v.key := Row(v.origin.workstream, v.origin.bead, true, v)])
  }

  ghost function AddRequest(db: Database, v: Request): Result<Database> {
    var admitted :- RequestAdmission(db, v);
    if admitted then CommitEvents(Begin(InsertRequest(db, v), None), [RequestEvent(v.key, 0, v)]) else Ok(db)
  }

  ghost function AddDecision(db: Database, v: Decision): Result<Database> {
    var plan :- DecisionAdmission(db, v);
    WriteDecision(db, v, plan)
  }

  function InboxEvents(v: Decision, plan: DecisionPlan): seq<Event> {
    if plan.inbox then [InboxEvent(v.approvalId, v.event.eventId, v)] else []
  }

  ghost function WriteDecision(db: Database, v: Decision, plan: DecisionPlan): Result<Database> {
    var tx :- EmitAll(Begin(db, plan.owner), InboxEvents(v, plan));
    if plan.write.None? then Commit(tx)
    else
      var d := plan.write.value;
      CommitEvents(tx.(db := tx.db.(decisions := tx.db.decisions[v.approvalId := d])),
                   [DecisionEvent(v.approvalId, d.version, d)])
  }

  function OwnerFor(db: Database, approvalId: string): Result<Option<CreationKey>> {
    var request :- RequestFor(db, approvalId);
    Ok(TerminalBudget(request))
  }

  /** Both kinds of dispatch admission end by inserting the row and logging it with its clock. */
  ghost function AddDispatch(db: Database, v: Dispatch, sampled: Clock): Result<Database>
    requires RowidsStored(db)
  {
    var d :- DispatchAdmission(db, v, sampled);
    var owner :- if d.kind == Initial then Ok(None) else OwnerFor(db, d.approvalId);
    CommitEvents(Begin(InsertDispatch(db, d), owner), DispatchEvents(d, sampled))
  }

  function InsertDispatch(db: Database, d: Dispatch): Database {
    var k := KeyOf(d);
    db.(dispatches := db.dispatches[k := d], rowids := db.rowids + [k],
    resources := if d.kind == Initial then db.resources + map l | l in LocksOf(d) :: k else db.resources)
  }

  function DispatchEvents(d: Dispatch, sampled: Clock): seq<Event> {
    [DispatchEvent(KeyOf(d), d.version, d), ClockEvent(DispatchRow(KeyOf(d)), d.version, sampled)]
  }

  /** `_denial`: idempotent on the identity, one event for the first committed denial. */
  ghost function WriteDenial(tx: Tx, r: Request, d: Decision): Result<Tx>
    requires DenialCommitted(r, Some(d))
  {
    var identity := r.denialIdentity.value;
    if identity in tx.db.denials then Ok(tx)
    else
      var denials := tx.db.denials[identity := DenialRow(r.origin.sessionKey, d.approvalId)];
      Emit(tx.(db := tx.db.(denials := denials)), DenialEvent(identity, r.key, d))
  }

  ghost function RecordDenial(db: Database, r: Request, d: Decision): Result<Database> {
    if d.approvalId !in db.decisions || r.key !in db.requests then Refused("fixture-record-missing-decision-or-request")
    else if db.decisions[d.approvalId] != d || db.requests[r.key].value != r then Refused("denial-not-durable")
    else if !DenialCommitted(r, Some(d)) then Refused("denial-not-committed")
    else
      var tx :- WriteDenial(Begin(db, None), r, d);
      Commit(tx)
  }

  /** The row event, its clock, and the observation when it says anything. */
  function StepEvents(
    row: Event, record: RecordKey, version: nat, sampled: Clock, o: Observation, always: bool): seq<Event> {
    [row, ClockEvent(record, version, sampled)]
    + (if always || o.(now := None) != EMPTY_OBSERVATION then [ObservationEvent(record, version, o)] else [])
  }

  /** An admitted transition: who may pay, the record to store, and the observation to log. */
  datatype Plan<T> = NoOp | Store(owner: Option<CreationKey>, value: T, observation: Observation)

  /** The checks common to the three kinds of record, before the proposal is rebuilt. */
  function VersionCheck(prior: nat, expected: nat, value: nat): Check {
    if prior != expected then Fail("stale-fixture-version")
    else if value != prior + 1 then Fail("invalid-fixture-transition")
    else Pass
  }

  function PlanRequest(
    db: Database, k: CreationKey, expected: nat, v: Request, o: Observation, sampled: Clock): Result<Plan<Request>>
    requires forall c :: c in db.rowids ==> c in db.dispatches
  {
    if k !in db.requests then Refused("fixture-record-missing-decision-or-request") else
    :- Need(ValidClock(sampled), "invalid-clock");
    var prior := db.requests[k].value;
    var observed :- RecoveryClock(db, OfRequest(prior), Sampled(o, sampled), sampled);
    if v == prior then Ok(NoOp)
    else
      :- VersionCheck(prior.version, expected, v.version);
      var proposal :- RequestProposal(db, prior, v, observed);
      Ok(Store(if RecoveryProgress(OfRequest(prior), OfRequest(v)) then TerminalBudget(prior)
               else None, proposal, observed))
  }

  ghost function TransitionRequest(
    db: Database, k: CreationKey, expected: nat, v: Request, o: Observation, sampled: Clock): Result<Database>
    requires RowidsStored(db)
  {
    var plan :- PlanRequest(db, k, expected, v, o, sampled);
    if plan.NoOp? then Ok(db) else ApplyRequest(db, k, plan.owner, plan.value, plan.observation, sampled)
  }

  function StoreRequest(db: Database, k: CreationKey, r: Request): Database
    requires k in db.requests
  {
    db.(requests := db.requests[k := db.requests[k].(outstanding := Outstanding(r), value := r)])
  }

  /** A committed denial is written before its request is settled. */
  ghost function DenyFirst(tx: Tx, v: Request): Result<Tx> {
    if v.phase != Denied then Ok(tx)
    else if !DenialCommitted(v, Lookup(tx.db.decisions, OrEmpty(v.approvalId))) then Refused("denial-not-committed")
    else WriteDenial(tx, v, tx.db.decisions[OrEmpty(v.approvalId)])
  }

  ghost function ApplyRequest(
    db: Database, k: CreationKey, owner: Option<CreationKey>, v: Request, o: Observation,
    sampled: Clock): Result<Database> {
    if k !in db.requests then Refused("fixture-record-missing-decision-or-request") else
    var prior := db.requests[k].value;
    var tx :- DenyFirst(Begin(db, owner), v);
    RefreshRequest(tx, prior, k, v, o, sampled)
  }

  /** The denials are read back before the row is stored. */
  ghost function RefreshRequest(
    tx: Tx, prior: Request, k: CreationKey, v: Request, o: Observation, sampled: Clock): Result<Database> {
    if k !in tx.db.requests then Refused("fixture-record-missing-decision-or-request") else
    var final :- RefreshedDenials(tx.db, prior, v);
    var always := v.phase == AllocationUnknown || v.allocationLookups != prior.allocationLookups;
    WriteRequest(tx, k, final, o, sampled, always)
  }

  ghost function WriteRequest(
    tx: Tx, k: CreationKey, r: Request, o: Observation, sampled: Clock, always: bool): Result<Database>
    requires k in tx.db.requests
  {
    CommitEvents(tx.(db := StoreRequest(tx.db, k, r)),
                 StepEvents(RequestEvent(k, r.version, r), RequestRow(k), r.version, sampled, o, always))
  }

  function PlanDecision(
    db: Database, a: string, expected: nat, v: Decision, o: Observation, sampled: Clock): Result<Plan<Decision>>
    requires forall c :: c in db.rowids ==> c in db.dispatches
  {
    if a !in db.decisions then Refused("fixture-record-missing-decision-or-request") else
    :- Need(ValidClock(sampled), "invalid-clock");
    var prior := db.decisions[a];
    var observed :- RecoveryClock(db, OfDecision(prior), Sampled(o, sampled), sampled);
    if v == prior then Ok(NoOp)
    else
      :- VersionCheck(prior.version, expected, v.version);
      var request :- RequestFor(db, prior.approvalId);
      var candidate :- DecisionCandidate(prior, v, request, observed);
      :- Need(candidate == v, "decision-transition-not-closed");
      :- Need(v.phase == Committed && v.event.verdict == Deny ==>
                DenialCommitted(request, Some(v)), "denial-not-committed");
      :- Need(v.approvalId == a, "immutable-approval-binding");
      Ok(Store(if RecoveryProgress(OfDecision(prior), OfDecision(v)) then TerminalBudget(request)
               else None, v, observed))
  }

  ghost function TransitionDecision(
    db: Database, a: string, expected: nat, v: Decision, o: Observation, sampled: Clock): Result<Database>
    requires RowidsStored(db)
  {
    var plan :- PlanDecision(db, a, expected, v, o, sampled);
    if plan.NoOp? then Ok(db) else ApplyDecision(db, a, plan.owner, plan.value, plan.observation, sampled)
  }

  /** A committed denial is recorded for its request before the decision row is written. */
  ghost function DenyDecision(tx: Tx, v: Decision): Result<Tx> {
    if v.phase != Committed || v.event.verdict != Deny then Ok(tx)
    else
      var request :- RequestFor(tx.db, v.approvalId);
      if DenialCommitted(request, Some(v)) then WriteDenial(tx, request, v) else Refused("denial-not-committed")
  }

  ghost function ApplyDecision(
    db: Database, a: string, owner: Option<CreationKey>, v: Decision, o: Observation,
    sampled: Clock): Result<Database> {
    var tx :- DenyDecision(Begin(db, owner), v);
    CommitEvents(tx.(db := tx.db.(decisions := tx.db.decisions[a := v])),
                 StepEvents(DecisionEvent(a, v.version, v), DecisionRow(a), v.version, sampled, o, false))
  }

  function PlanDispatch(
    db: Database, k: DispatchKey, expected: nat, v: Dispatch, o: Observation, sampled: Clock): Result<Plan<Dispatch>>
    requires forall c :: c in db.rowids ==> c in db.dispatches
  {
    if k !in db.dispatches then Refused("fixture-record-missing-decision-or-request") else
    :- Need(ValidClock(sampled), "invalid-clock");
    var prior := db.dispatches[k];
    var observed :- RecoveryClock(db, OfDispatch(prior), Sampled(o, sampled), sampled);
    if v == prior then Ok(NoOp)
    else
      :- VersionCheck(prior.version, expected, v.version);
      var owner :- if RecoveryProgress(OfDispatch(prior), OfDispatch(v)) then OwnerFor(db, prior.approvalId)
                   else Ok(None);
      var final :- DispatchProposal(db, k, prior, v, observed);
      Ok(Store(owner, final, LoggedObservation(db, prior, v, observed)))
  }

  ghost function TransitionDispatch(
    db: Database, k: DispatchKey, expected: nat, v: Dispatch, o: Observation, sampled: Clock): Result<Database>
    requires RowidsStored(db)
  {
    var plan :- PlanDispatch(db, k, expected, v, o, sampled);
    if plan.NoOp? then Ok(db) else ApplyDispatch(db, k, plan.owner, plan.value, plan.observation, sampled)
  }

  ghost function ApplyDispatch(
    db: Database, k: DispatchKey, owner: Option<CreationKey>, d: Dispatch, o: Observation,
    sampled: Clock): Result<Database> {
    CommitEvents(Begin(StoreDispatch(db, k, d), owner),
                 StepEvents(DispatchEvent(k, d.version, d), DispatchRow(k), d.version, sampled, o, false))
  }

  /** A settled initial dispatch releases every lock it holds. */
  function StoreDispatch(db: Database, k: DispatchKey, d: Dispatch): Database {
    db.(dispatches := db.dispatches[k := d],
    resources := if d.settled && d.kind == Initial then
      map l | l in db.resources && db.resources[l] != k :: db.resources[l] else db.resources)
  }

  // ---- runs ----

  datatype Op =
    | OpAddRequest(request: Request)
    | OpAddDecision(decision: Decision)
    | OpAddDispatch(dispatch: Dispatch, sampled: Clock)
    | OpRecordDenial(request: Request, decision: Decision)
    | OpRequest(requestKey: CreationKey, expected: nat, request: Request, observation: Observation, sampled: Clock)
    | OpDecision(approvalId: string, expected: nat, decision: Decision, observation: Observation, sampled: Clock)
    | OpDispatch(dispatchKey: DispatchKey, expected: nat, dispatch: Dispatch, observation: Observation, sampled: Clock)

  ghost function Perform(db: Database, op: Op): Result<Database>
    requires RowidsStored(db)
  {
    match op
    case OpAddRequest(v) => AddRequest(db, v)
    case OpAddDecision(v) => AddDecision(db, v)
    case OpAddDispatch(v, now) => AddDispatch(db, v, now)
    case OpRecordDenial(r, d) => RecordDenial(db, r, d)
    case OpRequest(k, n, v, o, now) => TransitionRequest(db, k, n, v, o, now)
    case OpDecision(a, n, v, o, now) => TransitionDecision(db, a, n, v, o, now)
    case OpDispatch(k, n, v, o, now) => TransitionDispatch(db, k, n, v, o, now)
  }

  /** A refused transaction rolls back. */
  function Settled(db: Database, r: Result<Database>): Database {
    if r.Ok? then r.value else db
  }

  ghost function After(db: Database, op: Op): Database {
    if RowidsStored(db) then Settled(db, Perform(db, op)) else db
  }

  ghost predicate StepAt(dbs: seq<Database>, ops: seq<Op>, i: nat)
    requires i < |ops| && |dbs| == |ops| + 1
  {
    dbs[i + 1] == After(dbs[i], ops[i])
  }

  /** A run: the states from the empty database on, one more after each operation. */
  ghost predicate IsRun(dbs: seq<Database>, ops: seq<Op>) {
    && |dbs| == |ops| + 1 && dbs[0] == EMPTY_DATABASE
    && forall i :: 0 <= i < |ops| ==> StepAt(dbs, ops, i)
  }

  /** A state of some run. */
  ghost predicate Reached(db: Database) {
    exists dbs, ops, n: nat :: IsRun(dbs, ops) && n < |dbs| && dbs[n] == db
  }
}
