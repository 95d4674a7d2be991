/** The exact table and log change of every committed transaction, with the capacity law carried across it. */
module JournalSteps {
  import opened Outcomes
  import opened Clocks
  import opened Requests
  import opened Decisions
  import opened Dispatches
  import opened Transitions
  import opened TransitionFacts
  import opened JournalTables
  import opened JournalSpec
  import opened JournalCapacity

  /** Events that carry no record and no record clock. */
  predicate Auxiliary(e: Event) {
    e.ObservationEvent? || e.InboxEvent? || e.DenialEvent? || e.UsageEvent?
  }

  /** The events of one transaction: a row event (with its clock) between auxiliary ones. */
  datatype Delta = Delta(before: seq<Event>, rows: seq<Event>, behind: seq<Event>)

  ghost predicate Grew(db: Database, d: Delta, after: Database) {
    && (forall e :: e in d.before || e in d.behind ==> Auxiliary(e))
    && after.events == db.events + d.before + d.rows + d.behind
  }

  /** The only observations logged are of this record. */
  ghost predicate Watches(d: Delta, record: Option<RecordKey>) {
    forall e :: (e in d.before || e in d.behind) && e.ObservationEvent? ==> record == Some(e.record)
  }

  /** The transaction logs this observation of the record's new version, and no other. */
  ghost predicate Observes(d: Delta, record: RecordKey, version: nat, o: Observation) {
    && (forall e :: (e in d.before || e in d.behind) && e.ObservationEvent? ==>
                      e == ObservationEvent(record, version, o))
    && (o.(now := None) != EMPTY_OBSERVATION ==> ObservationEvent(record, version, o) in d.behind)
  }

  /** Denials are kept; those logged are in the table, each under its own session. */
  ghost predicate DenialsNoted(
    denials: map<DenialIdentity, DenialRow>, later: map<DenialIdentity, DenialRow>, es: seq<Event>) {
    && (forall i :: i in denials ==> i in later && later[i] == denials[i])
    && (forall i :: i in later && i !in denials ==> later[i].sessionKey == i.sessionKey)
    && (forall e :: e in es && e.DenialEvent? ==> e.identity in later)
  }

  /** The transaction logs its denials before its row. */
  ghost predicate Notes(db: Database, d: Delta, after: Database) {
    DenialsNoted(db.denials, after.denials, d.before) && forall e :: e in d.behind ==> !e.DenialEvent?
  }

  /** After commit the log is the emitted events, and possibly one usage event. */
  lemma FinishStep(tx: Tx, es: seq<Event>) returns (usage: seq<Event>)
    requires TxSound(tx) && CommitEvents(tx, es).Ok?
    requires forall e :: e in es ==> !e.UsageEvent?
    ensures forall e :: e in usage ==> e.UsageEvent?
    ensures CommitEvents(tx, es).value == tx.db.(events := tx.db.events + es + usage)
    ensures CapacityHolds(CommitEvents(tx, es).value)
  {
    EmitAllSound(tx, es);
    var out := EmitAll(tx, es).value;
    CommitSound(out);
    if out.spent == 0 {
      usage := [];
      assert tx.db.events + es + usage == tx.db.events + es;
    } else {
      usage := [UsageEvent(out.owner.value, NextUsageVersion(out.db.events, out.owner.value), out.spent + 1)];
    }
  }

  lemma CommitStep(tx: Tx) returns (usage: seq<Event>)
    requires TxSound(tx)
    ensures forall e :: e in usage ==> e.UsageEvent?
    ensures Commit(tx) == Ok(tx.db.(events := tx.db.events + usage))
    ensures CapacityHolds(Commit(tx).value)
  {
    assert EmitAll(tx, []) == Ok(tx);
    CommitSound(tx);
    usage := FinishStep(tx, []);
    assert tx.db.events + [] + usage == tx.db.events + usage;
  }

  // ---- requests ----

  /** A new row reserves 96 events before its own first event is admitted. */
  lemma AddRequestStep(db: Database, v: Request) returns (d: Delta)
    requires CapacityHolds(db) && v.key !in db.requests
    requires CommitEvents(Begin(InsertRequest(db, v), None), [RequestEvent(v.key, 0, v)]).Ok?
    ensures var after := CommitEvents(Begin(InsertRequest(db, v), None), [RequestEvent(v.key, 0, v)]).value;
            && CapacityHolds(after) && Grew(db, d, after) && d.rows == [RequestEvent(v.key, 0, v)] && Watches(d, None)
            && Notes(db, d, after) && d.before == [] && after == InsertRequest(db, v).(events := after.events)
  {
    var inserted := InsertRequest(db, v);
    var e := RequestEvent(v.key, 0, v);
    var tx := Begin(inserted, None);
    ReservedDelta(db, inserted, v.key);
    assert Emit(tx, e).Ok?;
    assert TxSound(tx);
    var usage := FinishStep(tx, [e]);
    d := Delta([], [e], usage);
    assert db.events + [] + [e] + usage == db.events + [e] + usage;
  }

  lemma WriteDenialStep(tx: Tx, r: Request, x: Decision) returns (es: seq<Event>)
    requires TxSound(tx) && DenialCommitted(r, Some(x)) && WriteDenial(tx, r, x).Ok?
    ensures forall e :: e in es ==> e.DenialEvent?
    ensures var out := WriteDenial(tx, r, x).value;
            && TxSound(out) && out.owner == tx.owner && DenialsNoted(tx.db.denials, out.db.denials, es)
            && out.db == tx.db.(denials := out.db.denials, events := tx.db.events + es)
  {
    var identity := r.denialIdentity.value;
    if identity in tx.db.denials {
      es := [];
      assert tx.db.events + es == tx.db.events;
    } else {
      var written :=
        tx.(db := tx.db.(denials := tx.db.denials[identity := DenialRow(r.origin.sessionKey, x.approvalId)]));
      SameLogSound(tx, written.db);
      EmitSound(written, DenialEvent(identity, r.key, x));
      es := [DenialEvent(identity, r.key, x)];
    }
  }

  lemma RecordDenialStep(db: Database, r: Request, x: Decision) returns (d: Delta)
    requires CapacityHolds(db) && RecordDenial(db, r, x).Ok?
    ensures var after := RecordDenial(db, r, x).value;
            && CapacityHolds(after) && Grew(db, d, after) && d.rows == [] && Watches(d, None)
            && Notes(db, d, after) && after == db.(denials := after.denials, events := after.events)
  {
    BeginSound(db, None);
    var es := WriteDenialStep(Begin(db, None), r, x);
    var usage := CommitStep(WriteDenial(Begin(db, None), r, x).value);
    d := Delta(es, [], usage);
    assert db.events + es + [] + usage == db.events + es + usage;
  }

  /** Logging one stored row: the row event and its clock, between auxiliary events. */
  lemma RowStep(
    db: Database, es: seq<Event>, tx: Tx, row: Event, record: RecordKey, version: nat, sampled: Clock, o: Observation,
    always: bool)
    returns (d: Delta)
    requires TxSound(tx) && !row.UsageEvent? && tx.db.events == db.events + es
    requires (forall e :: e in es ==> e.DenialEvent?) && DenialsNoted(db.denials, tx.db.denials, es)
    requires CommitEvents(tx, StepEvents(row, record, version, sampled, o, always)).Ok?
    ensures var after := CommitEvents(tx, StepEvents(row, record, version, sampled, o, always)).value;
            && CapacityHolds(after) && Grew(db, d, after) && d.rows == [row, ClockEvent(record, version, sampled)]
            && Observes(d, record, version, o) && Notes(db, d, after) && d.before == es
            && after == tx.db.(events := after.events)
  {
    var steps := StepEvents(row, record, version, sampled, o, always);
    var usage := FinishStep(tx, steps);
    d := Delta(es, steps[..2], steps[2..] + usage);
    assert steps == steps[..2] + steps[2..];
    assert tx.db.events + steps + usage == db.events + d.before + d.rows + d.behind;
  }

  /** What one request step stored, and the evidence that admitted it. */
  ghost predicate RequestStored(db: Database, k: CreationKey, final: Request, after: Database) {
    && k in db.requests
    && RequestEvolves(db.requests[k].value, final, Lookup(db.decisions, OrEmpty(final.approvalId)),
                      Lookup(db.dispatches, InitialKey(OrEmpty(final.approvalId))))
    && after == db.(requests := StoreRequest(db, k, final).requests, denials := after.denials, events := after.events)
  }

  lemma PlanRequestFacts(db: Database, k: CreationKey, expected: nat, v: Request, o: Observation, sampled: Clock)
    requires RowidsStored(db) && RowsAgree(db)
    requires PlanRequest(db, k, expected, v, o, sampled).Ok? && PlanRequest(db, k, expected, v, o, sampled).value.Store?
    ensures var plan := PlanRequest(db, k, expected, v, o, sampled).value;
            && k in db.requests && plan.value == v && (plan.owner.Some? ==> plan.owner.value == k && Holds(db, k))
            && RequestEvolves(db.requests[k].value, v, Lookup(db.decisions, OrEmpty(v.approvalId)),
                              Lookup(db.dispatches, InitialKey(OrEmpty(v.approvalId))))
  {
    var prior := db.requests[k].value;
    ProposalEvolves(db, prior, v, RecoveryClock(db, OfRequest(prior), Sampled(o, sampled), sampled).value);
  }

  lemma ProposalEvolves(db: Database, prior: Request, v: Request, o: Observation)
    requires RequestProposal(db, prior, v, o).Ok? && v != prior
    ensures RequestProposal(db, prior, v, o).value == v
    ensures RequestEvolves(prior, v, Lookup(db.decisions, OrEmpty(v.approvalId)),
                           Lookup(db.dispatches, InitialKey(OrEmpty(v.approvalId))))
  {
    var decision := Lookup(db.decisions, OrEmpty(v.approvalId));
    var dispatch := Lookup(db.dispatches, InitialKey(OrEmpty(v.approvalId)));
    var issued := if prior.phase == AllocationUnknown then
      FindObservation(db.events, RequestRow(prior.key), prior.version) else None;
    var started := if issued.Some? then issued.value.now else None;
    var observation := if prior.phase == AllocationUnknown then o.(allocationStarted := started) else o;
    RequestCandidateEvolves(prior, v, decision, dispatch, observation);
  }

  lemma RefreshKeepsEvolution(
    db: Database, prior: Request, v: Request, decision: Option<Decision>, dispatch: Option<Dispatch>)
    requires RequestEvolves(prior, v, decision, dispatch) && RefreshedDenials(db, prior, v).Ok?
    ensures var final := RefreshedDenials(db, prior, v).value;
            RequestEvolves(prior, final, decision, dispatch) && final == v.(priorDenials := final.priorDenials)
  {
  }

  /** The stored request is the proposed one with its session's denials; one being filed is not among them. */
  ghost predicate Refreshed(db: Database, v: Request, final: Request) {
    && final == v.(priorDenials := final.priorDenials)
    && (v.phase == Filed && v.denialIdentity.Some? ==>
          v.denialIdentity.value !in SessionDenials(db, v.origin.sessionKey))
  }

  lemma RefreshFacts(db: Database, tx: Tx, prior: Request, v: Request)
    requires RefreshedDenials(tx.db, prior, v).Ok? && (v.phase == Filed ==> tx.db == db)
    ensures Refreshed(db, v, RefreshedDenials(tx.db, prior, v).value)
  {
  }

  lemma DenyFirstStep(tx: Tx, v: Request) returns (es: seq<Event>)
    requires TxSound(tx) && DenyFirst(tx, v).Ok?
    ensures (forall e :: e in es ==> e.DenialEvent?) && (v.phase != Denied ==> es == [])
    ensures var out := DenyFirst(tx, v).value;
            && TxSound(out) && out.owner == tx.owner && DenialsNoted(tx.db.denials, out.db.denials, es)
            && out.db == tx.db.(denials := out.db.denials, events := tx.db.events + es)
  {
    es := [];
    assert tx.db.events + es == tx.db.events;
    if v.phase == Denied {
      es := WriteDenialStep(tx, v, tx.db.decisions[OrEmpty(v.approvalId)]);
    }
  }

  lemma ApplyRequestStep(
    db: Database, k: CreationKey, owner: Option<CreationKey>, v: Request, o: Observation, sampled: Clock)
    returns (d: Delta, final: Request)
    requires CapacityHolds(db) && RowsAgree(db) && (owner.Some? ==> Holds(db, owner.value)) && k in db.requests
    requires RequestEvolves(db.requests[k].value, v, Lookup(db.decisions, OrEmpty(v.approvalId)),
                            Lookup(db.dispatches, InitialKey(OrEmpty(v.approvalId))))
    requires ApplyRequest(db, k, owner, v, o, sampled).Ok?
    ensures var after := ApplyRequest(db, k, owner, v, o, sampled).value;
            && CapacityHolds(after) && Grew(db, d, after) && RequestStored(db, k, final, after)
            && Watches(d, Some(RequestRow(k))) && Notes(db, d, after) && Refreshed(db, v, final)
            && (v.phase != Denied ==> d.before == [])
            && d.rows == [RequestEvent(k, final.version, final), ClockEvent(RequestRow(k), final.version, sampled)]
  {
    var prior := db.requests[k].value;
    BeginSound(db, owner);
    var es := DenyFirstStep(Begin(db, owner), v);
    var tx := DenyFirst(Begin(db, owner), v).value;
    RefreshKeepsEvolution(tx.db, prior, v, Lookup(db.decisions, OrEmpty(v.approvalId)),
                          Lookup(db.dispatches, InitialKey(OrEmpty(v.approvalId))));
    final := RefreshedDenials(tx.db, prior, v).value;
    RefreshFacts(db, tx, prior, v);
    var always := v.phase == AllocationUnknown || v.allocationLookups != prior.allocationLookups;
    d := StoreFinal(db, es, tx, k, final, o, sampled, always);
  }

  ghost function FinalEvents(k: CreationKey, final: Request, sampled: Clock, o: Observation, always: bool): seq<Event> {
    StepEvents(RequestEvent(k, final.version, final), RequestRow(k), final.version, sampled, o, always)
  }

  /** The refreshed request is stored and logged after the denial it may have caused. */
  lemma StoreFinal(
    db: Database, es: seq<Event>, tx: Tx, k: CreationKey, final: Request, o: Observation, sampled: Clock, always: bool)
    returns (d: Delta)
    requires TxSound(tx) && k in db.requests && tx.db == db.(denials := tx.db.denials, events := db.events + es)
    requires (forall e :: e in es ==> e.DenialEvent?) && DenialsNoted(db.denials, tx.db.denials, es)
    requires Outstanding(final) ==> db.requests[k].outstanding
    requires CommitEvents(tx.(db := StoreRequest(tx.db, k, final)),
                          FinalEvents(k, final, sampled, o, always)).Ok?
    ensures var after := CommitEvents(
                           tx.(db := StoreRequest(tx.db, k, final)),
                           FinalEvents(k, final, sampled, o, always)).value;
            && CapacityHolds(after) && Grew(db, d, after) && Watches(d, Some(RequestRow(k))) && Notes(db, d, after)
            && d.before == es
            && d.rows == [RequestEvent(k, final.version, final), ClockEvent(RequestRow(k), final.version, sampled)]
            && after ==
               db.(requests := StoreRequest(db, k, final).requests, denials := after.denials, events := after.events)
  {
    StoreSound(tx, k, final);
    d := RowStep(db, es, tx.(db := StoreRequest(tx.db, k, final)), RequestEvent(k, final.version, final), RequestRow(k),
                 final.version, sampled, o, always);
  }

  // ---- decisions ----

  lemma OwnerHolds(db: Database, approvalId: string)
    requires RowsAgree(db) && RequestFor(db, approvalId).Ok?
    ensures var o := TerminalBudget(RequestFor(db, approvalId).value); o.Some? ==> Holds(db, o.value)
  {
  }

  lemma DecisionPlanOwner(db: Database, v: Decision)
    requires RowsAgree(db) && DecisionAdmission(db, v).Ok?
    ensures var plan := DecisionAdmission(db, v).value; plan.owner.Some? ==> Holds(db, plan.owner.value)
  {
    if RequestFor(db, v.approvalId).Ok? {
      OwnerHolds(db, v.approvalId);
    }
  }

  lemma WriteDecisionStep(db: Database, v: Decision, plan: DecisionPlan) returns (d: Delta)
    requires CapacityHolds(db) && (plan.owner.Some? ==> Holds(db, plan.owner.value)) && WriteDecision(db, v, plan).Ok?
    ensures var after := WriteDecision(db, v, plan).value;
            && CapacityHolds(after) && Grew(db, d, after) && Watches(d, None) && Notes(db, d, after)
            && (plan.write.None? ==> d.rows == [] && after == db.(events := after.events))
            && (plan.write.Some? ==>
                  && d.rows == [DecisionEvent(v.approvalId, plan.write.value.version, plan.write.value)]
                  && after == db.(decisions := db.decisions[v.approvalId := plan.write.value], events := after.events))
  {
    BeginSound(db, plan.owner);
    var inbox := InboxEvents(v, plan);
    EmitAllSound(Begin(db, plan.owner), inbox);
    var tx := EmitAll(Begin(db, plan.owner), inbox).value;
    if plan.write.None? {
      var usage := CommitStep(tx);
      d := Delta(inbox, [], usage);
      assert db.events + inbox + [] + usage == db.events + inbox + usage;
    } else {
      d := StoreDecisionStep(db, tx, inbox, v.approvalId, plan.write.value);
    }
  }

  lemma StoreDecisionStep(db: Database, tx: Tx, inbox: seq<Event>, a: string, w: Decision) returns (d: Delta)
    requires TxSound(tx) && tx.db == db.(events := db.events + inbox) && (forall e :: e in inbox ==> e.InboxEvent?)
    requires CommitEvents(tx.(db := tx.db.(decisions := tx.db.decisions[a := w])), [DecisionEvent(a, w.version, w)]).Ok?
    ensures var after :=
              CommitEvents(tx.(db := tx.db.(decisions := tx.db.decisions[a := w])),
                           [DecisionEvent(a, w.version, w)]).value;
            && CapacityHolds(after) && Grew(db, d, after) && d.rows == [DecisionEvent(a, w.version, w)]
            && Watches(d, None) && Notes(db, d, after)
            && after == db.(decisions := db.decisions[a := w], events := after.events)
  {
    var written := tx.(db := tx.db.(decisions := tx.db.decisions[a := w]));
    SameLogSound(tx, written.db);
    var usage := FinishStep(written, [DecisionEvent(a, w.version, w)]);
    d := Delta(inbox, [DecisionEvent(a, w.version, w)], usage);
  }

  lemma PlanDecisionFacts(db: Database, a: string, expected: nat, v: Decision, o: Observation, sampled: Clock)
    requires RowidsStored(db) && RowsAgree(db)
    requires PlanDecision(db, a, expected, v, o, sampled).Ok?
    requires PlanDecision(db, a, expected, v, o, sampled).value.Store?
    ensures var plan := PlanDecision(db, a, expected, v, o, sampled).value;
            && a in db.decisions && plan.value == v && v.approvalId == a
            && (plan.owner.Some? ==> Holds(db, plan.owner.value))
            && DecisionEvolves(db.decisions[a], v)
  {
    var prior := db.decisions[a];
    OwnerHolds(db, prior.approvalId);
    DecisionCandidateEvolves(prior, v, RequestFor(db, prior.approvalId).value,
                             RecoveryClock(db, OfDecision(prior), Sampled(o, sampled), sampled).value);
  }

  lemma DenyDecisionStep(tx: Tx, v: Decision) returns (es: seq<Event>)
    requires TxSound(tx) && DenyDecision(tx, v).Ok?
    ensures forall e :: e in es ==> e.DenialEvent?
    ensures var out := DenyDecision(tx, v).value;
            && TxSound(out) && out.owner == tx.owner && DenialsNoted(tx.db.denials, out.db.denials, es)
            && out.db == tx.db.(denials := out.db.denials, events := tx.db.events + es)
  {
    es := [];
    assert tx.db.events + es == tx.db.events;
    if v.phase == Committed && v.event.verdict == Deny {
      es := WriteDenialStep(tx, RequestFor(tx.db, v.approvalId).value, v);
    }
  }

  lemma ApplyDecisionStep(
    db: Database, a: string, owner: Option<CreationKey>, v: Decision, o: Observation,
    sampled: Clock) returns (d: Delta)
    requires CapacityHolds(db) && (owner.Some? ==> Holds(db, owner.value))
    requires ApplyDecision(db, a, owner, v, o, sampled).Ok?
    ensures var after := ApplyDecision(db, a, owner, v, o, sampled).value;
            && CapacityHolds(after) && Grew(db, d, after) && Watches(d, Some(DecisionRow(a))) && Notes(db, d, after)
            && d.rows == [DecisionEvent(a, v.version, v), ClockEvent(DecisionRow(a), v.version, sampled)]
            && after == db.(decisions := db.decisions[a := v], denials := after.denials, events := after.events)
  {
    BeginSound(db, owner);
    var es := DenyDecisionStep(Begin(db, owner), v);
    var tx := DenyDecision(Begin(db, owner), v).value;
    var updated := tx.(db := tx.db.(decisions := tx.db.decisions[a := v]));
    SameLogSound(tx, updated.db);
    d := RowStep(db, es, updated, DecisionEvent(a, v.version, v), DecisionRow(a), v.version, sampled, o, false);
  }

  // ---- dispatches ----

  lemma InsertDispatchStep(db: Database, x: Dispatch, owner: Option<CreationKey>, sampled: Clock) returns (d: Delta)
    requires CapacityHolds(db) && (owner.Some? ==> Holds(db, owner.value))
    requires CommitEvents(Begin(InsertDispatch(db, x), owner), DispatchEvents(x, sampled)).Ok?
    ensures var after := CommitEvents(Begin(InsertDispatch(db, x), owner), DispatchEvents(x, sampled)).value;
            && CapacityHolds(after) && Grew(db, d, after) && d.rows == DispatchEvents(x, sampled) && Watches(d, None)
            && Notes(db, d, after) && after == InsertDispatch(db, x).(events := after.events)
  {
    BeginSound(db, owner);
    SameLogSound(Begin(db, owner), InsertDispatch(db, x));
    var usage := FinishStep(Begin(InsertDispatch(db, x), owner), DispatchEvents(x, sampled));
    d := Delta([], DispatchEvents(x, sampled), usage);
    assert db.events + [] == db.events;
  }

  /**
    * What one dispatch step stores: a lawful evolution; a lookup read a settled child; settling found every child
    * settled.
    */
  ghost predicate DispatchStored(db: Database, k: DispatchKey, final: Dispatch, sampled: Clock)
    requires RowidsStored(db)
  {
    && k in db.dispatches && KeyOf(final) == k
    && var prior := db.dispatches[k];
    && LawfulStep(prior, final, sampled)
    && (final.reconciliationLookups == prior.reconciliationLookups ==>
          final.reconciliationAttempts == prior.reconciliationAttempts)
    && (final.reconciliationLookups != prior.reconciliationLookups ==>
          exists c :: c in db.dispatches && ReadableChild(prior, db.dispatches[c])
                      && final.reconciliationAttempts == prior.reconciliationAttempts + [db.dispatches[c].attemptId])
    && (final.settled && final.kind == Initial ==> forall c :: c in Children(db, final.approvalId) ==> c.settled)
  }

  lemma RecoveryClockNow(db: Database, prior: Record, o: Observation, sampled: Clock)
    requires RowidsStored(db) && o.now == Some(sampled) && RecoveryClock(db, prior, o, sampled).Ok?
    ensures RecoveryClock(db, prior, o, sampled).value == o
  {
  }

  lemma PlanDispatchFacts(db: Database, k: DispatchKey, expected: nat, v: Dispatch, o: Observation, sampled: Clock)
    requires RowidsStored(db) && RowsAgree(db) && (k in db.dispatches ==> WellFormed(db.dispatches[k]))
    requires PlanDispatch(db, k, expected, v, o, sampled).Ok?
    requires PlanDispatch(db, k, expected, v, o, sampled).value.Store?
    ensures var plan := PlanDispatch(db, k, expected, v, o, sampled).value;
            DispatchStored(db, k, plan.value, sampled) && (plan.owner.Some? ==> Holds(db, plan.owner.value))
  {
    var prior := db.dispatches[k];
    RecoveryClockNow(db, OfDispatch(prior), Sampled(o, sampled), sampled);
    DispatchProposalLawful(db, k, prior, v, Sampled(o, sampled), sampled);
    if RecoveryProgress(OfDispatch(prior), OfDispatch(v)) {
      OwnerHolds(db, prior.approvalId);
    }
  }

  lemma DispatchProposalLawful(
    db: Database, k: DispatchKey, prior: Dispatch, v: Dispatch, o: Observation, sampled: Clock)
    requires RowidsStored(db) && k in db.dispatches && db.dispatches[k] == prior && WellFormed(prior) && v != prior
    requires o.now == Some(sampled) && DispatchProposal(db, k, prior, v, o).Ok?
    ensures DispatchStored(db, k, DispatchProposal(db, k, prior, v, o).value, sampled)
  {
    var child := if o.reconciliationKey.Some? then Some(db.dispatches[o.reconciliationKey.value]) else None;
    var looked := v.reconciliationLookups != prior.reconciliationLookups;
    var observation := if looked then o.(reconciliationStarted := Some(DispatchLookupClock(db, prior).value)) else o;
    DispatchCandidateEvolves(prior, v, observation, child, sampled);
    CandidateKeepsAttempts(prior, v, observation, child);
  }

  /** No reducer touches the list of applied children; only the journal appends to it. */
  lemma CandidateKeepsAttempts(d: Dispatch, e: Dispatch, o: Observation, child: Option<Dispatch>)
    requires DispatchCandidate(d, e, o, child) == Ok(e)
    ensures e.reconciliationAttempts == d.reconciliationAttempts
  {
    if o.dispatchOperation.Some? && LaunchStep(o.dispatchOperation.value) {
      LaunchKeepsAttempts(d, e, o, child);
    } else {
      ReadbackKeepsAttempts(d, e, o, child);
    }
  }

  lemma LaunchKeepsAttempts(d: Dispatch, e: Dispatch, o: Observation, child: Option<Dispatch>)
    requires DispatchCandidate(d, e, o, child) == Ok(e) && o.dispatchOperation.Some?
    requires LaunchStep(o.dispatchOperation.value)
    ensures e.reconciliationAttempts == d.reconciliationAttempts
  {
  }

  lemma ReadbackKeepsAttempts(d: Dispatch, e: Dispatch, o: Observation, child: Option<Dispatch>)
    requires DispatchCandidate(d, e, o, child) == Ok(e) && o.dispatchOperation.Some?
    requires !LaunchStep(o.dispatchOperation.value)
    ensures e.reconciliationAttempts == d.reconciliationAttempts
  {
    match o.dispatchOperation.value
    case OpSettle => SettleKeepsAttempts(d, e, o, child);
    case OpFinishReconciliation => FinishKeepsAttempts(d, e, o, child);
    case OpLookup => LookupKeepsAttempts(d, e, o, child);
    case OpReport => ReportKeepsAttempts(d, e, o, child);
    case OpUncertain =>
  }

  lemma SettleKeepsAttempts(d: Dispatch, e: Dispatch, o: Observation, child: Option<Dispatch>)
    requires o.dispatchOperation == Some(OpSettle) && DispatchCandidate(d, e, o, child) == Ok(e)
    ensures e.reconciliationAttempts == d.reconciliationAttempts
  {
    assert SettleDispatch(d, o.dispatchRecovery.value) == Ok(e);
  }

  lemma FinishKeepsAttempts(d: Dispatch, e: Dispatch, o: Observation, child: Option<Dispatch>)
    requires o.dispatchOperation == Some(OpFinishReconciliation) && DispatchCandidate(d, e, o, child) == Ok(e)
    ensures e.reconciliationAttempts == d.reconciliationAttempts
  {
    var read := o.reconciliationReadback.value;
    assert FinishReconciliation(d, read.evidence, read.cleanupProven, read.effect, read.effectCleanupProven) == Ok(e);
  }

  lemma LookupKeepsAttempts(d: Dispatch, e: Dispatch, o: Observation, child: Option<Dispatch>)
    requires o.dispatchOperation == Some(OpLookup) && DispatchCandidate(d, e, o, child) == Ok(e)
    ensures e.reconciliationAttempts == d.reconciliationAttempts
  {
    assert LookupCandidate(d, o, child) == Ok(e);
  }

  lemma ReportKeepsAttempts(d: Dispatch, e: Dispatch, o: Observation, child: Option<Dispatch>)
    requires o.dispatchOperation == Some(OpReport) && DispatchCandidate(d, e, o, child) == Ok(e)
    ensures e.reconciliationAttempts == d.reconciliationAttempts
  {
  }

  lemma ApplyDispatchStep(
    db: Database, k: DispatchKey, owner: Option<CreationKey>, x: Dispatch, o: Observation,
    sampled: Clock) returns (d: Delta)
    requires CapacityHolds(db) && (owner.Some? ==> Holds(db, owner.value))
    requires ApplyDispatch(db, k, owner, x, o, sampled).Ok?
    ensures var after := ApplyDispatch(db, k, owner, x, o, sampled).value;
            && CapacityHolds(after) && Grew(db, d, after) && Observes(d, DispatchRow(k), x.version, o)
            && Notes(db, d, after)
            && d.rows == [DispatchEvent(k, x.version, x), ClockEvent(DispatchRow(k), x.version, sampled)]
            && after == StoreDispatch(db, k, x).(events := after.events)
  {
    BeginSound(db, owner);
    var stored := StoreDispatch(db, k, x);
    SameLogSound(Begin(db, owner), stored);
    assert db.events + [] == db.events;
    d := RowStep(db, [], Begin(stored, owner), DispatchEvent(k, x.version, x), DispatchRow(k), x.version, sampled, o,
                 false);
  }
}
