/**
  * The journal itself: a class over the SQLite tables, with transactions that commit or roll back
  * (src/heterodyne/actions/journal.py).
  */
module FixtureJournals {
  import opened Outcomes
  import opened Clocks
  import opened Requests
  import opened Decisions
  import opened Dispatches
  import opened Transitions
  import opened TransitionFacts
  import opened JournalTables
  import opened JournalSpec
  import opened JournalCapacity
  import opened JournalRuns

  class FixtureJournal {
    var db: Database
    var capacityOwner: Option<CreationKey>
    var capacitySpent: nat

    /** Between transactions: the whole invariant holds and nothing is being spent. */
    ghost predicate Valid()
      reads this
    {
      JournalInv(db) && Idle()
    }

    ghost predicate Idle()
      reads this
    {
      capacityOwner.None? && capacitySpent == 0
    }

    /** The open transaction as a value. */
    ghost function Open(): Tx
      reads this
    {
      Tx(db, capacityOwner, capacitySpent)
    }

    constructor ()
      ensures Valid() && db == EMPTY_DATABASE
    {
      db, capacityOwner, capacitySpent := EMPTY_DATABASE, None, 0;
      new;
      EmptyInv();
    }

    // ---- capacity queries ----

    /** `_reserve_used`: a sum over the owner's usage events. */
    method UsedBy(k: CreationKey) returns (n: nat)
      ensures n == ReserveUsed(db.events, k)
    {
      n := 0;
      for i := 0 to |db.events|
        invariant n == ReserveUsed(db.events[..i], k)
      {
        assert db.events[..i + 1] == db.events[..i] + [db.events[i]];
        ReserveUsedAppend(db.events[..i], db.events[i], k);
        var e := db.events[i];
        if e.UsageEvent? && e.owner == k {
          n := n + e.amount;
        }
      }
      assert db.events[..|db.events|] == db.events;
    }

    /** `_reserved`: the unspent reserve of every outstanding request. */
    method ReservedNow() returns (n: nat)
      ensures n == Reserved(db)
    {
      n := 0;
      var keys := db.requests.Keys;
      while keys != {}
        invariant keys <= db.requests.Keys
        invariant n + UnspentSum(db, keys) == Reserved(db)
        decreases |keys|
      {
        var k :| k in keys;
        UnspentSumRemove(db, keys, k);
        if db.requests[k].outstanding {
          var used := UsedBy(k);
          if used < TERMINAL_RESERVE {
            n := n + (TERMINAL_RESERVE - used);
          }
        }
        keys := keys - {k};
      }
    }

    // ---- one event ----

    /** `_event`. */
    method EmitEvent(e: Event) returns (ok: bool)
      modifies this
      ensures ok == Emit(old(Open()), e).Ok?
      ensures ok ==> Open() == Emit(old(Open()), e).value
      ensures !ok ==> Open() == old(Open())
    {
      var next := |db.events| + 1;
      var reserved := ReservedNow();
      ok := false;
      if next > MAX_EVENTS - reserved || capacitySpent > 0 {
        if capacityOwner.None? {
          return;
        }
        var owner := capacityOwner.value;
        var used := UsedBy(owner);
        var remaining := TERMINAL_RESERVE - used;
        var pending := owner in db.requests && db.requests[owner].outstanding;
        var otherReserves := reserved - (if pending then remaining else 0);
        if capacitySpent + 1 + Tail(e) > remaining || next + Tail(e) > MAX_EVENTS - otherReserves {
          return;
        }
        if next > MAX_EVENTS || SlotTaken(db.events, SlotOf(e)) {
          return;
        }
        capacitySpent := capacitySpent + 1;
      } else if next > MAX_EVENTS || SlotTaken(db.events, SlotOf(e)) {
        return;
      }
      db := db.(events := db.events + [e]);
      ok := true;
    }

    /** `transaction` on exit: record the spent reserve, then commit, or restore the state saved at BEGIN. */
    method EndTransaction(saved: Database) returns (ok: bool)
      modifies this
      ensures Idle()
      ensures ok == Commit(old(Open())).Ok?
      ensures db == if ok then Commit(old(Open())).value else saved
    {
      ok := true;
      if capacitySpent > 0 {
        if capacityOwner.None? {
          ok := false;
        } else {
          var version := NextUsageVersion(db.events, capacityOwner.value);
          ok := EmitEvent(UsageEvent(capacityOwner.value, version, capacitySpent + 1));
        }
      }
      if !ok {
        db := saved;
      }
      capacityOwner, capacitySpent := None, 0;
    }

    /** The tail of a transaction: its events one by one, then commit; any refusal rolls everything back. */
    method LogAndCommit(es: seq<Event>, saved: Database) returns (ok: bool)
      modifies this
      ensures Idle()
      ensures ok == CommitEvents(old(Open()), es).Ok?
      ensures db == if ok then CommitEvents(old(Open()), es).value else saved
    {
      var i := 0;
      while i < |es|
        invariant 0 <= i <= |es|
        invariant EmitAll(old(Open()), es) == EmitAll(Open(), es[i..])
      {
        var admitted := EmitEvent(es[i]);
        assert es[i..][1..] == es[i + 1..];
        if !admitted {
          Abandon(saved);
          return false;
        }
        i := i + 1;
      }
      ok := EndTransaction(saved);
    }

    method Abandon(saved: Database)
      modifies this
      ensures Idle() && db == saved
    {
      db, capacityOwner, capacitySpent := saved, None, 0;
    }

    // ---- transactions ----

    /** Every operation below does exactly what its specification does, or leaves the database as it was. */
    method AddRequest(v: Request) returns (r: Result<CreationKey>)
      requires Idle() && RowidsStored(db)
      modifies this
      ensures Idle() && db == Settled(old(db), JournalSpec.AddRequest(old(db), v))
      ensures r.Ok? == JournalSpec.AddRequest(old(db), v).Ok? && (r.Ok? ==> r.value == v.key)
    {
      var saved := db;
      var admission := RequestAdmission(db, v);
      if admission.Refused? {
        return Refused(admission.code);
      }
      if !admission.value {
        return Ok(v.key);
      }
      db := db.(requests := db.requests[v.key := Row(v.origin.workstream, v.origin.bead, true, v)]);
      var ok := LogAndCommit([RequestEvent(v.key, 0, v)], saved);
      r := if ok then Ok(v.key) else Refused("fixture-event-capacity-needs-recovery");
    }

    method AddDecision(v: Decision) returns (r: Result<string>)
      requires Idle() && RowidsStored(db)
      modifies this
      ensures Idle() && db == Settled(old(db), JournalSpec.AddDecision(old(db), v))
      ensures r.Ok? == JournalSpec.AddDecision(old(db), v).Ok?
      ensures r.Ok? ==> r.value == DecisionAdmission(old(db), v).value.outcome
    {
      var saved := db;
      var admission := DecisionAdmission(db, v);
      if admission.Refused? {
        return Refused(admission.code);
      }
      var plan := admission.value;
      capacityOwner := plan.owner;
      var ok := EmitInbox(plan, v);
      if !ok {
        Abandon(saved);
        return Refused("fixture-event-capacity-needs-recovery");
      }
      var committed;
      if plan.write.None? {
        committed := EndTransaction(saved);
      } else {
        var d := plan.write.value;
        db := db.(decisions := db.decisions[v.approvalId := d]);
        committed := LogAndCommit([DecisionEvent(v.approvalId, d.version, d)], saved);
      }
      r := if committed then Ok(plan.outcome) else Refused("fixture-event-capacity-needs-recovery");
    }

    static lemma InboxEmitted(tx: Tx, e: Event)
      ensures EmitAll(tx, [e]) == Emit(tx, e)
    {
      assert [e][1..] == [];
    }

    /** The inbox event of a decision that carries a new one. */
    method EmitInbox(plan: DecisionPlan, v: Decision) returns (ok: bool)
      modifies this
      ensures ok == EmitAll(old(Open()), InboxEvents(v, plan)).Ok?
      ensures ok ==> Open() == EmitAll(old(Open()), InboxEvents(v, plan)).value
    {
      if !plan.inbox {
        return true;
      }
      var inbox := InboxEvent(v.approvalId, v.event.eventId, v);
      InboxEmitted(Open(), inbox);
      ok := EmitEvent(inbox);
    }

    static lemma PrecedeNext(parent: Dispatch, children: seq<Dispatch>, i: nat, v: Dispatch)
      requires i < |children| && AllPrecede(parent, children[..i], v)
      ensures AllPrecede(parent, children[..i + 1], v) <==> Precedes(parent, children[i], v)
      ensures !Precedes(parent, children[i], v) ==> !AllPrecede(parent, children, v)
    {
      assert children[..i + 1] == children[..i] + [children[i]];
    }

    /** `_add_reconciliation`'s loop over the parent and its earlier children. */
    method CheckReconciliation(parent: Dispatch, v: Dispatch) returns (ok: bool)
      requires RowidsStored(db)
      ensures ok == Reconcilable(db, parent, v)
    {
      var children := Children(db, v.approvalId);
      if !ParentBinding(parent, v) || !Precedes(parent, parent, v) {
        return false;
      }
      var previousStart := parent.started;
      var reconciliations := 0;
      while reconciliations < |children|
        invariant 0 <= reconciliations <= |children|
        invariant previousStart == if reconciliations == 0 then parent.started
                                   else children[reconciliations - 1].started
        invariant AllPrecede(parent, children[..reconciliations], v)
      {
        var previous := children[reconciliations];
        PrecedeNext(parent, children, reconciliations, v);
        if !Precedes(parent, previous, v) {
          return false;
        }
        previousStart := previous.started;
        reconciliations := reconciliations + 1;
      }
      assert children[..reconciliations] == children;
      if reconciliations >= 3 {
        return false;
      }
      var elapsed := ClockElapsed(previousStart, v.started);
      return elapsed.Ok? && elapsed.value >= Backoff(reconciliations);
    }

    /** add_dispatch's checks, in the source's order. */
    method CheckDispatch(v: Dispatch, sampled: Clock) returns (r: Result<Dispatch>)
      requires RowidsStored(db)
      ensures r.Ok? == DispatchAdmission(db, v, sampled).Ok?
      ensures r.Ok? ==> r == DispatchAdmission(db, v, sampled)
    {
      var prepared := PreparedDispatch(db, v, sampled);
      if prepared.Refused? {
        return prepared;
      }
      var d := prepared.value;
      var gate := ApprovalGate(db, d);
      if gate.Refused? {
        return Refused(gate.code);
      }
      if |db.dispatches| >= MAX_RECORDS {
        return Refused("fixture-record-capacity-needs-recovery");
      }
      if d.kind == Reconcile {
        if InitialKey(d.approvalId) !in db.dispatches {
          return Refused("fixture-record-missing-decision-or-request");
        }
        var due := CheckReconciliation(db.dispatches[InitialKey(d.approvalId)], d);
        return if due then prepared else Refused("reconcile-refused");
      }
      if exists l :: l in LocksOf(d) && l in db.resources {
        return Refused("resource-still-held");
      }
      return prepared;
    }

    /** The write half of a dispatch admission: locks, row, event and clock. */
    method InsertDispatchRow(d: Dispatch, owner: Option<CreationKey>, sampled: Clock) returns (ok: bool)
      requires Idle()
      modifies this
      ensures Idle()
      ensures ok == CommitEvents(Begin(InsertDispatch(old(db), d), owner), DispatchEvents(d, sampled)).Ok?
      ensures db == if ok then CommitEvents(Begin(InsertDispatch(old(db), d), owner), DispatchEvents(d, sampled)).value
                    else old(db)
    {
      var saved := db;
      var k := KeyOf(d);
      capacityOwner := owner;
      if d.kind == Initial {
        db := db.(resources := db.resources + map l | l in LocksOf(d) :: k);
      }
      db := db.(dispatches := db.dispatches[k := d], rowids := db.rowids + [k]);
      ok := LogAndCommit([DispatchEvent(k, d.version, d), ClockEvent(DispatchRow(k), d.version, sampled)], saved);
    }

    method AddDispatch(v: Dispatch, sampled: Clock) returns (ok: bool)
      requires Idle() && RowidsStored(db)
      modifies this
      ensures Idle() && db == Settled(old(db), JournalSpec.AddDispatch(old(db), v, sampled))
      ensures ok == JournalSpec.AddDispatch(old(db), v, sampled).Ok?
    {
      var checked := CheckDispatch(v, sampled);
      if checked.Refused? {
        return false;
      }
      var d := checked.value;
      var owner: Result<Option<CreationKey>> := Ok(None);
      if d.kind == Reconcile {
        owner := OwnerFor(db, d.approvalId);
        if owner.Refused? {
          return false;
        }
      }
      ok := InsertDispatchRow(d, owner.value, sampled);
    }

    /** `_denial`: INSERT OR IGNORE, and one event when the row is new. */
    method InsertDenial(request: Request, d: Decision) returns (ok: bool)
      requires DenialCommitted(request, Some(d))
      modifies this
      ensures ok == WriteDenial(old(Open()), request, d).Ok?
      ensures ok ==> Open() == WriteDenial(old(Open()), request, d).value
    {
      var identity := request.denialIdentity.value;
      if identity in db.denials {
        return true;
      }
      db := db.(denials := db.denials[identity := DenialRow(request.origin.sessionKey, d.approvalId)]);
      ok := EmitEvent(DenialEvent(identity, request.key, d));
    }

    method RecordDenial(request: Request, d: Decision) returns (ok: bool)
      requires Idle() && RowidsStored(db)
      modifies this
      ensures Idle() && db == Settled(old(db), JournalSpec.RecordDenial(old(db), request, d))
      ensures ok == JournalSpec.RecordDenial(old(db), request, d).Ok?
    {
      var saved := db;
      if d.approvalId !in db.decisions || request.key !in db.requests || db.decisions[d.approvalId] != d
         || db.requests[request.key].value != request || !DenialCommitted(request, Some(d))
      {
        return false;
      }
      ok := InsertDenial(request, d);
      if !ok {
        Abandon(saved);
        return;
      }
      ok := EndTransaction(saved);
    }

    method TransitionRequest(
      k: CreationKey, expected: nat, v: Request, o: Observation, sampled: Clock) returns (ok: bool)
      requires Idle() && RowidsStored(db)
      modifies this
      ensures Idle() && db == Settled(old(db), JournalSpec.TransitionRequest(old(db), k, expected, v, o, sampled))
      ensures ok == JournalSpec.TransitionRequest(old(db), k, expected, v, o, sampled).Ok?
    {
      var plan := PlanRequest(db, k, expected, v, o, sampled);
      if plan.Refused? || plan.value.NoOp? {
        return plan.Ok?;
      }
      ok := StoreRequestRow(k, plan.value.owner, plan.value.value, plan.value.observation, sampled);
    }

    /** A denied request records its denial before it is settled. */
    method DenyBeforeSettling(v: Request) returns (ok: bool)
      modifies this
      ensures ok == DenyFirst(old(Open()), v).Ok?
      ensures ok ==> Open() == DenyFirst(old(Open()), v).value
    {
      ok := true;
      if v.phase == Denied {
        var decision := Lookup(db.decisions, OrEmpty(v.approvalId));
        if !DenialCommitted(v, decision) {
          return false;
        }
        ok := InsertDenial(v, decision.value);
      }
    }

    /** The write half of a request transition. */
    method StoreRequestRow(
      k: CreationKey, owner: Option<CreationKey>, v: Request, o: Observation, sampled: Clock) returns (ok: bool)
      requires Idle() && k in db.requests
      modifies this
      ensures Idle()
      ensures ok == ApplyRequest(old(db), k, owner, v, o, sampled).Ok?
      ensures db == if ok then ApplyRequest(old(db), k, owner, v, o, sampled).value else old(db)
    {
      var saved := db;
      var prior := db.requests[k].value;
      capacityOwner := owner;
      ok := DenyBeforeSettling(v);
      if !ok {
        Abandon(saved);
        return;
      }
      ok := RefreshRequestRow(prior, k, v, o, sampled, saved);
    }

    method RefreshRequestRow(
      prior: Request, k: CreationKey, v: Request, o: Observation, sampled: Clock, saved: Database)
      returns (ok: bool)
      modifies this
      ensures Idle()
      ensures ok == RefreshRequest(old(Open()), prior, k, v, o, sampled).Ok?
      ensures db == if ok then RefreshRequest(old(Open()), prior, k, v, o, sampled).value else saved
    {
      var final := RefreshedDenials(db, prior, v);
      if final.Refused? || k !in db.requests {
        Abandon(saved);
        return false;
      }
      var always := v.phase == AllocationUnknown || v.allocationLookups != prior.allocationLookups;
      ok := WriteRequestRow(k, final.value, o, sampled, always, saved);
    }

    method WriteRequestRow(
      k: CreationKey, r: Request, o: Observation, sampled: Clock, always: bool, saved: Database) returns (ok: bool)
      requires k in db.requests
      modifies this
      ensures Idle()
      ensures ok == WriteRequest(old(Open()), k, r, o, sampled, always).Ok?
      ensures db == if ok then WriteRequest(old(Open()), k, r, o, sampled, always).value else saved
    {
      db := db.(requests := db.requests[k := db.requests[k].(outstanding := Outstanding(r), value := r)]);
      ok := LogAndCommit(StepEvents(RequestEvent(k, r.version, r), RequestRow(k), r.version, sampled, o, always),
                         saved);
    }

    method TransitionDecision(a: string, expected: nat, v: Decision, o: Observation, sampled: Clock) returns (ok: bool)
      requires Idle() && RowidsStored(db)
      modifies this
      ensures Idle() && db == Settled(old(db), JournalSpec.TransitionDecision(old(db), a, expected, v, o, sampled))
      ensures ok == JournalSpec.TransitionDecision(old(db), a, expected, v, o, sampled).Ok?
    {
      var plan := PlanDecision(db, a, expected, v, o, sampled);
      if plan.Refused? || plan.value.NoOp? {
        return plan.Ok?;
      }
      ok := StoreDecisionRow(a, plan.value.owner, plan.value.value, plan.value.observation, sampled);
    }

    method StoreDecisionRow(
      a: string, owner: Option<CreationKey>, v: Decision, o: Observation, sampled: Clock) returns (ok: bool)
      requires Idle()
      modifies this
      ensures Idle()
      ensures ok == ApplyDecision(old(db), a, owner, v, o, sampled).Ok?
      ensures db == if ok then ApplyDecision(old(db), a, owner, v, o, sampled).value else old(db)
    {
      var saved := db;
      capacityOwner := owner;
      if v.phase == Committed && v.event.verdict == Deny {
        var request := RequestFor(db, v.approvalId);
        if request.Refused? || !DenialCommitted(request.value, Some(v)) {
          Abandon(saved);
          return false;
        }
        ok := InsertDenial(request.value, v);
        if !ok {
          Abandon(saved);
          return;
        }
      }
      db := db.(decisions := db.decisions[a := v]);
      ok := LogAndCommit(StepEvents(DecisionEvent(a, v.version, v), DecisionRow(a), v.version, sampled, o, false),
                         saved);
    }

    method TransitionDispatch(
      k: DispatchKey, expected: nat, v: Dispatch, o: Observation, sampled: Clock) returns (ok: bool)
      requires Idle() && RowidsStored(db)
      modifies this
      ensures Idle() && db == Settled(old(db), JournalSpec.TransitionDispatch(old(db), k, expected, v, o, sampled))
      ensures ok == JournalSpec.TransitionDispatch(old(db), k, expected, v, o, sampled).Ok?
    {
      var plan := PlanDispatch(db, k, expected, v, o, sampled);
      if plan.Refused? || plan.value.NoOp? {
        return plan.Ok?;
      }
      ok := StoreDispatchRow(k, plan.value.owner, plan.value.value, plan.value.observation, sampled);
    }

    /** The write half of a dispatch transition: a settled initial dispatch gives its locks back. */
    method StoreDispatchRow(
      k: DispatchKey, owner: Option<CreationKey>, d: Dispatch, o: Observation, sampled: Clock) returns (ok: bool)
      requires Idle()
      modifies this
      ensures Idle()
      ensures ok == ApplyDispatch(old(db), k, owner, d, o, sampled).Ok?
      ensures db == if ok then ApplyDispatch(old(db), k, owner, d, o, sampled).value else old(db)
    {
      var saved := db;
      capacityOwner := owner;
      db := db.(dispatches := db.dispatches[k := d]);
      if d.settled && d.kind == Initial {
        db := db.(resources := map l | l in db.resources && db.resources[l] != k :: db.resources[l]);
      }
      ok := LogAndCommit(StepEvents(DispatchEvent(k, d.version, d), DispatchRow(k), d.version, sampled, o, false),
                         saved);
    }

    /** Any operation on a valid journal leaves a valid journal that only grew. */
    method Execute(op: Op) returns (ok: bool)
      requires Valid()
      modifies this
      ensures Valid() && db == After(old(db), op) && Advances(old(db), db)
      ensures ok == Perform(old(db), op).Ok?
    {
      StepKeeps(db, op);
      ok := Dispatched(op);
    }

    method Dispatched(op: Op) returns (ok: bool)
      requires Idle() && RowidsStored(db)
      modifies this
      ensures Idle() && db == After(old(db), op)
      ensures ok == Perform(old(db), op).Ok?
    {
      match op
      case OpAddRequest(v) =>
        var r := AddRequest(v);
        ok := r.Ok?;
      case OpAddDecision(v) =>
        var r := AddDecision(v);
        ok := r.Ok?;
      case OpAddDispatch(v, sampled) => ok := AddDispatch(v, sampled);
      case OpRecordDenial(r, d) => ok := RecordDenial(r, d);
      case OpRequest(k, n, v, o, sampled) => ok := TransitionRequest(k, n, v, o, sampled);
      case OpDecision(a, n, v, o, sampled) => ok := TransitionDecision(a, n, v, o, sampled);
      case OpDispatch(k, n, v, o, sampled) => ok := TransitionDispatch(k, n, v, o, sampled);
    }
  }
}
