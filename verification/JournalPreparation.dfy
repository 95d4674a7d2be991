/** When a dispatch is admitted and what it starts as, said of the proposal, the tables and the clock. */
module JournalPreparation {
  import opened Outcomes
  import opened Clocks
  import opened Syntax
  import opened Requests
  import opened Decisions
  import opened Dispatches
  import opened Transitions
  import opened DispatchOutcomes
  import opened JournalTables
  import opened JournalSpec
  import opened JournalSafety

  /** A first version, stamped with the sampled clock: a minute in all, half of it to prepare. */
  predicate Stamps(v: Dispatch, x: Dispatch, at: Clock) {
    && v.version == 0 && v.state == Preparing && ValidClock(at)
    && x == v.(started := at, deadline := at.mono + 60_000_000_000, preparationDeadline := at.mono + 30_000_000_000)
  }

  /** Nothing has happened to it yet. */
  predicate Untouched(x: Dispatch) {
    && x.claimHash == None && x.claimDeadline == None && !x.claimConsumed && x.launchAttempts == 1
    && x.reconciliationLookups == 0 && x.reconciliationAttempts == [] && x.evidence == None
    && !x.cleanupProven && !x.settled && x.recoveryOperatorEvent == None
    && x.reconciliationEffect == None && !x.reconciliationCleanupProven
  }

  predicate WellNamed(x: Dispatch) {
    && BeadId(x.approvalId) && 1 <= x.revision < 0x8000_0000
    && DigestSyntax(x.digest) && DigestSyntax(x.target) && DigestSyntax(x.startupHash)
    && IdentityText(x.attemptId, 128) && IdentityText(x.resource, 256)
  }

  /** The committed execution approval of a filed request, for exactly this digest and revision. */
  predicate Cleared(db: Database, x: Dispatch) {
    && x.approvalId in db.decisions
    && var d := db.decisions[x.approvalId];
    && d.phase == Committed && d.event.verdict == Approve && d.purpose == Execution && d.digest == x.digest
    && d.requestRevision == x.revision
    && RequestFor(db, x.approvalId).Ok?
    && var q := RequestFor(db, x.approvalId).value;
    q.phase == Filed && q.contextDigest == Some(x.digest) && q.requestRevision == x.revision
  }

  /** An initial dispatch: the only one of its approval, with nothing retired, its three locks free. */
  predicate Starts(db: Database, x: Dispatch) {
    && x.kind == Initial && InitialKey(x.approvalId) !in db.dispatches && x.parentAttemptId == None
    && x.retiredStartups == [] && x.retiredNonces == []
    && ResourceLock(x.resource) !in db.resources && EffectLock(x.target) !in db.resources
    && ApprovalLock(x.approvalId) !in db.resources
  }

  predicate Retired(x: Dispatch, n: string) {
    n in x.retiredStartups || n in x.retiredNonces
  }

  /** Every startup and claim nonce of another dispatch of the family is retired in this one, and none is presented. */
  predicate Retires(previous: Dispatch, x: Dispatch) {
    && x.startupHash != previous.startupHash && Some(x.startupHash) != previous.claimHash
    && x.startupHash !in previous.retiredStartups && x.startupHash !in previous.retiredNonces
    && (forall n :: n in previous.retiredStartups ==> Retired(x, n))
    && (forall n :: n in previous.retiredNonces ==> Retired(x, n))
    && Retired(x, previous.startupHash)
    && (previous.claimHash.Some? ==> Retired(x, previous.claimHash.value))
  }

  /** An elder child: settled, launched once, and read if it found anything. */
  predicate ElderChild(parent: Dispatch, c: Dispatch, x: Dispatch) {
    && c.settled && c.launchAttempts == 1 && c.attemptId != x.attemptId && Retires(c, x)
    && (c.reconciliationEffect.Some? ==> c.attemptId in parent.reconciliationAttempts)
  }

  /** The parent of a read-only invocation: an open initial dispatch whose outcome is in doubt or failed. */
  predicate Asks(parent: Dispatch, x: Dispatch) {
    && parent.kind == Initial && !parent.settled && (parent.state == Uncertain || parent.state == Failed)
    && x.parentAttemptId == Some(parent.attemptId) && x.attemptId != parent.attemptId
    && x.approvalId == parent.approvalId && x.revision == parent.revision && x.digest == parent.digest
    && x.target == parent.target && x.resource == parent.resource
    && Retires(parent, x)
    && (forall n :: n in parent.retiredStartups ==> n in x.retiredStartups) && parent.startupHash in x.retiredStartups
    && (forall n :: n in parent.retiredNonces ==> n in x.retiredNonces)
    && (parent.claimHash.Some? ==> parent.claimHash.value in x.retiredNonces)
  }

  /** A reconciliation: at most the third, after its wait, each elder settled and read. */
  predicate Reconciles(db: Database, x: Dispatch)
    requires RowsStored(db)
  {
    && x.kind == Reconcile && ReconcileKey(x.approvalId, x.attemptId) !in db.dispatches
    && InitialKey(x.approvalId) in db.dispatches
    && var parent, elders := db.dispatches[InitialKey(x.approvalId)], Children(db, x.approvalId);
    && Asks(parent, x) && |elders| < 3
    && (forall i :: 0 <= i < |elders| ==> elders[i].kind == Reconcile && ElderChild(parent, elders[i], x))
    && Passed(if elders == [] then parent.started else elders[|elders| - 1].started, x.started,
              if |elders| == 0 then 1_000_000_000 else if |elders| == 1 then 5_000_000_000 else 30_000_000_000)
  }

  predicate RowsStored(db: Database) {
    forall k :: k in db.rowids ==> k in db.dispatches
  }

  predicate Admits(db: Database, v: Dispatch, x: Dispatch, at: Clock)
    requires RowsStored(db)
  {
    && Stamps(v, x, at) && Untouched(x) && WellNamed(x) && Cleared(db, x) && |db.dispatches| < 4096
    && (Starts(db, x) || Reconciles(db, x))
  }

  // ---- both ways ----

  lemma PrepareExact(v: Dispatch, at: Clock)
    requires v.kind == Initial && v.version == 0 && v.state == Preparing
    ensures Prepare(v.approvalId, v.revision, v.digest, v.target, v.attemptId, v.resource, v.startupHash, at) ==
            Ok(Stamped(v, at)) <==>
            && ValidClock(at) && Untouched(v) && WellNamed(v) && v.parentAttemptId == None
            && v.retiredStartups == [] && v.retiredNonces == []
  {
  }

  lemma StampExact(v: Dispatch, x: Dispatch, at: Clock)
    ensures Stamps(v, x, at) <==> v.version == 0 && v.state == Preparing && ValidClock(at) && x == Stamped(v, at)
  {
  }

  lemma GateExact(db: Database, x: Dispatch)
    ensures ApprovalGate(db, x).Ok? <==> Cleared(db, x)
  {
  }

  lemma RetiresExact(previous: Dispatch, x: Dispatch)
    ensures Retires(previous, x) <==>
            && x.startupHash !in Used(previous)
            && Used(previous) <= (set n | n in x.retiredStartups) + (set n | n in x.retiredNonces)
  {
    var kept := (set n | n in x.retiredStartups) + (set n | n in x.retiredNonces);
    assert forall n :: n in kept <==> Retired(x, n);
    if Retires(previous, x) {
      forall n | n in Used(previous) ensures n in kept {
      }
    }
    if Used(previous) <= kept {
      assert forall n :: n in previous.retiredStartups ==> n in Used(previous);
      assert forall n :: n in previous.retiredNonces ==> n in Used(previous);
      assert previous.startupHash in Used(previous);
      assert previous.claimHash.Some? ==> previous.claimHash.value in Used(previous);
    }
  }

  lemma ElderExact(parent: Dispatch, c: Dispatch, x: Dispatch)
    requires c.kind == Reconcile
    ensures Precedes(parent, c, x) <==> ElderChild(parent, c, x)
  {
    RetiresExact(c, x);
  }

  lemma ParentExact(parent: Dispatch, x: Dispatch)
    requires x.approvalId == parent.approvalId
    ensures ParentBinding(parent, x) && Precedes(parent, parent, x) <==> Asks(parent, x)
  {
    RetiresExact(parent, x);
    assert forall n :: n in parent.retiredStartups + [parent.startupHash] <==>
                       n in parent.retiredStartups || n == parent.startupHash;
    assert forall n :: n in parent.retiredNonces + OptionSeq(parent.claimHash) <==>
                       n in parent.retiredNonces || parent.claimHash == Some(n);
  }

  lemma ChildrenExact(parent: Dispatch, children: seq<Dispatch>, x: Dispatch)
    requires forall i :: 0 <= i < |children| ==> children[i].kind == Reconcile
    ensures AllPrecede(parent, children, x) <==> forall i :: 0 <= i < |children| ==> ElderChild(parent, children[i], x)
  {
    forall i | 0 <= i < |children| ensures Precedes(parent, children[i], x) <==> ElderChild(parent, children[i], x) {
      ElderExact(parent, children[i], x);
    }
  }

  /** The read-only invocation the parent's reducer prepares. */
  lemma InvocationExact(parent: Dispatch, v: Dispatch, at: Clock)
    requires v.kind == Reconcile && v.version == 0 && v.state == Preparing && v.approvalId == parent.approvalId
    requires Asks(parent, v)
    ensures var r := PrepareReconciliation(parent, v.attemptId, v.startupHash, at);
            (&& r.Ok?
             && Stamped(v, at) == r.value.(retiredStartups := v.retiredStartups, retiredNonces := v.retiredNonces))
            <==> ValidClock(at) && Untouched(v) && WellNamed(v)
  {
  }

  lemma ReconcilableExact(db: Database, parent: Dispatch, x: Dispatch)
    requires RowsStored(db) && x.approvalId == parent.approvalId
    requires forall c :: c in Children(db, x.approvalId) ==> c.kind == Reconcile
    ensures Reconcilable(db, parent, x) <==>
            && Asks(parent, x)
            && var elders := Children(db, x.approvalId);
            && |elders| < 3 && (forall i :: 0 <= i < |elders| ==> ElderChild(parent, elders[i], x))
            && Passed(if elders == [] then parent.started else elders[|elders| - 1].started, x.started,
                      if |elders| == 0 then 1_000_000_000 else if |elders| == 1 then 5_000_000_000
                      else 30_000_000_000)
  {
    var elders := Children(db, x.approvalId);
    ParentExact(parent, x);
    assert forall i :: 0 <= i < |elders| ==> elders[i] in elders;
    ChildrenExact(parent, elders, x);
    if |elders| < 3 {
      ElapsedExact(if elders == [] then parent.started else elders[|elders| - 1].started, x.started,
                   Backoff(|elders|));
    }
  }

  // ---- admission ----

  lemma PreparedInitial(db: Database, v: Dispatch, x: Dispatch, at: Clock)
    requires v.kind == Initial
    ensures PreparedDispatch(db, v, at) == Ok(x) <==>
            && Stamps(v, x, at) && Untouched(x) && WellNamed(x) && InitialKey(x.approvalId) !in db.dispatches
            && x.parentAttemptId == None && x.retiredStartups == [] && x.retiredNonces == []
  {
    if v.version == 0 && v.state == Preparing {
      PrepareExact(v, at);
    }
    StampExact(v, x, at);
  }

  lemma InitialExact(db: Database, v: Dispatch, x: Dispatch, at: Clock)
    requires RowsStored(db) && v.kind == Initial
    ensures DispatchAdmission(db, v, at) == Ok(x) <==> Admits(db, v, x, at)
  {
    PreparedInitial(db, v, x, at);
    GateExact(db, x);
    assert forall l :: l in LocksOf(x) <==> l == ResourceLock(x.resource) || l == EffectLock(x.target)
                                            || l == ApprovalLock(x.approvalId);
    assert ResourceLock(x.resource) in LocksOf(x) && EffectLock(x.target) in LocksOf(x);
  }

  /** What the journal's rows guarantee of a family: the parent is initial and names itself, the children reconcile. */
  predicate FamilyKeyed(db: Database, a: string)
    requires RowsStored(db)
  {
    && (InitialKey(a) in db.dispatches ==>
          db.dispatches[InitialKey(a)].kind == Initial && db.dispatches[InitialKey(a)].approvalId == a)
    && (forall c :: c in Children(db, a) ==> c.kind == Reconcile)
  }

  lemma PreparedChild(db: Database, v: Dispatch, x: Dispatch, at: Clock)
    requires v.kind == Reconcile && InitialKey(v.approvalId) in db.dispatches
    requires db.dispatches[InitialKey(v.approvalId)].approvalId == v.approvalId
    requires Asks(db.dispatches[InitialKey(v.approvalId)], v)
    ensures PreparedDispatch(db, v, at) == Ok(x) <==>
            && Stamps(v, x, at) && Untouched(x) && WellNamed(x)
            && ReconcileKey(x.approvalId, x.attemptId) !in db.dispatches
  {
    if v.version == 0 && v.state == Preparing {
      InvocationExact(db.dispatches[InitialKey(v.approvalId)], v, at);
    }
    StampExact(v, x, at);
  }

  lemma ChildParts(db: Database, v: Dispatch, x: Dispatch, at: Clock)
    requires RowsStored(db) && v.kind == Reconcile
    ensures DispatchAdmission(db, v, at) == Ok(x) <==>
            && PreparedDispatch(db, v, at) == Ok(x) && ApprovalGate(db, x).Ok? && |db.dispatches| < 4096
            && x.kind == Reconcile && InitialKey(x.approvalId) in db.dispatches
            && Reconcilable(db, db.dispatches[InitialKey(x.approvalId)], x)
  {
  }

  /** The stamp changes nothing a parent asks for. */
  lemma StampedAsks(db: Database, parent: Dispatch, v: Dispatch, x: Dispatch, at: Clock)
    requires PreparedDispatch(db, v, at) == Ok(x) || Stamps(v, x, at)
    ensures Asks(parent, x) <==> Asks(parent, v)
    ensures x.approvalId == v.approvalId && x.kind == v.kind
  {
  }

  lemma ReadyReconciles(db: Database, x: Dispatch)
    requires RowsStored(db) && FamilyKeyed(db, x.approvalId) && x.kind == Reconcile
    requires InitialKey(x.approvalId) in db.dispatches && ReconcileKey(x.approvalId, x.attemptId) !in db.dispatches
    requires Reconcilable(db, db.dispatches[InitialKey(x.approvalId)], x)
    ensures Reconciles(db, x)
  {
    ReconcilableExact(db, db.dispatches[InitialKey(x.approvalId)], x);
    var elders := Children(db, x.approvalId);
    assert forall i :: 0 <= i < |elders| ==> elders[i] in elders;
  }

  lemma ReconcilableAsks(db: Database, x: Dispatch)
    requires RowsStored(db) && FamilyKeyed(db, x.approvalId) && InitialKey(x.approvalId) in db.dispatches
    requires Reconcilable(db, db.dispatches[InitialKey(x.approvalId)], x)
    ensures Asks(db.dispatches[InitialKey(x.approvalId)], x)
  {
    ReconcilableExact(db, db.dispatches[InitialKey(x.approvalId)], x);
  }

  lemma ChildAdmitted(db: Database, v: Dispatch, x: Dispatch, at: Clock)
    requires RowsStored(db) && v.kind == Reconcile && FamilyKeyed(db, v.approvalId)
    requires PreparedDispatch(db, v, at) == Ok(x) && ApprovalGate(db, x).Ok? && |db.dispatches| < 4096
    requires InitialKey(x.approvalId) in db.dispatches && x.approvalId == v.approvalId && x.kind == Reconcile
    requires Reconcilable(db, db.dispatches[InitialKey(x.approvalId)], x)
    ensures Admits(db, v, x, at)
  {
    ReconcilableAsks(db, x);
    StampedAsks(db, db.dispatches[InitialKey(x.approvalId)], v, x, at);
    PreparedChild(db, v, x, at);
    GateExact(db, x);
    ReadyReconciles(db, x);
  }

  lemma ReconcilesOnly(db: Database, v: Dispatch, x: Dispatch, at: Clock)
    requires RowsStored(db) && v.kind == Reconcile && Admits(db, v, x, at)
    ensures x.kind == Reconcile && x.approvalId == v.approvalId && Reconciles(db, x)
  {
  }

  /** The parent, its children and the wait, from what a reconciliation needs. */
  lemma ReconcilesReady(db: Database, x: Dispatch)
    requires RowsStored(db) && FamilyKeyed(db, x.approvalId) && Reconciles(db, x)
    ensures InitialKey(x.approvalId) in db.dispatches
    ensures Asks(db.dispatches[InitialKey(x.approvalId)], x)
    ensures Reconcilable(db, db.dispatches[InitialKey(x.approvalId)], x)
  {
    ReconcilableExact(db, db.dispatches[InitialKey(x.approvalId)], x);
  }

  lemma AdmittedChild(db: Database, v: Dispatch, x: Dispatch, at: Clock)
    requires RowsStored(db) && v.kind == x.kind == Reconcile && x.approvalId == v.approvalId
    requires InitialKey(v.approvalId) in db.dispatches
    requires db.dispatches[InitialKey(v.approvalId)].approvalId == v.approvalId
    requires Asks(db.dispatches[InitialKey(v.approvalId)], x)
    requires Reconcilable(db, db.dispatches[InitialKey(v.approvalId)], x)
    requires ReconcileKey(x.approvalId, x.attemptId) !in db.dispatches
    requires Stamps(v, x, at) && Untouched(x) && WellNamed(x) && Cleared(db, x) && |db.dispatches| < 4096
    ensures DispatchAdmission(db, v, at) == Ok(x)
  {
    StampedAsks(db, db.dispatches[InitialKey(v.approvalId)], v, x, at);
    PreparedChild(db, v, x, at);
    GateExact(db, x);
    ChildParts(db, v, x, at);
  }

  /** A dispatch is admitted exactly when its approval clears it and it starts, or reconciles, as the tables allow. */
  lemma AdmissionExact(db: Database, v: Dispatch, x: Dispatch, at: Clock)
    requires RowsStored(db) && FamilyKeyed(db, v.approvalId)
    ensures DispatchAdmission(db, v, at) == Ok(x) <==> Admits(db, v, x, at)
  {
    if v.kind == Initial {
      InitialExact(db, v, x, at);
    } else if DispatchAdmission(db, v, at) == Ok(x) {
      ChildParts(db, v, x, at);
      StampedAsks(db, db.dispatches[InitialKey(x.approvalId)], v, x, at);
      ChildAdmitted(db, v, x, at);
    } else if Admits(db, v, x, at) {
      ReconcilesOnly(db, v, x, at);
      ReconcilesReady(db, x);
      AdmittedChild(db, v, x, at);
    }
  }

  lemma RowsKeyed(db: Database, a: string)
    requires Keyed(db.decisions, db.dispatches, db.rowids)
    ensures RowsStored(db) && FamilyKeyed(db, a)
  {
    var keys, children := ChildKeys(db.rowids, a), Children(db, a);
    forall c | c in children ensures c.kind == Reconcile {
      var i :| 0 <= i < |children| && children[i] == c;
      assert keys[i] in keys && KeyOf(c) == keys[i];
    }
  }
}
