/** Cross-table safety of the journal: locks, families of reconciliation children, and the approval chain. */
module JournalSafety {
  import opened Outcomes
  import opened Clocks
  import opened Requests
  import opened Decisions
  import opened Dispatches
  import opened Transitions
  import opened TransitionFacts
  import opened JournalTables
  import opened JournalSpec

  type Dispatched = map<DispatchKey, Dispatch>

  ghost predicate Keyed(decisions: map<string, Decision>, dispatches: Dispatched, rowids: seq<DispatchKey>) {
    && (forall a :: a in decisions ==> decisions[a].approvalId == a)
    && (forall k :: k in dispatches ==> KeyOf(dispatches[k]) == k && WellFormed(dispatches[k]))
    && NoDuplicates(rowids)
    && (forall k :: k in rowids <==> k in dispatches)
  }

  // ---- resource exclusion ----

  ghost predicate Holding(dispatches: Dispatched, k: DispatchKey) {
    k in dispatches && dispatches[k].kind == Initial && !dispatches[k].settled
  }

  ghost predicate Needs(dispatches: Dispatched, k: DispatchKey, l: Lock) {
    Holding(dispatches, k) && l in LocksOf(dispatches[k])
  }

  ghost predicate LockRow(resources: map<Lock, DispatchKey>, k: DispatchKey, l: Lock) {
    l in resources && resources[l] == k
  }

  /** Lock rows correspond exactly to the resource, target and approval of unsettled initial dispatches. */
  ghost predicate LocksExact(dispatches: Dispatched, resources: map<Lock, DispatchKey>) {
    forall k, l :: Needs(dispatches, k, l) <==> LockRow(resources, k, l)
  }

  lemma LocksOnInsert(dispatches: Dispatched, resources: map<Lock, DispatchKey>, x: Dispatch)
    requires LocksExact(dispatches, resources) && KeyOf(x) !in dispatches && !x.settled
    requires x.kind == Initial ==> forall l :: l in LocksOf(x) ==> l !in resources
    ensures LocksExact(dispatches[KeyOf(x) := x], if x.kind == Initial then
                         resources + map l | l in LocksOf(x) :: KeyOf(x) else resources)
  {
    var grown := if x.kind == Initial then resources + map l | l in LocksOf(x) :: KeyOf(x) else resources;
    var after := dispatches[KeyOf(x) := x];
    forall k, l ensures Needs(after, k, l) <==> LockRow(grown, k, l) {
      assert Needs(dispatches, k, l) <==> LockRow(resources, k, l);
    }
  }

  lemma LocksOnStore(dispatches: Dispatched, resources: map<Lock, DispatchKey>, k: DispatchKey, x: Dispatch)
    requires LocksExact(dispatches, resources) && k in dispatches && !dispatches[k].settled
    requires x.kind == dispatches[k].kind && LocksOf(x) == LocksOf(dispatches[k])
    ensures LocksExact(dispatches[k := x],
                       if x.settled && x.kind == Initial then
                         map l | l in resources && resources[l] != k :: resources[l] else resources)
  {
    var kept := if x.settled && x.kind == Initial then map l | l in resources && resources[l] != k :: resources[l]
    else resources;
    var after := dispatches[k := x];
    forall j, l ensures Needs(after, j, l) <==> LockRow(kept, j, l) {
      assert Needs(dispatches, j, l) <==> LockRow(resources, j, l);
    }
  }

  /** No two unsettled initial dispatches share a resource, a target or an approval. */
  lemma ResourceExclusion(dispatches: Dispatched, resources: map<Lock, DispatchKey>, j: DispatchKey, k: DispatchKey)
    requires LocksExact(dispatches, resources) && Holding(dispatches, j) && Holding(dispatches, k) && j != k
    ensures dispatches[j].resource != dispatches[k].resource
    ensures dispatches[j].target != dispatches[k].target
    ensures dispatches[j].approvalId != dispatches[k].approvalId
  {
    forall l ensures !(Needs(dispatches, j, l) && Needs(dispatches, k, l)) {
      assert !(LockRow(resources, j, l) && LockRow(resources, k, l));
    }
    assert Needs(dispatches, j, ResourceLock(dispatches[j].resource));
    assert Needs(dispatches, j, EffectLock(dispatches[j].target));
    assert Needs(dispatches, j, ApprovalLock(dispatches[j].approvalId));
  }

  // ---- an approval's family: one parent and its read-only children ----

  ghost predicate Elder(c: Dispatch, d: Dispatch) {
    c.settled && c.startupHash != d.startupHash
  }

  /** Every child but the newest is settled, and no two presented the same startup nonce. */
  ghost predicate Siblings(keys: seq<DispatchKey>, dispatches: Dispatched) {
    && |keys| <= 3
    && (forall i :: 0 <= i < |keys| ==> keys[i] in dispatches && dispatches[keys[i]].kind == Reconcile)
    && (forall i, j :: 0 <= i < j < |keys| ==> Elder(dispatches[keys[i]], dispatches[keys[j]]))
  }

  ghost predicate ParentBinds(keys: seq<DispatchKey>, dispatches: Dispatched, p: Dispatch) {
    && (keys != [] ==> p.state in {Uncertain, Failed, Succeeded})
    && (forall i :: 0 <= i < |keys| ==> keys[i] in dispatches && BoundChild(p, dispatches[keys[i]]))
  }

  ghost predicate AllSettled(dispatches: Dispatched, a: string, attempts: seq<string>) {
    forall n :: n in attempts ==> SettledChild(dispatches, a, n)
  }

  ghost predicate FamilySound(rowids: seq<DispatchKey>, dispatches: Dispatched, a: string) {
    var keys := ChildKeys(rowids, a);
    && Siblings(keys, dispatches)
    && (keys != [] ==> InitialKey(a) in dispatches)
    && (InitialKey(a) in dispatches ==>
          && ParentBinds(keys, dispatches, dispatches[InitialKey(a)])
          && AllSettled(dispatches, a, dispatches[InitialKey(a)].reconciliationAttempts))
  }

  ghost predicate BoundChild(p: Dispatch, c: Dispatch) {
    && c.parentAttemptId == Some(p.attemptId) && c.attemptId != p.attemptId
    && c.startupHash !in Nonces(p)
    && (p.settled ==> c.settled)
  }

  ghost predicate SettledChild(dispatches: Dispatched, a: string, n: string) {
    ReconcileKey(a, n) in dispatches && dispatches[ReconcileKey(a, n)].settled
  }

  /** Settled children stay settled children under any later write that does not unsettle them. */
  lemma SettledChildrenKept(dispatches: Dispatched, k: DispatchKey, x: Dispatch, a: string, ns: seq<string>)
    requires AllSettled(dispatches, a, ns)
    requires k in dispatches && k.ReconcileKey? && dispatches[k].settled ==> x.settled
    ensures AllSettled(dispatches[k := x], a, ns)
  {
    forall n | n in ns ensures SettledChild(dispatches[k := x], a, n) {
      assert SettledChild(dispatches, a, n);
    }
  }

  /** Writing a key outside a list leaves the list's rows alone. */
  lemma SameRows(keys: seq<DispatchKey>, dispatches: Dispatched, k: DispatchKey, x: Dispatch)
    requires k !in keys && Siblings(keys, dispatches)
    ensures Siblings(keys, dispatches[k := x])
    ensures forall p :: ParentBinds(keys, dispatches, p) ==> ParentBinds(keys, dispatches[k := x], p)
  {
    var after := dispatches[k := x];
    assert forall i :: 0 <= i < |keys| ==> keys[i] in dispatches && after[keys[i]] == dispatches[keys[i]];
    forall i, j | 0 <= i < j < |keys| ensures Elder(after[keys[i]], after[keys[j]]) {
      assert Elder(dispatches[keys[i]], dispatches[keys[j]]);
    }
    forall p | ParentBinds(keys, dispatches, p) ensures ParentBinds(keys, after, p) {
      forall i | 0 <= i < |keys| ensures BoundChild(p, after[keys[i]]) {
        assert BoundChild(p, dispatches[keys[i]]);
      }
    }
  }

  lemma ChildKeysAppend(rowids: seq<DispatchKey>, k: DispatchKey, a: string)
    ensures ChildKeys(rowids + [k], a) == ChildKeys(rowids, a) + (if IsChildOf(k, a) then [k] else [])
  {
    assert (rowids + [k])[..|rowids|] == rowids;
  }

  lemma FamilyOnInsertInitial(rowids: seq<DispatchKey>, dispatches: Dispatched, x: Dispatch, a: string)
    requires FamilySound(rowids, dispatches, a) && x.kind == Initial && KeyOf(x) !in dispatches
    requires x.reconciliationAttempts == []
    ensures FamilySound(rowids + [KeyOf(x)], dispatches[KeyOf(x) := x], a)
  {
    ChildKeysAppend(rowids, KeyOf(x), a);
    SameRows(ChildKeys(rowids, a), dispatches, KeyOf(x), x);
    if InitialKey(a) in dispatches {
      SettledChildrenKept(dispatches, KeyOf(x), x, a, dispatches[InitialKey(a)].reconciliationAttempts);
    }
  }

  lemma UsedAreNonces(d: Dispatch, n: string)
    ensures n in Used(d) <==> n in Nonces(d)
  {
  }

  /** What admission has checked about a new child and its elder siblings. */
  ghost predicate AdmissibleChild(keys: seq<DispatchKey>, dispatches: Dispatched, x: Dispatch) {
    && |keys| < 3
    && InitialKey(x.approvalId) in dispatches
    && var p := dispatches[InitialKey(x.approvalId)];
    && p.state in {Uncertain, Failed} && !p.settled && BoundChild(p, x)
    && forall i :: 0 <= i < |keys| ==>
                     keys[i] in dispatches && dispatches[keys[i]].settled
                     && dispatches[keys[i]].startupHash != x.startupHash
  }

  /** A child is admitted only after its predecessors settled, with a startup nonce no one in the family has used. */
  lemma FamilyOnInsertChild(rowids: seq<DispatchKey>, dispatches: Dispatched, x: Dispatch, a: string)
    requires FamilySound(rowids, dispatches, a) && x.kind == Reconcile && KeyOf(x) !in dispatches
    requires x.approvalId == a ==> AdmissibleChild(ChildKeys(rowids, a), dispatches, x)
    ensures FamilySound(rowids + [KeyOf(x)], dispatches[KeyOf(x) := x], a)
  {
    var keys := ChildKeys(rowids, a);
    ChildKeysAppend(rowids, KeyOf(x), a);
    assert forall i :: 0 <= i < |keys| ==> keys[i] in dispatches;
    SameRows(keys, dispatches, KeyOf(x), x);
    if InitialKey(a) in dispatches {
      SettledChildrenKept(dispatches, KeyOf(x), x, a, dispatches[InitialKey(a)].reconciliationAttempts);
    }
    if x.approvalId == a {
      SiblingAdded(keys, dispatches, x);
    }
  }

  lemma SiblingAdded(keys: seq<DispatchKey>, dispatches: Dispatched, x: Dispatch)
    requires Siblings(keys, dispatches) && KeyOf(x) !in keys && x.kind == Reconcile
    requires AdmissibleChild(keys, dispatches, x)
    requires ParentBinds(keys, dispatches, dispatches[InitialKey(x.approvalId)])
    ensures Siblings(keys + [KeyOf(x)], dispatches[KeyOf(x) := x])
    ensures ParentBinds(keys + [KeyOf(x)], dispatches[KeyOf(x) := x], dispatches[InitialKey(x.approvalId)])
  {
    SameRows(keys, dispatches, KeyOf(x), x);
    var all := keys + [KeyOf(x)];
    var after := dispatches[KeyOf(x) := x];
    assert forall i :: 0 <= i < |keys| ==> all[i] == keys[i] && after[all[i]] == dispatches[keys[i]];
    forall i, j | 0 <= i < j < |all| ensures Elder(after[all[i]], after[all[j]]) {
      if j < |keys| {
        assert Elder(dispatches[keys[i]], dispatches[keys[j]]);
      }
    }
  }

  lemma ReconcilableChild(db: Database, x: Dispatch)
    requires RowidsStored(db) && InitialKey(x.approvalId) in db.dispatches
    requires Reconcilable(db, db.dispatches[InitialKey(x.approvalId)], x)
    requires forall k :: k in db.dispatches ==> KeyOf(db.dispatches[k]) == k
    ensures AdmissibleChild(ChildKeys(db.rowids, x.approvalId), db.dispatches, x)
  {
    var p := db.dispatches[InitialKey(x.approvalId)];
    var keys := ChildKeys(db.rowids, x.approvalId);
    var children := Children(db, x.approvalId);
    UsedAreNonces(p, x.startupHash);
    forall i | 0 <= i < |keys|
      ensures keys[i] in db.dispatches && db.dispatches[keys[i]].settled
      ensures db.dispatches[keys[i]].startupHash != x.startupHash
    {
      assert keys[i] in keys;
      assert children[i] == db.dispatches[keys[i]] && Precedes(p, children[i], x);
    }
  }

  /** Another family is not affected by a step. */
  lemma FamilyElsewhere(rowids: seq<DispatchKey>, dispatches: Dispatched, k: DispatchKey, x: Dispatch, a: string)
    requires FamilySound(rowids, dispatches, a) && k in dispatches && k.approvalId != a
    ensures FamilySound(rowids, dispatches[k := x], a)
  {
    SameRows(ChildKeys(rowids, a), dispatches, k, x);
    if InitialKey(a) in dispatches {
      forall n | n in dispatches[InitialKey(a)].reconciliationAttempts ensures SettledChild(dispatches[k := x], a, n) {
        assert SettledChild(dispatches, a, n);
      }
    }
  }

  lemma FamilyOnParentStep(rowids: seq<DispatchKey>, dispatches: Dispatched, x: Dispatch, now: Clock, a: string)
    requires FamilySound(rowids, dispatches, a) && InitialKey(a) in dispatches && WellFormed(dispatches[InitialKey(a)])
    requires LawfulStep(dispatches[InitialKey(a)], x, now) && KeyOf(x) == InitialKey(a)
    requires x.settled ==> forall k :: k in ChildKeys(rowids, a) ==> k in dispatches && dispatches[k].settled
    requires forall n :: n in x.reconciliationAttempts ==>
                           n in dispatches[InitialKey(a)].reconciliationAttempts || SettledChild(dispatches, a, n)
    ensures FamilySound(rowids, dispatches[InitialKey(a) := x], a)
  {
    var p := dispatches[InitialKey(a)];
    var keys := ChildKeys(rowids, a);
    forall i | 0 <= i < |keys| ensures keys[i] in dispatches && BoundChild(x, dispatches[keys[i]]) {
      assert BoundChild(p, dispatches[keys[i]]);
      assert keys[i] in keys;
    }
    SameRows(keys, dispatches, InitialKey(a), x);
    assert ParentBinds(keys, dispatches, x);
    forall n | n in x.reconciliationAttempts ensures SettledChild(dispatches[InitialKey(a) := x], a, n) {
      assert SettledChild(dispatches, a, n);
    }
  }

  lemma FamilyOnChildStep(rowids: seq<DispatchKey>, dispatches: Dispatched, k: DispatchKey, x: Dispatch, now: Clock)
    requires FamilySound(rowids, dispatches, k.approvalId) && k in dispatches && k in rowids && k.ReconcileKey?
    requires KeyOf(dispatches[k]) == k && LawfulStep(dispatches[k], x, now)
    ensures FamilySound(rowids, dispatches[k := x], k.approvalId)
  {
    var a := k.approvalId;
    var keys := ChildKeys(rowids, a);
    assert k in keys;
    var p := dispatches[InitialKey(a)];
    var after := dispatches[k := x];
    forall i, j | 0 <= i < j < |keys| ensures Elder(after[keys[i]], after[keys[j]]) {
      assert Elder(dispatches[keys[i]], dispatches[keys[j]]);
    }
    forall i | 0 <= i < |keys| ensures keys[i] in after && BoundChild(p, after[keys[i]]) {
      assert BoundChild(p, dispatches[keys[i]]);
    }
    SettledChildrenKept(dispatches, k, x, a, p.reconciliationAttempts);
  }

  /** Every child but the youngest is settled. */
  lemma EldersSettled(keys: seq<DispatchKey>, dispatches: Dispatched)
    requires Siblings(keys, dispatches)
    ensures forall i :: 0 <= i < |keys| - 1 ==> dispatches[keys[i]].settled
  {
    forall i | 0 <= i < |keys| - 1 ensures dispatches[keys[i]].settled {
      assert Elder(dispatches[keys[i]], dispatches[keys[|keys| - 1]]);
    }
  }

  /** At most one child of an approval is unsettled, and none once the parent has settled. */
  lemma OneOpenChild(rowids: seq<DispatchKey>, dispatches: Dispatched, a: string, j: DispatchKey, k: DispatchKey)
    requires FamilySound(rowids, dispatches, a) && (forall c :: c in dispatches ==> c in rowids)
    requires j in dispatches && IsChildOf(j, a) && !dispatches[j].settled
    requires k in dispatches && IsChildOf(k, a) && !dispatches[k].settled
    ensures j == k
    ensures InitialKey(a) in dispatches && !dispatches[InitialKey(a)].settled
  {
    var keys := ChildKeys(rowids, a);
    assert j in keys && k in keys;
    var m :| 0 <= m < |keys| && keys[m] == j;
    var n :| 0 <= n < |keys| && keys[n] == k;
    assert BoundChild(dispatches[InitialKey(a)], dispatches[keys[m]]);
    EldersSettled(keys, dispatches);
  }

  lemma {:induction false} SetOfSeq<T>(s: seq<T>, all: set<T>)
    requires forall x :: x in all ==> x in s
    ensures |all| <= |s|
    decreases |s|
  {
    if all != {} {
      var last := s[|s| - 1];
      SetOfSeq(s[..|s| - 1], all - {last});
      if last in all {
        assert |all| == |all - {last}| + 1;
      } else {
        assert all - {last} == all;
      }
    }
  }

  /** Bounded reconciliation: at most three children; applied lookups count distinct settled children. */
  lemma BoundedReconciliation(rowids: seq<DispatchKey>, dispatches: Dispatched, a: string)
    requires FamilySound(rowids, dispatches, a) && forall c :: c in dispatches ==> c in rowids
    requires InitialKey(a) in dispatches && WellFormed(dispatches[InitialKey(a)])
    ensures |set k | k in dispatches && IsChildOf(k, a)| <= 3
    ensures var p := dispatches[InitialKey(a)];
            && p.reconciliationLookups == |p.reconciliationAttempts| <= 3
            && NoDuplicates(p.reconciliationAttempts)
            && forall n :: n in p.reconciliationAttempts ==>
                             ReconcileKey(a, n) in dispatches && dispatches[ReconcileKey(a, n)].settled
  {
    var keys := ChildKeys(rowids, a);
    SetOfSeq(keys, set k | k in dispatches && IsChildOf(k, a));
    assert forall n :: n in dispatches[InitialKey(a)].reconciliationAttempts ==> SettledChild(dispatches, a, n);
  }

  /** No child presents a nonce its parent presented. */
  lemma ChildNonceFresh(rowids: seq<DispatchKey>, dispatches: Dispatched, a: string, j: DispatchKey)
    requires FamilySound(rowids, dispatches, a) && forall c :: c in dispatches ==> c in rowids
    requires InitialKey(a) in dispatches && j in dispatches && IsChildOf(j, a)
    ensures dispatches[j].startupHash !in Nonces(dispatches[InitialKey(a)])
  {
    var keys := ChildKeys(rowids, a);
    assert j in keys;
    var m :| 0 <= m < |keys| && keys[m] == j;
    assert BoundChild(dispatches[InitialKey(a)], dispatches[keys[m]]);
  }

  /** No two children present the same nonce. */
  lemma SiblingNoncesDiffer(rowids: seq<DispatchKey>, dispatches: Dispatched, a: string, j: DispatchKey, k: DispatchKey)
    requires FamilySound(rowids, dispatches, a)
    requires forall c :: c in dispatches ==> c in rowids && KeyOf(dispatches[c]) == c
    requires j in dispatches && IsChildOf(j, a) && k in dispatches && IsChildOf(k, a) && j != k
    ensures dispatches[j].startupHash != dispatches[k].startupHash
  {
    var keys := ChildKeys(rowids, a);
    assert j in keys && k in keys;
    var m :| 0 <= m < |keys| && keys[m] == j;
    var n :| 0 <= n < |keys| && keys[n] == k;
    if m < n {
      assert Elder(dispatches[keys[m]], dispatches[keys[n]]);
    } else if n < m {
      assert Elder(dispatches[keys[n]], dispatches[keys[m]]);
    }
  }

  // ---- the approval chain ----

  type Requested = map<CreationKey, Row>

  ghost predicate Approved(decisions: map<string, Decision>, d: Dispatch) {
    && d.approvalId in decisions
    && var x := decisions[d.approvalId];
    x.phase == Committed && x.event.verdict == Approve && x.purpose == Execution && x.digest == d.digest
    && x.requestRevision == d.revision
  }

  /** The request a dispatch was admitted against: filed, or completed by that dispatch's settlement. */
  ghost predicate AdmittedFor(requests: Requested, d: Dispatch, r: CreationKey) {
    && r in requests
    && var v := requests[r].value;
    && v.approvalId == Some(d.approvalId) && v.contextDigest == Some(d.digest) && v.requestRevision == d.revision
    && (v.phase == Filed || v.phase == Completed)
  }

  ghost predicate ChainHolds(requests: Requested, decisions: map<string, Decision>, dispatches: Dispatched) {
    AllApproved(requests, decisions, dispatches) && AllCompletedBySettlement(requests, dispatches)
  }

  ghost predicate AllApproved(requests: Requested, decisions: map<string, Decision>, dispatches: Dispatched) {
    forall k :: k in dispatches ==>
                  Approved(decisions, dispatches[k]) && exists r :: AdmittedFor(requests, dispatches[k], r)
  }

  ghost predicate AllCompletedBySettlement(requests: Requested, dispatches: Dispatched) {
    forall r :: r in requests && requests[r].value.phase == Completed ==>
                  CompletedBySettlement(requests[r].value, dispatches)
  }

  ghost predicate CompletedBySettlement(v: Request, dispatches: Dispatched) {
    && v.approvalId.Some?
    && InitialKey(v.approvalId.value) in dispatches
    && var d := dispatches[InitialKey(v.approvalId.value)];
    && d.settled && Some(d.digest) == v.contextDigest && d.revision == v.requestRevision
    && (v.completionEffect == Some(CompletedSucceeded) <==> d.state == Succeeded)
    && (v.completionEffect == Some(CompletedAbsent) <==> d.state == Failed)
  }

  ghost predicate DecisionKept(decisions: map<string, Decision>, later: map<string, Decision>, a: string) {
    && a in decisions && a in later
    && later[a] == decisions[a].(version := later[a].version, heartProposalPending := later[a].heartProposalPending)
  }

  ghost predicate AdmissionKept(requests: Requested, later: Requested, d: Dispatch, r: CreationKey) {
    && AdmittedFor(later, d, r)
    && r in requests
    && (requests[r].value.phase == Completed ==> later[r] == requests[r])
  }

  /**
    * Whatever a dispatch was admitted under survives: its decision up to the heart flag, its request until
    * completion.
    */
  ghost predicate ChainKept(db: Database, after: Database) {
    && DispatchesKept(db.dispatches, after.dispatches)
    && DecisionsKept(db.dispatches, db.decisions, after.decisions)
    && AdmissionsAllKept(db.dispatches, db.requests, after.requests)
  }

  ghost predicate DispatchesKept(dispatches: Dispatched, later: Dispatched) {
    forall k :: k in dispatches ==> k in later && SameDispatch(dispatches[k], later[k])
  }

  ghost predicate DecisionsKept(
    dispatches: Dispatched, decisions: map<string, Decision>, later: map<string, Decision>) {
    forall k :: k in dispatches && Approved(decisions, dispatches[k]) ==>
                  DecisionKept(decisions, later, dispatches[k].approvalId)
  }

  ghost predicate AdmissionsAllKept(dispatches: Dispatched, requests: Requested, later: Requested) {
    forall k, r :: k in dispatches && AdmittedFor(requests, dispatches[k], r) ==>
                     AdmissionKept(requests, later, dispatches[k], r)
  }

  /** A row under a new key leaves every admission in place. */
  lemma AdmissionsUnderNewKey(requests: Requested, row: Row, key: CreationKey, d: Dispatch, r: CreationKey)
    requires key !in requests && AdmittedFor(requests, d, r)
    ensures AdmissionKept(requests, requests[key := row], d, r)
  {
  }

  lemma ChainOnNewRequest(db: Database, v: Request)
    requires ChainHolds(db.requests, db.decisions, db.dispatches) && v.key !in db.requests
    requires v.phase == AllocationIntent
    ensures ChainHolds(InsertRequest(db, v).requests, db.decisions, db.dispatches)
    ensures ChainKept(db, InsertRequest(db, v))
  {
    var row := Row(v.origin.workstream, v.origin.bead, true, v);
    HoldsUnderNewKey(db.requests, db.decisions, db.dispatches, row, v.key);
    KeptUnderNewKey(db.requests, db.dispatches, row, v.key);
    RequestsChanged(db, db.requests[v.key := row]);
  }

  lemma KeptUnderNewKey(requests: Requested, dispatches: Dispatched, row: Row, key: CreationKey)
    requires key !in requests
    ensures AdmissionsAllKept(dispatches, requests, requests[key := row])
  {
    forall k, r | k in dispatches && AdmittedFor(requests, dispatches[k], r)
      ensures AdmissionKept(requests, requests[key := row], dispatches[k], r)
    {
      AdmissionsUnderNewKey(requests, row, key, dispatches[k], r);
    }
  }

  /** A transaction on requests alone keeps the chains if it keeps the admissions. */
  lemma RequestsChanged(db: Database, requests: Requested)
    requires AllApproved(db.requests, db.decisions, db.dispatches)
    requires AdmissionsAllKept(db.dispatches, db.requests, requests)
    ensures ChainKept(db, db.(requests := requests))
  {
  }

  lemma HoldsUnderNewKey(
    requests: Requested, decisions: map<string, Decision>, dispatches: Dispatched, row: Row, key: CreationKey)
    requires ChainHolds(requests, decisions, dispatches) && key !in requests && row.value.phase == AllocationIntent
    ensures ChainHolds(requests[key := row], decisions, dispatches)
  {
    var after := requests[key := row];
    forall k | k in dispatches ensures exists r :: AdmittedFor(after, dispatches[k], r) {
      var r :| AdmittedFor(requests, dispatches[k], r);
      AdmissionsUnderNewKey(requests, row, key, dispatches[k], r);
    }
  }

  /** A filed request behind a dispatch can neither be denied, cancelled nor abandoned: it can only complete. */
  lemma AdmittedRequestOnlyCompletes(db: Database, k: DispatchKey, r: CreationKey, v: Request)
    requires k in db.dispatches && Approved(db.decisions, db.dispatches[k])
    requires AdmittedFor(db.requests, db.dispatches[k], r)
    requires RequestEvolves(db.requests[r].value, v, Lookup(db.decisions, OrEmpty(v.approvalId)),
                            Lookup(db.dispatches, InitialKey(OrEmpty(v.approvalId))))
    ensures db.requests[r].value.phase == Filed && v.phase == Completed
    ensures v.approvalId == db.requests[r].value.approvalId && v.contextDigest == db.requests[r].value.contextDigest
    ensures v.requestRevision == db.requests[r].value.requestRevision
    ensures CompletedBySettlement(v, db.dispatches)
  {
    CompletesBySettlement(db.requests[r].value, v, Lookup(db.decisions, OrEmpty(v.approvalId)), db.dispatches);
  }

  lemma AdmissionsKept(db: Database, r: CreationKey, v: Request, k: DispatchKey, s: CreationKey)
    requires ChainHolds(db.requests, db.decisions, db.dispatches) && r in db.requests
    requires RequestEvolves(db.requests[r].value, v, Lookup(db.decisions, OrEmpty(v.approvalId)),
                            Lookup(db.dispatches, InitialKey(OrEmpty(v.approvalId))))
    requires k in db.dispatches && AdmittedFor(db.requests, db.dispatches[k], s)
    ensures var after := StoreRequest(db, r, v);
            AdmissionKept(db.requests, after.requests, db.dispatches[k], s)
  {
    if s == r {
      AdmittedRequestOnlyCompletes(db, k, r, v);
    }
  }

  lemma ChainOnRequestStep(db: Database, r: CreationKey, v: Request)
    requires ChainHolds(db.requests, db.decisions, db.dispatches) && r in db.requests
    requires RequestEvolves(db.requests[r].value, v, Lookup(db.decisions, OrEmpty(v.approvalId)),
                            Lookup(db.dispatches, InitialKey(OrEmpty(v.approvalId))))
    ensures ChainHolds(StoreRequest(db, r, v).requests, db.decisions, db.dispatches)
    ensures ChainKept(db, StoreRequest(db, r, v))
  {
    HoldsOnRequestStep(db, r, v);
    CompletionOnRequestStep(db, r, v);
    KeptOnRequestStep(db, r, v);
    RequestsChanged(db, StoreRequest(db, r, v).requests);
  }

  lemma KeptOnRequestStep(db: Database, r: CreationKey, v: Request)
    requires ChainHolds(db.requests, db.decisions, db.dispatches) && r in db.requests
    requires RequestEvolves(db.requests[r].value, v, Lookup(db.decisions, OrEmpty(v.approvalId)),
                            Lookup(db.dispatches, InitialKey(OrEmpty(v.approvalId))))
    ensures AdmissionsAllKept(db.dispatches, db.requests, StoreRequest(db, r, v).requests)
  {
    forall k, s | k in db.dispatches && AdmittedFor(db.requests, db.dispatches[k], s)
      ensures AdmissionKept(db.requests, StoreRequest(db, r, v).requests, db.dispatches[k], s)
    {
      AdmissionsKept(db, r, v, k, s);
    }
  }

  lemma HoldsOnRequestStep(db: Database, r: CreationKey, v: Request)
    requires ChainHolds(db.requests, db.decisions, db.dispatches) && r in db.requests
    requires RequestEvolves(db.requests[r].value, v, Lookup(db.decisions, OrEmpty(v.approvalId)),
                            Lookup(db.dispatches, InitialKey(OrEmpty(v.approvalId))))
    ensures AllApproved(StoreRequest(db, r, v).requests, db.decisions, db.dispatches)
  {
    var after := StoreRequest(db, r, v);
    forall k | k in db.dispatches ensures exists s :: AdmittedFor(after.requests, db.dispatches[k], s) {
      var s :| AdmittedFor(db.requests, db.dispatches[k], s);
      AdmissionsKept(db, r, v, k, s);
    }
  }

  /** A completion rests on the settled initial dispatch of its approval. */
  lemma CompletesBySettlement(prior: Request, v: Request, decision: Option<Decision>, dispatches: Dispatched)
    requires RequestEvolves(prior, v, decision, Lookup(dispatches, InitialKey(OrEmpty(v.approvalId))))
    requires v.phase == Completed
    ensures CompletedBySettlement(v, dispatches)
  {
  }

  lemma CompletionOnRequestStep(db: Database, r: CreationKey, v: Request)
    requires ChainHolds(db.requests, db.decisions, db.dispatches) && r in db.requests
    requires RequestEvolves(db.requests[r].value, v, Lookup(db.decisions, OrEmpty(v.approvalId)),
                            Lookup(db.dispatches, InitialKey(OrEmpty(v.approvalId))))
    ensures AllCompletedBySettlement(StoreRequest(db, r, v).requests, db.dispatches)
  {
    if v.phase == Completed {
      CompletesBySettlement(db.requests[r].value, v, Lookup(db.decisions, OrEmpty(v.approvalId)), db.dispatches);
    }
  }

  lemma ChainOnDecision(db: Database, a: string, v: Decision)
    requires ChainHolds(db.requests, db.decisions, db.dispatches)
    requires a in db.decisions ==> DecisionEvolves(db.decisions[a], v) || db.decisions[a].phase == Invalid
    ensures ChainHolds(db.requests, db.decisions[a := v], db.dispatches)
    ensures ChainKept(db, db.(decisions := db.decisions[a := v]))
  {
    DecisionReplaced(db, a, v);
    forall k | k in db.dispatches
      ensures DecisionKept(db.decisions, db.decisions[a := v], db.dispatches[k].approvalId)
    {
      assert Approved(db.decisions, db.dispatches[k]);
    }
  }

  lemma DecisionReplaced(db: Database, a: string, v: Decision)
    requires ChainHolds(db.requests, db.decisions, db.dispatches)
    requires a in db.decisions ==> DecisionEvolves(db.decisions[a], v) || db.decisions[a].phase == Invalid
    ensures ChainHolds(db.requests, db.decisions[a := v], db.dispatches)
  {
    forall k | k in db.dispatches ensures Approved(db.decisions[a := v], db.dispatches[k]) {
      assert Approved(db.decisions, db.dispatches[k]);
    }
  }

  lemma ChainOnNewDispatch(db: Database, x: Dispatch, r: CreationKey)
    requires ChainHolds(db.requests, db.decisions, db.dispatches) && KeyOf(x) !in db.dispatches
    requires Approved(db.decisions, x) && AdmittedFor(db.requests, x, r)
    ensures ChainHolds(db.requests, db.decisions, db.dispatches[KeyOf(x) := x])
    ensures ChainKept(db, InsertDispatch(db, x))
  {
    SettlementsStand(db.requests, db.dispatches, KeyOf(x), x);
    DispatchesChanged(db, db.dispatches[KeyOf(x) := x], InsertDispatch(db, x));
  }

  /** A transaction on dispatches alone keeps the chains if it keeps the dispatches. */
  lemma DispatchesChanged(db: Database, dispatches: Dispatched, after: Database)
    requires AllApproved(db.requests, db.decisions, db.dispatches) && DispatchesKept(db.dispatches, dispatches)
    requires AllCompletedBySettlement(db.requests, db.dispatches)
    requires after.requests == db.requests && after.decisions == db.decisions && after.dispatches == dispatches
    ensures ChainKept(db, after)
  {
  }

  /** A row that is new, or replaces an unsettled one, takes no settlement away. */
  lemma SettlementsStand(requests: Requested, dispatches: Dispatched, k: DispatchKey, x: Dispatch)
    requires AllCompletedBySettlement(requests, dispatches) && (k in dispatches ==> !dispatches[k].settled)
    ensures AllCompletedBySettlement(requests, dispatches[k := x])
  {
    forall s | s in requests && requests[s].value.phase == Completed
      ensures CompletedBySettlement(requests[s].value, dispatches[k := x])
    {
      assert CompletedBySettlement(requests[s].value, dispatches);
    }
  }

  lemma ChainOnDispatchStep(db: Database, k: DispatchKey, x: Dispatch)
    requires ChainHolds(db.requests, db.decisions, db.dispatches) && k in db.dispatches
    requires SameDispatch(db.dispatches[k], x) && !db.dispatches[k].settled
    ensures ChainHolds(db.requests, db.decisions, db.dispatches[k := x])
    ensures ChainKept(db, StoreDispatch(db, k, x))
  {
    var r :| AdmittedFor(db.requests, db.dispatches[k], r);
    assert AdmittedFor(db.requests, x, r);
    SettlementsStand(db.requests, db.dispatches, k, x);
    DispatchesChanged(db, db.dispatches[k := x], StoreDispatch(db, k, x));
  }
}
