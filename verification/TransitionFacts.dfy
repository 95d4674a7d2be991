/** What one closed transition can and cannot do to a request, a decision or a dispatch. */
module TransitionFacts {
  import opened Outcomes
  import opened Clocks
  import opened Requests
  import opened Decisions
  import opened Dispatches
  import opened Transitions

  /**
    * A request step never reopens a terminal request; a filed request can only be settled, and each way out needs
    * its own proof.
    */
  ghost predicate RequestEvolves(r: Request, s: Request, decision: Option<Decision>, dispatch: Option<Dispatch>) {
    && s.key == r.key && SameSession(r.origin, s.origin)
    && s.version == r.version + 1
    && !Terminal(r.phase)
    && (Terminal(s.phase) ==> s.cleanupConfirmed)
    && (r.phase == Filed || Terminal(s.phase) ==>
          && Terminal(s.phase)
          && s.approvalId == r.approvalId && s.contextDigest == r.contextDigest
          && s.requestRevision == r.requestRevision)
    && (r.approvalId.Some? && s.approvalId != r.approvalId ==> r.phase == AllocationUnknown)
    && (s.phase == Completed ==>
          && r.phase == Filed && dispatch.Some? && dispatch.value.settled && dispatch.value.kind == Initial
          && s.approvalId == Some(dispatch.value.approvalId) && s.contextDigest == Some(dispatch.value.digest)
          && s.requestRevision == dispatch.value.revision
          && (dispatch.value.state == Succeeded || dispatch.value.state == Failed)
          && s.completionEffect == Some(if dispatch.value.state == Succeeded then CompletedSucceeded
                                        else CompletedAbsent))
    && (s.phase != Completed ==> s.completionEffect == r.completionEffect)
    && (s.phase == Denied ==>
          decision.Some? && decision.value.phase == Committed && decision.value.event.verdict == Deny)
    && (s.phase == Cancelled ==> decision.None? || decision.value.phase == Invalid)
    && (s.phase == ReconciledAbandoned ==> r.phase == AllocationUnknown)
  }

  lemma SettleEvolves(r: Request, s: Request, cleanup: CleanupReadback, decision: Option<Decision>,
                      dispatch: Option<Dispatch>,
                      cancellation: Option<CancellationRecovery>, abandonment: Option<AbandonmentRecovery>)
    requires SettleRequest(r, s.phase, cleanup, decision, dispatch, cancellation, abandonment) == Ok(s) && s != r
    ensures RequestEvolves(r, s, decision, dispatch)
  {
  }

  lemma AllocationEvolves(
    r: Request, s: Request, decision: Option<Decision>, dispatch: Option<Dispatch>, o: Observation)
    requires r.phase in {AllocationIntent, AllocationUnknown} && !Terminal(s.phase)
    requires RequestCandidate(r, s, decision, dispatch, o) == Ok(s)
    ensures RequestEvolves(r, s, decision, dispatch)
  {
  }

  lemma StagingEvolves(r: Request, s: Request, decision: Option<Decision>, dispatch: Option<Dispatch>, o: Observation)
    requires r.phase in {Allocated, BlockerPending, Parked, Landed} && !Terminal(s.phase)
    requires RequestCandidate(r, s, decision, dispatch, o) == Ok(s)
    ensures RequestEvolves(r, s, decision, dispatch)
  {
  }

  lemma FilingEvolves(r: Request, s: Request, decision: Option<Decision>, dispatch: Option<Dispatch>, o: Observation)
    requires r.phase in {AskPinned, Sufficient} && !Terminal(s.phase)
    requires RequestCandidate(r, s, decision, dispatch, o) == Ok(s)
    ensures RequestEvolves(r, s, decision, dispatch)
  {
  }

  lemma RequestCandidateEvolves(
    r: Request, s: Request, decision: Option<Decision>, dispatch: Option<Dispatch>, o: Observation)
    requires RequestCandidate(r, s, decision, dispatch, o) == Ok(s) && s != r
    ensures RequestEvolves(r, s, decision, dispatch)
  {
    if Terminal(s.phase) {
      SettleEvolves(r, s, o.cleanupReadback.value, decision, dispatch,
                    if s.phase == Cancelled then o.cancellationRecovery else None,
                    if s.phase == Cancelled then None else o.abandonmentRecovery);
    } else if r.phase in {AllocationIntent, AllocationUnknown} {
      AllocationEvolves(r, s, decision, dispatch, o);
    } else if r.phase in {Allocated, BlockerPending, Parked, Landed} {
      StagingEvolves(r, s, decision, dispatch, o);
    } else {
      FilingEvolves(r, s, decision, dispatch, o);
    }
  }

  /** The stages of a decision only move forward, and a committed decision can lose its heart flag and nothing else. */
  ghost predicate DecisionEvolves(d: Decision, e: Decision) {
    && e.approvalId == d.approvalId && e.purpose == d.purpose && e.digest == d.digest && e.event == d.event
    && e.requestRevision == d.requestRevision
    && e.version == d.version + 1
    && d.phase != Invalid
    && (d.phase == Committed ==>
          d.heartProposalPending && e == d.(version := d.version + 1, heartProposalPending := false))
    && (e.phase == Invalid ==> d.phase in {Pending, WriteIssued})
  }

  lemma DecisionCandidateEvolves(d: Decision, e: Decision, r: Request, o: Observation)
    requires DecisionCandidate(d, e, r, o) == Ok(e) && e != d
    ensures DecisionEvolves(d, e)
  {
  }

  // ---- dispatches ----

  /** The journal's final form of a proposal: a lookup appends the child it read. */
  function WithLookup(d: Dispatch, e: Dispatch, child: Option<Dispatch>): Dispatch {
    if e.reconciliationLookups != d.reconciliationLookups && child.Some?
    then e.(reconciliationAttempts := d.reconciliationAttempts + [child.value.attemptId]) else e
  }

  lemma NoDuplicatesAppend<T>(s: seq<T>, x: T)
    requires NoDuplicates(s) && x !in s
    ensures NoDuplicates(s + [x])
  {
  }

  /** Presenting a nonce that was never used before keeps all of them distinct. */
  lemma FreshNonce(a: seq<string>, b: seq<string>, n: string)
    requires NoDuplicates(a + b) && n !in a && n !in b
    ensures NoDuplicates(a + [n] + b)
  {
    var s := a + [n] + b;
    forall i, j | 0 <= i < j < |s| ensures s[i] != s[j] {
      var f := (x: int) => if x < |a| then x else x - 1;
      assert forall x :: 0 <= x < |s| && x != |a| ==> s[x] == (a + b)[f(x)];
    }
  }

  ghost predicate LawfulStep(d: Dispatch, e: Dispatch, now: Clock) {
    WellFormed(e) && Evolves(d, e, now)
  }

  lemma ReadyLawful(d: Dispatch, e: Dispatch, claimHash: string, now: Clock)
    requires WellFormed(d) && MakeReady(d, claimHash, now, true, true) == Ok(e)
    ensures LawfulStep(d, e, now)
  {
    assert Nonces(e) == Nonces(d) + [claimHash];
    NoDuplicatesAppend(Nonces(d), claimHash);
  }

  lemma RestartLawful(d: Dispatch, e: Dispatch, startupHash: string, now: Clock)
    requires WellFormed(d) && RestartPreparation(d, startupHash, now) == Ok(e)
    ensures LawfulStep(d, e, now)
  {
    var a := d.retiredStartups + [d.startupHash];
    assert Nonces(d) == a + d.retiredNonces;
    assert Nonces(e) == a + [startupHash] + d.retiredNonces;
    FreshNonce(a, d.retiredNonces, startupHash);
  }

  lemma PreparationFailedLawful(d: Dispatch, e: Dispatch, exited: bool, alone: bool, now: Clock)
    requires WellFormed(d) && PreparationFailed(d, exited, alone) == Ok(e)
    ensures LawfulStep(d, e, now)
  {
  }

  lemma ConsumeLawful(d: Dispatch, e: Dispatch, claimHash: string, now: Clock)
    requires WellFormed(d) && ConsumeClaim(d, claimHash, now, true) == Ok(e)
    ensures LawfulStep(d, e, now)
  {
    assert Nonces(e) == Nonces(d);
  }

  lemma RetireLawful(d: Dispatch, e: Dispatch, claimHash: string, exited: bool, alone: bool, now: Clock)
    requires WellFormed(d) && RetireUnconsumed(d, claimHash, exited, alone) == Ok(e)
    ensures LawfulStep(d, e, now)
  {
    assert Nonces(e) == Nonces(d);
  }

  lemma UncertainLawful(d: Dispatch, e: Dispatch, now: Clock)
    requires WellFormed(d) && MarkUncertain(d) == Ok(e) && e != d
    ensures LawfulStep(d, e, now)
  {
    assert Nonces(e) == Nonces(d);
  }

  lemma ReportLawful(
    d: Dispatch, e: Dispatch, claimHash: string, effect: Effect, evidence: Option<string>, clean: bool, now: Clock)
    requires WellFormed(d) && Report(d, d.attemptId, claimHash, d.digest, d.target, effect, evidence, clean) == Ok(e)
    requires e != d
    ensures LawfulStep(d, e, now)
  {
    assert Nonces(e) == Nonces(d);
  }

  lemma LookupLawful(d: Dispatch, e: Dispatch, elapsed: int, child: Dispatch, now: Clock)
    requires WellFormed(d) && ReadableChild(d, child)
    requires ReconcileLookup(d, elapsed, child.reconciliationEffect.value, child.reconciliationCleanupProven,
                             child.evidence) == Ok(e)
    ensures LawfulStep(d, e.(reconciliationAttempts := d.reconciliationAttempts + [child.attemptId]), now)
    ensures e.reconciliationLookups == d.reconciliationLookups + 1
  {
    var f := e.(reconciliationAttempts := d.reconciliationAttempts + [child.attemptId]);
    NoDuplicatesAppend(d.reconciliationAttempts, child.attemptId);
    assert Nonces(f) == Nonces(d);
  }

  lemma SettleLawful(d: Dispatch, e: Dispatch, recovery: DispatchRecovery, now: Clock)
    requires WellFormed(d) && SettleDispatch(d, recovery) == Ok(e)
    ensures LawfulStep(d, e, now)
    ensures e.settled && (e.state == Succeeded <==> recovery.effectAttestedSucceeded)
    ensures e.state == Failed <==> recovery.effectDefinitivelyAbsent
    ensures e.evidence == Some(recovery.evidence) && e.recoveryOperatorEvent == Some(recovery.operatorEvent)
  {
    assert Nonces(e) == Nonces(d);
  }

  lemma FinishLawful(
    d: Dispatch, e: Dispatch, evidence: string, clean: bool, effect: Effect, effectClean: bool, now: Clock)
    requires WellFormed(d) && FinishReconciliation(d, evidence, clean, effect, effectClean) == Ok(e)
    ensures LawfulStep(d, e, now)
  {
    assert Nonces(e) == Nonces(d);
  }

  /** Steps up to the consumption of the claim; the others read back what happened. */
  predicate LaunchStep(op: DispatchOperation) {
    op.OpReady? || op.OpRestartPreparation? || op.OpRetireUnconsumed? || op.OpPreparationFailed? || op.OpConsumeClaim?
  }

  lemma LaunchCandidateEvolves(d: Dispatch, e: Dispatch, o: Observation, child: Option<Dispatch>, now: Clock)
    requires WellFormed(d) && o.now == Some(now) && o.dispatchOperation.Some? && LaunchStep(o.dispatchOperation.value)
    requires DispatchCandidate(d, e, o, child) == Ok(e) && e != d
    ensures LawfulStep(d, WithLookup(d, e, child), now) && e.reconciliationLookups == d.reconciliationLookups
  {
    match o.dispatchOperation.value
    case OpReady => ReadyLawful(d, e, OrEmpty(e.claimHash), now);
    case OpRestartPreparation => RestartLawful(d, e, e.startupHash, now);
    case OpConsumeClaim => ConsumeLawful(d, e, OrEmpty(d.claimHash), now);
    case _ => ReturnCandidateEvolves(d, e, o, child, now);
  }

  /** The two steps that rest on the launcher's own readback. */
  lemma ReturnCandidateEvolves(d: Dispatch, e: Dispatch, o: Observation, child: Option<Dispatch>, now: Clock)
    requires WellFormed(d) && o.now == Some(now) && DispatchCandidate(d, e, o, child) == Ok(e) && e != d
    requires o.dispatchOperation == Some(OpRetireUnconsumed) || o.dispatchOperation == Some(OpPreparationFailed)
    ensures LawfulStep(d, WithLookup(d, e, child), now) && e.reconciliationLookups == d.reconciliationLookups
  {
    var read := o.launcherReadback.value;
    if o.dispatchOperation == Some(OpRetireUnconsumed) {
      RetireLawful(d, e, OrEmpty(d.claimHash), read.launcherExited, read.noChildren, now);
    } else {
      PreparationFailedLawful(d, e, read.launcherExited, read.noChildren, now);
    }
  }

  lemma ReadbackCandidateEvolves(d: Dispatch, e: Dispatch, o: Observation, child: Option<Dispatch>, now: Clock)
    requires WellFormed(d) && o.now == Some(now) && o.dispatchOperation.Some? && !LaunchStep(o.dispatchOperation.value)
    requires DispatchCandidate(d, e, o, child) == Ok(e) && e != d
    ensures LawfulStep(d, WithLookup(d, e, child), now)
    ensures e.reconciliationLookups != d.reconciliationLookups ==> child.Some? && ReadableChild(d, child.value)
  {
    match o.dispatchOperation.value
    case OpUncertain => UncertainLawful(d, e, now);
    case OpReport =>
      var read := o.dispatchReadback.value;
      ReportLawful(d, e, read.claimHash, read.effect, read.evidence, read.cleanupProven, now);
    case OpSettle => SettleLawful(d, e, o.dispatchRecovery.value, now);
    case OpFinishReconciliation =>
      var read := o.reconciliationReadback.value;
      FinishLawful(d, e, read.evidence, read.cleanupProven, read.effect, read.effectCleanupProven, now);
    case OpLookup =>
      LookupLawful(d, e, ClockElapsed(o.reconciliationStarted.value, now).value, child.value, now);
  }

  /** Every closed dispatch step keeps the record well formed and evolves it lawfully at the sampled clock. */
  lemma DispatchCandidateEvolves(d: Dispatch, e: Dispatch, o: Observation, child: Option<Dispatch>, now: Clock)
    requires WellFormed(d) && o.now == Some(now)
    requires DispatchCandidate(d, e, o, child) == Ok(e) && e != d
    ensures LawfulStep(d, WithLookup(d, e, child), now)
    ensures e.reconciliationLookups != d.reconciliationLookups ==> child.Some? && ReadableChild(d, child.value)
  {
    if LaunchStep(o.dispatchOperation.value) {
      LaunchCandidateEvolves(d, e, o, child, now);
    } else {
      ReadbackCandidateEvolves(d, e, o, child, now);
    }
  }
}
