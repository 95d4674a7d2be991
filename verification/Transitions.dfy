/**
  * Closed durable transition checks: a proposal is rebuilt by the reducers and compared
  * (src/heterodyne/actions/transitions.py).
  */
module Transitions {
  import opened Outcomes
  import opened Clocks
  import opened Syntax
  import opened Requests
  import opened Decisions
  import opened Dispatches

  datatype DecisionReadback = DecisionReadback(
    approvalId: string, requestRevision: int, digest: string, expectedVersion: nat,
    authorityCurrent: bool, currentCheck: bool, nativeReadOk: bool, nativeEvent: Option<DecisionObservation>,
    heartReadback: bool)

  datatype ReconciliationReadback = ReconciliationReadback(
    approvalId: string, revision: int, digest: string, target: string, attemptId: string, parentAttemptId: string,
    expectedVersion: nat, evidence: string, effect: Effect,
    readOnly: bool, invocationFinished: bool, effectCleanupProven: bool, cleanupProven: bool)

  datatype DispatchReadback = DispatchReadback(
    approvalId: string, revision: int, digest: string, target: string, attemptId: string, claimHash: string,
    expectedVersion: nat, effect: Effect, evidence: Option<string>, cleanupProven: bool)

  datatype CleanupReadback = CleanupReadback(
    key: CreationKey, origin: Origin, expectedVersion: nat, cleanedShells: set<string>, blockersClear: bool,
    nativeTerminal: bool)

  datatype LauncherReadback = LauncherReadback(
    approvalId: string, attemptId: string, startupHash: string, expectedVersion: nat, launcherExited: bool,
    noChildren: bool)

  datatype DispatchOperation =
    | OpReport | OpSettle | OpLookup | OpFinishReconciliation | OpReady | OpConsumeClaim
    | OpRestartPreparation | OpPreparationFailed | OpRetireUnconsumed | OpUncertain

  /** An approval's initial dispatch, or one of its read-only reconciliation children. */
  datatype DispatchKey = InitialKey(approvalId: string) | ReconcileKey(approvalId: string, attemptId: string)

  datatype Observation = Observation(
    now: Option<Clock>,
    allocationRecovery: Option<AllocationRecovery>,
    abandonmentRecovery: Option<AbandonmentRecovery>,
    dispatchRecovery: Option<DispatchRecovery>,
    reconciliationKey: Option<DispatchKey>,
    decisionReadback: Option<DecisionReadback>,
    reconciliationReadback: Option<ReconciliationReadback>,
    allocationStarted: Option<Clock>,
    cancellationRecovery: Option<CancellationRecovery>,
    dispatchOperation: Option<DispatchOperation>,
    dispatchReadback: Option<DispatchReadback>,
    cleanupReadback: Option<CleanupReadback>,
    reconciliationStarted: Option<Clock>,
    launcherReadback: Option<LauncherReadback>)

  const EMPTY_OBSERVATION: Observation :=
    Observation(None, None, None, None, None, None, None, None, None, None, None, None, None, None)

  function OrEmpty(o: Option<string>): string {
    if o.Some? then o.value else ""
  }

  /** settle_request (src/heterodyne/actions/requests.py:325-455). */
  function SettleRequest(r: Request, phase: RequestPhase, cleanup: CleanupReadback, decision: Option<Decision>,
                         dispatch: Option<Dispatch>,
                         cancellation: Option<CancellationRecovery>,
                         abandonment: Option<AbandonmentRecovery>): Result<Request>
  {
    var posted := r.phase == AskPinned || r.phase == Sufficient || r.phase == Filed;
    var unresolved := decision.Some? && (decision.value.phase != Invalid || decision.value.observedNativeEvent.Some?);
    if (cancellation.Some? && !(phase == Cancelled && posted)) || (abandonment.Some? && phase != ReconciledAbandoned)
    then Refused("unexpected-settlement-recovery")
    else if
        || !Terminal(phase) || cleanup.key != r.key || cleanup.origin != r.origin || !cleanup.blockersClear
        || !cleanup.nativeTerminal
        || cleanup.cleanedShells != r.shellIds || (r.shellIds == {} && phase != ReconciledAbandoned)
      then Refused("request-cleanup-unproved")
      else if Terminal(r.phase) then
          if r.phase == phase && r.cleanupConfirmed then Ok(r) else Refused("terminal-request-conflict")
        else if phase == Denied &&
                (|| !posted || decision.None? || decision.value.phase != Committed
                 || decision.value.event.verdict != Deny
                 || Some(decision.value.approvalId) != r.approvalId || Some(decision.value.digest) != r.contextDigest
                 || decision.value.requestRevision != r.requestRevision)
        then Refused("request-denial-not-committed")
        else if phase == Completed &&
                (|| r.phase != Filed || dispatch.None? || !dispatch.value.settled
                 || (dispatch.value.state != Succeeded && dispatch.value.state != Failed)
                 || !dispatch.value.cleanupProven
                 || (dispatch.value.state == Succeeded && !dispatch.value.claimConsumed)
                 || (dispatch.value.state == Failed && OrEmpty(dispatch.value.recoveryOperatorEvent) == "")
                 || dispatch.value.kind != Initial
                 || Some(dispatch.value.approvalId) != r.approvalId || Some(dispatch.value.digest) != r.contextDigest
                 || dispatch.value.revision != r.requestRevision)
          then Refused("request-completion-not-proved")
          else if phase == Cancelled && decision.Some? && decision.value.phase == Committed
                  && decision.value.event.verdict == Deny
            then Refused("committed-denial-requires-denied-settlement")
            else if phase == Cancelled && unresolved then Refused("request-cancellation-decision-unresolved")
              else if phase == Cancelled
                      && !(posted || r.phase == Allocated || r.phase == BlockerPending || r.phase == Parked
                           || r.phase == Landed)
              then Refused("request-cancellation-not-unposted")
              else if phase == Cancelled && posted &&
                      (|| cancellation.None? || cancellation.value.key != r.key || cancellation.value.origin != r.origin
                       || cancellation.value.expectedVersion != r.version || cancellation.value.shellIds != r.shellIds
                       || !cancellation.value.authenticatedCurrent || !cancellation.value.exactRepairScope
                       || !cancellation.value.nativeWithdrawalReadback || !cancellation.value.cleanupProven
                       || !DigestSyntax(cancellation.value.evidence) || !SafeLabel(cancellation.value.operatorEvent)
                       || dispatch.Some?)
                then Refused("filed-cancellation-not-authenticated")
                else if phase == ReconciledAbandoned &&
                        (|| r.phase != AllocationUnknown || abandonment.None?
                         || (r.allocationLookups != 3 && !abandonment.value.clockDiscontinuity)
                         || abandonment.value.key != r.key || abandonment.value.origin != r.origin
                         || abandonment.value.expectedVersion != r.version || abandonment.value.shellIds != r.shellIds
                         || !abandonment.value.authenticatedCurrent || !abandonment.value.exactRepairScope
                         || !abandonment.value.nativeReadback
                         || !DigestSyntax(abandonment.value.evidence) || !SafeLabel(abandonment.value.operatorEvent))
                  then Refused("request-abandonment-not-authenticated")
                  else
                    var settled := r.(version := r.version + 1, phase := phase, cleanupConfirmed := true,
                                   completionEffect := if phase != Completed then r.completionEffect
                                   else if dispatch.value.state == Succeeded then Some(CompletedSucceeded)
                                   else Some(CompletedAbsent));
                    if cancellation.Some? then
                      Ok(settled.(recoveryOperatorEvent := Some(cancellation.value.operatorEvent), recoveryEvidence :=
                         Some(cancellation.value.evidence)))
                    else if abandonment.Some? then
                      Ok(settled.(recoveryOperatorEvent := Some(abandonment.value.operatorEvent), recoveryEvidence :=
                         Some(abandonment.value.evidence)))
                    else Ok(settled)
  }

  function RequestCandidate(
    prior: Request, value: Request, decision: Option<Decision>, dispatch: Option<Dispatch>,
    o: Observation): Result<Request> {
    if value.denialIdentity != Some(RequestDenialKey(value.intent, value.origin, value.resolved)) then
      Refused("denial-identity-not-derived")
    else if Terminal(value.phase) then
      if o.cleanupReadback.None? || o.cleanupReadback.value.key != prior.key
         || o.cleanupReadback.value.origin != prior.origin
         || o.cleanupReadback.value.expectedVersion != prior.version
      then Refused("request-cleanup-observation-required")
      else SettleRequest(prior, value.phase, o.cleanupReadback.value, decision, dispatch,
                         if value.phase == Cancelled then o.cancellationRecovery else None,
                         if value.phase == Cancelled then None else o.abandonmentRecovery)
    else match prior.phase
         case AllocationIntent =>
           if o.now.None? then Refused("dispatch-clock-observation-required")
           else if !ValidClock(o.now.value) then Refused("invalid-clock")
           else IssueAllocation(prior)
         case AllocationUnknown =>
           if value.recoveryOperatorEvent.Some? then
             if o.allocationRecovery.None? then Refused("allocation-recovery-observation-required")
             else RecoverAllocation(prior, o.allocationRecovery.value)
           else if o.allocationStarted.None? then Refused("allocation-time-observation-required")
           else if o.now.None? then Refused("dispatch-clock-observation-required")
           else
             var elapsed :- ClockElapsed(o.allocationStarted.value, o.now.value);
             ObserveAllocation(prior, value.shellIds, value.phase == Allocated, elapsed)
         case Allocated => ObserveStage(prior, Blocker, prior.key, OrEmpty(prior.approvalId), prior.origin,
                                        prior.requestedSource, true)
         case BlockerPending => ObserveStage(prior, Park, prior.key, OrEmpty(prior.approvalId), prior.origin,
                                             prior.requestedSource, true)
         case Parked => ObserveStage(prior, Land, prior.key, OrEmpty(prior.approvalId), prior.origin,
                                     prior.requestedSource, true)
         case Landed => PinAsk(prior, OrEmpty(value.askBytes), OrEmpty(value.contextDigest), value.requestRevision)
         case AskPinned =>
           if value.phase == BlockerPending then GroomCandidate(prior, value, decision)
           else ObserveSufficient(prior, OrEmpty(value.contextDigest), OrEmpty(value.policyRevision),
                                  OrEmpty(value.sufficiencySource), true)
         case Sufficient =>
           if value.phase == BlockerPending then GroomCandidate(prior, value, decision)
           else ObserveFiled(prior, OrEmpty(value.contextDigest), value.requestRevision, true)
         case _ => Refused("request-transition-not-closed")
  }

  function GroomCandidate(prior: Request, value: Request, decision: Option<Decision>): Result<Request> {
    if decision.Some? && (decision.value.phase != Invalid || decision.value.observedNativeEvent.Some?)
    then Refused("groom-decision-unsettled")
    else Groom(prior, value.intent, value.resolved, value.requestedSource, value.origin)
  }

  function DecisionCandidate(prior: Decision, value: Decision, request: Request, o: Observation): Result<Decision> {
    if o.decisionReadback.None? then Refused("decision-observation-required")
    else
      var read := o.decisionReadback.value;
      if read.approvalId != prior.approvalId || read.requestRevision != prior.requestRevision
         || read.digest != prior.digest || read.expectedVersion != prior.version
      then Refused("decision-observation-required")
      else if value.phase == Invalid then
          if value.invalidReason == Some(AuthorityRevoked) && read.authorityCurrent then
            Refused("decision-authority-not-revoked")
          else if value.invalidReason == Some(DigestStale) && request.contextDigest == Some(prior.digest) then
            Refused("decision-digest-not-stale")
          else InvalidateDecision(prior, value.invalidReason, read.currentCheck,
                                  if value.invalidReason == Some(NativeConflict) then
                                    read.nativeEvent else None, read.nativeReadOk)
        else if
          || request.approvalId != Some(prior.approvalId) || request.requestRevision != prior.requestRevision
          || request.contextDigest != Some(prior.digest)
          || !(request.phase == Filed
               || (prior.event.verdict == Deny && (request.phase == AskPinned || request.phase == Sufficient)))
        then Refused("decision-current-request-mismatch")
        else match prior.phase
             case Pending => IssueDecision(prior, read.authorityCurrent, OrEmpty(request.contextDigest))
             case WriteIssued => ReadDecision(prior, read.nativeEvent, read.nativeReadOk)
             case NativeWritten => FinalizeCandidate(prior, Close, read, request)
             case NativeClosed => FinalizeCandidate(prior, Pins, read, request)
             case PinsFinished => FinalizeCandidate(prior, Finish, read, request)
             case Committed => SettleHeartProposal(prior, read.heartReadback)
             case Invalid => Refused("decision-transition-not-closed")
  }

  function FinalizeCandidate(
    prior: Decision, operation: Finalization, read: DecisionReadback, request: Request): Result<Decision> {
    if read.nativeEvent.None? then Refused("decision-native-readback-required")
    else FinalizeDecision(prior, operation, read.nativeEvent.value, OrEmpty(request.contextDigest),
                          read.nativeReadOk && read.authorityCurrent)
  }

  function DispatchCandidate(
    prior: Dispatch, value: Dispatch, o: Observation, reconciliation: Option<Dispatch>): Result<Dispatch> {
    if o.dispatchOperation.None? then Refused("dispatch-transition-not-closed")
    else match o.dispatchOperation.value
         case OpFinishReconciliation =>
           if prior.kind != Reconcile then Refused("dispatch-transition-not-closed")
           else if o.reconciliationReadback.None? then Refused("reconciliation-observation-required")
           else
             var read := o.reconciliationReadback.value;
             if
               || read.approvalId != prior.approvalId || read.revision != prior.revision || read.digest != prior.digest
               || read.target != prior.target
               || read.attemptId != prior.attemptId || Some(read.parentAttemptId) != prior.parentAttemptId
               || read.expectedVersion != prior.version
               || !read.readOnly || !read.invocationFinished
             then Refused("reconciliation-observation-required")
             else FinishReconciliation(prior, read.evidence, read.cleanupProven, read.effect, read.effectCleanupProven)
         case OpSettle =>
           if o.dispatchRecovery.None? then Refused("dispatch-recovery-observation-required")
           else SettleDispatch(prior, o.dispatchRecovery.value)
         case OpLookup => LookupCandidate(prior, o, reconciliation)
         case OpReady =>
           if o.now.None? then Refused("dispatch-clock-observation-required")
           else MakeReady(prior, OrEmpty(value.claimHash), o.now.value, true, true)
         case OpConsumeClaim =>
           if o.now.None? then Refused("dispatch-clock-observation-required")
           else ConsumeClaim(prior, OrEmpty(prior.claimHash), o.now.value, true)
         case OpRestartPreparation =>
           if o.now.None? then Refused("dispatch-clock-observation-required")
           else RestartPreparation(prior, value.startupHash, o.now.value)
         case OpPreparationFailed =>
           if !LauncherBound(prior, o) then Refused("launcher-cleanup-observation-required")
           else PreparationFailed(prior, o.launcherReadback.value.launcherExited, o.launcherReadback.value.noChildren)
         case OpRetireUnconsumed =>
           if !LauncherBound(prior, o) then Refused("launcher-cleanup-observation-required")
           else RetireUnconsumed(prior, OrEmpty(prior.claimHash), o.launcherReadback.value.launcherExited,
                                 o.launcherReadback.value.noChildren)
         case OpUncertain => MarkUncertain(prior)
         case OpReport =>
           if o.dispatchReadback.None? then Refused("dispatch-report-observation-required")
           else
             var read := o.dispatchReadback.value;
             if
               || read.approvalId != prior.approvalId || read.revision != prior.revision || read.digest != prior.digest
               || read.target != prior.target
               || read.attemptId != prior.attemptId || Some(read.claimHash) != prior.claimHash
               || read.expectedVersion != prior.version
             then Refused("dispatch-report-observation-required")
             else Report(prior, read.attemptId, read.claimHash, read.digest, read.target, read.effect, read.evidence,
                         read.cleanupProven)
  }

  predicate LauncherBound(prior: Dispatch, o: Observation) {
    && o.launcherReadback.Some?
    && o.launcherReadback.value.approvalId == prior.approvalId && o.launcherReadback.value.attemptId == prior.attemptId
    && o.launcherReadback.value.startupHash == prior.startupHash
    && o.launcherReadback.value.expectedVersion == prior.version
  }

  /** A settled, clean child of exactly this parent whose reading has not been applied yet. */
  predicate ReadableChild(prior: Dispatch, child: Dispatch) {
    && child.settled && child.kind == Reconcile && child.parentAttemptId == Some(prior.attemptId)
    && child.approvalId == prior.approvalId && child.revision == prior.revision && child.digest == prior.digest
    && child.target == prior.target && child.resource == prior.resource
    && child.attemptId !in prior.reconciliationAttempts
    && child.cleanupProven && child.reconciliationEffect.Some?
  }

  function LookupCandidate(prior: Dispatch, o: Observation, reconciliation: Option<Dispatch>): Result<Dispatch> {
    if prior.reconciliationLookups >= 3 then Refused("dispatch-readback-exhausted")
    else if o.now.None? then Refused("dispatch-clock-observation-required")
    else if o.reconciliationStarted.None? then Refused("reconciliation-clock-history-required")
    else
      var elapsed :- ClockElapsed(o.reconciliationStarted.value, o.now.value);
      if reconciliation.None? || !ReadableChild(prior, reconciliation.value) then
        Refused("settled-reconciliation-provenance-required")
      else
        var child := reconciliation.value;
        ReconcileLookup(prior, elapsed, child.reconciliationEffect.value, child.reconciliationCleanupProven,
                        child.evidence)
  }
}
