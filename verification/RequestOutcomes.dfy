/** What each stage of a request needs and leaves, said of the two records and the evidence alone. */
module RequestOutcomes {
  import opened Outcomes
  import opened Clocks
  import opened Syntax
  import opened Requests
  import opened Decisions
  import opened Dispatches
  import opened Transitions
  import opened DispatchOutcomes

  // ---- identity ----

  /** The fields a denial remembers: session, effect and target, not explanation or alias. */
  function Fingerprint(origin: Origin, intent: Intent, resolved: Resolved): DenialIdentity {
    DenialIdentity(origin.workstream, origin.sessionKey, intent.effect, resolved.target)
  }

  predicate Posted(r: Request) {
    r.phase == AskPinned || r.phase == Sufficient || r.phase == Filed
  }

  predicate Over(phase: RequestPhase) {
    phase == Completed || phase == Denied || phase == Cancelled || phase == ReconciledAbandoned
  }

  /** No decision, or an invalid one that no other native event overtook. */
  predicate NeverDecided(decision: Option<Decision>) {
    decision.Some? ==> decision.value.phase == Invalid && decision.value.observedNativeEvent == None
  }

  // ---- the ends ----

  /** The cleanup of exactly this version: every shell gone, no blocker left, the native record terminal. */
  predicate Cleaned(r: Request, s: Request, c: CleanupReadback) {
    && c.key == r.key && c.origin == r.origin && c.expectedVersion == r.version
    && c.blockersClear && c.nativeTerminal && c.cleanedShells == r.shellIds
    && (r.shellIds != {} || s.phase == ReconciledAbandoned)
  }

  /** Denied: a posted request, by the committed denial of exactly its context. */
  predicate Denies(r: Request, s: Request, decision: Option<Decision>, o: Observation) {
    && Posted(r) && o.abandonmentRecovery == None && decision.Some?
    && var d := decision.value;
    && d.phase == Committed && d.event.verdict == Deny
    && r.approvalId == Some(d.approvalId) && r.contextDigest == Some(d.digest) && r.requestRevision == d.requestRevision
    && s == r.(version := r.version + 1, phase := Denied, cleanupConfirmed := true)
  }

  /** Completed: a filed request, by the settled initial dispatch of exactly its context; the effect is the outcome. */
  predicate Completes(r: Request, s: Request, dispatch: Option<Dispatch>, o: Observation) {
    && r.phase == Filed && o.abandonmentRecovery == None && dispatch.Some?
    && var x := dispatch.value;
    && x.kind == Initial && x.settled && x.cleanupProven
    && r.approvalId == Some(x.approvalId) && r.contextDigest == Some(x.digest) && r.requestRevision == x.revision
    && (|| (x.state == Succeeded && x.claimConsumed && s.completionEffect == Some(CompletedSucceeded))
        || (x.state == Failed && x.recoveryOperatorEvent.Some? && x.recoveryOperatorEvent != Some("")
            && s.completionEffect == Some(CompletedAbsent)))
    && s == r.(version := r.version + 1, phase := Completed, cleanupConfirmed := true,
            completionEffect := s.completionEffect)
  }

  /** An operator's withdrawal of exactly this version, read back and clean. */
  predicate Withdrawn(r: Request, c: CancellationRecovery) {
    && c.key == r.key && c.origin == r.origin && c.expectedVersion == r.version && c.shellIds == r.shellIds
    && c.authenticatedCurrent && c.exactRepairScope && c.nativeWithdrawalReadback && c.cleanupProven
    && DigestSyntax(c.evidence) && SafeLabel(c.operatorEvent)
  }

  /** Cancelled: undecided, and either not yet posted, or withdrawn by an operator before any dispatch. */
  predicate Cancels(
    r: Request, s: Request, decision: Option<Decision>, dispatch: Option<Dispatch>,
    withdrawal: Option<CancellationRecovery>) {
    && NeverDecided(decision)
    && if Posted(r) then
         && withdrawal.Some? && Withdrawn(r, withdrawal.value) && dispatch == None
         && s == r.(version := r.version + 1, phase := Cancelled, cleanupConfirmed := true,
                 recoveryOperatorEvent := Some(withdrawal.value.operatorEvent),
                 recoveryEvidence := Some(withdrawal.value.evidence))
       else
         && (r.phase == Allocated || r.phase == BlockerPending || r.phase == Parked || r.phase == Landed)
         && withdrawal == None
         && s == r.(version := r.version + 1, phase := Cancelled, cleanupConfirmed := true)
  }

  /** Abandoned: an allocation still unknown after three lookups or a broken clock, by an operator's own readback. */
  predicate Abandons(r: Request, s: Request, abandonment: Option<AbandonmentRecovery>) {
    && r.phase == AllocationUnknown && abandonment.Some?
    && var a := abandonment.value;
    && (r.allocationLookups == 3 || a.clockDiscontinuity)
    && a.key == r.key && a.origin == r.origin && a.expectedVersion == r.version && a.shellIds == r.shellIds
    && a.authenticatedCurrent && a.exactRepairScope && a.nativeReadback
    && DigestSyntax(a.evidence) && SafeLabel(a.operatorEvent)
    && s == r.(version := r.version + 1, phase := ReconciledAbandoned, cleanupConfirmed := true,
            recoveryOperatorEvent := Some(a.operatorEvent), recoveryEvidence := Some(a.evidence))
  }

  predicate Ends(r: Request, s: Request, decision: Option<Decision>, dispatch: Option<Dispatch>, o: Observation) {
    && o.cleanupReadback.Some? && Cleaned(r, s, o.cleanupReadback.value) && !Over(r.phase)
    && match s.phase
       case Denied => Denies(r, s, decision, o)
       case Completed => Completes(r, s, dispatch, o)
       case Cancelled => Cancels(r, s, decision, dispatch, o.cancellationRecovery)
       case ReconciledAbandoned => Abandons(r, s, o.abandonmentRecovery)
       case _ => false
  }

  // ---- allocation ----

  predicate Issues(r: Request, s: Request, o: Observation) {
    && !r.createIssued && o.now.Some? && ValidClock(o.now.value)
    && s == r.(version := r.version + 1, createIssued := true, phase := AllocationUnknown)
  }

  /** The shell that holds the request: the envelope and the denial fingerprint are built for it. */
  predicate AllocatedAs(r: Request, s: Request, shell: string) {
    && s.phase == Allocated && s.approvalId == Some(shell)
    && s.envelope == Some(Envelope(r.intent, r.origin, r.resolved, shell, r.requestRevision, r.config))
    && s.denialIdentity == Some(Fingerprint(r.origin, r.intent, r.resolved))
  }

  /** The lookup found this one shell, and no other was ever seen. */
  predicate FoundIn(r: Request, s: Request, shell: string) {
    && BeadId(shell) && s.shellIds == {shell} && r.shellIds <= {shell} && AllocatedAs(r, s, shell)
    && s == r.(version := r.version + 1, allocationLookups := r.allocationLookups + 1, shellIds := {shell},
            phase := Allocated, approvalId := s.approvalId, envelope := s.envelope,
            denialIdentity := s.denialIdentity)
  }

  predicate Finds(r: Request, s: Request) {
    if s.phase == Allocated then exists shell :: shell in s.shellIds && FoundIn(r, s, shell)
    else r.shellIds == {} && s == r.(version := r.version + 1, allocationLookups := r.allocationLookups + 1)
  }

  /** A lookup after its wait: exactly one shell allocates, and nothing found only counts. */
  predicate LooksFor(r: Request, s: Request, o: Observation) {
    && r.allocationLookups < 3 && o.allocationStarted.Some? && o.now.Some?
    && Passed(o.allocationStarted.value, o.now.value,
              if r.allocationLookups == 0 then 1_000_000_000
              else if r.allocationLookups == 1 then 5_000_000_000 else 30_000_000_000)
    && Finds(r, s)
  }

  /** An operator names the one shell and closes every other that was ever seen. */
  predicate Repairs(r: Request, s: Request, o: Observation) {
    && o.allocationRecovery.Some?
    && var a := o.allocationRecovery.value;
    && (r.allocationLookups == 3 || a.clockDiscontinuity)
    && a.key == r.key && a.origin == r.origin && a.expectedVersion == r.version
    && a.authenticatedCurrent && a.exactRepairScope && a.nativeReadback
    && DigestSyntax(a.evidenceDigest) && SafeLabel(a.operatorEvent)
    && |a.associatedIds| <= 8 && (forall i :: i in a.associatedIds ==> BeadId(i))
    && a.canonicalId in a.associatedIds && r.shellIds <= a.associatedIds
    && a.closedOrphans == a.associatedIds - {a.canonicalId}
    && AllocatedAs(r, s, a.canonicalId)
    && s == r.(version := r.version + 1, shellIds := a.associatedIds, phase := Allocated, approvalId := s.approvalId,
            envelope := s.envelope, denialIdentity := s.denialIdentity,
            recoveryOperatorEvent := Some(a.operatorEvent), recoveryEvidence := Some(a.evidenceDigest),
            recoveryClosedOrphans := a.closedOrphans)
  }

  // ---- posting ----

  /** The three stages before the ask, each for an allocated request. */
  predicate StagesUp(r: Request, s: Request, next: RequestPhase) {
    r.approvalId.Some? && s == r.(version := r.version + 1, phase := next)
  }

  predicate Pins(r: Request, s: Request) {
    && s.askBytes.Some? && 1 <= |s.askBytes.value| <= 65536
    && s.contextDigest.Some? && DigestSyntax(s.contextDigest.value)
    && s == r.(version := r.version + 1, phase := AskPinned, askBytes := s.askBytes, contextDigest := s.contextDigest)
  }

  predicate Suffices(r: Request, s: Request) {
    && r.contextDigest.Some? && s.policyRevision.Some? && DigestSyntax(s.policyRevision.value)
    && s == r.(version := r.version + 1, phase := Sufficient, policyRevision := s.policyRevision,
            sufficiencySource := Some(r.requestedSource))
  }

  predicate Files(r: Request, s: Request) {
    r.contextDigest.Some? && s == r.(version := r.version + 1, phase := Filed)
  }

  /**
    * Groomed, at most twice: a new revision of the same session and an undenied intent; everything posted for the old
    * revision is dropped.
    */
  predicate Grooms(r: Request, s: Request, decision: Option<Decision>) {
    && NeverDecided(decision) && r.groomRevisions < 2 && r.approvalId.Some? && SourceSyntax(s.requestedSource)
    && s.origin.workstream == r.origin.workstream && s.origin.bead == r.origin.bead
    && s.origin.sessionKey == r.origin.sessionKey && s.origin.repoAlias == r.origin.repoAlias
    && s.origin.generation >= r.origin.generation
    && Fingerprint(s.origin, s.intent, s.resolved) !in r.priorDenials
    && s == r.(version := r.version + 1, phase := BlockerPending, origin := s.origin, intent := s.intent,
            resolved := s.resolved, requestedSource := s.requestedSource,
            denialIdentity := Some(Fingerprint(s.origin, s.intent, s.resolved)),
            envelope := Some(Envelope(s.intent, s.origin, s.resolved, r.approvalId.value, r.requestRevision + 1,
                                                       r.config)),
            requestRevision := r.requestRevision + 1, groomRevisions := r.groomRevisions + 1,
            askBytes := None, contextDigest := None, policyRevision := None, sufficiencySource := None)
  }

  predicate Moves(r: Request, s: Request, decision: Option<Decision>, o: Observation) {
    match r.phase
    case AllocationIntent => Issues(r, s, o)
    case AllocationUnknown => if s.recoveryOperatorEvent.Some? then Repairs(r, s, o) else LooksFor(r, s, o)
    case Allocated => StagesUp(r, s, BlockerPending)
    case BlockerPending => StagesUp(r, s, Parked)
    case Parked => StagesUp(r, s, Landed)
    case Landed => Pins(r, s)
    case AskPinned => if s.phase == BlockerPending then Grooms(r, s, decision) else Suffices(r, s)
    case Sufficient => if s.phase == BlockerPending then Grooms(r, s, decision) else Files(r, s)
    case _ => false
  }

  /** The next version of a request and what admits it. */
  predicate Advanced(
    r: Request, s: Request, decision: Option<Decision>, dispatch: Option<Dispatch>, o: Observation) {
    && s.denialIdentity == Some(Fingerprint(s.origin, s.intent, s.resolved))
    && if Over(s.phase) then Ends(r, s, decision, dispatch, o) else Moves(r, s, decision, o)
  }

  // ---- each stage, both ways ----

  lemma CompletedExact(r: Request, s: Request, decision: Option<Decision>, dispatch: Option<Dispatch>, o: Observation)
    requires s.phase == Completed
    ensures RequestCandidate(r, s, decision, dispatch, o) == Ok(s) && s != r <==> Advanced(r, s, decision, dispatch, o)
  {
  }

  lemma DeniedExact(r: Request, s: Request, decision: Option<Decision>, dispatch: Option<Dispatch>, o: Observation)
    requires s.phase == Denied
    ensures RequestCandidate(r, s, decision, dispatch, o) == Ok(s) && s != r <==> Advanced(r, s, decision, dispatch, o)
  {
  }

  lemma CancelExact(
    r: Request, s: Request, c: CleanupReadback, decision: Option<Decision>, dispatch: Option<Dispatch>,
    withdrawal: Option<CancellationRecovery>)
    requires s.phase == Cancelled && c.expectedVersion == r.version
    ensures SettleRequest(r, Cancelled, c, decision, dispatch, withdrawal, None) == Ok(s) && s != r <==>
            Cleaned(r, s, c) && !Over(r.phase) && Cancels(r, s, decision, dispatch, withdrawal)
  {
  }

  lemma AbandonExact(
    r: Request, s: Request, c: CleanupReadback, decision: Option<Decision>, dispatch: Option<Dispatch>,
    abandonment: Option<AbandonmentRecovery>)
    requires s.phase == ReconciledAbandoned && c.expectedVersion == r.version
    ensures SettleRequest(r, ReconciledAbandoned, c, decision, dispatch, None, abandonment) == Ok(s) && s != r <==>
            Cleaned(r, s, c) && !Over(r.phase) && Abandons(r, s, abandonment)
  {
  }

  lemma CancelledExact(r: Request, s: Request, decision: Option<Decision>, dispatch: Option<Dispatch>, o: Observation)
    requires s.phase == Cancelled
    ensures RequestCandidate(r, s, decision, dispatch, o) == Ok(s) && s != r <==> Advanced(r, s, decision, dispatch, o)
  {
    if o.cleanupReadback.Some? && o.cleanupReadback.value.expectedVersion == r.version {
      CancelExact(r, s, o.cleanupReadback.value, decision, dispatch, o.cancellationRecovery);
    }
  }

  lemma AbandonedExact(r: Request, s: Request, decision: Option<Decision>, dispatch: Option<Dispatch>, o: Observation)
    requires s.phase == ReconciledAbandoned
    ensures RequestCandidate(r, s, decision, dispatch, o) == Ok(s) && s != r <==> Advanced(r, s, decision, dispatch, o)
  {
    if o.cleanupReadback.Some? && o.cleanupReadback.value.expectedVersion == r.version {
      AbandonExact(r, s, o.cleanupReadback.value, decision, dispatch, o.abandonmentRecovery);
    }
  }

  lemma IssueExact(r: Request, s: Request, decision: Option<Decision>, dispatch: Option<Dispatch>, o: Observation)
    requires !Over(s.phase) && r.phase == AllocationIntent
    ensures RequestCandidate(r, s, decision, dispatch, o) == Ok(s) && s != r <==> Advanced(r, s, decision, dispatch, o)
  {
  }

  lemma RepairExact(r: Request, s: Request, decision: Option<Decision>, dispatch: Option<Dispatch>, o: Observation)
    requires !Over(s.phase) && r.phase == AllocationUnknown && s.recoveryOperatorEvent.Some?
    ensures RequestCandidate(r, s, decision, dispatch, o) == Ok(s) && s != r <==> Advanced(r, s, decision, dispatch, o)
  {
  }

  lemma FoundExact(r: Request, s: Request, elapsed: int)
    requires r.phase == AllocationUnknown && r.allocationLookups < 3 && elapsed >= [1, 5, 30][r.allocationLookups]
    requires s.phase == Allocated
    ensures ObserveAllocation(r, s.shellIds, true, elapsed) == Ok(s) <==>
            exists shell :: shell in s.shellIds && FoundIn(r, s, shell)
  {
    if shell :| shell in s.shellIds && s.shellIds == {shell} {
      assert |s.shellIds| == 1;
      assert forall i :: i in s.shellIds <==> i == shell;
    }
  }

  lemma NotFoundExact(r: Request, s: Request, elapsed: int)
    requires r.phase == AllocationUnknown && r.allocationLookups < 3 && elapsed >= [1, 5, 30][r.allocationLookups]
    requires s.phase != Allocated
    ensures ObserveAllocation(r, s.shellIds, false, elapsed) == Ok(s) <==>
            (r.shellIds == {} && s == r.(version := r.version + 1, allocationLookups := r.allocationLookups + 1))
  {
    if s.shellIds == {} {
      assert r.shellIds + {} == r.shellIds;
    }
  }

  lemma ObserveExact(r: Request, s: Request, elapsed: int)
    requires r.phase == AllocationUnknown
    ensures ObserveAllocation(r, s.shellIds, s.phase == Allocated, elapsed) == Ok(s) <==>
            r.allocationLookups < 3 && elapsed >= [1, 5, 30][r.allocationLookups] && Finds(r, s)
  {
    if r.allocationLookups < 3 && elapsed >= [1, 5, 30][r.allocationLookups] {
      if s.phase == Allocated {
        FoundExact(r, s, elapsed);
      } else {
        NotFoundExact(r, s, elapsed);
      }
    }
  }

  lemma WaitExact(r: Request, o: Observation)
    requires o.allocationStarted.Some? && o.now.Some? && r.allocationLookups < 3
    ensures var elapsed := ClockElapsed(o.allocationStarted.value, o.now.value);
            elapsed.Ok? && elapsed.value >= [1, 5, 30][r.allocationLookups] <==>
            Passed(o.allocationStarted.value, o.now.value,
                   if r.allocationLookups == 0 then 1_000_000_000
                   else if r.allocationLookups == 1 then 5_000_000_000 else 30_000_000_000)
  {
    ElapsedExact(o.allocationStarted.value, o.now.value, [1, 5, 30][r.allocationLookups]);
  }

  lemma LookExact(r: Request, s: Request, decision: Option<Decision>, dispatch: Option<Dispatch>, o: Observation)
    requires !Over(s.phase) && r.phase == AllocationUnknown && s.recoveryOperatorEvent.None?
    ensures RequestCandidate(r, s, decision, dispatch, o) == Ok(s) && s != r <==> Advanced(r, s, decision, dispatch, o)
  {
    if o.allocationStarted.Some? && o.now.Some? {
      if ClockElapsed(o.allocationStarted.value, o.now.value).Ok? {
        ObserveExact(r, s, ClockElapsed(o.allocationStarted.value, o.now.value).value);
      }
      if r.allocationLookups < 3 {
        WaitExact(r, o);
      }
    }
  }

  lemma StageExact(r: Request, s: Request, decision: Option<Decision>, dispatch: Option<Dispatch>, o: Observation)
    requires !Over(s.phase) && (r.phase == Allocated || r.phase == BlockerPending || r.phase == Parked)
    ensures RequestCandidate(r, s, decision, dispatch, o) == Ok(s) && s != r <==> Advanced(r, s, decision, dispatch, o)
  {
  }

  lemma PinExact(r: Request, s: Request, decision: Option<Decision>, dispatch: Option<Dispatch>, o: Observation)
    requires !Over(s.phase) && r.phase == Landed
    ensures RequestCandidate(r, s, decision, dispatch, o) == Ok(s) && s != r <==> Advanced(r, s, decision, dispatch, o)
  {
  }

  lemma GroomExact(r: Request, s: Request, decision: Option<Decision>, dispatch: Option<Dispatch>, o: Observation)
    requires s.phase == BlockerPending && (r.phase == AskPinned || r.phase == Sufficient)
    ensures RequestCandidate(r, s, decision, dispatch, o) == Ok(s) && s != r <==> Advanced(r, s, decision, dispatch, o)
  {
  }

  lemma FileExact(r: Request, s: Request, decision: Option<Decision>, dispatch: Option<Dispatch>, o: Observation)
    requires !Over(s.phase) && s.phase != BlockerPending && (r.phase == AskPinned || r.phase == Sufficient)
    ensures RequestCandidate(r, s, decision, dispatch, o) == Ok(s) && s != r <==> Advanced(r, s, decision, dispatch, o)
  {
  }

  lemma ClosedExact(r: Request, s: Request, decision: Option<Decision>, dispatch: Option<Dispatch>, o: Observation)
    requires !Over(s.phase) && (r.phase == Filed || Over(r.phase))
    ensures RequestCandidate(r, s, decision, dispatch, o) == Ok(s) && s != r <==> Advanced(r, s, decision, dispatch, o)
  {
  }

  /** A proposed next version of a request is accepted exactly when the evidence admits it. */
  lemma RequestExact(r: Request, s: Request, decision: Option<Decision>, dispatch: Option<Dispatch>, o: Observation)
    ensures RequestCandidate(r, s, decision, dispatch, o) == Ok(s) && s != r <==> Advanced(r, s, decision, dispatch, o)
  {
    if Over(s.phase) {
      match s.phase
      case Completed => CompletedExact(r, s, decision, dispatch, o);
      case Denied => DeniedExact(r, s, decision, dispatch, o);
      case Cancelled => CancelledExact(r, s, decision, dispatch, o);
      case ReconciledAbandoned => AbandonedExact(r, s, decision, dispatch, o);
    } else {
      match r.phase
      case AllocationIntent => IssueExact(r, s, decision, dispatch, o);
      case AllocationUnknown =>
        if s.recoveryOperatorEvent.Some? {
          RepairExact(r, s, decision, dispatch, o);
        } else {
          LookExact(r, s, decision, dispatch, o);
        }
      case Allocated => StageExact(r, s, decision, dispatch, o);
      case BlockerPending => StageExact(r, s, decision, dispatch, o);
      case Parked => StageExact(r, s, decision, dispatch, o);
      case Landed => PinExact(r, s, decision, dispatch, o);
      case AskPinned =>
        if s.phase == BlockerPending {
          GroomExact(r, s, decision, dispatch, o);
        } else {
          FileExact(r, s, decision, dispatch, o);
        }
      case Sufficient =>
        if s.phase == BlockerPending {
          GroomExact(r, s, decision, dispatch, o);
        } else {
          FileExact(r, s, decision, dispatch, o);
        }
      case _ => ClosedExact(r, s, decision, dispatch, o);
    }
  }
}
