/** What each stage of a decision needs and leaves, said of the two records, the request and the readback alone. */
module DecisionOutcomes {
  import opened Outcomes
  import opened Syntax
  import opened Requests
  import opened Decisions
  import opened Transitions

  /** The readback is of exactly this version of this decision. */
  predicate ReadsBack(d: Decision, r: DecisionReadback) {
    r.approvalId == d.approvalId && r.requestRevision == d.requestRevision && r.digest == d.digest
    && r.expectedVersion == d.version
  }

  /** The request is the one decided: filed, or for a denial already posted. */
  predicate StillAsked(d: Decision, q: Request) {
    && q.approvalId == Some(d.approvalId) && q.requestRevision == d.requestRevision && q.contextDigest == Some(d.digest)
    && (q.phase == Filed || (d.event.verdict == Deny && (q.phase == AskPinned || q.phase == Sufficient)))
  }

  /** The native record holds exactly this decision's event, under current authority. */
  predicate NativeStands(d: Decision, r: DecisionReadback) {
    r.nativeReadOk && r.nativeEvent == Some(d.event) && r.authorityCurrent
  }

  /** One stage on: write issued, written natively, closed, pins finished, committed; then only the heart flag. */
  predicate StagesOn(d: Decision, e: Decision, r: DecisionReadback) {
    match d.phase
    case Pending => r.authorityCurrent && e == d.(version := d.version + 1, phase := WriteIssued)
    case WriteIssued =>
      && r.nativeReadOk && r.nativeEvent == Some(d.event)
      && e == d.(version := d.version + 1, phase := NativeWritten, nativeEventId := Some(d.event.eventId))
    case NativeWritten => NativeStands(d, r) && e == d.(version := d.version + 1, phase := NativeClosed)
    case NativeClosed => NativeStands(d, r) && e == d.(version := d.version + 1, phase := PinsFinished)
    case PinsFinished => NativeStands(d, r) && e == d.(version := d.version + 1, phase := Committed)
    case Committed =>
      d.heartProposalPending && r.heartReadback && e == d.(version := d.version + 1, heartProposalPending := false)
    case Invalid => false
  }

  /** Another event of the same decision stands in the native record, by a current principal. */
  predicate Overtaken(d: Decision, r: DecisionReadback) {
    && r.nativeReadOk && r.nativeEvent.Some? && r.nativeEvent.value != d.event
    && var n := r.nativeEvent.value;
    && n.approvalId == d.approvalId && n.digest == d.digest && n.purpose == d.purpose
    && n.currentPrincipal && n.surfaceBound && n.authorityCurrent
  }

  /**
    * Invalidated: before the write because authority is revoked or the digest is stale, after it only because another
    * native event overtook it, which is kept.
    */
  predicate Voids(d: Decision, e: Decision, q: Request, r: DecisionReadback) {
    && e.invalidReason.Some? && r.currentCheck
    && (match e.invalidReason.value
        case AuthorityRevoked => d.phase == Pending && !r.authorityCurrent
        case DigestStale => d.phase == Pending && q.contextDigest != Some(d.digest)
        case NativeConflict => d.phase == WriteIssued && Overtaken(d, r))
    && e == d.(version := d.version + 1, phase := Invalid, invalidReason := e.invalidReason,
            observedNativeEvent := if d.phase == WriteIssued then r.nativeEvent else None)
  }

  /** The next version of a decision and what admits it. */
  predicate Decided(d: Decision, e: Decision, q: Request, o: Observation) {
    && o.decisionReadback.Some?
    && var r := o.decisionReadback.value;
    && ReadsBack(d, r)
    && if e.phase == Invalid then Voids(d, e, q, r) else StillAsked(d, q) && StagesOn(d, e, r)
  }

  lemma VoidExact(d: Decision, e: Decision, q: Request, o: Observation)
    requires o.decisionReadback.Some? && e.phase == Invalid
    ensures DecisionCandidate(d, e, q, o) == Ok(e) && e != d <==> Decided(d, e, q, o)
  {
  }

  lemma EarlyExact(d: Decision, e: Decision, q: Request, o: Observation)
    requires o.decisionReadback.Some? && e.phase != Invalid && (d.phase == Pending || d.phase == WriteIssued)
    ensures DecisionCandidate(d, e, q, o) == Ok(e) && e != d <==> Decided(d, e, q, o)
  {
  }

  lemma FinalExact(d: Decision, e: Decision, q: Request, o: Observation)
    requires o.decisionReadback.Some? && e.phase != Invalid
    requires d.phase == NativeWritten || d.phase == NativeClosed || d.phase == PinsFinished
    ensures DecisionCandidate(d, e, q, o) == Ok(e) && e != d <==> Decided(d, e, q, o)
  {
  }

  lemma HeartExact(d: Decision, e: Decision, q: Request, o: Observation)
    requires o.decisionReadback.Some? && e.phase != Invalid && (d.phase == Committed || d.phase == Invalid)
    ensures DecisionCandidate(d, e, q, o) == Ok(e) && e != d <==> Decided(d, e, q, o)
  {
  }

  /** A proposed next version of a decision is accepted exactly when readback and request admit it. */
  lemma DecisionExact(d: Decision, e: Decision, q: Request, o: Observation)
    ensures DecisionCandidate(d, e, q, o) == Ok(e) && e != d <==> Decided(d, e, q, o)
  {
    if o.decisionReadback.Some? {
      if e.phase == Invalid {
        VoidExact(d, e, q, o);
      } else if d.phase == Pending || d.phase == WriteIssued {
        EarlyExact(d, e, q, o);
      } else if d.phase == Committed || d.phase == Invalid {
        HeartExact(d, e, q, o);
      } else {
        FinalExact(d, e, q, o);
      }
    }
  }

  // ---- the first version ----

  /** The operator's event as it must be: current, bound to its surface, and for exactly this request's context. */
  predicate Asked(q: Request, event: DecisionObservation) {
    && (q.phase == Filed || (event.verdict == Deny && (q.phase == AskPinned || q.phase == Sufficient)))
    && q.contextDigest == Some(event.digest) && q.approvalId == Some(event.approvalId) && DigestSyntax(event.digest)
    && event.currentPrincipal && event.surfaceBound && event.authorityCurrent
    && SafeLabel(event.eventId) && SafeLabel(event.surfaceId) && SafeLabel(event.operatorId)
    && SafeLabel(event.viaRef) && SafeLabel(event.at, 64)
    && |event.denialReason| <= 1024 && (event.verdict == Approve ==> event.denialReason == "")
  }

  /** A new decision says what its event says; only an approval may carry a heart proposal. */
  predicate Opens(q: Request, v: Decision) {
    && Asked(q, v.event) && v.approvalId == v.event.approvalId && v.purpose == v.event.purpose
    && v.digest == v.event.digest && v.requestRevision == q.requestRevision
    && v.phase == Pending && v.version == 0 && v.nativeEventId == None && v.invalidReason == None
    && v.observedNativeEvent == None && (v.heartProposalPending ==> v.event.verdict == Approve)
  }

  lemma BeginExact(q: Request, v: Decision)
    ensures BeginDecision(q, v.event, v.purpose, OrEmpty(q.contextDigest), v.heartProposalPending) == Ok(v) <==>
            Opens(q, v)
  {
  }
}
