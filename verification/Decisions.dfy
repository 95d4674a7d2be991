/** First-decision records and staged native finalization (src/heterodyne/actions/decisions.py). */
module Decisions {
  import opened Outcomes
  import opened Syntax
  import opened Requests

  datatype Purpose = Design | Execution | Permission | Confirm | Recovery
  datatype DecisionPhase = Pending | WriteIssued | NativeWritten | NativeClosed | PinsFinished | Committed | Invalid
  datatype Verdict = Approve | Deny
  datatype InvalidReason = AuthorityRevoked | DigestStale | NativeConflict

  datatype DecisionObservation = DecisionObservation(
    eventId: string, surfaceId: string, operatorId: string, viaRef: string, at: string,
    approvalId: string, purpose: Purpose, digest: string, verdict: Verdict, denialReason: string,
    currentPrincipal: bool, surfaceBound: bool, authorityCurrent: bool)

  datatype Decision = Decision(
    approvalId: string,
    purpose: Purpose,
    digest: string,
    event: DecisionObservation,
    phase: DecisionPhase,
    version: nat,
    nativeEventId: Option<string>,
    heartProposalPending: bool,
    requestRevision: int,
    invalidReason: Option<InvalidReason>,
    observedNativeEvent: Option<DecisionObservation>)

  function BeginDecision(
    request: Request, event: DecisionObservation, expectedPurpose: Purpose, currentDigest: string,
    heart: bool): Result<Decision> {
    if
      || (request.phase != Filed
          && !(event.verdict == Deny && (request.phase == AskPinned || request.phase == Sufficient)))
      || request.contextDigest != Some(currentDigest) || event.digest != currentDigest
      || Some(event.approvalId) != request.approvalId || event.purpose != expectedPurpose
      || !DigestSyntax(currentDigest)
      || !event.currentPrincipal || !event.surfaceBound || !event.authorityCurrent
      || !SafeLabel(event.eventId) || !SafeLabel(event.surfaceId) || !SafeLabel(event.operatorId)
      || !SafeLabel(event.viaRef) || !SafeLabel(event.at, 64)
      || |event.denialReason| > 1024 || (event.verdict == Approve && event.denialReason != "")
    then Refused("decision-observation-binding")
    else Ok(Decision(event.approvalId, expectedPurpose, currentDigest, event, Pending, 0, None,
                     heart && event.verdict == Approve, request.requestRevision, None, None))
  }

  function IssueDecision(d: Decision, freshAuthority: bool, currentDigest: string): Result<Decision> {
    if d.phase != Pending || !freshAuthority || currentDigest != d.digest then Refused("decision-write-not-admitted")
    else Ok(d.(version := d.version + 1, phase := WriteIssued))
  }

  function ReadDecision(d: Decision, readback: Option<DecisionObservation>, readOk: bool): Result<Decision> {
    if d.phase != WriteIssued || !readOk || readback != Some(d.event) then
      Refused("decision-write-unresolved-or-conflicting")
    else Ok(d.(version := d.version + 1, phase := NativeWritten, nativeEventId := Some(d.event.eventId)))
  }

  datatype Finalization = Close | Pins | Finish

  function FinalizeStage(phase: DecisionPhase): Option<(DecisionPhase, Finalization)> {
    match phase
    case NativeWritten => Some((NativeClosed, Close))
    case NativeClosed => Some((PinsFinished, Pins))
    case PinsFinished => Some((Committed, Finish))
    case _ => None
  }

  function FinalizeDecision(
    d: Decision, operation: Finalization, readback: DecisionObservation, currentDigest: string,
    nativeReadback: bool): Result<Decision> {
    var stage := FinalizeStage(d.phase);
    if stage.None? || stage.value.1 != operation || readback != d.event || currentDigest != d.digest || !nativeReadback
    then Refused("decision-finalization-binding")
    else Ok(d.(version := d.version + 1, phase := stage.value.0))
  }

  function SettleHeartProposal(d: Decision, proposalReadback: bool): Result<Decision> {
    if d.phase != Committed || !proposalReadback then Refused("heart-proposal-unresolved")
    else if !d.heartProposalPending then Ok(d)
    else Ok(d.(version := d.version + 1, heartProposalPending := false))
  }

  function InvalidateDecision(d: Decision, reason: Option<InvalidReason>, currentCheck: bool,
                              readback: Option<DecisionObservation>, nativeReadOk: bool): Result<Decision>
  {
    if !currentCheck || (d.phase != Pending && d.phase != WriteIssued) || reason.None?
    then Refused("decision-invalidation-not-bound")
    else if d.phase == WriteIssued &&
            (|| reason != Some(NativeConflict) || !nativeReadOk || readback.None? || readback == Some(d.event)
             || readback.value.approvalId != d.approvalId || readback.value.digest != d.digest
             || readback.value.purpose != d.purpose
             || !readback.value.currentPrincipal || !readback.value.surfaceBound || !readback.value.authorityCurrent)
      then Refused("decision-write-still-uncertain")
      else if d.phase == Pending && reason == Some(NativeConflict) then
          Refused("decision-conflict-without-issued-write")
        else Ok(d.(version := d.version + 1, phase := Invalid, invalidReason := reason, observedNativeEvent :=
                readback))
  }
}
