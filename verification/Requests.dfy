/** Staged request records and reducers (src/heterodyne/actions/requests.py). */
module Requests {
  import opened Outcomes
  import opened Clocks
  import opened Syntax

  datatype RequestPhase =
    | AllocationIntent | AllocationUnknown | Allocated | BlockerPending | Parked | Landed
    | AskPinned | Sufficient | Filed
    | Completed | Denied | Cancelled | ReconciledAbandoned

  predicate Terminal(phase: RequestPhase) {
    phase in {Completed, Denied, Cancelled, ReconciledAbandoned}
  }

  datatype CreationKey = CreationKey(workstream: string, sessionKey: string, bead: string, sequence: int)
  datatype Origin = Origin(workstream: string, bead: string, sessionKey: string, generation: int, repoAlias: string)

  /** The action's effect fields, and the explanation and alias text that carries no effect. */
  datatype Intent = Intent(effect: string, explanation: string)
  datatype Resolved = Resolved(target: string, alias: string)

  /** The denial fingerprint: a digest of exactly these fields, so equal only when they all are. */
  datatype DenialIdentity = DenialIdentity(workstream: string, sessionKey: string, effect: string, target: string)

  datatype Envelope = Envelope(intent: Intent, origin: Origin, resolved: Resolved, approvalId: string, revision: int,
                               config: string)

  datatype CompletionEffect = CompletedSucceeded | CompletedAbsent

  datatype Request = Request(
    key: CreationKey,
    origin: Origin,
    intent: Intent,
    resolved: Resolved,
    config: string,
    requestedSource: string,
    denialIdentity: Option<DenialIdentity>,
    priorDenials: set<DenialIdentity>,
    phase: RequestPhase,
    version: nat,
    createIssued: bool,
    allocationLookups: nat,
    shellIds: set<string>,
    approvalId: Option<string>,
    envelope: Option<Envelope>,
    requestRevision: int,
    groomRevisions: nat,
    askBytes: Option<string>,
    contextDigest: Option<string>,
    policyRevision: Option<string>,
    sufficiencySource: Option<string>,
    cleanupConfirmed: bool,
    recoveryOperatorEvent: Option<string>,
    recoveryEvidence: Option<string>,
    recoveryClosedOrphans: set<string>,
    completionEffect: Option<CompletionEffect>)

  function RequestDenialKey(intent: Intent, origin: Origin, resolved: Resolved): DenialIdentity {
    DenialIdentity(origin.workstream, origin.sessionKey, intent.effect, resolved.target)
  }

  function DenialKey(e: Envelope): DenialIdentity {
    RequestDenialKey(e.intent, e.origin, e.resolved)
  }

  function AssembleEnvelope(r: Request, approvalId: string): Envelope {
    Envelope(r.intent, r.origin, r.resolved, approvalId, r.requestRevision, r.config)
  }

  function IssueAllocation(r: Request): Result<Request> {
    if r.phase != AllocationIntent || r.createIssued then Refused("allocation-already-issued-or-held")
    else Ok(r.(version := r.version + 1, createIssued := true, phase := AllocationUnknown))
  }

  function ObserveAllocation(r: Request, ids: set<string>, lookupOk: bool, elapsed: int): Result<Request> {
    if r.phase != AllocationUnknown || r.allocationLookups >= 3 then Refused("allocation-needs-authenticated-recovery")
    else if elapsed < [1, 5, 30][r.allocationLookups] then Refused("allocation-lookup-not-due")
    else if |ids| > 8 || exists i :: i in ids && !BeadId(i) then Refused("invalid-allocation-readback")
    else if !lookupOk && ids != {} then Refused("contradictory-allocation-readback")
    else if exists i :: i in ids && lookupOk && ids == {i} && r.shellIds <= ids then
      var approval :| approval in ids && lookupOk && ids == {approval} && r.shellIds <= ids;
      var envelope := AssembleEnvelope(r, approval);
      Ok(r.(version := r.version + 1, allocationLookups := r.allocationLookups + 1, shellIds := ids,
         approvalId := Some(approval), envelope := Some(envelope), phase := Allocated,
         denialIdentity := Some(DenialKey(envelope))))
    else if |r.shellIds + ids| > 8 then Refused("allocation-shell-capacity")
    else Ok(r.(version := r.version + 1, allocationLookups := r.allocationLookups + 1, shellIds := r.shellIds + ids))
  }

  datatype Stage = Blocker | Park | Land

  function StageOf(phase: RequestPhase): Option<(RequestPhase, Stage)> {
    match phase
    case Allocated => Some((BlockerPending, Blocker))
    case BlockerPending => Some((Parked, Park))
    case Parked => Some((Landed, Land))
    case _ => None
  }

  function ObserveStage(r: Request, operation: Stage, key: CreationKey, approvalId: string, origin: Origin,
                        source: string, readbackOk: bool): Result<Request>
  {
    var stage := StageOf(r.phase);
    if stage.None? || stage.value.1 != operation || !readbackOk || key != r.key || Some(approvalId) != r.approvalId
       || origin != r.origin || source != r.requestedSource
    then Refused("request-stage-binding")
    else Ok(r.(version := r.version + 1, phase := stage.value.0))
  }

  function PinAsk(r: Request, wholeAsk: string, contextDigest: string, revision: int): Result<Request> {
    if r.phase != Landed || revision != r.requestRevision || !DigestSyntax(contextDigest) || !(1 <= |wholeAsk| <= 65536)
    then Refused("ask-pin-binding")
    else Ok(r.(version := r.version + 1, phase := AskPinned, askBytes := Some(wholeAsk), contextDigest :=
            Some(contextDigest)))
  }

  function ObserveSufficient(
    r: Request, digest: string, policyRevision: string, source: string, sufficient: bool): Result<Request> {
    if r.phase != AskPinned || !sufficient || Some(digest) != r.contextDigest || source != r.requestedSource
       || !DigestSyntax(policyRevision)
    then Refused("sufficiency-missing-or-stale")
    else Ok(r.(version := r.version + 1, phase := Sufficient, policyRevision :=
            Some(policyRevision), sufficiencySource := Some(source)))
  }

  function ObserveFiled(r: Request, digest: string, revision: int, nativeReadback: bool): Result<Request> {
    if r.phase != Sufficient || Some(digest) != r.contextDigest || revision != r.requestRevision || !nativeReadback
    then Refused("filing-incomplete")
    else Ok(r.(version := r.version + 1, phase := Filed))
  }

  predicate SameSession(previous: Origin, current: Origin) {
    && previous.workstream == current.workstream && previous.bead == current.bead
    && previous.sessionKey == current.sessionKey && previous.repoAlias == current.repoAlias
  }

  function Groom(r: Request, intent: Intent, resolved: Resolved, source: string, origin: Origin): Result<Request> {
    if
      || (r.phase != AskPinned && r.phase != Sufficient) || r.groomRevisions >= 2
      || !SameSession(r.origin, origin) || origin.generation < r.origin.generation
      || !SourceSyntax(source) || r.approvalId.None?
    then Refused("groom-held")
    else
      var envelope := Envelope(intent, origin, resolved, r.approvalId.value, r.requestRevision + 1, r.config);
      var identity := DenialKey(envelope);
      if identity in r.priorDenials then Refused("same-session-denied-intent")
      else
        Ok(r.(version := r.version + 1, phase := BlockerPending, origin := origin, intent := intent, resolved :=
           resolved,
           requestedSource := source, denialIdentity := Some(identity), envelope := Some(envelope),
           requestRevision := r.requestRevision + 1, groomRevisions := r.groomRevisions + 1,
           askBytes := None, contextDigest := None, policyRevision := None, sufficiencySource := None))
  }

  datatype AllocationRecovery = AllocationRecovery(
    key: CreationKey, origin: Origin, canonicalId: string, associatedIds: set<string>, closedOrphans: set<string>,
    expectedVersion: nat, evidenceDigest: string, operatorEvent: string,
    authenticatedCurrent: bool, exactRepairScope: bool, nativeReadback: bool,
    clockDiscontinuity: bool, observedNow: Option<Clock>)

  datatype AbandonmentRecovery = AbandonmentRecovery(
    key: CreationKey, origin: Origin, expectedVersion: nat, shellIds: set<string>, evidence: string,
    operatorEvent: string,
    authenticatedCurrent: bool, exactRepairScope: bool, nativeReadback: bool,
    clockDiscontinuity: bool, observedNow: Option<Clock>)

  datatype CancellationRecovery = CancellationRecovery(
    key: CreationKey, origin: Origin, expectedVersion: nat, shellIds: set<string>, evidence: string,
    operatorEvent: string,
    authenticatedCurrent: bool, exactRepairScope: bool, nativeWithdrawalReadback: bool, cleanupProven: bool)

  function RecoverAllocation(r: Request, o: AllocationRecovery): Result<Request> {
    var ids := o.associatedIds;
    if
      || r.phase != AllocationUnknown || (r.allocationLookups != 3 && !o.clockDiscontinuity)
      || o.key != r.key || o.origin != r.origin || o.expectedVersion != r.version
      || !o.authenticatedCurrent || !o.exactRepairScope || !o.nativeReadback
      || !DigestSyntax(o.evidenceDigest) || !SafeLabel(o.operatorEvent)
      || !(1 <= |ids| <= 8) || (exists i :: i in ids && !BeadId(i))
      || o.canonicalId !in ids || !(r.shellIds <= ids) || o.closedOrphans != ids - {o.canonicalId}
    then Refused("allocation-repair-not-bound")
    else
      var envelope := AssembleEnvelope(r, o.canonicalId);
      Ok(r.(version := r.version + 1, phase := Allocated, approvalId := Some(o.canonicalId), envelope := Some(envelope),
         denialIdentity := Some(DenialKey(envelope)), shellIds := ids,
         recoveryOperatorEvent := Some(o.operatorEvent), recoveryEvidence := Some(o.evidenceDigest),
         recoveryClosedOrphans := o.closedOrphans))
  }

  /** The journal's `outstanding` column: a request holds its terminal reserve until it is terminal and clean. */
  predicate Outstanding(r: Request) {
    !Terminal(r.phase) || !r.cleanupConfirmed
  }
}
