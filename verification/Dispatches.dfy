/** Dispatch records and their closed reducers (src/heterodyne/actions/dispatch.py). */
module Dispatches {
  import opened Outcomes
  import opened Clocks
  import opened Syntax

  const DISPATCH_WINDOW: int := 60 * SECOND
  const PREPARATION_WINDOW: int := 30 * SECOND
  const CLAIM_WINDOW: int := 5 * SECOND
  const MAX_LAUNCHES: nat := 3
  const MAX_LOOKUPS: nat := 3

  datatype DispatchState = Preparing | Ready | Held | Executing | Uncertain | Succeeded | Failed
  datatype DispatchKind = Initial | Reconcile
  datatype Effect = EffectSucceeded | EffectAbsent | EffectUnknown

  datatype Dispatch = Dispatch(
    approvalId: string,
    revision: int,
    digest: string,
    target: string,
    attemptId: string,
    resource: string,
    startupHash: string,
    started: Clock,
    deadline: int,
    preparationDeadline: int,
    state: DispatchState,
    version: nat,
    claimHash: Option<string>,
    claimDeadline: Option<int>,
    claimConsumed: bool,
    launchAttempts: nat,
    retiredStartups: seq<string>,
    retiredNonces: seq<string>,
    reconciliationLookups: nat,
    evidence: Option<string>,
    cleanupProven: bool,
    settled: bool,
    recoveryOperatorEvent: Option<string>,
    kind: DispatchKind,
    parentAttemptId: Option<string>,
    reconciliationAttempts: seq<string>,
    reconciliationEffect: Option<Effect>,
    reconciliationCleanupProven: bool)

  function Within(d: Dispatch, now: Clock): Result<int> {
    var elapsed :- ClockElapsed(d.started, now);
    if now.mono >= d.deadline then Refused("dispatch-clock-or-deadline") else Ok(elapsed)
  }

  /** The wait before the 1st, 2nd and 3rd read-only lookup. */
  function Backoff(n: nat): int
    requires n < 3
  {
    [1, 5, 30][n]
  }

  function Prepare(approvalId: string, revision: int, digest: string, target: string, attemptId: string,
                   resource: string, startupHash: string, now: Clock): Result<Dispatch>
  {
    if !ValidClock(now) then Refused("invalid-clock")
    else if
      || !BeadId(approvalId)
      || !(1 <= revision < 0x8000_0000)
      || !DigestSyntax(digest) || !DigestSyntax(target) || !DigestSyntax(startupHash)
      || !IdentityText(attemptId, 128)
      || !IdentityText(resource, 256)
    then Refused("dispatch-preparation-binding")
    else
      Ok(Dispatch(approvalId, revision, digest, target, attemptId, resource, startupHash, now,
                  now.mono + DISPATCH_WINDOW, now.mono + PREPARATION_WINDOW,
                  Preparing, 0, None, None, false, 1, [], [], 0, None, false, false, None,
                  Initial, None, [], None, false))
  }

  function MakeReady(
    d: Dispatch, claimHash: string, now: Clock, freshGates: bool, startupReadback: bool): Result<Dispatch> {
    var _ :- Within(d, now);
    if
      || d.kind != Initial || d.state != Preparing || d.claimConsumed || !freshGates || !startupReadback
      || !DigestSyntax(claimHash)
      || claimHash == d.startupHash || claimHash in d.retiredNonces || claimHash in d.retiredStartups
      || now.mono >= d.preparationDeadline
    then Refused("dispatch-not-ready")
    else Ok(d.(version := d.version + 1, state := Ready, claimHash := Some(claimHash),
            claimDeadline := Some(Min(now.mono + CLAIM_WINDOW, d.deadline))))
  }

  function RestartPreparation(d: Dispatch, startupHash: string, now: Clock): Result<Dispatch> {
    var _ :- Within(d, now);
    if
      || d.kind != Initial || d.state != Held || d.claimConsumed || d.launchAttempts >= MAX_LAUNCHES
      || !DigestSyntax(startupHash)
      || startupHash == d.startupHash || startupHash in d.retiredStartups || startupHash in d.retiredNonces
    then Refused("preparation-retry-refused")
    else Ok(d.(version := d.version + 1, state := Preparing, startupHash := startupHash,
            retiredStartups := d.retiredStartups + [d.startupHash],
            preparationDeadline := Min(now.mono + PREPARATION_WINDOW, d.deadline),
            launchAttempts := d.launchAttempts + 1))
  }

  function PreparationFailed(d: Dispatch, launcherExited: bool, noChildren: bool): Result<Dispatch> {
    if d.state != Preparing || !launcherExited || !noChildren || d.claimConsumed
    then Refused("preparation-cleanup-unproved")
    else Ok(d.(version := d.version + 1, state := Held, cleanupProven := true))
  }

  function ConsumeClaim(d: Dispatch, claimHash: string, now: Clock, freshGates: bool): Result<Dispatch> {
    var _ :- Within(d, now);
    if
      || d.kind != Initial || d.state != Ready || d.claimConsumed || !freshGates
      || Some(claimHash) != d.claimHash
      || claimHash in d.retiredNonces
      || d.claimDeadline.None? || now.mono >= d.claimDeadline.value
    then Refused("claim-refused")
    else Ok(d.(version := d.version + 1, state := Executing, claimConsumed := true))
  }

  function RetireUnconsumed(d: Dispatch, claimHash: string, launcherExited: bool, noChildren: bool): Result<Dispatch> {
    if d.state != Ready || d.claimConsumed || Some(claimHash) != d.claimHash || !launcherExited || !noChildren
    then Refused("claim-retirement-unproved")
    else Ok(d.(version := d.version + 1, state := Held, claimHash := None, claimDeadline := None,
            retiredNonces := d.retiredNonces + [claimHash]))
  }

  function MarkUncertain(d: Dispatch): Result<Dispatch> {
    if d.state == Uncertain && !d.settled then Ok(d)
    else if d.settled || (d.state != Ready && d.state != Executing && d.state != Uncertain)
    then Refused("settled-or-unissued-dispatch-conflict")
    else Ok(d.(version := d.version + 1, state := Uncertain))
  }

  function Report(d: Dispatch, attemptId: string, claimHash: string, digest: string, target: string,
                  effect: Effect, evidence: Option<string>, cleanupProven: bool): Result<Dispatch>
  {
    if
      || !d.claimConsumed || d.claimHash != Some(claimHash) || attemptId != d.attemptId
      || digest != d.digest || target != d.target || (evidence.Some? && !DigestSyntax(evidence.value))
    then Refused("dispatch-report-binding")
    else if d.settled then
        if d.state == Succeeded && effect == EffectSucceeded && cleanupProven && evidence == d.evidence then Ok(d)
        else Refused("settled-report-conflict")
      else if d.state != Executing && d.state != Uncertain then Refused("report-outside-execution")
      else if d.evidence.Some? && evidence != d.evidence then Refused("retained-report-evidence-conflict")
      else if effect == EffectSucceeded && evidence.Some? && cleanupProven then
        Ok(d.(version := d.version + 1, state := Succeeded, evidence := evidence, cleanupProven := true, settled :=
           true))
      else if effect == EffectAbsent && evidence.Some? && cleanupProven then
        Ok(d.(version := d.version + 1, state := Failed, evidence := evidence, cleanupProven := true))
      else
        Ok(d.(version := d.version + 1, state := Uncertain, evidence := evidence, cleanupProven := cleanupProven))
  }

  function ReconcileLookup(
    d: Dispatch, elapsed: int, effect: Effect, cleanupProven: bool, evidence: Option<string>): Result<Dispatch> {
    if d.kind != Initial || (d.state != Uncertain && d.state != Failed) || d.settled
       || d.reconciliationLookups >= MAX_LOOKUPS
    then Refused("reconciliation-needs-authenticated-recovery")
    else if elapsed < Backoff(d.reconciliationLookups) then Refused("reconciliation-not-due")
      else
        var proved := cleanupProven && evidence.Some? && DigestSyntax(evidence.value);
        var counted := d.(version := d.version + 1, reconciliationLookups := d.reconciliationLookups + 1);
        if effect == EffectSucceeded && !d.claimConsumed then Ok(counted)
        else if d.state == Failed && effect == EffectSucceeded then
          Refused("reconciliation-outcome-conflict-needs-authenticated-recovery")
        else if effect == EffectSucceeded && proved then
          Ok(counted.(state := Succeeded, settled := true, evidence := evidence, cleanupProven := true))
        else if d.state == Failed then Ok(counted)
        else Ok(counted.(state := if effect == EffectAbsent && proved then Failed else Uncertain,
                cleanupProven := cleanupProven, evidence := evidence))
  }

  datatype ReconciliationDisposition = ReconciliationDisposition(
    attemptId: string, version: nat, effect: Option<Effect>, evidence: Option<string>,
    cleanupProven: bool, settled: bool, applied: bool)

  function Disposition(parent: Dispatch, child: Dispatch): ReconciliationDisposition {
    ReconciliationDisposition(child.attemptId, child.version, child.reconciliationEffect, child.evidence,
                              child.cleanupProven, child.settled, child.attemptId in parent.reconciliationAttempts)
  }

  datatype DispatchRecovery = DispatchRecovery(
    approvalId: string, revision: int, digest: string, target: string, attemptId: string, expectedVersion: nat,
    evidence: string, operatorEvent: string,
    authenticatedCurrent: bool, exactRepairScope: bool, nativeReadback: bool,
    effectDefinitivelyAbsent: bool, cleanupProven: bool, effectAttestedSucceeded: bool,
    clockDiscontinuity: bool, observedNow: Option<Clock>, clockAnchor: Option<Clock>,
    completedReconciliationAttempts: seq<string>,
    observedReconciliations: seq<ReconciliationDisposition>)

  function AttemptIds(facts: seq<ReconciliationDisposition>): seq<string> {
    seq(|facts|, i requires 0 <= i < |facts| => facts[i].attemptId)
  }

  predicate FactsBound(d: Dispatch, facts: seq<ReconciliationDisposition>) {
    && d.kind == Initial
    && 1 <= |facts| <= 3
    && (forall i, j :: 0 <= i < j < |facts| ==> facts[i].attemptId != facts[j].attemptId)
    && (forall f :: f in facts ==> f.settled && f.cleanupProven)
  }

  /** The three ways an operator may settle before the three lookups are used up. */
  predicate RecoveryGround(d: Dispatch, o: DispatchRecovery) {
    var facts := o.observedReconciliations;
    var bound := FactsBound(d, facts);
    || (bound && |facts| == 3 && multiset(AttemptIds(facts)) == multiset(o.completedReconciliationAttempts))
    || (bound && exists f :: f in facts && !f.applied && f.effect == Some(EffectSucceeded)
                             && (d.state == Failed || !d.claimConsumed))
    || (o.clockDiscontinuity && o.observedNow.Some?
        && !Continuous(if o.clockAnchor.Some? then o.clockAnchor.value else d.started, o.observedNow.value))
  }

  function SettleDispatch(d: Dispatch, o: DispatchRecovery): Result<Dispatch> {
    if o.clockDiscontinuity && o.observedNow.Some? && !ValidClock(o.observedNow.value) then Refused("invalid-clock")
    else if
      || (d.state != Held && d.state != Uncertain && d.state != Failed)
      || d.settled
      || ((d.claimConsumed || d.state != Held) && d.reconciliationLookups != 3 && !RecoveryGround(d, o))
      || o.approvalId != d.approvalId || o.revision != d.revision || o.digest != d.digest || o.target != d.target
      || o.attemptId != d.attemptId || o.expectedVersion != d.version
      || !o.authenticatedCurrent || !o.exactRepairScope || !o.nativeReadback || !o.cleanupProven
      || o.effectDefinitivelyAbsent == o.effectAttestedSucceeded
      || (o.effectDefinitivelyAbsent && exists f :: f in o.observedReconciliations && f.effect == Some(EffectSucceeded))
      || (o.effectAttestedSucceeded && !d.claimConsumed)
      || !DigestSyntax(o.evidence) || !SafeLabel(o.operatorEvent)
    then Refused("dispatch-recovery-not-bound")
    else Ok(d.(version := d.version + 1, state := if o.effectAttestedSucceeded then Succeeded else Failed,
            settled := true, cleanupProven := true, evidence := Some(o.evidence),
            recoveryOperatorEvent := Some(o.operatorEvent)))
  }

  function FinishReconciliation(
    d: Dispatch, evidence: string, cleanupProven: bool, effect: Effect, effectCleanupProven: bool): Result<Dispatch> {
    if
      || d.kind != Reconcile || d.state != Preparing || d.settled || d.claimConsumed || d.claimHash.Some?
      || !cleanupProven || !DigestSyntax(evidence)
    then Refused("reconcile-cleanup-unproved")
    else Ok(d.(version := d.version + 1, state := Failed, settled := true, cleanupProven := true,
            evidence := Some(evidence), reconciliationEffect := Some(effect),
            reconciliationCleanupProven := effectCleanupProven))
  }

  /** dict.fromkeys: first occurrences, in order. */
  function Distinct(s: seq<string>): seq<string> {
    if s == [] then []
    else
      var front := Distinct(s[..|s| - 1]);
      if s[|s| - 1] in front then front else front + [s[|s| - 1]]
  }

  function PrepareReconciliation(d: Dispatch, attemptId: string, startupHash: string, now: Clock): Result<Dispatch> {
    if
      || d.kind != Initial || d.settled || (d.state != Uncertain && d.state != Failed)
      || attemptId == d.attemptId
      || startupHash == d.startupHash || Some(startupHash) == d.claimHash
      || startupHash in d.retiredStartups || startupHash in d.retiredNonces
    then Refused("reconcile-invocation-not-bound")
    else
      var result :- Prepare(d.approvalId, d.revision, d.digest, d.target, attemptId, d.resource, startupHash, now);
      Ok(result.(kind := Reconcile, parentAttemptId := Some(d.attemptId),
         retiredStartups := Distinct(d.retiredStartups + [d.startupHash]),
         retiredNonces := Distinct(d.retiredNonces + OptionSeq(d.claimHash))))
  }

  function OptionSeq<T>(o: Option<T>): seq<T> {
    if o.Some? then [o.value] else []
  }

  /** Every startup and claim nonce a dispatch has ever presented. */
  function Nonces(d: Dispatch): seq<string> {
    d.retiredStartups + [d.startupHash] + d.retiredNonces + OptionSeq(d.claimHash)
  }

  /** What every dispatch the reducers can build satisfies. */
  ghost predicate WellFormed(d: Dispatch) {
    && d.deadline == d.started.mono + DISPATCH_WINDOW
    && (d.claimConsumed ==> d.kind == Initial && d.state !in {Preparing, Ready, Held} && d.claimHash.Some?)
    && (d.state in {Preparing, Held} ==> d.claimHash.None?)
    && (d.state == Ready ==> d.claimHash.Some? && d.claimDeadline.Some? && d.claimDeadline.value <= d.deadline)
    && (d.state in {Executing, Succeeded} ==> d.claimConsumed)
    && (d.settled ==> d.state in {Succeeded, Failed} && d.cleanupProven)
    && (d.state == Succeeded ==> d.settled)
    && 1 <= d.launchAttempts <= MAX_LAUNCHES
    && |d.reconciliationAttempts| == d.reconciliationLookups <= MAX_LOOKUPS
    && NoDuplicates(d.reconciliationAttempts)
    && (d.kind == Initial ==>
          && d.parentAttemptId.None?
          && |d.retiredStartups| == d.launchAttempts - 1
          && NoDuplicates(Nonces(d)))
    && (d.kind == Reconcile ==>
          && d.launchAttempts == 1 && d.claimHash.None? && d.reconciliationLookups == 0
          && d.state in {Preparing, Held, Failed} && d.parentAttemptId.Some?
          && (d.state == Failed ==> d.settled))
  }

  /** The identity a dispatch keeps for life. */
  ghost predicate SameDispatch(d: Dispatch, e: Dispatch) {
    && e.approvalId == d.approvalId && e.revision == d.revision && e.digest == d.digest
    && e.target == d.target && e.attemptId == d.attemptId && e.resource == d.resource
    && e.started == d.started && e.deadline == d.deadline && e.kind == d.kind && e.parentAttemptId == d.parentAttemptId
  }

  /** What one admitted step, taken at clock `now`, does to a dispatch. */
  ghost predicate Evolves(d: Dispatch, e: Dispatch, now: Clock) {
    && SameDispatch(d, e)
    && e.version == d.version + 1
    && !d.settled
    && (d.claimConsumed ==> e.claimConsumed && e.claimHash == d.claimHash)
    && (e.claimConsumed && !d.claimConsumed ==>
          && d.state == Ready && d.claimDeadline.Some? && e.state == Executing && e.claimHash == d.claimHash
          && Continuous(d.started, now) && now.mono < d.deadline && now.mono < d.claimDeadline.value)
    && (e.state == Ready ==> e.claimDeadline == Some(Min(now.mono + CLAIM_WINDOW, d.deadline)))
    && (d.state in {Uncertain, Failed} ==> e.state in {Uncertain, Failed, Succeeded})
    && (d.state in {Executing, Uncertain, Failed} || d.kind == Reconcile ==> Nonces(e) == Nonces(d))
    && (d.kind == Reconcile ==> e.startupHash == d.startupHash)
    && (forall n :: n in Nonces(d) ==> n in Nonces(e))
    && d.reconciliationLookups <= e.reconciliationLookups <= d.reconciliationLookups + 1
  }
}
