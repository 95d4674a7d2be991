/**
  * The approved outage packet and the journal that walks its four steps (actions/deployment_outage.py,
  * deployment_outage_journal.py).
  */
module OutageModel {
  import opened Outcomes
  import opened Syntax

  /** Records are compared through their digests, and a digest names one record; so records stand for their digests. */
  datatype Release = Release(
    executionId: string, approvalId: string, nonce: string, targetId: string, notBefore: int, deadline: int,
    recoveryDeadline: int,
    routeId: string, heldRestore: bool)

  datatype StepName = DisableStop | StoppedGuard | Install | HeldAcceptance
  datatype Transition = Transition(step: StepName, before: string, after: string)
  datatype Capsule = Capsule(
    release: Release, executionId: string, nonce: string, notBefore: int, deadline: int, recoveryDeadline: int,
    transitions: seq<Transition>,
    routeId: string, routeEpoch: string)
  datatype Packet = Packet(release: Release, outage: Capsule, sources: seq<string>)

  datatype Recovery = Cancel | SafeStop | HeldRestore
  datatype Command = Command(
    packet: Packet, executionId: string, routeEpoch: string, nonce: string, operation: Recovery, expected: string,
    notBefore: int, deadline: int)

  const Steps := [DisableStop, StoppedGuard, Install, HeldAcceptance]

  // ---- validation ----

  predicate Named(ts: seq<Transition>) {
    |ts| == |Steps| && forall i :: 0 <= i < |ts| ==> ts[i].step == Steps[i]
  }

  /** Each step changes the state, and starts from what the step before it left. */
  predicate ConnectedAt(ts: seq<Transition>, i: nat)
    requires i < |ts|
  {
    && DigestSyntax(ts[i].before) && DigestSyntax(ts[i].after) && ts[i].before != ts[i].after
    && (i > 0 ==> ts[i - 1].after == ts[i].before)
  }

  predicate Connected(ts: seq<Transition>) {
    forall i :: 0 <= i < |ts| ==> ConnectedAt(ts, i)
  }

  predicate BoundToRelease(p: Packet) {
    var r, c := p.release, p.outage;
    && c.release == r && c.executionId == r.executionId && c.nonce == r.nonce && c.routeId == r.routeId
    && Named(c.transitions)
    && r.notBefore <= c.notBefore < c.deadline <= r.deadline && c.recoveryDeadline == r.recoveryDeadline
  }

  predicate Hashes(p: Packet) {
    DigestSyntax(p.outage.routeEpoch) && forall i :: 0 <= i < |p.sources| ==> DigestSyntax(p.sources[i])
  }

  ghost predicate PacketSound(p: Packet) {
    BoundToRelease(p) && Hashes(p) && Connected(p.outage.transitions)
  }

  /** `validate_packet`; `releaseHolds` is the answer of the release's own validation against the targets. */
  method ValidatePacket(p: Packet, releaseHolds: bool) returns (c: Check)
    ensures c.Pass? <==> releaseHolds && PacketSound(p)
  {
    if !releaseHolds {
      return Fail("release");
    }
    if !BoundToRelease(p) {
      return Fail("outage-release-binding");
    }
    if !Hashes(p) {
      return Fail("outage-digest");
    }
    var ts, i := p.outage.transitions, 0;
    while i < |ts|
      invariant 0 <= i <= |ts| && forall j :: 0 <= j < i ==> ConnectedAt(ts, j)
    {
      if !(DigestSyntax(ts[i].before) && DigestSyntax(ts[i].after)) {
        assert !ConnectedAt(ts, i);
        return Fail("outage-digest");
      }
      if ts[i].before == ts[i].after {
        assert !ConnectedAt(ts, i);
        return Fail("outage-transition-no-change");
      }
      if i > 0 && ts[i - 1].after != ts[i].before {
        assert !ConnectedAt(ts, i);
        return Fail("outage-transition-disconnected");
      }
      i := i + 1;
    }
    c := Pass;
  }

  /** ASCII letters and digits only, at most 128 of them. */
  predicate NonceShape(s: string) {
    1 <= |s| <= 128 && forall i :: 0 <= i < |s| ==> '0' <= s[i] <= '9' || 'a' <= s[i] <= 'z' || 'A' <= s[i] <= 'Z'
  }

  ghost predicate CommandSound(c: Command, p: Packet, releaseHolds: bool) {
    releaseHolds && PacketSound(p) && DigestSyntax(c.routeEpoch) && DigestSyntax(c.expected) && CommandBound(c, p)
  }

  predicate CommandBound(c: Command, p: Packet) {
    && c.packet == p && c.executionId == p.release.executionId && c.routeEpoch == p.outage.routeEpoch
    && NonceShape(c.nonce)
    && p.outage.notBefore <= c.notBefore < c.deadline <= p.outage.recoveryDeadline
    && (c.operation.HeldRestore? ==> p.release.heldRestore)
  }

  // ---- the tables ----

  datatype Phase = Ready | Uncertain | RecoveryHold | Succeeded | FailedNoEffect
  datatype Job = Job(approval: string, nonce: string, target: string, packet: Packet, ordinal: nat, phase: Phase)
  datatype Mark = Issued | Completed | NoEffect
  datatype EventKey = EventKey(execution: string, ordinal: nat, mark: Mark)
  datatype RecoveryRow = RecoveryRow(execution: string, command: Command)

  datatype Tables = Tables(jobs: map<string, Job>, events: map<EventKey, string>, recovery: map<string, RecoveryRow>)

  predicate Terminal(phase: Phase) {
    phase.Succeeded? || phase.FailedNoEffect?
  }

  function NewJob(p: Packet): Job {
    Job(p.release.approvalId, p.release.nonce, p.release.targetId, p, 0, Ready)
  }

  /** The unique columns and the partial index over the targets of non-terminal jobs. */
  predicate Clashes(a: Job, b: Job) {
    a.approval == b.approval || a.nonce == b.nonce || (a.target == b.target && !Terminal(a.phase) && !Terminal(b.phase))
  }

  predicate Insertable(jobs: map<string, Job>, job: Job) {
    forall x :: x in jobs ==> !Clashes(jobs[x], job)
  }

  predicate Window(low: int, now: int, high: int) {
    low <= now < high
  }

  // ---- the operations; each is one transaction ----

  /** `record_capsule`: a repeat of the same packet is accepted as it is. */
  ghost function RecordCapsule(t: Tables, p: Packet, releaseHolds: bool, now: int): Result<Tables> {
    if !(releaseHolds && PacketSound(p)) then Refused("packet") else
    :- Need(Window(p.outage.notBefore, now, p.outage.deadline), "outage-forward-window");
    var x := p.release.executionId;
    if x in t.jobs then
      :- Need(t.jobs[x].packet == p, "outage-unknown-or-payload-drift");
      Ok(t)
    else
      :- Need(Insertable(t.jobs, NewJob(p)), "outage-one-use-or-target-conflict");
      Ok(t.(jobs := t.jobs[x := NewJob(p)]))
  }

  /** `_row`: the job of this very packet. */
  predicate Known(t: Tables, p: Packet) {
    p.release.executionId in t.jobs && t.jobs[p.release.executionId].packet == p
  }

  function IssueCheck(t: Tables, p: Packet, now: int, observed: string): Check {
    var x := p.release.executionId;
    if !Known(t, p) then Fail("outage-unknown-or-payload-drift")
    else if !(t.jobs[x].phase.Ready? && t.jobs[x].ordinal < |Steps|) then Fail("outage-forward-hold")
    else if !Window(p.outage.notBefore, now, p.outage.deadline) then Fail("outage-forward-window")
    else if !(t.jobs[x].ordinal < |p.outage.transitions|
              && observed == p.outage.transitions[t.jobs[x].ordinal].before) then Fail("outage-unexpected-before")
    else if EventKey(x, t.jobs[x].ordinal, Issued) in t.events then Fail("outage-one-use-or-target-conflict")
    else Pass
  }

  /** `issue`: the intent is durable before the step is handed out. */
  ghost function Issue(t: Tables, p: Packet, releaseHolds: bool, now: int, observed: string): Result<Tables> {
    if !(releaseHolds && PacketSound(p)) then Refused("packet") else
    :- IssueCheck(t, p, now, observed);
    var x := p.release.executionId;
    var job := t.jobs[x];
    Ok(t.(events := t.events[EventKey(x, job.ordinal, Issued) := observed], jobs :=
       t.jobs[x := job.(phase := Uncertain)]))
  }

  function CompleteCheck(t: Tables, p: Packet, observed: string): Check {
    var x := p.release.executionId;
    if !Known(t, p) then Fail("outage-unknown-or-payload-drift")
    else
      var job := t.jobs[x];
      if !((job.phase.Uncertain? || job.phase.RecoveryHold?) && EventKey(x, job.ordinal, Issued) in t.events
           && job.ordinal < |Steps|
           && job.ordinal < |p.outage.transitions|
           && observed == p.outage.transitions[job.ordinal].after) then Fail("outage-reconciliation-hold")
      else if EventKey(x, job.ordinal, Completed) in t.events then Fail("outage-one-use-or-target-conflict")
      else Pass
  }

  function Advanced(job: Job): Job {
    job.(ordinal := job.ordinal + 1,
    phase := if job.phase.RecoveryHold? then RecoveryHold else if job.ordinal + 1 == |Steps| then Succeeded else Ready)
  }

  /** `complete`: the observed state is the step's outcome; a recovery hold is not lifted by it. */
  ghost function Complete(t: Tables, p: Packet, releaseHolds: bool, observed: string): Result<Tables> {
    if !(releaseHolds && PacketSound(p)) then Refused("packet") else
    :- CompleteCheck(t, p, observed);
    var x := p.release.executionId;
    var job := t.jobs[x];
    Ok(t.(events := t.events[EventKey(x, job.ordinal, Completed) := observed], jobs := t.jobs[x := Advanced(job)]))
  }

  function RecoveryCheck(t: Tables, p: Packet, c: Command, now: int, observed: string): Check {
    var x := p.release.executionId;
    if !Window(c.notBefore, now, c.deadline) then Fail("outage-recovery-window")
    else if c.expected != observed then Fail("outage-recovery-observation")
    else if !Known(t, p) then Fail("outage-unknown-or-payload-drift")
    else if Terminal(t.jobs[x].phase) then Fail("outage-recovery-terminal")
    else if c.nonce in t.recovery then Fail("outage-one-use-or-target-conflict")
    else Pass
  }

  ghost function RequestRecovery(
    t: Tables, p: Packet, releaseHolds: bool, c: Command, now: int, observed: string): Result<Tables> {
    if !CommandSound(c, p, releaseHolds) then Refused("independent-recovery-binding") else
    :- RecoveryCheck(t, p, c, now, observed);
    var x := p.release.executionId;
    Ok(t.(recovery := t.recovery[c.nonce := RecoveryRow(x, c)], jobs := t.jobs[x := t.jobs[x].(phase := RecoveryHold)]))
  }

  predicate EverIssued(events: map<EventKey, string>, x: string) {
    exists k :: k in events && k.execution == x && k.mark.Issued?
  }

  predicate CancelOnly(recovery: map<string, RecoveryRow>, x: string) {
    forall n :: n in recovery && recovery[n].execution == x ==> recovery[n].command.operation.Cancel?
  }

  function NeverIssuedCheck(t: Tables, p: Packet): Check {
    var x := p.release.executionId;
    if !Known(t, p) then Fail("outage-unknown-or-payload-drift")
    else
      var job := t.jobs[x];
      if !(job.ordinal == 0 && (job.phase.Ready? || job.phase.RecoveryHold?) && !EverIssued(t.events, x)) then
        Fail("outage-never-issued-proof-unavailable")
      else if (job.phase.RecoveryHold? && !(exists n :: n in t.recovery && t.recovery[n].execution == x))
              || !CancelOnly(t.recovery, x) then
        Fail("outage-never-issued-cancel-only")
      else if EventKey(x, 0, NoEffect) in t.events then Fail("outage-one-use-or-target-conflict")
      else Pass
  }

  /** `fail_never_issued`: settles a capsule from which no step was ever handed out. */
  ghost function FailNeverIssued(t: Tables, p: Packet, releaseHolds: bool): Result<Tables> {
    if !(releaseHolds && PacketSound(p)) then Refused("packet") else
    :- NeverIssuedCheck(t, p);
    var x := p.release.executionId;
    Ok(t.(events := t.events[EventKey(x, 0, NoEffect) := "failed-no-effect"], jobs :=
       t.jobs[x := t.jobs[x].(phase := FailedNoEffect)]))
  }

  datatype Op =
    | DoRecord(packet: Packet, now: int)
    | DoIssue(packet: Packet, now: int, observed: string)
    | DoComplete(packet: Packet, observed: string)
    | DoRecover(packet: Packet, command: Command, now: int, observed: string)
    | DoFail(packet: Packet)

  ghost function Apply(t: Tables, op: Op, releaseHolds: bool): Result<Tables> {
    match op
    case DoRecord(p, now) => RecordCapsule(t, p, releaseHolds, now)
    case DoIssue(p, now, observed) => Issue(t, p, releaseHolds, now, observed)
    case DoComplete(p, observed) => Complete(t, p, releaseHolds, observed)
    case DoRecover(p, c, now, observed) => RequestRecovery(t, p, releaseHolds, c, now, observed)
    case DoFail(p) => FailNeverIssued(t, p, releaseHolds)
  }
}
