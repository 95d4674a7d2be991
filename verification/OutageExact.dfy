/** When each transaction of the outage journal commits, and what it leaves: of the packet, the rows and the clock. */
module OutageExact {
  import opened Outcomes
  import opened Syntax
  import opened OutageModel

  // ---- the packet ----

  predicate Changes(t: Transition) {
    DigestSyntax(t.before) && DigestSyntax(t.after) && t.before != t.after
  }

  /** The four steps in order, each from the state the one before it leaves. */
  predicate FourSteps(ts: seq<Transition>) {
    && |ts| == 4 && Changes(ts[0]) && Changes(ts[1]) && Changes(ts[2]) && Changes(ts[3])
    && ts[0].step == DisableStop && ts[1].step == StoppedGuard && ts[2].step == Install && ts[3].step == HeldAcceptance
    && ts[0].after == ts[1].before && ts[1].after == ts[2].before && ts[2].after == ts[3].before
  }

  /** The capsule is the release's own, inside its window. */
  predicate Approved(p: Packet) {
    var r, c := p.release, p.outage;
    && c.release == r && c.executionId == r.executionId && c.nonce == r.nonce && c.routeId == r.routeId
    && c.recoveryDeadline == r.recoveryDeadline
    && r.notBefore <= c.notBefore && c.notBefore < c.deadline && c.deadline <= r.deadline
    && DigestSyntax(c.routeEpoch) && (forall s :: s in p.sources ==> DigestSyntax(s))
    && FourSteps(c.transitions)
  }

  lemma StepsExact(ts: seq<Transition>)
    ensures Named(ts) && Connected(ts) <==> FourSteps(ts)
  {
    if FourSteps(ts) {
      forall i | 0 <= i < |ts| ensures ConnectedAt(ts, i) {
        assert i == 0 || i == 1 || i == 2 || i == 3;
      }
    }
    if Named(ts) && Connected(ts) {
      assert ConnectedAt(ts, 0) && ConnectedAt(ts, 1) && ConnectedAt(ts, 2) && ConnectedAt(ts, 3);
    }
  }

  lemma PacketExact(p: Packet)
    ensures PacketSound(p) <==> Approved(p)
  {
    StepsExact(p.outage.transitions);
    assert forall i :: 0 <= i < |p.sources| ==> p.sources[i] in p.sources;
  }

  // ---- the transactions ----

  predicate Running(t: Tables, p: Packet) {
    p.release.executionId in t.jobs && t.jobs[p.release.executionId].packet == p
  }

  /** A new job takes its approval and nonce for good, and its target while it runs. */
  predicate Unclaimed(t: Tables, p: Packet) {
    forall x :: x in t.jobs ==>
                  var job := t.jobs[x];
                  && job.approval != p.release.approvalId && job.nonce != p.release.nonce
                  && (job.target == p.release.targetId ==> job.phase == Succeeded || job.phase == FailedNoEffect)
  }

  predicate Records(t: Tables, p: Packet, now: int, next: Tables) {
    && p.outage.notBefore <= now < p.outage.deadline
    && var x := p.release.executionId;
    if x in t.jobs then t.jobs[x].packet == p && next == t
    else
      && Unclaimed(t, p)
      && next == t.(jobs := t.jobs[x := Job(p.release.approvalId, p.release.nonce, p.release.targetId, p, 0, Ready)])
  }

  lemma RecordExact(t: Tables, p: Packet, releaseHolds: bool, now: int, next: Tables)
    ensures RecordCapsule(t, p, releaseHolds, now) == Ok(next) <==>
            releaseHolds && Approved(p) && Records(t, p, now, next)
  {
    PacketExact(p);
  }

  /** The next step, from exactly the state before it, inside the forward window; the intent is written first. */
  predicate Issues(t: Tables, p: Packet, now: int, observed: string, next: Tables) {
    && Running(t, p)
    && var x := p.release.executionId;
    var job := t.jobs[x];
    && job.phase == Ready && job.ordinal < 4 && p.outage.notBefore <= now < p.outage.deadline
    && job.ordinal < |p.outage.transitions| && observed == p.outage.transitions[job.ordinal].before
    && EventKey(x, job.ordinal, Issued) !in t.events
    && next == t.(events := t.events[EventKey(x, job.ordinal, Issued) := observed],
               jobs := t.jobs[x := job.(phase := Uncertain)])
  }

  lemma IssueExact(t: Tables, p: Packet, releaseHolds: bool, now: int, observed: string, next: Tables)
    ensures Issue(t, p, releaseHolds, now, observed) == Ok(next) <==>
            releaseHolds && Approved(p) && Issues(t, p, now, observed, next)
  {
    PacketExact(p);
  }

  /** The issued step, found in exactly the state after it; the job goes on unless it is held for recovery. */
  predicate Completes(t: Tables, p: Packet, observed: string, next: Tables) {
    && Running(t, p)
    && var x := p.release.executionId;
    var job := t.jobs[x];
    && (job.phase == Uncertain || job.phase == RecoveryHold) && job.ordinal < 4
    && EventKey(x, job.ordinal, Issued) in t.events && EventKey(x, job.ordinal, Completed) !in t.events
    && job.ordinal < |p.outage.transitions| && observed == p.outage.transitions[job.ordinal].after
    && var phase := if job.phase == RecoveryHold then RecoveryHold else if job.ordinal == 3 then Succeeded else Ready;
    next == t.(events := t.events[EventKey(x, job.ordinal, Completed) := observed],
    jobs := t.jobs[x := job.(ordinal := job.ordinal + 1, phase := phase)])
  }

  lemma CompleteExact(t: Tables, p: Packet, releaseHolds: bool, observed: string, next: Tables)
    ensures Complete(t, p, releaseHolds, observed) == Ok(next) <==>
            releaseHolds && Approved(p) && Completes(t, p, observed, next)
  {
    PacketExact(p);
  }

  /** A command of its own nonce for this very packet, inside its own window and the recovery deadline. */
  predicate Commands(p: Packet, c: Command) {
    && c.packet == p && c.executionId == p.release.executionId && c.routeEpoch == p.outage.routeEpoch
    && DigestSyntax(c.routeEpoch) && DigestSyntax(c.expected)
    && 1 <= |c.nonce| <= 128
    && (forall i :: 0 <= i < |c.nonce| ==>
                      '0' <= c.nonce[i] <= '9' || 'a' <= c.nonce[i] <= 'z' || 'A' <= c.nonce[i] <= 'Z')
    && p.outage.notBefore <= c.notBefore && c.notBefore < c.deadline && c.deadline <= p.outage.recoveryDeadline
    && (c.operation == HeldRestore ==> p.release.heldRestore)
  }

  predicate Holds(t: Tables, p: Packet, c: Command, now: int, observed: string, next: Tables) {
    && Running(t, p) && Commands(p, c) && c.notBefore <= now < c.deadline && c.expected == observed
    && c.nonce !in t.recovery
    && var x := p.release.executionId;
    && t.jobs[x].phase != Succeeded && t.jobs[x].phase != FailedNoEffect
    && next == t.(recovery := t.recovery[c.nonce := RecoveryRow(x, c)],
               jobs := t.jobs[x := t.jobs[x].(phase := RecoveryHold)])
  }

  lemma RecoveryExact(
    t: Tables, p: Packet, releaseHolds: bool, c: Command, now: int, observed: string, next: Tables)
    ensures RequestRecovery(t, p, releaseHolds, c, now, observed) == Ok(next) <==>
            releaseHolds && Approved(p) && Holds(t, p, c, now, observed, next)
  {
    PacketExact(p);
  }

  /** Nothing was ever issued, and every recovery asked of it, one at least if it is held, was a cancellation. */
  predicate Abandons(t: Tables, p: Packet, next: Tables) {
    && Running(t, p)
    && var x := p.release.executionId;
    var job := t.jobs[x];
    && job.ordinal == 0 && (job.phase == Ready || job.phase == RecoveryHold)
    && (forall k :: k in t.events && k.execution == x ==> k.mark != Issued)
    && (forall n :: n in t.recovery && t.recovery[n].execution == x ==> t.recovery[n].command.operation == Cancel)
    && (job.phase == RecoveryHold ==> exists n :: n in t.recovery && t.recovery[n].execution == x)
    && EventKey(x, 0, NoEffect) !in t.events
    && next == t.(events := t.events[EventKey(x, 0, NoEffect) := "failed-no-effect"],
               jobs := t.jobs[x := job.(phase := FailedNoEffect)])
  }

  lemma FailExact(t: Tables, p: Packet, releaseHolds: bool, next: Tables)
    ensures FailNeverIssued(t, p, releaseHolds) == Ok(next) <==> releaseHolds && Approved(p) && Abandons(t, p, next)
  {
    PacketExact(p);
  }
}
