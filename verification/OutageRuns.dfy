/** Over every run of the outage journal: steps are issued at most once, in order, along the approved chain. */
module OutageRuns {
  import opened Outcomes
  import opened OutageModel

  // ---- the invariant ----

  predicate Has(events: map<EventKey, string>, x: string, n: nat, mark: Mark) {
    EventKey(x, n, mark) in events
  }

  ghost predicate OwnPacket(x: string, job: Job) {
    && PacketSound(job.packet) && job.packet.release.executionId == x
    && job.approval == job.packet.release.approvalId && job.nonce == job.packet.release.nonce
    && job.target == job.packet.release.targetId
  }

  /** Completed steps are those below the ordinal; issued ones are those and possibly the one at it. */
  ghost predicate InOrder(events: map<EventKey, string>, x: string, ordinal: nat) {
    && ordinal <= |Steps|
    && (forall n: nat :: Has(events, x, n, Completed) <==> n < ordinal)
    && (forall n: nat :: n < ordinal ==> Has(events, x, n, Issued))
    && (forall n: nat :: Has(events, x, n, Issued) ==> n <= ordinal && n < |Steps|)
  }

  /** What was observed is what the packet approved. */
  ghost predicate AsApproved(events: map<EventKey, string>, x: string, ts: seq<Transition>) {
    && (forall n: nat :: Has(events, x, n, Issued) && n < |ts| ==> events[EventKey(x, n, Issued)] == ts[n].before)
    && (forall n: nat :: Has(events, x, n, Completed) && n < |ts| ==> events[EventKey(x, n, Completed)] == ts[n].after)
  }

  ghost predicate PhaseSound(events: map<EventKey, string>, x: string, job: Job) {
    match job.phase
    case Ready => job.ordinal < |Steps| && !Has(events, x, job.ordinal, Issued)
    case Uncertain => job.ordinal < |Steps| && Has(events, x, job.ordinal, Issued)
    case RecoveryHold => true
    case Succeeded => job.ordinal == |Steps|
    case FailedNoEffect => !EverIssued(events, x)
  }

  ghost predicate JobSound(events: map<EventKey, string>, x: string, job: Job) {
    OwnPacket(x, job) && InOrder(events, x, job.ordinal) && AsApproved(events, x, job.packet.outage.transitions)
    && PhaseSound(events, x, job)
  }

  ghost predicate RecoverySound(jobs: map<string, Job>, recovery: map<string, RecoveryRow>) {
    forall n :: n in recovery ==> Held(jobs, recovery[n].execution)
  }

  /** A recovery request stops the job for good. */
  predicate Held(jobs: map<string, Job>, x: string) {
    x in jobs && (jobs[x].phase.RecoveryHold? || jobs[x].phase.FailedNoEffect?)
  }

  ghost predicate Exclusive(jobs: map<string, Job>) {
    forall x, y :: x in jobs && y in jobs && x != y ==> !Clashes(jobs[x], jobs[y])
  }

  ghost predicate Owned(jobs: map<string, Job>, events: map<EventKey, string>) {
    forall k :: k in events ==> k.execution in jobs
  }

  ghost predicate AllSound(jobs: map<string, Job>, events: map<EventKey, string>) {
    forall x :: x in jobs ==> JobSound(events, x, jobs[x])
  }

  ghost predicate Inv(t: Tables) {
    && AllSound(t.jobs, t.events)
    && RecoverySound(t.jobs, t.recovery) && Exclusive(t.jobs) && Owned(t.jobs, t.events)
  }

  /** What a step may change: events and requests are only added, jobs keep their packet and only move forward. */
  ghost predicate Advances(t: Tables, next: Tables) {
    KeepsAll(t.events, next.events) && KeepsAll(t.recovery, next.recovery) && JobsAdvance(t.jobs, next.jobs)
  }

  ghost predicate KeepsAll<K, V>(a: map<K, V>, b: map<K, V>) {
    forall k :: k in a ==> k in b && b[k] == a[k]
  }

  ghost predicate JobsAdvance(a: map<string, Job>, b: map<string, Job>) {
    forall x :: x in a ==> x in b && JobAdvances(a[x], b[x])
  }

  predicate JobAdvances(a: Job, b: Job) {
    && b.packet == a.packet && a.ordinal <= b.ordinal && b.target == a.target
    && (Terminal(a.phase) ==> b == a)
    && (a.phase.RecoveryHold? ==> b.phase.RecoveryHold? || b.phase.FailedNoEffect?)
  }

  // ---- one job changes ----

  /** Events of one job do not concern another. */
  lemma OtherJob(events: map<EventKey, string>, k: EventKey, v: string, x: string, job: Job)
    requires JobSound(events, x, job) && k.execution != x
    ensures JobSound(events[k := v], x, job)
  {
    var after := events[k := v];
    assert forall n: nat, m :: Has(after, x, n, m) <==> Has(events, x, n, m);
  }

  lemma IssuedJob(events: map<EventKey, string>, x: string, job: Job, observed: string)
    requires JobSound(events, x, job) && job.phase.Ready?
    requires observed == job.packet.outage.transitions[job.ordinal].before
    ensures JobSound(events[EventKey(x, job.ordinal, Issued) := observed], x, job.(phase := Uncertain))
  {
    var after := events[EventKey(x, job.ordinal, Issued) := observed];
    assert forall n: nat :: Has(after, x, n, Completed) <==> Has(events, x, n, Completed);
    assert forall n: nat :: Has(after, x, n, Issued) <==> Has(events, x, n, Issued) || n == job.ordinal;
  }

  lemma CompletedJob(events: map<EventKey, string>, x: string, job: Job, observed: string)
    requires JobSound(events, x, job) && (job.phase.Uncertain? || job.phase.RecoveryHold?)
    requires job.ordinal < |Steps| && Has(events, x, job.ordinal, Issued)
    requires observed == job.packet.outage.transitions[job.ordinal].after
    ensures JobSound(events[EventKey(x, job.ordinal, Completed) := observed], x, Advanced(job))
  {
    var after := events[EventKey(x, job.ordinal, Completed) := observed];
    assert forall n: nat :: Has(after, x, n, Issued) <==> Has(events, x, n, Issued);
    assert forall n: nat :: Has(after, x, n, Completed) <==> Has(events, x, n, Completed) || n == job.ordinal;
  }

  lemma FailedJob(events: map<EventKey, string>, x: string, job: Job, v: string)
    requires JobSound(events, x, job) && !EverIssued(events, x)
    ensures JobSound(events[EventKey(x, 0, NoEffect) := v], x, job.(phase := FailedNoEffect))
  {
    var after := events[EventKey(x, 0, NoEffect) := v];
    assert forall n: nat :: Has(after, x, n, Issued) <==> Has(events, x, n, Issued);
    assert forall n: nat :: Has(after, x, n, Completed) <==> Has(events, x, n, Completed);
    assert !EverIssued(after, x);
  }

  /** One new event of job `x`. */
  predicate Adds(before: map<EventKey, string>, after: map<EventKey, string>, x: string, k: EventKey, v: string) {
    k.execution == x && k !in before && after == before[k := v]
  }

  lemma JobsSound(t: Tables, x: string, job: Job, events: map<EventKey, string>)
    requires AllSound(t.jobs, t.events) && JobSound(events, x, job)
    requires events == t.events || exists k, v :: Adds(t.events, events, x, k, v)
    ensures AllSound(t.jobs[x := job], events)
  {
    var jobs := t.jobs[x := job];
    forall y | y in jobs ensures JobSound(events, y, jobs[y]) {
      if y != x && events != t.events {
        var k, v :| Adds(t.events, events, x, k, v);
        OtherJob(t.events, k, v, y, t.jobs[y]);
      }
    }
  }

  lemma StillHeld(jobs: map<string, Job>, recovery: map<string, RecoveryRow>, x: string, job: Job)
    requires RecoverySound(jobs, recovery) && (x in jobs ==> JobAdvances(jobs[x], job))
    ensures RecoverySound(jobs[x := job], recovery)
  {
    var after := jobs[x := job];
    forall n | n in recovery ensures Held(after, recovery[n].execution) {
      assert Held(jobs, recovery[n].execution);
    }
  }

  lemma StillExclusive(jobs: map<string, Job>, x: string, job: Job)
    requires Exclusive(jobs) && forall y :: y in jobs && y != x ==> !Clashes(jobs[y], job)
    ensures Exclusive(jobs[x := job])
  {
  }

  /** Replacing one job by an advance of it, with one event of that job or none, keeps everything. */
  lemma JobStep(t: Tables, x: string, job: Job, events: map<EventKey, string>)
    requires Inv(t) && x in t.jobs && JobAdvances(t.jobs[x], job) && JobSound(events, x, job)
    requires job.approval == t.jobs[x].approval && job.nonce == t.jobs[x].nonce
    requires events == t.events || exists k, v :: Adds(t.events, events, x, k, v)
    ensures Inv(t.(jobs := t.jobs[x := job], events := events))
    ensures Advances(t, t.(jobs := t.jobs[x := job], events := events))
  {
    JobsSound(t, x, job, events);
    StillHeld(t.jobs, t.recovery, x, job);
    forall y | y in t.jobs && y != x ensures !Clashes(t.jobs[y], job) {
      assert !Clashes(t.jobs[y], t.jobs[x]);
    }
    StillExclusive(t.jobs, x, job);
    StepAdvances(t, x, job, events);
    assert Owned(t.jobs[x := job], events);
  }

  lemma StepAdvances(t: Tables, x: string, job: Job, events: map<EventKey, string>)
    requires x in t.jobs ==> JobAdvances(t.jobs[x], job)
    requires events == t.events || exists k, v :: Adds(t.events, events, x, k, v)
    ensures Advances(t, t.(jobs := t.jobs[x := job], events := events))
  {
  }

  // ---- each operation ----

  lemma RecordKeeps(t: Tables, p: Packet, releaseHolds: bool, now: int)
    requires Inv(t) && RecordCapsule(t, p, releaseHolds, now).Ok?
    ensures Inv(RecordCapsule(t, p, releaseHolds, now).value)
    ensures Advances(t, RecordCapsule(t, p, releaseHolds, now).value)
  {
    var x := p.release.executionId;
    if x !in t.jobs {
      InsertKeeps(t, p);
    }
  }

  lemma NewJobSound(events: map<EventKey, string>, p: Packet)
    requires PacketSound(p) && forall n: nat, m :: !Has(events, p.release.executionId, n, m)
    ensures JobSound(events, p.release.executionId, NewJob(p))
  {
  }

  lemma InsertKeeps(t: Tables, p: Packet)
    requires Inv(t) && PacketSound(p) && p.release.executionId !in t.jobs && Insertable(t.jobs, NewJob(p))
    ensures var next := t.(jobs := t.jobs[p.release.executionId := NewJob(p)]); Inv(next) && Advances(t, next)
  {
    var x, job := p.release.executionId, NewJob(p);
    NewJobSound(t.events, p);
    JobsSound(t, x, job, t.events);
    StillHeld(t.jobs, t.recovery, x, job);
    StillExclusive(t.jobs, x, job);
    StepAdvances(t, x, job, t.events);
    assert Owned(t.jobs[x := job], t.events);
  }

  lemma IssueKeeps(t: Tables, p: Packet, releaseHolds: bool, now: int, observed: string)
    requires Inv(t) && Issue(t, p, releaseHolds, now, observed).Ok?
    ensures Inv(Issue(t, p, releaseHolds, now, observed).value)
    ensures Advances(t, Issue(t, p, releaseHolds, now, observed).value)
  {
    var x := p.release.executionId;
    var job := t.jobs[x];
    var k := EventKey(x, job.ordinal, Issued);
    IssuedJob(t.events, x, job, observed);
    assert Adds(t.events, t.events[k := observed], x, k, observed);
    JobStep(t, x, job.(phase := Uncertain), t.events[k := observed]);
  }

  lemma CompleteKeeps(t: Tables, p: Packet, releaseHolds: bool, observed: string)
    requires Inv(t) && Complete(t, p, releaseHolds, observed).Ok?
    ensures Inv(Complete(t, p, releaseHolds, observed).value)
    ensures Advances(t, Complete(t, p, releaseHolds, observed).value)
  {
    var x := p.release.executionId;
    var job := t.jobs[x];
    var k := EventKey(x, job.ordinal, Completed);
    CompletedJob(t.events, x, job, observed);
    assert Adds(t.events, t.events[k := observed], x, k, observed);
    JobStep(t, x, Advanced(job), t.events[k := observed]);
    assert Complete(t, p, releaseHolds, observed)
        == Ok(t.(jobs := t.jobs[x := Advanced(job)], events := t.events[k := observed]));
  }

  lemma RequestAdded(t: Tables, n: string, row: RecoveryRow)
    requires Inv(t) && Held(t.jobs, row.execution) && n !in t.recovery
    ensures Inv(t.(recovery := t.recovery[n := row])) && Advances(t, t.(recovery := t.recovery[n := row]))
  {
    assert JobsAdvance(t.jobs, t.jobs);
  }

  lemma RecoverKeeps(t: Tables, p: Packet, releaseHolds: bool, c: Command, now: int, observed: string)
    requires Inv(t) && RequestRecovery(t, p, releaseHolds, c, now, observed).Ok?
    ensures var next := RequestRecovery(t, p, releaseHolds, c, now, observed).value; Inv(next) && Advances(t, next)
  {
    var x := p.release.executionId;
    var job := t.jobs[x].(phase := RecoveryHold);
    assert JobSound(t.events, x, t.jobs[x]);
    JobStep(t, x, job, t.events);
    var mid := t.(jobs := t.jobs[x := job], events := t.events);
    RequestAdded(mid, c.nonce, RecoveryRow(x, c));
    var next := mid.(recovery := mid.recovery[c.nonce := RecoveryRow(x, c)]);
    assert RequestRecovery(t, p, releaseHolds, c, now, observed) == Ok(next);
    AdvancesTrans(t, mid, next);
  }

  lemma FailKeeps(t: Tables, p: Packet, releaseHolds: bool)
    requires Inv(t) && FailNeverIssued(t, p, releaseHolds).Ok?
    ensures Inv(FailNeverIssued(t, p, releaseHolds).value) && Advances(t, FailNeverIssued(t, p, releaseHolds).value)
  {
    var x := p.release.executionId;
    var job := t.jobs[x];
    var k, v := EventKey(x, 0, NoEffect), "failed-no-effect";
    FailedJob(t.events, x, job, v);
    assert Adds(t.events, t.events[k := v], x, k, v);
    JobStep(t, x, job.(phase := FailedNoEffect), t.events[k := v]);
    assert FailNeverIssued(t, p, releaseHolds)
        == Ok(t.(jobs := t.jobs[x := job.(phase := FailedNoEffect)], events := t.events[k := v]));
  }

  lemma ApplyKeeps(t: Tables, op: Op, releaseHolds: bool)
    requires Inv(t) && Apply(t, op, releaseHolds).Ok?
    ensures Inv(Apply(t, op, releaseHolds).value) && Advances(t, Apply(t, op, releaseHolds).value)
  {
    match op
    case DoRecord(p, now) => RecordKeeps(t, p, releaseHolds, now);
    case DoIssue(p, now, observed) => IssueKeeps(t, p, releaseHolds, now, observed);
    case DoComplete(p, observed) => CompleteKeeps(t, p, releaseHolds, observed);
    case DoRecover(p, c, now, observed) => RecoverKeeps(t, p, releaseHolds, c, now, observed);
    case DoFail(p) => FailKeeps(t, p, releaseHolds);
  }

  // ---- runs ----

  datatype Call = Call(op: Op, releaseHolds: bool)

  /** A refused call leaves the tables as they were. */
  ghost function After(t: Tables, c: Call): Tables {
    if Apply(t, c.op, c.releaseHolds).Ok? then Apply(t, c.op, c.releaseHolds).value else t
  }

  ghost function Run(t: Tables, calls: seq<Call>): Tables
    decreases |calls|
  {
    if calls == [] then t else Run(After(t, calls[0]), calls[1..])
  }

  const Empty := Tables(map[], map[], map[])

  lemma AfterKeeps(t: Tables, c: Call)
    requires Inv(t)
    ensures Inv(After(t, c)) && Advances(t, After(t, c))
  {
    if Apply(t, c.op, c.releaseHolds).Ok? {
      ApplyKeeps(t, c.op, c.releaseHolds);
    }
  }

  lemma AdvancesTrans(a: Tables, b: Tables, c: Tables)
    requires Advances(a, b) && Advances(b, c)
    ensures Advances(a, c)
  {
    forall x | x in a.jobs ensures x in c.jobs && JobAdvances(a.jobs[x], c.jobs[x]) {
      assert JobAdvances(a.jobs[x], b.jobs[x]) && JobAdvances(b.jobs[x], c.jobs[x]);
    }
  }

  lemma {:induction false} RunKeeps(t: Tables, calls: seq<Call>)
    requires Inv(t)
    ensures Inv(Run(t, calls)) && Advances(t, Run(t, calls))
    decreases |calls|
  {
    if calls != [] {
      AfterKeeps(t, calls[0]);
      RunKeeps(After(t, calls[0]), calls[1..]);
      AdvancesTrans(t, After(t, calls[0]), Run(t, calls));
    }
  }

  // ---- steps handed out ----

  /** The step a call hands out, if it is an `issue` that succeeds. */
  ghost function Handed(t: Tables, c: Call): seq<EventKey> {
    if c.op.DoIssue? && Apply(t, c.op, c.releaseHolds).Ok? then
      [EventKey(c.op.packet.release.executionId, t.jobs[c.op.packet.release.executionId].ordinal, Issued)]
    else []
  }

  /** Every step handed out in a run, in order. */
  ghost function HandedOut(t: Tables, calls: seq<Call>): seq<EventKey>
    decreases |calls|
  {
    if calls == [] then [] else Handed(t, calls[0]) + HandedOut(After(t, calls[0]), calls[1..])
  }

  /** A step is handed out only when it was not issued before, and is then recorded as issued. */
  lemma HandedFresh(t: Tables, c: Call)
    ensures forall i :: 0 <= i < |Handed(t, c)| ==>
                          Handed(t, c)[i] !in t.events && Handed(t, c)[i] in After(t, c).events
  {
  }

  lemma HandedThen(t: Tables, c: Call, more: seq<EventKey>, after: map<EventKey, string>)
    requires Advances(t, After(t, c)) && FreshKeys(more, After(t, c).events, after)
    requires After(t, c).events.Keys <= after.Keys
    ensures FreshKeys(Handed(t, c) + more, t.events, after)
  {
    HandedFresh(t, c);
    if Handed(t, c) == [] {
      assert [] + more == more;
    } else {
      OneMoreKey(Handed(t, c)[0], more, t.events, After(t, c).events, after);
      assert Handed(t, c) == [Handed(t, c)[0]];
    }
  }

  lemma {:induction false} HandedOnce(t: Tables, calls: seq<Call>)
    requires Inv(t)
    ensures FreshKeys(HandedOut(t, calls), t.events, Run(t, calls).events)
    decreases |calls|
  {
    if calls != [] {
      var next, rest := After(t, calls[0]), calls[1..];
      AfterKeeps(t, calls[0]);
      HandedOnce(next, rest);
      RunKeeps(next, rest);
      HandedThen(t, calls[0], HandedOut(next, rest), Run(next, rest).events);
    }
  }

  /** Distinct issue marks that are new since `before` and all recorded in `after`. */
  ghost predicate FreshKeys(ks: seq<EventKey>, before: map<EventKey, string>, after: map<EventKey, string>) {
    NoDuplicates(ks) && forall i :: 0 <= i < |ks| ==> ks[i] !in before && ks[i] in after && ks[i].mark.Issued?
  }

  lemma OneMoreKey(
    k: EventKey, more: seq<EventKey>, before: map<EventKey, string>, mid: map<EventKey, string>,
    after: map<EventKey, string>)
    requires FreshKeys(more, mid, after) && before.Keys <= mid.Keys <= after.Keys && k !in before && k in mid
    requires k.mark.Issued?
    ensures FreshKeys([k] + more, before, after)
  {
  }

  /** A job under a recovery request hands out no further step. */
  lemma HeldHandsNothing(t: Tables, c: Call, x: string)
    requires Held(t.jobs, x)
    ensures forall i :: 0 <= i < |Handed(t, c)| ==> Handed(t, c)[i].execution != x
  {
  }

  lemma StaysHeld(t: Tables, next: Tables, x: string)
    requires Held(t.jobs, x) && Advances(t, next)
    ensures Held(next.jobs, x)
  {
    assert JobAdvances(t.jobs[x], next.jobs[x]);
  }

  lemma {:induction false} NoneAfterRecovery(t: Tables, calls: seq<Call>, x: string)
    requires Inv(t) && Held(t.jobs, x)
    ensures forall i :: 0 <= i < |HandedOut(t, calls)| ==> HandedOut(t, calls)[i].execution != x
    decreases |calls|
  {
    if calls != [] {
      AfterKeeps(t, calls[0]);
      HeldHandsNothing(t, calls[0], x);
      StaysHeld(t, After(t, calls[0]), x);
      NoneAfterRecovery(After(t, calls[0]), calls[1..], x);
    }
  }

  /** Over every run each step of each job is handed out at most once. */
  lemma AtMostOnce(calls: seq<Call>)
    ensures NoDuplicates(HandedOut(Empty, calls))
  {
    HandedOnce(Empty, calls);
  }

  lemma RecoveryStops(calls: seq<Call>, later: seq<Call>, n: string)
    requires n in Run(Empty, calls).recovery
    ensures var t := Run(Empty, calls);
            forall i :: 0 <= i < |HandedOut(t, later)| ==> HandedOut(t, later)[i].execution != t.recovery[n].execution
  {
    RunKeeps(Empty, calls);
    var t := Run(Empty, calls);
    assert Held(t.jobs, t.recovery[n].execution);
    NoneAfterRecovery(t, later, t.recovery[n].execution);
  }

  /** "failed-no-effect" means that nothing was ever handed out. */
  lemma NoEffectMeansNone(calls: seq<Call>, x: string)
    requires x in Run(Empty, calls).jobs && Run(Empty, calls).jobs[x].phase.FailedNoEffect?
    ensures forall i :: 0 <= i < |HandedOut(Empty, calls)| ==> HandedOut(Empty, calls)[i].execution != x
  {
    RunKeeps(Empty, calls);
    HandedOnce(Empty, calls);
    var t := Run(Empty, calls);
    assert JobSound(t.events, x, t.jobs[x]);
  }

  // ---- progress along the chain ----

  /** The states the packet approves, one after another. */
  ghost function Chain(ts: seq<Transition>): seq<string> {
    if ts == [] then [] else [ts[0].before] + seq(|ts|, i requires 0 <= i < |ts| => ts[i].after)
  }

  /** The states observed so far: the one the first step started from, then the outcome of each completed step. */
  ghost function Observed(events: map<EventKey, string>, x: string, ordinal: nat): seq<string>
    requires InOrder(events, x, ordinal)
  {
    if !Has(events, x, 0, Issued) then [] else
    [events[EventKey(x, 0, Issued)]] + seq(ordinal, i requires 0 <= i < ordinal => OutcomeAt(events, x, ordinal, i))
  }

  ghost function OutcomeAt(events: map<EventKey, string>, x: string, ordinal: nat, i: nat): string
    requires InOrder(events, x, ordinal) && i < ordinal
  {
    assert Has(events, x, i, Completed);
    events[EventKey(x, i, Completed)]
  }

  ghost function CompletedSteps(t: Tables, x: string): set<nat> {
    set n: nat | n < |Steps| && Has(t.events, x, n, Completed)
  }

  ghost function FirstNumbers(n: nat): (r: set<nat>)
    ensures |r| == n && forall i: nat :: i in r <==> i < n
  {
    if n == 0 then {} else FirstNumbers(n - 1) + {n - 1}
  }

  lemma CountCompleted(t: Tables, x: string, ordinal: nat)
    requires InOrder(t.events, x, ordinal)
    ensures |CompletedSteps(t, x)| == ordinal
  {
    assert CompletedSteps(t, x) == FirstNumbers(ordinal);
  }

  lemma ObservedChain(events: map<EventKey, string>, x: string, ordinal: nat, ts: seq<Transition>)
    requires InOrder(events, x, ordinal) && AsApproved(events, x, ts) && |ts| == |Steps|
    ensures Observed(events, x, ordinal) <= Chain(ts)
  {
    var seen := Observed(events, x, ordinal);
    forall i | 0 <= i < |seen| ensures seen[i] == Chain(ts)[i] {
      if i > 0 {
        assert Has(events, x, i - 1, Completed);
      }
    }
  }

  lemma TargetHeldAlone(t: Tables, x: string, y: string)
    requires Inv(t) && x in t.jobs && y in t.jobs && y != x && !Terminal(t.jobs[x].phase) && !Terminal(t.jobs[y].phase)
    ensures t.jobs[y].target != t.jobs[x].target
  {
    assert !Clashes(t.jobs[y], t.jobs[x]);
  }

  /**
    * In every reachable state: the job's ordinal is the number of its completed steps, the observed states are a first
    * part of the approved chain, every issued step started from what the one before it left, and no other job
    * that is not terminal holds the target.
    */
  lemma ProgressAlongChain(calls: seq<Call>, x: string)
    requires x in Run(Empty, calls).jobs
    ensures var t, job := Run(Empty, calls), Run(Empty, calls).jobs[x];
            && Inv(t) && |CompletedSteps(t, x)| == job.ordinal <= |Steps|
            && Observed(t.events, x, job.ordinal) <= Chain(job.packet.outage.transitions)
            && (forall y :: y in t.jobs && y != x && !Terminal(job.phase) && !Terminal(t.jobs[y].phase) ==>
                              t.jobs[y].target != job.target)
  {
    RunKeeps(Empty, calls);
    var t := Run(Empty, calls);
    assert JobSound(t.events, x, t.jobs[x]);
    CountCompleted(t, x, t.jobs[x].ordinal);
    ObservedChain(t.events, x, t.jobs[x].ordinal, t.jobs[x].packet.outage.transitions);
    forall y | y in t.jobs && y != x && !Terminal(t.jobs[x].phase) && !Terminal(t.jobs[y].phase)
      ensures t.jobs[y].target != t.jobs[x].target
    {
      TargetHeldAlone(t, x, y);
    }
  }

  /** Each issued step starts from the state the one before it was completed with. */
  lemma ConnectedSteps(calls: seq<Call>, x: string, n: nat)
    requires x in Run(Empty, calls).jobs && Has(Run(Empty, calls).events, x, n, Issued) && n > 0
    ensures var events := Run(Empty, calls).events;
            Has(events, x, n - 1, Completed) && events[EventKey(x, n, Issued)] == events[EventKey(x, n - 1, Completed)]
  {
    RunKeeps(Empty, calls);
    var t := Run(Empty, calls);
    assert JobSound(t.events, x, t.jobs[x]);
    assert ConnectedAt(t.jobs[x].packet.outage.transitions, n);
  }
}
