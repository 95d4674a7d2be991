/** The journal over its tables: each method is one transaction that commits or leaves them as they were. */
module OutageJournals {
  import opened Outcomes
  import opened Syntax
  import opened OutageModel

  class OutageJournal {
    var jobs: map<string, Job>
    var events: map<EventKey, string>
    var recovery: map<string, RecoveryRow>

    constructor ()
      ensures Rows() == Tables(map[], map[], map[])
    {
      jobs, events, recovery := map[], map[], map[];
    }

    function Rows(): Tables
      reads this
    {
      Tables(jobs, events, recovery)
    }

    /** What a transaction left, given what it should have done. */
    ghost predicate Committed(r: Result<Tables>, c: Check)
      reads this
    {
      if r.Ok? then c.Pass? && Rows() == r.value else c.Fail?
    }

    method Record(p: Packet, releaseHolds: bool, now: int) returns (c: Check)
      modifies this
      ensures Committed(RecordCapsule(old(Rows()), p, releaseHolds, now), c)
      ensures c.Fail? ==> Rows() == old(Rows())
    {
      c := ValidatePacket(p, releaseHolds);
      if c.Fail? {
        return;
      }
      if !Window(p.outage.notBefore, now, p.outage.deadline) {
        return Fail("outage-forward-window");
      }
      var x := p.release.executionId;
      if x in jobs {
        return if jobs[x].packet == p then Pass else Fail("outage-unknown-or-payload-drift");
      }
      if !Insertable(jobs, NewJob(p)) {
        return Fail("outage-one-use-or-target-conflict");
      }
      jobs := jobs[x := NewJob(p)];
    }

    method IssueStep(
      p: Packet, releaseHolds: bool, now: int, observed: string) returns (c: Check, step: Option<StepName>)
      modifies this
      ensures Committed(Issue(old(Rows()), p, releaseHolds, now, observed), c)
      ensures c.Fail? ==> Rows() == old(Rows()) && step == None
      ensures c.Pass? ==> step == Some(Steps[old(jobs)[p.release.executionId].ordinal])
    {
      step := None;
      c := ValidatePacket(p, releaseHolds);
      if c.Fail? {
        return;
      }
      c := IssueCheck(Rows(), p, now, observed);
      if c.Fail? {
        return;
      }
      var x := p.release.executionId;
      var job := jobs[x];
      events := events[EventKey(x, job.ordinal, Issued) := observed];
      jobs := jobs[x := job.(phase := Uncertain)];
      step := Some(p.outage.transitions[job.ordinal].step);
    }

    method CompleteStep(p: Packet, releaseHolds: bool, observed: string) returns (c: Check)
      modifies this
      ensures Committed(Complete(old(Rows()), p, releaseHolds, observed), c)
      ensures c.Fail? ==> Rows() == old(Rows())
    {
      c := ValidatePacket(p, releaseHolds);
      if c.Fail? {
        return;
      }
      c := CompleteCheck(Rows(), p, observed);
      if c.Fail? {
        return;
      }
      var x := p.release.executionId;
      var job := jobs[x];
      events := events[EventKey(x, job.ordinal, Completed) := observed];
      jobs := jobs[x := Advanced(job)];
    }

    method RequestStop(p: Packet, releaseHolds: bool, command: Command, now: int, observed: string) returns (c: Check)
      modifies this
      ensures Committed(RequestRecovery(old(Rows()), p, releaseHolds, command, now, observed), c)
      ensures c.Fail? ==> Rows() == old(Rows())
    {
      c := ValidatePacket(p, releaseHolds);
      if c.Fail? {
        return;
      }
      if !(DigestSyntax(command.routeEpoch) && DigestSyntax(command.expected) && CommandBound(command, p)) {
        return Fail("independent-recovery-binding");
      }
      c := RecoveryCheck(Rows(), p, command, now, observed);
      if c.Fail? {
        return;
      }
      var x := p.release.executionId;
      recovery := recovery[command.nonce := RecoveryRow(x, command)];
      jobs := jobs[x := jobs[x].(phase := RecoveryHold)];
    }

    method FailUnissued(p: Packet, releaseHolds: bool) returns (c: Check)
      modifies this
      ensures Committed(FailNeverIssued(old(Rows()), p, releaseHolds), c)
      ensures c.Fail? ==> Rows() == old(Rows())
    {
      c := ValidatePacket(p, releaseHolds);
      if c.Fail? {
        return;
      }
      c := NeverIssuedCheck(Rows(), p);
      if c.Fail? {
        return;
      }
      var x := p.release.executionId;
      events := events[EventKey(x, 0, NoEffect) := "failed-no-effect"];
      jobs := jobs[x := jobs[x].(phase := FailedNoEffect)];
    }
  }
}
