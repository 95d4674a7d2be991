/** Every sealed segment of a reachable ledger was observed for 72 hours without a gap. */
module LedgerSeals {
  import opened Outcomes
  import opened AcceptanceRecords
  import opened LedgerModel
  import opened LedgerSafety
  import Evaluators
  import opened EvaluatorContinuity
  import opened EvaluatorMeaning

  /** The log a manifest was committed over: up to and including its heartbeat. */
  function SealedLog(disk: Disk, m: Manifest): seq<Event> {
    if m.fenceSha in disk.heartbeats && disk.heartbeats[m.fenceSha].number < |disk.log|
    then disk.log[..disk.heartbeats[m.fenceSha].number + 1] else []
  }

  /**
    * From commit to continuity. In every reachable state, for every manifest that seals its segment: some evidence
    * drawn from the retained checkpoints qualifies the segment over the log up to the heartbeat. So the checkpoints
    * named there are at least 433, of one boot, rising, at most 600 seconds apart, over at least 259,200 seconds
    * and exactly the segment's stated duration, with the audit intervals of every source tiling that time. And from
    * the segment's start on, no logged event is an intervention, a gap, a drill, a hold, an operator's action other
    * than an approval, or another segment's.
    */
  lemma SealedIsContinuous(entry: Entry, disk: Disk, segmentId: string)
    returns (ev: Evaluators.Evidence, start: nat, cs: seq<Checkpoint>)
    requires Reaches(Created(entry), disk) && segmentId in disk.terminals && Seals(disk.terminals[segmentId])
    ensures var m, log := disk.terminals[segmentId], SealedLog(disk, disk.terminals[segmentId]);
            && start <= |log| && m.objects[0].content.segment.segmentId == segmentId
            && QualifiedBy(entry, disk.objects, disk.inventory, log, m.objects[0].content.segment,
                           m.objects[1].content.assessment, ev, start)
            && cs == Evaluators.Captured(ev, log[start..])
            && m.objects[0].content.segment.duration == Some(cs[|cs| - 1].mono - cs[0].mono)
    ensures |cs| >= 433 && OneBootRising(cs) && NoGap(cs) && SourcesTile(cs)
    ensures var first, last := cs[0], cs[|cs| - 1];
            && last.mono - first.mono >= Evaluators.Duration
            && -Evaluators.MaxError <= (last.at - first.at) - (last.mono - first.mono) <= Evaluators.MaxError
    ensures var log := SealedLog(disk, disk.terminals[segmentId]);
            forall k :: start <= k < |log| ==> Undisturbed(log[k], segmentId)
  {
    var m := disk.terminals[segmentId];
    var segment, assessment := m.objects[0].content.segment, m.objects[1].content.assessment;
    var log := SealedLog(disk, m);
    ev, start := SealEvidence(entry, disk, segmentId, m);
    cs := Evaluators.Captured(ev, log[start..]);
    QualifiedIsContinuous(entry, ev, log, segmentId, assessment.coverage, assessment.additions,
                          assessment.unresolved, start);
    QualifiedUndisturbed(entry, ev, log, segmentId, assessment.coverage, assessment.additions,
                         assessment.unresolved, start);
  }

  /**
    * What a committed manifest says came of its segment, in every reachable state. It is qualified exactly when the
    * intent seals, and then for reason "none", with nothing unresolved and a qualification event; otherwise it is not
    * qualified, for another reason, with the stop event alone. The stop event repeats the intent's reason, and the
    * segment record and the assessment are bound to it and to each other.
    */
  lemma OutcomesOverRuns(entry: Entry, disk: Disk, segmentId: string)
    requires Reaches(Created(entry), disk) && segmentId in disk.terminals
    ensures var m := disk.terminals[segmentId];
            && m.intentSha.content.IntentBytes? && |m.objects| == 2 && m.objects[0].content.SegmentBytes?
            && m.objects[1].content.AssessmentBytes? && |m.events| >= 1 && m.events[0].content.EventBytes?
            && var i, s, a, e := m.intentSha.content.intent, m.objects[0].content.segment,
                                 m.objects[1].content.assessment, m.events[0].content.event;
            && i.segmentId == segmentId && s.segmentId == segmentId && s.sealed == i.sealed && s.reason == i.reason
            && (a.result == "qualified_pending_archive" <==> i.sealed) && (a.result == "not_qualified" <==> !i.sealed)
            && (i.sealed <==> i.reason == "none") && |m.events| == (if i.sealed then 2 else 1)
            && (i.sealed ==> a.unresolved == [])
            && e.kind == SegmentStop && e.stop.Some? && e.stop.value.reason == i.reason
            && s.endEvent == Some(m.events[0]) && a.segmentSha == m.objects[0]
  {
    ReachedSeal(entry, disk, segmentId);
    SealOutcome(disk, segmentId, disk.terminals[segmentId]);
  }

  lemma SealOutcome(disk: Disk, segmentId: string, m: Manifest)
    requires SealSound(disk.entry, disk.objects, disk.inventory, disk.log, disk.heartbeats, segmentId, m)
    ensures OutcomeGuard(segmentId, m).Pass?
  {
  }

  /** The evidence a committed seal rests on. */
  lemma SealEvidence(entry: Entry, disk: Disk, segmentId: string, m: Manifest)
    returns (ev: Evaluators.Evidence, start: nat)
    requires Reaches(Created(entry), disk) && Lookup(disk.terminals, segmentId) == Some(m) && Seals(m)
    ensures m.objects[0].content.segment.segmentId == segmentId
    ensures QualifiedBy(entry, disk.objects, disk.inventory, SealedLog(disk, m), m.objects[0].content.segment,
                        m.objects[1].content.assessment, ev, start)
  {
    ReachedSeal(entry, disk, segmentId);
    SealQualified(entry, disk, segmentId, m);
    ev, start := Witness(entry, disk.objects, disk.inventory, SealedLog(disk, m), m.objects[0].content.segment,
                         m.objects[1].content.assessment);
  }

  lemma SealQualified(entry: Entry, disk: Disk, segmentId: string, m: Manifest)
    requires SealSound(entry, disk.objects, disk.inventory, disk.log, disk.heartbeats, segmentId, m) && Seals(m)
    ensures m.objects[0].content.segment.segmentId == segmentId
    ensures QualifiedLog(entry, disk.objects, disk.inventory, SealedLog(disk, m), m.objects[0].content.segment,
                         m.objects[1].content.assessment)
  {
    var base := disk.log[..disk.heartbeats[m.fenceSha].number + 1];
    SealPasses(entry, disk.objects, disk.inventory, base, segmentId, m);
    assert SealedLog(disk, m) == base;
  }

  lemma SealPasses(
    entry: Entry, objects: set<Content>, inventory: map<string, Artifact>, log: seq<Event>, segmentId: string,
    m: Manifest)
    requires SealHolds(entry, objects, inventory, log, segmentId, m) && Seals(m)
    ensures m.objects[0].content.segment.segmentId == segmentId
    ensures QualifiedLog(entry, objects, inventory, log, m.objects[0].content.segment, m.objects[1].content.assessment)
  {
  }

  lemma Witness(
    entry: Entry, objects: set<Content>, inventory: map<string, Artifact>, log: seq<Event>, segment: Segment,
    assessment: Assessment)
    returns (ev: Evaluators.Evidence, start: nat)
    requires QualifiedLog(entry, objects, inventory, log, segment, assessment)
    ensures QualifiedBy(entry, objects, inventory, log, segment, assessment, ev, start)
  {
    ev, start :| QualifiedBy(entry, objects, inventory, log, segment, assessment, ev, start);
  }

  lemma ReachedSeal(entry: Entry, disk: Disk, segmentId: string)
    requires Reaches(Created(entry), disk) && segmentId in disk.terminals
    ensures disk.entry == entry
    ensures SealSound(entry, disk.objects, disk.inventory, disk.log, disk.heartbeats, segmentId,
                      disk.terminals[segmentId])
  {
    ReachedSound(entry, disk);
  }
}
