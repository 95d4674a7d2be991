/** The checks of `commit` and `abort`, and the manifest `commit` builds. */
module LedgerCommit {
  import opened Outcomes
  import opened AcceptanceRecords
  import Evaluators
  import opened LedgerModel
  import opened LedgerSafety

  /** The prepared bundle given to `commit`. */
  datatype Bundle = Bundle(intent: SealIntent, segment: Segment, assessment: Assessment, events: seq<Event>)

  /** Answers of the proof adapters: those the evaluator asks, those for the events, and for the terminal fence. */
  datatype Answers = Answers(adapters: Evaluators.Evidence, events: bool, fence: bool)

  /** What `commit` reads before it writes: the retained checkpoints and, for a seal, the evaluation of the interval. */
  datatype Reading = Reading(captures: map<Artifact, Checkpoint>, evaluation: Evaluators.Evaluation)

  function EvidenceOf(a: Answers, captures: map<Artifact, Checkpoint>): Evaluators.Evidence {
    a.adapters.(captures := captures)
  }

  /** The evaluation in the reading is that of the bundle's segment over this log. */
  ghost predicate Judged(entry: Entry, log: seq<Event>, b: Bundle, a: Answers, v: Reading) {
    b.intent.sealed ==>
      Evaluators.Judges(v.evaluation, entry, EvidenceOf(a, v.captures), log, b.segment.segmentId,
                        b.assessment.coverage, b.assessment.additions, b.assessment.unresolved)
  }

  /** The digest names a start event of this segment; `commit` also wants its checkpoint. */
  predicate StartsIn(log: seq<Event>, start: Digest, segmentId: string, captured: bool) {
    exists i :: 0 <= i < |log| && EventSha(log[i]) == start && IsStart(log[i], segmentId, captured)
  }

  predicate IsStart(e: Event, segmentId: string, captured: bool) {
    e.kind == SegmentStart && e.segmentId == Some(segmentId) && (captured ==> e.checkpoint.Some?)
  }

  /** The stop event repeats the intent and names the heartbeat it follows. */
  predicate Stops(f: Fence, heartbeat: Event, intent: SealIntent, e: Event) {
    && e.kind == SegmentStop && e.checkpoint.None? && e.segmentId == Some(intent.segmentId)
    && e.stop == Some(Stop(intent.reason, intent.checkpoint, intent.checkpointEvent, intent.transactionId))
    && e.number == f.beforeSeq + 1 && e.previous == Some(EventSha(heartbeat))
  }

  predicate Qualifies(intent: SealIntent, stop: Event, e: Event) {
    && e.kind == Qualification && e.stop.None? && e.checkpoint.None? && e.segmentId == Some(intent.segmentId)
    && e.number == stop.number + 1 && e.previous == Some(EventSha(stop))
  }

  /** The captured endpoints: one boot, this entry, and the segment's own start, end and duration. */
  function EndpointCheck(entry: Entry, b: Bundle, captures: map<Artifact, Checkpoint>): Check {
    var i := b.intent;
    if !i.startEvent.content.EventBytes? || i.startEvent.content.event.checkpoint.None? then Fail("terminal_start")
    else if i.startEvent.content.event.checkpoint.value !in captures || i.checkpoint !in captures then
      Fail("artifact_missing_or_changed")
    else
      var first, last := captures[i.startEvent.content.event.checkpoint.value], captures[i.checkpoint];
      var elapsed := last.mono - first.mono;
      if !(first.bootId == last.bootId && elapsed >= 0 && first.entry == last.entry == entry.digest
           && b.segment.start == first.at && b.segment.end == Some(last.at) && b.segment.duration == Some(elapsed)) then
        Fail("terminal_endpoint")
      else if i.sealed && elapsed < Evaluators.Duration then Fail("duration_short")
      else Pass
  }

  /** The terminal events carry the last checkpoint's clock. */
  predicate OnTime(es: seq<Event>, last: Checkpoint) {
    forall k :: 0 <= k < |es| ==> es[k].bootId == last.bootId && es[k].mono == last.mono
  }

  /** What a seal needs: a clean assessment and an evaluation that qualifies the interval for the stated duration. */
  function SealCheck(b: Bundle, v: Reading): Check {
    if b.intent.reason != "none" || b.assessment.result != "qualified_pending_archive"
       || b.assessment.unresolved != [] then
      Fail("terminal_qualification")
    else if v.evaluation.NotQualified? then Fail(v.evaluation.reason)
    else if b.segment.duration != Some(v.evaluation.duration) then Fail("terminal_evaluated_duration")
    else if !(|b.events| == 2 && Qualifies(b.intent, b.events[0], b.events[1])) then
      Fail("terminal_qualification_event")
    else Pass
  }

  function BindingCheck(entry: Entry, log: seq<Event>, f: Fence, hb: Event, b: Bundle): Check {
    var i := b.intent;
    if !(i.segmentId == b.segment.segmentId == f.segmentId && i.entry == b.segment.entry == entry.digest) then
      Fail("terminal_binding")
    else if !(Some(i.checkpoint) == hb.checkpoint && i.checkpointEvent == EventSha(hb)) then Fail("terminal_checkpoint")
    else if !(i.sealed == b.segment.sealed && i.reason == b.segment.reason) then Fail("terminal_result")
    else if !(b.segment.runId == b.assessment.runId == entry.runId && b.segment.startEvent == i.startEvent) then
      Fail("terminal_run")
    else if !StartsIn(log, i.startEvent, i.segmentId, true) then Fail("terminal_start")
    else Pass
  }

  function CommitCheck(
    entry: Entry, log: seq<Event>, f: Fence, hb: Event, b: Bundle, a: Answers, v: Reading): Check {
    var i := b.intent;
    if BindingCheck(entry, log, f, hb, b).Fail? then BindingCheck(entry, log, f, hb, b)
    else if EndpointCheck(entry, b, v.captures).Fail? then EndpointCheck(entry, b, v.captures)
    else if |b.events| != (if i.sealed then 2 else 1) then Fail("terminal_events")
    else if !Stops(f, hb, i, b.events[0]) then Fail("terminal_stop")
    else if !(b.segment.endEvent == Some(EventSha(b.events[0]))
              && b.assessment.segmentSha == Sha(SegmentBytes(b.segment))
              && b.assessment.evaluation == i.evaluation) then
      Fail("terminal_artifact_graph")
    else if i.sealed && SealCheck(b, v).Fail? then SealCheck(b, v)
    else if !i.sealed && !(i.reason != "none" && b.assessment.result == "not_qualified") then Fail("terminal_interrupt")
    else if i.checkpoint !in v.captures || !OnTime(b.events, v.captures[i.checkpoint]) then Fail("terminal_clock")
    else if !(a.events && Chained(log + b.events, entry.runId)) then Fail("event_chain")
    else Pass
  }

  /** The references every adapter call checks: each artifact named is retained unchanged. */
  predicate References(disk: Disk, b: Bundle) {
    && Bound(disk.objects, disk.inventory, IntentRefs(b.intent))
    && Bound(disk.objects, disk.inventory, b.segment.evidence)
    && Bound(disk.objects, disk.inventory, b.assessment.evidence)
  }

  function ManifestOf(f: Fence, b: Bundle, spool: set<Digest>): Manifest {
    Manifest(Sha(IntentBytes(b.intent)), FenceSha(f),
             [Sha(SegmentBytes(b.segment)), Sha(AssessmentBytes(b.assessment))], Digests(b.events), spool)
  }

  /** Everything the manifest names, and the manifest itself, in the order `commit` stores them. */
  function BundleContents(f: Fence, b: Bundle, spool: set<Digest>): seq<Content> {
    [IntentBytes(b.intent), SegmentBytes(b.segment), AssessmentBytes(b.assessment)]
    + seq(|b.events|, i requires 0 <= i < |b.events| => EventBytes(b.events[i]))
    + [ManifestBytes(ManifestOf(f, b, spool))]
  }

  /** A bundle that passed is chained right after the heartbeat, and the log ends there. */
  lemma CommitChains(entry: Entry, log: seq<Event>, f: Fence, hb: Event, b: Bundle, a: Answers, v: Reading)
    requires CommitCheck(entry, log, f, hb, b, a, v) == Pass && f.beforeSeq < |log| && log[f.beforeSeq] == hb
    requires hb.number == f.beforeSeq
    ensures |log| == f.beforeSeq + 1 && 1 <= |b.events| <= 2 && ChainsAfter(hb, entry.runId, b.events)
  {
    EventsChain(log, entry.runId, f, hb, b);
  }

  lemma EventsChain(log: seq<Event>, runId: string, f: Fence, hb: Event, b: Bundle)
    requires 1 <= |b.events| <= 2 && b.events[0].number == f.beforeSeq + 1 && Chained(log + b.events, runId)
    requires f.beforeSeq < |log| && log[f.beforeSeq] == hb && hb.number == f.beforeSeq
    ensures |log| == f.beforeSeq + 1 && ChainsAfter(hb, runId, b.events)
  {
    var all := log + b.events;
    assert PlacedAt(all, runId, |log|);
    assert all[|log|] == b.events[0];
    forall i | 0 <= i < |b.events|
      ensures LinkedAt(hb, runId, b.events, i)
    {
      var last := if i == 0 then hb else b.events[i - 1];
      assert PlacedAt(all, runId, |log| + i);
      assert all[|log| + i] == b.events[i];
      assert all[..|log| + i][|log| + i - 1] == last;
    }
  }

  /** A sealed bundle that passed was evaluated as qualified over the log it ends. */
  lemma CommitSeals(
    disk: Disk, f: Fence, hb: Event, b: Bundle, a: Answers, v: Reading, spool: set<Digest>)
    requires CommitCheck(disk.entry, disk.log, f, hb, b, a, v) == Pass && Judged(disk.entry, disk.log, b, a, v)
    requires FromInventory(EvidenceOf(a, v.captures), disk.objects, disk.inventory)
    ensures SealHolds(disk.entry, disk.objects, disk.inventory, disk.log, f.segmentId, ManifestOf(f, b, spool))
  {
    OutcomePasses(disk.entry, disk.log, f, hb, b, a, v, spool);
    if b.intent.sealed {
      SealPassed(disk.entry, disk.log, f, hb, b, a, v);
      SealQualifies(disk.entry, disk.objects, disk.inventory, disk.log, b, a, v);
    }
    GuardPasses(disk.entry, disk.objects, disk.inventory, disk.log, f, b, spool);
  }

  lemma SealPassed(entry: Entry, log: seq<Event>, f: Fence, hb: Event, b: Bundle, a: Answers, v: Reading)
    requires CommitCheck(entry, log, f, hb, b, a, v) == Pass && b.intent.sealed
    ensures SealCheck(b, v).Pass?
  {
  }

  /** The outcome of a bundle that passed agrees in all its records. */
  lemma OutcomePasses(
    entry: Entry, log: seq<Event>, f: Fence, hb: Event, b: Bundle, a: Answers, v: Reading, spool: set<Digest>)
    requires CommitCheck(entry, log, f, hb, b, a, v) == Pass
    ensures OutcomeGuard(f.segmentId, ManifestOf(f, b, spool)).Pass?
  {
    var m := ManifestOf(f, b, spool);
    assert BindingCheck(entry, log, f, hb, b).Pass? && m.events != [];
    assert b.intent.sealed ==> SealCheck(b, v).Pass?;
    assert Events(m.events) == b.events;
    assert OutcomeAgrees(f.segmentId, b.intent, b.segment, b.assessment, b.events);
  }

  lemma GuardPasses(
    entry: Entry, objects: set<Content>, inventory: map<string, Artifact>, log: seq<Event>, f: Fence, b: Bundle,
    spool: set<Digest>)
    requires OutcomeGuard(f.segmentId, ManifestOf(f, b, spool)).Pass?
    requires b.intent.sealed ==> QualifiedLog(entry, objects, inventory, log, b.segment, b.assessment)
    ensures SealHolds(entry, objects, inventory, log, f.segmentId, ManifestOf(f, b, spool))
  {
  }

  lemma SealQualifies(
    entry: Entry, objects: set<Content>, inventory: map<string, Artifact>, log: seq<Event>, b: Bundle, a: Answers,
    v: Reading)
    requires b.intent.sealed && SealCheck(b, v).Pass? && Judged(entry, log, b, a, v)
    requires FromInventory(EvidenceOf(a, v.captures), objects, inventory)
    ensures QualifiedLog(entry, objects, inventory, log, b.segment, b.assessment)
  {
    var ev := EvidenceOf(a, v.captures);
    var s :| Evaluators.QualifiedFor(v.evaluation.duration, entry, ev, log, b.segment.segmentId, b.assessment.coverage,
                                     b.assessment.additions, b.assessment.unresolved, s);
    assert QualifiedBy(entry, objects, inventory, log, b.segment, b.assessment, ev, s);
  }

  lemma CapturesRetained(objects: set<Content>, inventory: map<string, Artifact>, a: Answers)
    ensures FromInventory(EvidenceOf(a, Captures(objects, inventory)), objects, inventory)
  {
  }

  lemma ReferencesStay(disk: Disk, next: Disk, b: Bundle)
    requires References(disk, b) && disk.objects <= next.objects && next.inventory == disk.inventory
    ensures References(next, b)
  {
  }

  lemma BundleStored(disk: Disk, f: Fence, b: Bundle, spool: set<Digest>)
    requires References(disk, b) && 1 <= |b.events| <= 2
    requires forall c :: c in BundleContents(f, b, spool) ==> c in disk.objects
    ensures ManifestStored(disk.objects, disk.inventory, ManifestOf(f, b, spool))
  {
    var m, cs := ManifestOf(f, b, spool), BundleContents(f, b, spool);
    forall d | d in [m.intentSha] + m.objects + m.events ensures d.content in disk.objects {
      if d in m.events {
        var i :| 0 <= i < |m.events| && m.events[i] == d;
        assert cs[3 + i] == d.content;
      } else {
        assert d.content == cs[0] || d.content == cs[1] || d.content == cs[2];
      }
    }
    assert cs[|cs| - 1] == ManifestBytes(m);
  }

  /** The intent an abort names: the one already retained, else the one given. */
  function Chosen(retained: Option<SealIntent>, given: Option<SealIntent>): Option<SealIntent> {
    if retained.Some? then retained else given
  }

  /** The checks of `abort`: a given intent must be the retained one, and must fit the heartbeat and the start event. */
  function AbortCheck(
    entry: Entry, log: seq<Event>, f: Fence, hb: Option<Event>, retained: Option<SealIntent>, given: Option<SealIntent>,
    a: Answers): Check {
    var intent := Chosen(retained, given);
    if retained.Some? && given.Some? && given != retained then Fail("prepared_intent_conflict")
    else if intent.Some? && hb.None? then Fail("terminal_heartbeat_missing")
    else if intent.Some? && !(intent.value.segmentId == f.segmentId && intent.value.entry == entry.digest) then
      Fail("terminal_binding")
    else if intent.Some?
            && !(Some(intent.value.checkpoint) == hb.value.checkpoint
                 && intent.value.checkpointEvent == EventSha(hb.value)) then
      Fail("terminal_checkpoint")
    else if intent.Some? && !a.events then Fail("event_chain")
    else if intent.Some? && !StartsIn(log, intent.value.startEvent, f.segmentId, false) then Fail("terminal_start")
    else if !a.fence then Fail("source_adapter_unavailable:terminal_fence")
    else Pass
  }

  function AbortOf(f: Fence, intent: Option<SealIntent>, reason: string): Abort {
    Abort(FenceSha(f), if intent.Some? then Some(Sha(IntentBytes(intent.value))) else None, reason)
  }
}
