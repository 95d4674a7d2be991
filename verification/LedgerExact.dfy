/** When `commit`, `abort` and `heartbeat` are accepted, said of the bundle's own records and the files on disk. */
module LedgerExact {
  import opened Outcomes
  import opened AcceptanceRecords
  import opened LedgerModel
  import opened LedgerCommit
  import opened Recovery = LedgerRecovery
  import opened EvaluatorMeaning
  import Evaluators

  // ---- what is retained ----

  /** The artifact's identifier is bound to it and its content is stored. */
  predicate Retained(disk: Disk, x: Artifact) {
    x.id in disk.inventory && disk.inventory[x.id] == x && x.sha.content in disk.objects
  }

  predicate RetainedCheckpoint(disk: Disk, x: Artifact) {
    Retained(disk, x) && x.sha.content.CheckpointBytes?
  }

  function RetainedCheckpoints(disk: Disk): map<Artifact, Checkpoint> {
    map x | x in disk.inventory.Values && RetainedCheckpoint(disk, x) :: x.sha.content.checkpoint
  }

  // ---- the parts of a bundle that commits ----

  /** The bundle is of this fence's segment, run and entry, ends at the fence's heartbeat, and agrees with itself. */
  predicate Belongs(entry: Entry, f: Fence, hb: Event, i: SealIntent, s: Segment, a: Assessment, stop: Event) {
    && i.segmentId == f.segmentId && s.segmentId == f.segmentId && i.entry == entry.digest && s.entry == entry.digest
    && s.runId == entry.runId && a.runId == entry.runId
    && hb.checkpoint == Some(i.checkpoint) && i.checkpointEvent == Sha(EventBytes(hb))
    && s.sealed == i.sealed && s.reason == i.reason && s.startEvent == i.startEvent
    && s.endEvent == Some(Sha(EventBytes(stop)))
    && a.segmentSha == Sha(SegmentBytes(s)) && a.evaluation == i.evaluation
  }

  /** The segment's times are those of its retained first and last checkpoints, of one boot and of this entry. */
  predicate Spans(disk: Disk, s: Segment, first: Artifact, last: Artifact) {
    && RetainedCheckpoint(disk, first) && RetainedCheckpoint(disk, last)
    && var c, d := first.sha.content.checkpoint, last.sha.content.checkpoint;
    && c.bootId == d.bootId && c.mono <= d.mono && c.entry == disk.entry.digest && d.entry == disk.entry.digest
    && s.start == c.at && s.end == Some(d.at) && s.duration == Some(d.mono - c.mono)
  }

  /** The event that started the segment, by the digest the intent names. */
  predicate Started(disk: Disk, i: SealIntent, s: Segment, e: Event) {
    && i.startEvent == Sha(EventBytes(e)) && e.kind == SegmentStart && e.segmentId == Some(i.segmentId)
    && e.checkpoint.Some? && Spans(disk, s, e.checkpoint.value, i.checkpoint)
  }

  ghost predicate StartLogged(disk: Disk, log: seq<Event>, i: SealIntent, s: Segment) {
    exists e :: e in log && Started(disk, i, s, e)
  }

  /** A terminal event of this run on the last checkpoint's clock, numbered and chained after `before`. */
  predicate Closes(entry: Entry, i: SealIntent, before: Event, number: nat, e: Event) {
    && e.segmentId == Some(i.segmentId) && e.checkpoint == None && e.runId == entry.runId
    && e.number == number && e.previous == Some(Sha(EventBytes(before)))
    && i.checkpoint.sha.content.CheckpointBytes?
    && e.bootId == i.checkpoint.sha.content.checkpoint.bootId && e.mono == i.checkpoint.sha.content.checkpoint.mono
  }

  /** The stop event follows the heartbeat and repeats the intent. */
  predicate StopsAfter(entry: Entry, f: Fence, hb: Event, i: SealIntent, e: Event) {
    && e.kind == SegmentStop && Closes(entry, i, hb, f.beforeSeq + 1, e)
    && e.stop == Some(Stop(i.reason, i.checkpoint, i.checkpointEvent, i.transactionId))
  }

  /** An interrupted segment: the stop event alone, a reason, and no qualification. */
  predicate Interrupts(b: Bundle) {
    !b.intent.sealed && |b.events| == 1 && b.intent.reason != "none" && b.assessment.result == "not_qualified"
  }

  /** A sealed segment: a qualification event after the stop, no reason, nothing unresolved. */
  predicate Completes(entry: Entry, f: Fence, b: Bundle) {
    && b.intent.sealed && |b.events| == 2 && b.intent.reason == "none"
    && b.assessment.result == "qualified_pending_archive" && b.assessment.unresolved == []
    && b.events[1].kind == Qualification && b.events[1].stop == None
    && Closes(entry, b.intent, b.events[0], f.beforeSeq + 2, b.events[1])
  }

  /** The interval of the segment qualifies over this log, for the duration the segment states. */
  ghost predicate Earned(entry: Entry, ev: Evaluators.Evidence, log: seq<Event>, s: Segment, a: Assessment) {
    && s.duration.Some?
    && exists k :: IntervalMeans(entry, ev, log, s.segmentId, a.coverage, a.additions, a.unresolved, k)
                   && Span(ev, log, k) == s.duration
  }

  /** The bundle's own contents, read against the log up to the heartbeat. */
  ghost predicate BundleReady(disk: Disk, log: seq<Event>, f: Fence, hb: Event, b: Bundle, a: Answers) {
    var i, s, t := b.intent, b.segment, b.assessment;
    && b.events != [] && Belongs(disk.entry, f, hb, i, s, t, b.events[0]) && StartLogged(disk, log, i, s)
    && StopsAfter(disk.entry, f, hb, i, b.events[0])
    && (Interrupts(b)
        || (Completes(disk.entry, f, b)
            && Earned(disk.entry, a.adapters.(captures := RetainedCheckpoints(disk)), log, s, t)))
  }

  /** The files: what the bundle names is retained, and intent and manifest are not yet written otherwise. */
  predicate FilesReady(disk: Disk, f: Fence, b: Bundle) {
    var d := Sha(FenceBytes(f));
    && (d in disk.intents ==> disk.intents[d] == b.intent)
    && Retained(disk, b.intent.checkpoint) && Retained(disk, b.intent.evaluation)
    && (forall x :: x in b.segment.evidence ==> Retained(disk, x))
    && (forall x :: x in b.assessment.evidence ==> Retained(disk, x))
    && (f.segmentId in disk.terminals ==>
          disk.terminals[f.segmentId] ==
          Manifest(Sha(IntentBytes(b.intent)), d, [Sha(SegmentBytes(b.segment)), Sha(AssessmentBytes(b.assessment))],
                   Digests(b.events), disk.spool - disk.retired.Keys))
  }

  /** The heartbeat's event ends the log, or can still be appended to it. */
  predicate HeartbeatPlaced(disk: Disk, f: Fence, hb: Event) {
    if |disk.log| == f.beforeSeq then hb.runId == disk.entry.runId && f.beforeSeq < 2147483647
    else |disk.log| > f.beforeSeq && disk.log[f.beforeSeq] == hb
  }

  function HeartbeatLog(disk: Disk, f: Fence, hb: Event): seq<Event> {
    if |disk.log| == f.beforeSeq then disk.log + [hb] else disk.log
  }

  /** Everything `commit` asks for. */
  ghost predicate CommitReady(disk: Disk, b: Bundle, a: Answers) {
    && disk.fence.Some? && Sha(FenceBytes(disk.fence.value)) in disk.heartbeats
    && CommitReadyAt(disk, disk.fence.value, disk.heartbeats[Sha(FenceBytes(disk.fence.value))], b, a)
  }

  ghost predicate CommitReadyAt(disk: Disk, f: Fence, hb: Event, b: Bundle, a: Answers) {
    var log := HeartbeatLog(disk, f, hb);
    && Sha(FenceBytes(f)) !in disk.aborts && HeartbeatPlaced(disk, f, hb) && |log| == f.beforeSeq + 1
    && a.events && a.fence && BundleReady(disk, log, f, hb, b, a) && FilesReady(disk, f, b)
    && |log| + |b.events| <= 2147483647
  }

  // ---- the checks of `commit`, part by part ----

  lemma CapturesExact(disk: Disk)
    ensures Captures(disk.objects, disk.inventory) == RetainedCheckpoints(disk)
  {
  }

  lemma CaptureExact(disk: Disk, x: Artifact)
    ensures x in Captures(disk.objects, disk.inventory) <==> RetainedCheckpoint(disk, x)
    ensures RetainedCheckpoint(disk, x) ==>
              Captures(disk.objects, disk.inventory)[x] == x.sha.content.checkpoint
  {
  }

  lemma StartsInExact(log: seq<Event>, start: Digest, segmentId: string)
    ensures StartsIn(log, start, segmentId, true) <==>
            exists e :: e in log && start == Sha(EventBytes(e)) && IsStart(e, segmentId, true)
  {
    if StartsIn(log, start, segmentId, true) {
      var k :| 0 <= k < |log| && EventSha(log[k]) == start && IsStart(log[k], segmentId, true);
      assert log[k] in log;
    }
    if e :| e in log && start == Sha(EventBytes(e)) && IsStart(e, segmentId, true) {
      var k :| 0 <= k < |log| && log[k] == e;
      assert EventSha(log[k]) == start;
    }
  }

  /** What the first checks say of the three records, apart from the start event. */
  predicate Bindings(entry: Entry, f: Fence, hb: Event, b: Bundle)
    requires b.events != []
  {
    Belongs(entry, f, hb, b.intent, b.segment, b.assessment, b.events[0])
  }

  lemma BindingExact(entry: Entry, log: seq<Event>, f: Fence, hb: Event, b: Bundle)
    requires b.events != []
    ensures (&& BindingCheck(entry, log, f, hb, b).Pass? && b.segment.endEvent == Some(EventSha(b.events[0]))
             && b.assessment.segmentSha == Sha(SegmentBytes(b.segment))
             && b.assessment.evaluation == b.intent.evaluation) <==>
            Bindings(entry, f, hb, b) && StartsIn(log, b.intent.startEvent, b.intent.segmentId, true)
  {
  }

  /** Long enough to seal, if it seals. */
  predicate Lasts(b: Bundle) {
    b.intent.sealed ==> b.segment.duration.Some? && b.segment.duration.value >= 259_200_000_000_000
  }

  lemma EndpointExact(disk: Disk, b: Bundle, e: Event)
    requires b.intent.startEvent == EventSha(e) && e.checkpoint.Some?
    ensures EndpointCheck(disk.entry, b, Captures(disk.objects, disk.inventory)).Pass? <==>
            Spans(disk, b.segment, e.checkpoint.value, b.intent.checkpoint) && Lasts(b)
  {
    CaptureExact(disk, e.checkpoint.value);
    CaptureExact(disk, b.intent.checkpoint);
  }

  lemma StartExact(disk: Disk, log: seq<Event>, b: Bundle)
    ensures (&& StartsIn(log, b.intent.startEvent, b.intent.segmentId, true)
             && EndpointCheck(disk.entry, b, Captures(disk.objects, disk.inventory)).Pass?) <==>
            StartLogged(disk, log, b.intent, b.segment) && Lasts(b)
  {
    var i := b.intent;
    StartsInExact(log, i.startEvent, i.segmentId);
    if StartsIn(log, i.startEvent, i.segmentId, true)
       && EndpointCheck(disk.entry, b, Captures(disk.objects, disk.inventory)).Pass? {
      var e :| e in log && i.startEvent == Sha(EventBytes(e)) && IsStart(e, i.segmentId, true);
      EndpointExact(disk, b, e);
      assert Started(disk, i, b.segment, e);
    }
    if StartLogged(disk, log, i, b.segment) && Lasts(b) {
      var e :| e in log && Started(disk, i, b.segment, e);
      EndpointExact(disk, b, e);
      assert IsStart(e, i.segmentId, true);
    }
  }

  /** The stop event, its clock and its run. */
  lemma StopExact(disk: Disk, f: Fence, hb: Event, i: SealIntent, e: Event)
    requires i.checkpoint in Captures(disk.objects, disk.inventory)
    ensures (&& Stops(f, hb, i, e) && OnTime([e], Captures(disk.objects, disk.inventory)[i.checkpoint])
             && e.runId == disk.entry.runId) <==>
            StopsAfter(disk.entry, f, hb, i, e)
  {
    CaptureExact(disk, i.checkpoint);
    assert [e][0] == e;
  }

  lemma QualificationExact(disk: Disk, f: Fence, i: SealIntent, stop: Event, e: Event)
    requires i.checkpoint in Captures(disk.objects, disk.inventory) && stop.number == f.beforeSeq + 1
    ensures (&& Qualifies(i, stop, e) && OnTime([e], Captures(disk.objects, disk.inventory)[i.checkpoint])
             && e.runId == disk.entry.runId) <==>
            && e.kind == Qualification && e.stop == None && Closes(disk.entry, i, stop, f.beforeSeq + 2, e)
  {
    CaptureExact(disk, i.checkpoint);
    assert [e][0] == e;
  }

  /** The evaluator's answer is a qualification for the stated duration exactly when the interval earns it. */
  lemma EarnedExact(disk: Disk, log: seq<Event>, b: Bundle, a: Answers, v: Reading)
    requires v.captures == Captures(disk.objects, disk.inventory) && Judged(disk.entry, log, b, a, v) && b.intent.sealed
    ensures v.evaluation.Qualified? && b.segment.duration == Some(v.evaluation.duration) <==>
            Earned(disk.entry, a.adapters.(captures := RetainedCheckpoints(disk)), log, b.segment, b.assessment)
    ensures v.evaluation.Qualified? && b.segment.duration == Some(v.evaluation.duration) ==> Lasts(b)
  {
    CapturesExact(disk);
    var ev, s, t := a.adapters.(captures := RetainedCheckpoints(disk)), b.segment, b.assessment;
    assert EvidenceOf(a, v.captures) == ev;
    if s.duration.Some? {
      EvaluationExact(v.evaluation, disk.entry, ev, log, s.segmentId, t.coverage, t.additions, t.unresolved,
                      s.duration.value);
    }
  }

  /** The clock of each terminal event by itself. */
  lemma ClockExact(es: seq<Event>, last: Checkpoint)
    requires 1 <= |es| <= 2
    ensures OnTime(es, last) <==> OnTime([es[0]], last) && (|es| == 2 ==> OnTime([es[1]], last))
  {
    assert [es[0]][0] == es[0];
    assert |es| == 2 ==> [es[1]][0] == es[1];
  }

  /** The terminal events continue the log exactly when each is of this run and the log ends with the heartbeat. */
  lemma ChainExact(log: seq<Event>, runId: string, f: Fence, hb: Event, es: seq<Event>)
    requires Chained(log, runId) && f.beforeSeq < |log| && log[f.beforeSeq] == hb && 1 <= |es| <= 2
    requires es[0].number == f.beforeSeq + 1 && es[0].previous == Some(EventSha(hb))
    requires |es| == 2 ==> es[1].number == f.beforeSeq + 2 && es[1].previous == Some(EventSha(es[0]))
    ensures Chained(log + es, runId) <==>
            && |log| == f.beforeSeq + 1 && es[0].runId == runId && (|es| == 2 ==> es[1].runId == runId)
  {
    assert PlacedAt(log, runId, f.beforeSeq);
    if Chained(log + es, runId) {
      EventsPlaced(log, runId, f, hb, es);
    }
    if |log| == f.beforeSeq + 1 && es[0].runId == runId && (|es| == 2 ==> es[1].runId == runId) {
      forall i | 0 <= i < |es| ensures LinkedAt(hb, runId, es, i) {
        assert i == 0 || i == 1;
      }
      ChainedOn(log, runId, hb, es);
    }
  }

  lemma EventsPlaced(log: seq<Event>, runId: string, f: Fence, hb: Event, es: seq<Event>)
    requires Chained(log + es, runId) && 1 <= |es| <= 2 && es[0].number == f.beforeSeq + 1 && f.beforeSeq < |log|
    ensures |log| == f.beforeSeq + 1 && es[0].runId == runId && (|es| == 2 ==> es[1].runId == runId)
  {
    var all := log + es;
    assert PlacedAt(all, runId, |log|) && all[|log|] == es[0];
    if |es| == 2 {
      assert PlacedAt(all, runId, |log| + 1) && all[|log| + 1] == es[1];
    }
  }

  /** The order of the terminal events, as both the checks and the reading below have it. */
  predicate InOrder(f: Fence, hb: Event, es: seq<Event>) {
    && 1 <= |es| <= 2 && es[0].number == f.beforeSeq + 1 && es[0].previous == Some(EventSha(hb))
    && (|es| == 2 ==> es[1].number == f.beforeSeq + 2 && es[1].previous == Some(EventSha(es[0])))
  }

  lemma SealParts(disk: Disk, f: Fence, b: Bundle, v: Reading, earned: bool)
    requires v.captures == Captures(disk.objects, disk.inventory) && b.intent.sealed
    requires |b.events| == 2 && b.events[0].number == f.beforeSeq + 1 && b.intent.checkpoint in v.captures
    requires v.evaluation.Qualified? && b.segment.duration == Some(v.evaluation.duration) <==> earned
    ensures (&& SealCheck(b, v).Pass? && OnTime([b.events[1]], v.captures[b.intent.checkpoint])
             && b.events[1].runId == disk.entry.runId) <==> Completes(disk.entry, f, b) && earned
    ensures SealCheck(b, v).Pass? ==> earned
  {
    QualificationExact(disk, f, b.intent, b.events[0], b.events[1]);
  }

  /** What a seal needs beyond the stop event. */
  lemma SealExact(disk: Disk, log: seq<Event>, f: Fence, b: Bundle, a: Answers, v: Reading)
    requires v.captures == Captures(disk.objects, disk.inventory) && Judged(disk.entry, log, b, a, v) && b.intent.sealed
    requires |b.events| == 2 && b.events[0].number == f.beforeSeq + 1 && b.intent.checkpoint in v.captures
    ensures (&& SealCheck(b, v).Pass? && OnTime([b.events[1]], v.captures[b.intent.checkpoint])
             && b.events[1].runId == disk.entry.runId) <==>
            && Completes(disk.entry, f, b)
            && Earned(disk.entry, a.adapters.(captures := RetainedCheckpoints(disk)), log, b.segment, b.assessment)
    ensures SealCheck(b, v).Pass? ==> Lasts(b)
  {
    EarnedExact(disk, log, b, a, v);
    SealParts(disk, f, b, v, Earned(disk.entry, a.adapters.(captures := RetainedCheckpoints(disk)), log, b.segment,
                                    b.assessment));
  }

  lemma CheckedReady(disk: Disk, log: seq<Event>, f: Fence, hb: Event, b: Bundle, a: Answers, v: Reading)
    requires Chained(log, disk.entry.runId) && f.beforeSeq < |log| && log[f.beforeSeq] == hb
    requires v.captures == Captures(disk.objects, disk.inventory) && Judged(disk.entry, log, b, a, v)
    requires CommitCheck(disk.entry, log, f, hb, b, a, v).Pass?
    ensures |log| == f.beforeSeq + 1 && a.events && BundleReady(disk, log, f, hb, b, a)
  {
    assert b.events != [];
    BindingExact(disk.entry, log, f, hb, b);
    StartExact(disk, log, b);
    ClockExact(b.events, v.captures[b.intent.checkpoint]);
    assert InOrder(f, hb, b.events);
    ChainExact(log, disk.entry.runId, f, hb, b.events);
    StopExact(disk, f, hb, b.intent, b.events[0]);
    if b.intent.sealed {
      SealExact(disk, log, f, b, a, v);
    }
  }

  lemma ReadyChecked(disk: Disk, log: seq<Event>, f: Fence, hb: Event, b: Bundle, a: Answers, v: Reading)
    requires Chained(log, disk.entry.runId) && |log| == f.beforeSeq + 1 && log[f.beforeSeq] == hb
    requires v.captures == Captures(disk.objects, disk.inventory) && Judged(disk.entry, log, b, a, v)
    requires a.events && BundleReady(disk, log, f, hb, b, a)
    ensures CommitCheck(disk.entry, log, f, hb, b, a, v).Pass?
  {
    BindingExact(disk.entry, log, f, hb, b);
    CaptureExact(disk, b.intent.checkpoint);
    if b.intent.sealed {
      SealExact(disk, log, f, b, a, v);
    }
    StartExact(disk, log, b);
    ClockExact(b.events, v.captures[b.intent.checkpoint]);
    StopExact(disk, f, hb, b.intent, b.events[0]);
    assert InOrder(f, hb, b.events);
    ChainExact(log, disk.entry.runId, f, hb, b.events);
  }

  // ---- the files, and the whole ----

  lemma ReferencesExact(disk: Disk, b: Bundle)
    ensures References(disk, b) <==>
            && Retained(disk, b.intent.checkpoint) && Retained(disk, b.intent.evaluation)
            && (forall x :: x in b.segment.evidence ==> Retained(disk, x))
            && (forall x :: x in b.assessment.evidence ==> Retained(disk, x))
  {
    var i := b.intent;
    assert IntentRefs(i)[0] == i.checkpoint && IntentRefs(i)[1] == i.evaluation;
    assert forall x :: x in IntentRefs(i) <==> x == i.checkpoint || x == i.evaluation;
  }

  lemma FilesExact(disk: Disk, f: Fence, b: Bundle)
    ensures FilesReady(disk, f, b) <==>
            && (FenceSha(f) in disk.intents ==> disk.intents[FenceSha(f)] == b.intent) && References(disk, b)
            && (f.segmentId in disk.terminals ==> disk.terminals[f.segmentId] == ManifestOf(f, b, Live(disk)))
  {
    ReferencesExact(disk, b);
  }

  /** What is left to ask for once the heartbeat is in the log. */
  ghost predicate ReadyAttached(disk: Disk, f: Fence, b: Bundle, a: Answers) {
    && FenceSha(f) in disk.heartbeats && FenceSha(f) !in disk.aborts && |disk.log| == f.beforeSeq + 1
    && a.events && a.fence && BundleReady(disk, disk.log, f, disk.heartbeats[FenceSha(f)], b, a)
    && FilesReady(disk, f, b) && |disk.log| + |b.events| <= 2147483647
  }

  lemma BundleReadyStays(disk: Disk, next: Disk, log: seq<Event>, f: Fence, hb: Event, b: Bundle, a: Answers)
    requires next == disk.(log := next.log)
    ensures BundleReady(next, log, f, hb, b, a) <==> BundleReady(disk, log, f, hb, b, a)
  {
    assert RetainedCheckpoints(next) == RetainedCheckpoints(disk);
    forall e ensures Started(next, b.intent, b.segment, e) <==> Started(disk, b.intent, b.segment, e) {
    }
  }

  lemma FilesReadyStay(disk: Disk, next: Disk, f: Fence, b: Bundle)
    requires next == disk.(log := next.log)
    ensures FilesReady(next, f, b) <==> FilesReady(disk, f, b)
  {
  }

  /** `commit` is ready exactly when the heartbeat can be put in its place and the rest is ready then. */
  lemma AttachedReady(disk: Disk, mid: Disk, f: Fence, b: Bundle, a: Answers)
    requires disk.fence == Some(f) && f.beforeSeq <= |disk.log|
    requires mid == disk.(log := AttachedLog(TenureOf(disk, f), disk.log))
    ensures CommitReady(disk, b, a) <==>
            Attachable(TenureOf(disk, f), disk.entry.runId, disk.log) && ReadyAttached(mid, f, b, a)
  {
    if FenceSha(f) in disk.heartbeats {
      var hb := disk.heartbeats[FenceSha(f)];
      assert mid.log == HeartbeatLog(disk, f, hb);
      BundleReadyStays(disk, mid, mid.log, f, hb, b, a);
      FilesReadyStay(disk, mid, f, b);
    }
  }

  // ---- heartbeat ----

  /** Everything `heartbeat` asks for. */
  predicate HeartbeatReady(disk: Disk, e: Event) {
    && disk.fence.Some?
    && var f, d := disk.fence.value, Sha(FenceBytes(disk.fence.value));
    && e.kind == Heartbeat && e.checkpoint != None && e.segmentId == Some(f.segmentId)
    && e.number == f.beforeSeq && e.previous == f.beforeHead
    && (d in disk.heartbeats ==> disk.heartbeats[d] == e) && HeartbeatPlaced(disk, f, e)
  }

  lemma HeartbeatExact(disk: Disk, f: Fence, e: Event)
    requires Stands(TenureOf(disk, f), disk.entry.runId, disk.log) && HeartbeatSound(f, e)
    ensures Append(disk.log, disk.entry.runId, e).Ok? <==> HeartbeatPlaced(disk, f, e)
  {
    assert |disk.log| == f.beforeSeq ==> disk.log[..f.beforeSeq] == disk.log;
  }

  // ---- abort ----

  /** The intent of an abort fits the fence, its heartbeat and a logged start event. */
  ghost predicate AbortIntentFits(disk: Disk, f: Fence, log: seq<Event>, i: SealIntent) {
    && Sha(FenceBytes(f)) in disk.heartbeats
    && var hb := disk.heartbeats[Sha(FenceBytes(f))];
    && hb.checkpoint == Some(i.checkpoint) && i.checkpointEvent == Sha(EventBytes(hb))
    && i.segmentId == f.segmentId && i.entry == disk.entry.digest
    && exists e :: e in log && i.startEvent == Sha(EventBytes(e)) && Began(e, f.segmentId)
  }

  predicate Began(e: Event, segmentId: string) {
    e.kind == SegmentStart && e.segmentId == Some(segmentId)
  }

  /** The intent an abort records: the one already retained, which a given one must repeat, or else the given one. */
  predicate AbortIntent(disk: Disk, f: Fence, given: Option<SealIntent>, intent: Option<SealIntent>) {
    var d := Sha(FenceBytes(f));
    if d in disk.intents then intent == Some(disk.intents[d]) && (given == None || given == intent)
    else intent == given
  }

  /** Everything `abort` asks for, with the heartbeat already in the log. */
  ghost predicate AbortReadyAttached(
    disk: Disk, f: Fence, reason: string, given: Option<SealIntent>, intent: Option<SealIntent>, a: Answers) {
    var d := Sha(FenceBytes(f));
    && f.segmentId !in disk.terminals && AbortIntent(disk, f, given, intent) && a.fence
    && (intent.Some? ==> a.events && AbortIntentFits(disk, f, disk.log, intent.value))
    && (d in disk.aborts ==>
          disk.aborts[d] ==
          Abort(d, if intent.Some? then Some(Sha(IntentBytes(intent.value))) else None, reason))
  }

  /** Everything `abort` asks for: no manifest, a place for any heartbeat, a fitting intent, and no other abort. */
  ghost predicate AbortReady(
    disk: Disk, reason: string, given: Option<SealIntent>, intent: Option<SealIntent>, a: Answers) {
    && disk.fence.Some?
    && var f := disk.fence.value;
    var d := Sha(FenceBytes(f));
    && (d in disk.heartbeats ==> HeartbeatPlaced(disk, f, disk.heartbeats[d]))
    && var log := if d in disk.heartbeats then HeartbeatLog(disk, f, disk.heartbeats[d]) else disk.log;
    AbortReadyAttached(disk.(log := log), f, reason, given, intent, a)
  }

  lemma BeganExact(log: seq<Event>, start: Digest, segmentId: string)
    ensures StartsIn(log, start, segmentId, false) <==>
            exists e :: e in log && start == Sha(EventBytes(e)) && Began(e, segmentId)
  {
    if StartsIn(log, start, segmentId, false) {
      var k :| 0 <= k < |log| && EventSha(log[k]) == start && IsStart(log[k], segmentId, false);
      assert log[k] in log && Began(log[k], segmentId);
    }
    if e :| e in log && start == Sha(EventBytes(e)) && Began(e, segmentId) {
      var k :| 0 <= k < |log| && log[k] == e;
      assert EventSha(log[k]) == start && IsStart(log[k], segmentId, false);
    }
  }

  lemma AbortExact(
    disk: Disk, f: Fence, reason: string, given: Option<SealIntent>, intent: Option<SealIntent>, a: Answers)
    requires intent == Chosen(Lookup(disk.intents, FenceSha(f)), given)
    ensures AbortReadyAttached(disk, f, reason, given, intent, a) <==>
            && f.segmentId !in disk.terminals
            && AbortCheck(disk.entry, disk.log, f, Lookup(disk.heartbeats, FenceSha(f)),
                          Lookup(disk.intents, FenceSha(f)), given, a).Pass?
            && (FenceSha(f) in disk.aborts ==> disk.aborts[FenceSha(f)] == AbortOf(f, intent, reason))
  {
    if intent.Some? {
      BeganExact(disk.log, intent.value.startEvent, f.segmentId);
    }
  }

  lemma AttachedAbort(
    disk: Disk, mid: Disk, f: Fence, reason: string, given: Option<SealIntent>, intent: Option<SealIntent>, a: Answers)
    requires disk.fence == Some(f) && f.beforeSeq <= |disk.log|
    requires mid == disk.(log := AttachedLog(TenureOf(disk, f), disk.log))
    ensures AbortReady(disk, reason, given, intent, a) <==>
            Attachable(TenureOf(disk, f), disk.entry.runId, disk.log)
            && AbortReadyAttached(mid, f, reason, given, intent, a)
  {
    if FenceSha(f) in disk.heartbeats {
      assert mid.log == HeartbeatLog(disk, f, disk.heartbeats[FenceSha(f)]);
    } else {
      assert disk.log + [] == disk.log;
    }
  }
}
