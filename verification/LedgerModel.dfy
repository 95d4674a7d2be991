/** The acceptance ledger's files and the atomic writes that change them (src/heterodyne/acceptance/ledger.py). */
module LedgerModel {
  import opened Outcomes
  import opened AcceptanceRecords
  import Evaluators

  /** Bounds from ledger.py:22-23. */
  const MaxSpool := 1024
  const MaxObjects := 100_000

  /**
    * The ledger directory, one field for each family of files. A family is a map from the varying part of the
    * file name to the record it holds; `events/` is the sequence of its numbered files; `objects/` and `spool/`
    * are content-addressed. Only `fence.json` and `release-retry.json` are ever unlinked.
    */
  datatype Disk = Disk(
    entry: Entry,
    log: seq<Event>,
    fence: Option<Fence>,
    retry: Option<Digest>,
    heartbeats: map<Digest, Event>,
    intents: map<Digest, SealIntent>,
    terminals: map<string, Manifest>,
    completes: map<Digest, Manifest>,
    aborts: map<Digest, Abort>,
    programs: map<Digest, ReleaseProgram>,
    receipts: map<Digest, Release>,
    objects: set<Content>,
    inventory: map<string, Artifact>,
    spool: set<Digest>,
    retired: map<Digest, Digest>)

  function Created(entry: Entry): Disk {
    Disk(entry, [], None, None, map[], map[], map[], map[], map[], map[], map[], {}, map[], {}, map[])
  }

  // ---- reading ----

  predicate Bound(objects: set<Content>, inventory: map<string, Artifact>, refs: seq<Artifact>) {
    forall a :: a in refs ==> a.id in inventory && inventory[a.id] == a && a.sha.content in objects
  }

  // ---- what a sealed manifest rests on ----

  /** The checkpoints the inventory retains, by the artifact that names them. */
  function Captures(objects: set<Content>, inventory: map<string, Artifact>): map<Artifact, Checkpoint> {
    map a | a in inventory.Values && Captured(objects, inventory, a) :: a.sha.content.checkpoint
  }

  predicate Captured(objects: set<Content>, inventory: map<string, Artifact>, a: Artifact) {
    a.id in inventory && inventory[a.id] == a && a.sha.content in objects && a.sha.content.CheckpointBytes?
  }

  /** Every checkpoint the evidence uses is the retained content of the artifact that names it. */
  ghost predicate FromInventory(ev: Evaluators.Evidence, objects: set<Content>, inventory: map<string, Artifact>) {
    forall a :: a in ev.captures ==> Captured(objects, inventory, a) && ev.captures[a] == a.sha.content.checkpoint
  }

  /** The log qualifies this segment, on retained checkpoints, for the stated duration. */
  ghost predicate QualifiedLog(
    entry: Entry, objects: set<Content>, inventory: map<string, Artifact>, log: seq<Event>, segment: Segment,
    assessment: Assessment) {
    exists ev, s :: QualifiedBy(entry, objects, inventory, log, segment, assessment, ev, s)
  }

  ghost predicate QualifiedBy(
    entry: Entry, objects: set<Content>, inventory: map<string, Artifact>, log: seq<Event>, segment: Segment,
    assessment: Assessment, ev: Evaluators.Evidence, s: nat) {
    && FromInventory(ev, objects, inventory) && segment.duration.Some?
    && Evaluators.QualifiedFor(segment.duration.value, entry, ev, log, segment.segmentId, assessment.coverage,
                               assessment.additions, assessment.unresolved, s)
  }

  predicate Seals(m: Manifest) {
    && m.intentSha.content.IntentBytes? && m.intentSha.content.intent.sealed
    && |m.objects| == 2 && m.objects[0].content.SegmentBytes? && m.objects[1].content.AssessmentBytes?
  }

  /** Intent, segment record, assessment and terminal events tell one story: a qualified seal, or an interruption. */
  predicate OutcomeAgrees(segmentId: string, i: SealIntent, s: Segment, a: Assessment, events: seq<Event>)
    requires events != []
  {
    && i.segmentId == s.segmentId == segmentId && i.sealed == s.sealed && i.reason == s.reason
    && a.segmentSha == Sha(SegmentBytes(s)) && s.endEvent == Some(EventSha(events[0]))
    && events[0].kind == SegmentStop
    && events[0].stop == Some(Stop(i.reason, i.checkpoint, i.checkpointEvent, i.transactionId))
    && (if i.sealed then
          && |events| == 2 && events[1].kind == Qualification
          && i.reason == "none" && a.result == "qualified_pending_archive" && a.unresolved == []
        else |events| == 1 && i.reason != "none" && a.result == "not_qualified")
  }

  function OutcomeGuard(segmentId: string, m: Manifest): Check {
    if !(m.intentSha.content.IntentBytes? && |m.objects| == 2 && m.objects[0].content.SegmentBytes?
         && m.objects[1].content.AssessmentBytes? && m.events != [] && AreEvents(m.events)) then Fail("manifest_shape")
    else if !OutcomeAgrees(segmentId, m.intentSha.content.intent, m.objects[0].content.segment,
                           m.objects[1].content.assessment, Events(m.events)) then Fail("terminal_result")
    else Pass
  }

  /** What a manifest needs: an outcome that agrees, and for a seal a log that qualifies its segment. */
  ghost function SealGuard(
    entry: Entry, objects: set<Content>, inventory: map<string, Artifact>, log: seq<Event>, segmentId: string,
    m: Manifest): Check {
    if OutcomeGuard(segmentId, m).Fail? then OutcomeGuard(segmentId, m)
    else if Seals(m)
            && !QualifiedLog(entry, objects, inventory, log, m.objects[0].content.segment,
                             m.objects[1].content.assessment) then Fail("terminal_qualification")
    else Pass
  }

  /** A manifest's outcome agrees, and one that seals its segment was committed over a log that qualifies it. */
  ghost predicate SealHolds(
    entry: Entry, objects: set<Content>, inventory: map<string, Artifact>, log: seq<Event>, segmentId: string,
    m: Manifest) {
    SealGuard(entry, objects, inventory, log, segmentId, m).Pass?
  }

  function IntentRefs(i: SealIntent): seq<Artifact> {
    [i.checkpoint, i.evaluation]
  }

  predicate Stored(objects: set<Content>, ds: seq<Digest>) {
    forall d :: d in ds ==> d.content in objects
  }

  /** `_spool_ids`: envelopes no receipt has retired. */
  function Live(disk: Disk): set<Digest> {
    disk.spool - disk.retired.Keys
  }

  // ---- what belongs to one fence ----

  /** Everything on disk that belongs to one fence. */
  datatype Tenure = Tenure(
    fence: Fence, heartbeat: Option<Event>, terminal: Option<Manifest>, complete: Option<Manifest>,
    aborted: bool, program: Option<ReleaseProgram>, receipt: Option<Release>)
  {
    function Sha(): Digest {
      FenceSha(fence)
    }

    /** The manifest's events, when the manifest was committed for this fence. */
    function ManifestEvents(): seq<Event> {
      if terminal.Some? && terminal.value.fenceSha == Sha() then Listed(terminal.value.events) else []
    }

    function HeartbeatEvents(): seq<Event> {
      if heartbeat.Some? then [heartbeat.value] else []
    }

    function ProgramEvents(): seq<Event> {
      if program.Some? then Listed(program.value.release.events) else []
    }
  }

  function TenureOf(disk: Disk, f: Fence): Tenure {
    var d := FenceSha(f);
    Tenure(f, Lookup(disk.heartbeats, d), Lookup(disk.terminals, f.segmentId), Lookup(disk.completes, d),
           d in disk.aborts, Lookup(disk.programs, d), Lookup(disk.receipts, d))
  }

  // ---- the invariant, family by family ----

  /** The standing fence's events come after it in one order: heartbeat, manifest's events, program's events. */
  predicate TailInOrder(t: Tenure, tail: seq<Event>) {
    || tail <= t.HeartbeatEvents() + t.ManifestEvents() + t.ProgramEvents()
    || (t.terminal.None? && tail <= t.ProgramEvents())
  }

  /** Event `i` of a list that follows `e` names the event before it. */
  predicate LinkedAt(e: Event, runId: string, es: seq<Event>, i: nat)
    requires i < |es|
  {
    && es[i].number == e.number + 1 + i && es[i].runId == runId
    && es[i].previous == Some(EventSha(if i == 0 then e else es[i - 1]))
  }

  /** Events that may be appended, one by one, right after `e`. */
  ghost predicate ChainsAfter(e: Event, runId: string, es: seq<Event>) {
    forall i :: 0 <= i < |es| ==> LinkedAt(e, runId, es, i)
  }

  predicate HeartbeatSound(f: Fence, e: Event) {
    && e.kind == Heartbeat && e.checkpoint.Some? && e.segmentId == Some(f.segmentId)
    && e.number == f.beforeSeq && e.previous == f.beforeHead
  }

  /** The committed manifest is this fence's and its events continue the fence's heartbeat. */
  ghost predicate TerminalSound(t: Tenure, runId: string) {
    t.terminal.Some? ==>
      && t.terminal.value.fenceSha == t.Sha() && t.heartbeat.Some? && !t.aborted
      && AreEvents(t.terminal.value.events) && ChainsAfter(t.heartbeat.value, runId, t.ManifestEvents())
  }

  /** A completed fence has its whole manifest in the log. */
  predicate CompleteSound(t: Tenure, tail: seq<Event>) {
    t.complete.Some? ==>
      && t.complete == t.terminal && t.heartbeat.Some?
      && [t.heartbeat.value] + t.ManifestEvents() <= tail
  }

  /** Reconciled events belong to no segment. */
  predicate Unowned(es: seq<Event>) {
    forall i :: 0 <= i < |es| ==> es[i].segmentId.None?
  }

  /** A release program starts where the fence's own events ended. */
  predicate ProgramSound(t: Tenure, tail: seq<Event>) {
    t.program.Some? ==>
      var n := t.program.value.beforeSeq - t.fence.beforeSeq;
      && (t.complete.Some? || t.aborted) && Unowned(t.ProgramEvents())
      && 0 <= n <= |tail|
      && (tail[..n] == t.HeartbeatEvents() + t.ManifestEvents() || (n == 0 && t.terminal.None?))
  }

  /** A receipt says that the program's events are in the log. */
  predicate ReceiptSound(t: Tenure, tail: seq<Event>) {
    t.receipt.Some? ==>
      && t.program.Some? && t.receipt.value == t.program.value.release
      && var n := t.program.value.beforeSeq - t.fence.beforeSeq;
      0 <= n <= |tail| && t.ProgramEvents() <= tail[n..]
  }

  ghost predicate TenureSound(t: Tenure, runId: string, tail: seq<Event>) {
    && TailInOrder(t, tail)
    && (t.heartbeat.Some? ==> HeartbeatSound(t.fence, t.heartbeat.value))
    && (t.terminal.Some? ==> tail != [])
    && TerminalSound(t, runId) && CompleteSound(t, tail) && ProgramSound(t, tail) && ReceiptSound(t, tail)
  }

  ghost predicate FenceSound(disk: Disk) {
    disk.fence.Some? ==>
      var f := disk.fence.value;
      && f.beforeSeq <= |disk.log|
      && f.beforeHead == Head(disk.log[..f.beforeSeq])
      && TenureSound(TenureOf(disk, f), disk.entry.runId, disk.log[f.beforeSeq..])
  }

  /** A manifest as `commit` builds it: everything it names was stored first. */
  ghost predicate ManifestStored(objects: set<Content>, inventory: map<string, Artifact>, m: Manifest) {
    && |m.objects| == 2 && 1 <= |m.events| <= 2 && AreEvents(m.events)
    && m.intentSha.content.IntentBytes? && m.objects[0].content.SegmentBytes? && m.objects[1].content.AssessmentBytes?
    && ManifestBytes(m) in objects && Stored(objects, [m.intentSha] + m.objects + m.events)
    && Bound(objects, inventory, IntentRefs(m.intentSha.content.intent))
    && Bound(objects, inventory, m.objects[0].content.segment.evidence)
    && Bound(objects, inventory, m.objects[1].content.assessment.evidence)
  }

  ghost predicate FilesStored(
    objects: set<Content>, inventory: map<string, Artifact>, heartbeats: map<Digest, Event>,
    terminals: map<string, Manifest>, programs: map<Digest, ReleaseProgram>)
  {
    && (forall d :: d in heartbeats ==> EventBytes(heartbeats[d]) in objects)
    && (forall s :: s in terminals ==> ManifestStored(objects, inventory, terminals[s]))
    && (forall d :: d in programs ==>
                      Stored(objects, programs[d].release.events) && AreEvents(programs[d].release.events))
  }

  /** No fence has both an abort and a terminal manifest; a manifest belongs to a fence over its own segment. */
  ghost predicate AbortsExclusive(terminals: map<string, Manifest>, aborts: map<Digest, Abort>) {
    forall s :: s in terminals ==>
                  && terminals[s].fenceSha !in aborts
                  && terminals[s].fenceSha.content.FenceBytes? && terminals[s].fenceSha.content.fence.segmentId == s
  }

  /** Every spooled envelope is kept, retired at most once, and only by the receipt that names it. */
  ghost predicate SpoolSound(
    active: Option<Digest>, programs: map<Digest, ReleaseProgram>, receipts: map<Digest, Release>,
    spool: set<Digest>, retired: map<Digest, Digest>)
  {
    && (forall x :: x in retired ==> x in spool && retired[x] in receipts && x in receipts[retired[x]].spoolIds)
    && (forall d :: d in receipts ==> d in programs && receipts[d] == programs[d].release)
    && (forall d :: d in programs ==> programs[d].release.fenceSha == d && programs[d].release.spoolIds <= spool)
    && (forall d :: d in programs && active != Some(d) ==>
                      d in receipts && RetiredBy(retired, d, programs[d].release.spoolIds))
    && (forall d, e :: d in programs && e in programs && d != e ==>
                         programs[d].release.spoolIds !! programs[e].release.spoolIds)
  }

  /** Each committed seal holds of the log up to its heartbeat. */
  ghost predicate SealsSound(
    entry: Entry, objects: set<Content>, inventory: map<string, Artifact>, log: seq<Event>,
    heartbeats: map<Digest, Event>, terminals: map<string, Manifest>) {
    forall s :: s in terminals ==> SealSound(entry, objects, inventory, log, heartbeats, s, terminals[s])
  }

  ghost predicate SealSound(
    entry: Entry, objects: set<Content>, inventory: map<string, Artifact>, log: seq<Event>,
    heartbeats: map<Digest, Event>, segmentId: string, m: Manifest) {
    && m.fenceSha in heartbeats && heartbeats[m.fenceSha].number < |log|
    && SealHolds(entry, objects, inventory, log[..heartbeats[m.fenceSha].number + 1], segmentId, m)
  }

  predicate RetiredBy(retired: map<Digest, Digest>, d: Digest, ids: set<Digest>) {
    forall x :: x in ids ==> x in retired && retired[x] == d
  }

  /** Every release program was checked to continue the chain from where it starts. */
  ghost predicate ProgramsChained(log: seq<Event>, runId: string, programs: map<Digest, ReleaseProgram>) {
    forall d :: d in programs ==> programs[d].beforeSeq <= |log| && ProgramChained(log, runId, programs[d])
  }

  ghost predicate ProgramChained(log: seq<Event>, runId: string, p: ReleaseProgram)
    requires p.beforeSeq <= |log|
  {
    Chained(log[..p.beforeSeq] + Listed(p.release.events), runId)
  }

  function ActiveSha(disk: Disk): Option<Digest> {
    if disk.fence.Some? then Some(FenceSha(disk.fence.value)) else None
  }

  ghost predicate Inv(disk: Disk) {
    && Chained(disk.log, disk.entry.runId) && ProgramsChained(disk.log, disk.entry.runId, disk.programs)
    && FilesStored(disk.objects, disk.inventory, disk.heartbeats, disk.terminals, disk.programs)
    && AbortsExclusive(disk.terminals, disk.aborts)
    && SealsSound(disk.entry, disk.objects, disk.inventory, disk.log, disk.heartbeats, disk.terminals)
    && FenceSound(disk)
    && SpoolSound(ActiveSha(disk), disk.programs, disk.receipts, disk.spool, disk.retired)
    && |Live(disk)| <= MaxSpool && |disk.spool| <= MaxObjects
  }

  // ---- atomic writes ----

  /**
    * One atomic write: a file created, an event file numbered next, or one of the two unlinks. A crash falls between
    * moves.
    */
  datatype Move =
    | AppendFree(event: Event)
    | PutObject(content: Content)
    | PutInventory(artifact: Artifact)
    | PutSpool(id: Digest)
    | PutFence(fence: Fence)
    | DropRetry
    | PutHeartbeat(event: Event)
    | LogHeartbeat
    | PutIntent(intent: SealIntent)
    | PutManifest(manifest: Manifest)
    | LogManifest
    | PutComplete
    | PutAbort(abort: Abort)
    | PutProgram(program: ReleaseProgram)
    | LogProgram
    | PutReceipt
    | PutRetry
    | PutRetired(id: Digest)
    | DropFence

  /** `uuid4` never repeats: nothing on disk belongs to a new fence yet. */
  predicate Unused(disk: Disk, d: Digest) {
    && d !in disk.heartbeats && d !in disk.intents && d !in disk.completes && d !in disk.aborts
    && d !in disk.programs && d !in disk.receipts
  }

  /** The heartbeat file, if any, is already in the log. */
  predicate HeartbeatLogged(t: Tenure, log: seq<Event>) {
    t.heartbeat.Some? ==> t.fence.beforeSeq < |log| && log[t.fence.beforeSeq] == t.heartbeat.value
  }

  /** When a write may be made, by the operation that makes it. */
  ghost predicate Enabled(disk: Disk, m: Move) {
    Guard(disk, m).Pass?
  }

  ghost function Guard(disk: Disk, m: Move): Check {
    match m
    case AppendFree(e) => Need(disk.fence.None? && Extends(disk.log, disk.entry.runId, e), "append")
    case PutObject(_) => Pass
    case PutInventory(a) => Need(a.id !in disk.inventory && a.sha.content in disk.objects, "retain")
    case PutSpool(x) => Need(x in disk.spool || (|Live(disk)| < MaxSpool && |disk.spool| < MaxObjects), "spool")
    case PutFence(f) =>
      Need(
        && disk.fence.None? && f.segmentId !in disk.terminals && Unused(disk, FenceSha(f))
        && f.beforeSeq == |disk.log| && f.beforeHead == Head(disk.log), "begin")
    case _ => if disk.fence.None? then Fail("no_active_fence")
    else FencedGuard(disk, TenureOf(disk, disk.fence.value), m)
  }

  /** Writes made while the fence of tenure `t` stands. */
  ghost function FencedGuard(disk: Disk, t: Tenure, m: Move): Check {
    match m
    case DropRetry => Pass
    case PutHeartbeat(e) => Need(t.heartbeat.None? && HeartbeatSound(t.fence, e)
                                 && EventBytes(e) in disk.objects, "heartbeat")
    case LogHeartbeat =>
      Need(t.heartbeat.Some? && |disk.log| == t.fence.beforeSeq
           && Extends(disk.log, disk.entry.runId, t.heartbeat.value), "fence")
    case PutIntent(_) => Need(t.Sha() !in disk.intents, "intent")
    case PutManifest(x) =>
      Need(
        && t.terminal.None? && !t.aborted && t.heartbeat.Some?
        && |disk.log| == t.fence.beforeSeq + 1 && HeartbeatLogged(t, disk.log)
        && x.fenceSha == t.Sha() && AreEvents(x.events)
        && ChainsAfter(t.heartbeat.value, disk.entry.runId, Events(x.events))
        && ManifestStored(disk.objects, disk.inventory, x)
        && SealHolds(disk.entry, disk.objects, disk.inventory, disk.log, t.fence.segmentId, x), "commit")
    case LogManifest =>
      Need(
        t.terminal.Some? && t.fence.beforeSeq < |disk.log| < t.fence.beforeSeq + 1 + |t.ManifestEvents()|
        && |disk.log| < MaxEvents, "complete")
    case PutComplete =>
      Need(
        && t.terminal.Some? && t.complete.None?
        && |disk.log| == t.fence.beforeSeq + 1 + |t.ManifestEvents()|, "complete")
    case PutAbort(a) => Need(t.terminal.None? && !t.aborted && a.fenceSha == t.Sha(), "abort")
    case PutProgram(p) =>
      Need(
        && (t.complete.Some? || t.aborted) && t.program.None? && HeartbeatLogged(t, disk.log)
        && p.beforeSeq == |disk.log| && p.release.fenceSha == t.Sha() && p.release.spoolIds == Live(disk)
        && AreEvents(p.release.events) && Unowned(Events(p.release.events)) && Stored(disk.objects, p.release.events)
        && ProgramChained(disk.log, disk.entry.runId, p), "release")
    case LogProgram =>
      Need(
        && t.program.Some? && var k := |disk.log| - t.program.value.beforeSeq;
                           && 0 <= k < |t.ProgramEvents()|
                           && disk.log[t.program.value.beforeSeq..] == t.ProgramEvents()[..k]
                           && Extends(disk.log, disk.entry.runId, t.ProgramEvents()[k]), "release")
    case PutReceipt =>
      Need(
        && t.program.Some? && t.receipt.None? && t.program.value.beforeSeq <= |disk.log|
        && disk.log[t.program.value.beforeSeq..] == t.ProgramEvents(), "release")
    case PutRetry => Need(t.receipt.Some? && disk.retry.None?, "release")
    case PutRetired(x) => Need(t.receipt.Some? && x in t.receipt.value.spoolIds && x !in disk.retired, "release")
    case DropFence =>
      Need(t.receipt.Some? && disk.retry == Some(t.Sha())
           && RetiredBy(disk.retired, t.Sha(), t.receipt.value.spoolIds), "release")
    case _ => Fail("unfenced_write")
  }

  function Next(disk: Disk, m: Move): Disk
    requires Enabled(disk, m)
  {
    match m
    case AppendFree(e) => disk.(log := disk.log + [e])
    case PutObject(c) => disk.(objects := disk.objects + {c})
    case PutInventory(a) => disk.(inventory := disk.inventory[a.id := a])
    case PutSpool(x) => disk.(spool := disk.spool + {x})
    case PutFence(f) => disk.(fence := Some(f))
    case _ => NextFenced(disk, TenureOf(disk, disk.fence.value), m)
  }

  function NextFenced(disk: Disk, t: Tenure, m: Move): Disk
    requires FencedGuard(disk, t, m).Pass?
  {
    match m
    case DropRetry => disk.(retry := None)
    case PutHeartbeat(e) => disk.(heartbeats := disk.heartbeats[t.Sha() := e])
    case LogHeartbeat => disk.(log := disk.log + [t.heartbeat.value])
    case PutIntent(i) => disk.(intents := disk.intents[t.Sha() := i])
    case PutManifest(x) => disk.(terminals := disk.terminals[t.fence.segmentId := x])
    case LogManifest => disk.(log := disk.log + [t.ManifestEvents()[|disk.log| - t.fence.beforeSeq - 1]])
    case PutComplete => disk.(completes := disk.completes[t.Sha() := t.terminal.value])
    case PutAbort(a) => disk.(aborts := disk.aborts[t.Sha() := a])
    case PutProgram(p) => disk.(programs := disk.programs[t.Sha() := p])
    case LogProgram => disk.(log := disk.log + [t.ProgramEvents()[|disk.log| - t.program.value.beforeSeq]])
    case PutReceipt => disk.(receipts := disk.receipts[t.Sha() := t.program.value.release])
    case PutRetry => disk.(retry := Some(t.Sha()))
    case PutRetired(x) => disk.(retired := disk.retired[x := t.Sha()])
    case DropFence => disk.(fence := None)
  }
}
