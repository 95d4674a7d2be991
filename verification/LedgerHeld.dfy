/** The three ways a fence can be stuck, each reached by writes that the ledger accepts. */
module LedgerHeld {
  import opened Outcomes
  import opened AcceptanceRecords
  import opened LedgerModel
  import opened LedgerSafety
  import opened LedgerRecovery
  import opened LedgerMoves
  import opened LedgerRelease

  // ---- an empty release of an aborted fence ----

  function EmptyAbort(f: Fence): Abort {
    Abort(FenceSha(f), None, "operator")
  }

  function EmptyProgram(f: Fence): ReleaseProgram {
    ReleaseProgram(Release(FenceSha(f), {}, []), 0)
  }

  ghost predicate Blank(disk: Disk, f: Fence) {
    && disk.log == [] && disk.spool == {} && disk.terminals == map[] && disk.fence.None? && Unused(disk, FenceSha(f))
    && f.beforeSeq == 0 && f.beforeHead == None
  }

  lemma BeginsAndAborts(start: Disk, disk: Disk, f: Fence) returns (end: Disk)
    requires Reaches(start, disk) && Blank(disk, f)
    ensures Reaches(start, end) && end == disk.(fence := Some(f), aborts := disk.aborts[FenceSha(f) := EmptyAbort(f)])
  {
    CanFence(disk, f);
    ReachesNext(start, disk, PutFence(f));
    var fenced := disk.(fence := Some(f));
    CanPutAbort(fenced, f, EmptyAbort(f));
    ReachesNext(start, fenced, PutAbort(EmptyAbort(f)));
    end := fenced.(aborts := disk.aborts[FenceSha(f) := EmptyAbort(f)]);
  }

  /** From an empty, unfenced ledger: begin, abort and the program of a release. */
  lemma StartsRelease(start: Disk, disk: Disk, f: Fence) returns (end: Disk)
    requires Reaches(start, disk) && Blank(disk, f)
    ensures Reaches(start, end)
    ensures end ==
            disk.(fence := Some(f), aborts := disk.aborts[FenceSha(f) := EmptyAbort(f)], programs :=
            disk.programs[FenceSha(f) := EmptyProgram(f)])
  {
    var aborted := BeginsAndAborts(start, disk, f);
    EmptyChains(disk.entry.runId, f);
    ProgramEnabled(aborted, f);
    ReachesNext(start, aborted, PutProgram(EmptyProgram(f)));
    end := aborted.(programs := disk.programs[FenceSha(f) := EmptyProgram(f)]);
  }

  lemma EmptyChains(runId: string, f: Fence)
    ensures ProgramChained([], runId, EmptyProgram(f))
  {
    assert Listed([]) == [];
  }

  lemma ProgramEnabled(disk: Disk, f: Fence)
    requires disk.fence == Some(f) && disk.log == [] && disk.spool == {} && f.beforeSeq == 0
    requires FenceSha(f) in disk.aborts && FenceSha(f) !in disk.programs && FenceSha(f) !in disk.heartbeats
    requires ProgramChained(disk.log, disk.entry.runId, EmptyProgram(f))
    ensures Enabled(disk, PutProgram(EmptyProgram(f)))
  {
  }

  /** The rest of an empty release. */
  lemma EndsRelease(start: Disk, disk: Disk, f: Fence) returns (end: Disk)
    requires Reaches(start, disk) && disk.fence == Some(f) && disk.log == [] && disk.retry.None?
    requires FenceSha(f) !in disk.receipts && Lookup(disk.programs, FenceSha(f)) == Some(EmptyProgram(f))
    ensures Reaches(start, end)
    ensures end ==
            disk.(receipts := disk.receipts[FenceSha(f) := EmptyProgram(f).release], retry :=
            Some(FenceSha(f)), fence := None)
  {
    var d := FenceSha(f);
    ReceiptEnabled(disk, f);
    ReachesNext(start, disk, PutReceipt);
    var received := disk.(receipts := disk.receipts[d := EmptyProgram(f).release]);
    CanPutRetry(received, f);
    ReachesNext(start, received, PutRetry);
    var pointed := received.(retry := Some(d));
    CanDropFence(pointed, f);
    ReachesNext(start, pointed, DropFence);
    end := pointed.(fence := None);
  }

  lemma ReceiptEnabled(disk: Disk, f: Fence)
    requires disk.fence == Some(f) && disk.log == []
    requires FenceSha(f) !in disk.receipts && Lookup(disk.programs, FenceSha(f)) == Some(EmptyProgram(f))
    ensures Enabled(disk, PutReceipt)
    ensures Next(disk, PutReceipt) == disk.(receipts := disk.receipts[FenceSha(f) := EmptyProgram(f).release])
  {
    assert Listed([]) == [];
  }

  lemma StaleRetryHolds(disk: Disk, f: Fence)
    requires Inv(disk) && disk.fence == Some(f) && Lookup(disk.programs, FenceSha(f)) == Some(EmptyProgram(f))
    requires disk.retry.Some? && disk.retry.value != FenceSha(f)
    ensures Accepts(disk, FenceSha(f), [], Oracle(true, true)) && Released(disk, [], Oracle(true, true)).Refused?
  {
    assert Digests([]) == [];
    ReleaseExact(disk, f, TenureOf(disk, f), [], Oracle(true, true));
  }

  /** Release an aborted fence; `begin` then stops between writing its fence and removing the old retry pointer. */
  lemma StaleRetryReachable(entry: Entry) returns (disk: Disk, f: Fence)
    ensures Reaches(Created(entry), disk)
    ensures disk.fence == Some(f) && disk.retry.Some? && disk.retry.value != FenceSha(f)
    ensures Accepts(disk, FenceSha(f), [], Oracle(true, true)) && Released(disk, [], Oracle(true, true)).Refused?
  {
    var first := Fence("segment", "1", None, 0);
    f := Fence("segment", "2", None, 0);
    assert FenceSha(first) != FenceSha(f);
    ReachesSelf(Created(entry));
    var started := StartsRelease(Created(entry), Created(entry), first);
    var freed := EndsRelease(Created(entry), started, first);
    disk := StartsRelease(Created(entry), freed, f);
    ReachedSound(entry, disk);
    StaleRetryHolds(disk, f);
  }

  // ---- a heartbeat after the program ----

  /** A heartbeat for a fence over an empty log. */
  function FirstHeartbeat(runId: string, f: Fence): Event {
    Event(0, runId, Some(f.segmentId), None, Heartbeat, Some(Artifact("checkpoint", Sha(RawBytes("")))), None, "boot",
          0, 0, Automatic, [], "")
  }

  /** The object of a heartbeat, then its file, as `heartbeat` writes them before it appends the event. */
  lemma AddsHeartbeat(start: Disk, disk: Disk, f: Fence, e: Event) returns (end: Disk)
    requires Reaches(start, disk) && disk.fence == Some(f) && FenceSha(f) !in disk.heartbeats && HeartbeatSound(f, e)
    ensures Reaches(start, end)
    ensures end == disk.(objects := disk.objects + {EventBytes(e)}, heartbeats := disk.heartbeats[FenceSha(f) := e])
  {
    CanPutObject(disk, EventBytes(e));
    ReachesNext(start, disk, PutObject(EventBytes(e)));
    var stored := disk.(objects := disk.objects + {EventBytes(e)});
    CanPutHeartbeat(stored, f, e);
    ReachesNext(start, stored, PutHeartbeat(e));
    end := stored.(heartbeats := disk.heartbeats[FenceSha(f) := e]);
  }

  /** From then on no accepted `release` of the fence finishes, whatever else is written. */
  lemma LateHeartbeatHolds(disk: Disk, next: Disk, f: Fence, requested: seq<Event>, o: Oracle)
    requires Inv(disk) && Reaches(disk, next) && next.fence == Some(f)
    requires FenceSha(f) in disk.heartbeats && FenceSha(f) in disk.programs
    requires disk.programs[FenceSha(f)].beforeSeq == f.beforeSeq
    requires Accepts(next, FenceSha(f), requested, o)
    ensures Released(next, requested, o).Refused?
  {
    GrowsSelf(disk);
    ReachesKeeps(disk, next);
    ReleaseExact(next, f, TenureOf(next, f), requested, o);
  }

  /** Abort a fence, write its release program, then attach a heartbeat: accepted, and the release never finishes. */
  lemma LateHeartbeatReachable(entry: Entry) returns (disk: Disk, f: Fence)
    ensures Reaches(Created(entry), disk)
    ensures disk.fence == Some(f) && disk.retry.None? && FenceSha(f) in disk.heartbeats
    ensures Accepts(disk, FenceSha(f), [], Oracle(true, true)) && Released(disk, [], Oracle(true, true)).Refused?
  {
    f := Fence("segment", "1", None, 0);
    ReachesSelf(Created(entry));
    var started := StartsRelease(Created(entry), Created(entry), f);
    disk := AddsHeartbeat(Created(entry), started, f, FirstHeartbeat(entry.runId, f));
    ReachedSound(entry, disk);
    assert Digests([]) == [];
    ReachesSelf(disk);
    LateHeartbeatHolds(disk, disk, f, [], Oracle(true, true));
  }

  // ---- a heartbeat of another run ----

  /** A heartbeat file of another run holds every operation that reads the fence, whatever else is written. */
  lemma ForeignHeartbeatHolds(disk: Disk, next: Disk, f: Fence)
    requires Inv(disk) && Reaches(disk, next) && next.fence == Some(f)
    requires FenceSha(f) in disk.heartbeats && disk.heartbeats[FenceSha(f)].runId != disk.entry.runId
    ensures Attached(next).Refused? && Recovered(next).Refused?
    ensures forall requested, o :: Released(next, requested, o).Refused?
  {
    GrowsSelf(disk);
    ReachesKeeps(disk, next);
    var t := TenureOf(next, f);
    FenceStands(next, f);
    AttachedExact(next, f, t);
    assert f.beforeSeq < |next.log| ==> PlacedAt(next.log, next.entry.runId, f.beforeSeq);
    forall requested, o ensures Released(next, requested, o).Refused? {
      ReleasedBy(next, f, requested, o);
    }
  }

  /** `heartbeat` accepts such a file: it checks the event's run only when it appends the event. */
  lemma ForeignHeartbeatReachable(entry: Entry, other: string) returns (disk: Disk, f: Fence)
    requires other != entry.runId
    ensures Reaches(Created(entry), disk) && disk.fence == Some(f)
    ensures FenceSha(f) in disk.heartbeats && disk.heartbeats[FenceSha(f)].runId != disk.entry.runId
    ensures Recovered(disk).Refused? && forall requested, o :: Released(disk, requested, o).Refused?
  {
    f := Fence("segment", "1", None, 0);
    ReachesSelf(Created(entry));
    var aborted := BeginsAndAborts(Created(entry), Created(entry), f);
    disk := AddsHeartbeat(Created(entry), aborted, f, FirstHeartbeat(other, f));
    ReachedSound(entry, disk);
    ReachesSelf(disk);
    ForeignHeartbeatHolds(disk, disk, f);
  }

  // ---- recover after release events ----

  /** The records of a small interrupted commit over an empty log, and one reconciled event. */
  function SmallArtifact(): Artifact {
    Artifact("checkpoint", Sha(RawBytes("")))
  }

  function SmallIntent(entry: Entry, f: Fence, hb: Event): SealIntent {
    SealIntent("transaction", entry.digest, f.segmentId, EventSha(hb), SmallArtifact(), EventSha(hb), SmallArtifact(),
               "operator", false)
  }

  function SmallStop(entry: Entry, f: Fence, hb: Event): Event {
    var stop := Stop("operator", SmallArtifact(), EventSha(hb), "transaction");
    Event(1, entry.runId, Some(f.segmentId), Some(EventSha(hb)), SegmentStop, None, Some(stop), "boot", 0, 0,
          Automatic, [], "")
  }

  function SmallReport(entry: Entry, f: Fence, hb: Event): Event {
    Event(2, entry.runId, None, Some(EventSha(SmallStop(entry, f, hb))), OtherEvent("approval"), None, None, "boot",
          0, 0, Automatic, [], "")
  }

  function SmallSegment(entry: Entry, f: Fence, hb: Event): Segment {
    Segment(entry.runId, f.segmentId, entry.digest, EventSha(hb), Some(EventSha(SmallStop(entry, f, hb))), 0, None,
            None, false, "operator", [])
  }

  function SmallAssessment(entry: Entry, f: Fence, hb: Event): Assessment {
    Assessment(entry.runId, Sha(SegmentBytes(SmallSegment(entry, f, hb))), [], [], SmallArtifact(), [],
               "not_qualified", [])
  }

  function SmallManifest(entry: Entry, f: Fence, hb: Event): Manifest {
    Manifest(Sha(IntentBytes(SmallIntent(entry, f, hb))), FenceSha(f),
             [Sha(SegmentBytes(SmallSegment(entry, f, hb))), Sha(AssessmentBytes(SmallAssessment(entry, f, hb)))],
             [EventSha(SmallStop(entry, f, hb))], {})
  }

  function SmallContents(entry: Entry, f: Fence, hb: Event): seq<Content> {
    [RawBytes(""), IntentBytes(SmallIntent(entry, f, hb)), SegmentBytes(SmallSegment(entry, f, hb)),
     AssessmentBytes(SmallAssessment(entry, f, hb)), EventBytes(SmallStop(entry, f, hb)),
     ManifestBytes(SmallManifest(entry, f, hb)), EventBytes(SmallReport(entry, f, hb))]
  }

  lemma {:induction false} AddsObjects(start: Disk, disk: Disk, cs: seq<Content>) returns (end: Disk)
    requires Reaches(start, disk)
    ensures Reaches(start, end) && end == disk.(objects := disk.objects + set c | c in cs)
    decreases |cs|
  {
    if cs == [] {
      end := disk;
      assert disk.objects + {} == disk.objects;
    } else {
      CanPutObject(disk, cs[0]);
      ReachesNext(start, disk, PutObject(cs[0]));
      end := AddsObjects(start, disk.(objects := disk.objects + {cs[0]}), cs[1..]);
      assert (set c | c in cs) == {cs[0]} + set c | c in cs[1..];
    }
  }

  /** Begin, heartbeat, and everything the small commit names, stored. */
  lemma StoresCommit(entry: Entry, f: Fence, hb: Event) returns (end: Disk)
    requires f == Fence("segment", "1", None, 0) && hb == FirstHeartbeat(entry.runId, f)
    ensures Reaches(Created(entry), end) && end.entry == entry && end.fence == Some(f) && end.log == [hb]
    ensures end.heartbeats == map[FenceSha(f) := hb] && end.terminals == map[] && end.aborts == map[]
    ensures end.completes == map[] && end.programs == map[] && end.spool == {} && end.retired == map[]
    ensures Lookup(end.inventory, "checkpoint") == Some(SmallArtifact())
    ensures forall c :: c in SmallContents(entry, f, hb) ==> c in end.objects
  {
    var start := Created(entry);
    ReachesSelf(start);
    CanFence(start, f);
    ReachesNext(start, start, PutFence(f));
    var held := AddsHeartbeat(start, start.(fence := Some(f)), f, hb);
    LogsHeartbeat(held, f, hb);
    ReachesNext(start, held, LogHeartbeat);
    var stored := AddsObjects(start, held.(log := [hb]), SmallContents(entry, f, hb));
    assert SmallContents(entry, f, hb)[0] in stored.objects;
    CanPutInventory(stored, SmallArtifact());
    ReachesNext(start, stored, PutInventory(SmallArtifact()));
    end := stored.(inventory := stored.inventory["checkpoint" := SmallArtifact()]);
  }

  lemma LogsHeartbeat(disk: Disk, f: Fence, hb: Event)
    requires disk.fence == Some(f) && disk.log == [] && f.beforeSeq == 0
    requires Lookup(disk.heartbeats, FenceSha(f)) == Some(hb)
    requires hb.number == 0 && hb.runId == disk.entry.runId && hb.previous == None
    ensures Enabled(disk, LogHeartbeat) && Next(disk, LogHeartbeat) == disk.(log := [hb])
  {
    assert [] + [hb] == [hb];
  }

  lemma SmallStored(entry: Entry, f: Fence, hb: Event, disk: Disk)
    requires Lookup(disk.inventory, "checkpoint") == Some(SmallArtifact())
    requires forall c :: c in SmallContents(entry, f, hb) ==> c in disk.objects
    ensures ManifestStored(disk.objects, disk.inventory, SmallManifest(entry, f, hb))
  {
    var cs, m := SmallContents(entry, f, hb), SmallManifest(entry, f, hb);
    forall d | d in [m.intentSha] + m.objects + m.events ensures d.content in disk.objects {
      assert d.content in {cs[1], cs[2], cs[3], cs[4]};
    }
    assert cs[0] in disk.objects && cs[5] in disk.objects;
  }

  /** Commit and complete the small manifest. */
  lemma CommitsSmall(start: Disk, disk: Disk, f: Fence, hb: Event) returns (end: Disk)
    requires Reaches(start, disk) && disk.fence == Some(f) && f == Fence("segment", "1", None, 0) && disk.log == [hb]
    requires hb == FirstHeartbeat(disk.entry.runId, f)
    requires Lookup(disk.heartbeats, FenceSha(f)) == Some(hb)
    requires disk.terminals == map[] && disk.aborts == map[] && disk.completes == map[]
    requires Lookup(disk.inventory, "checkpoint") == Some(SmallArtifact())
    requires forall c :: c in SmallContents(disk.entry, f, hb) ==> c in disk.objects
    ensures var m := SmallManifest(disk.entry, f, hb);
            && Reaches(start, end)
            && end == disk.(log := [hb, SmallStop(disk.entry, f, hb)], terminals := map["segment" := m],
                      completes := map[FenceSha(f) := m])
  {
    var m, stop := SmallManifest(disk.entry, f, hb), SmallStop(disk.entry, f, hb);
    SmallStored(disk.entry, f, hb, disk);
    assert Events(m.events) == [stop];
    assert LinkedAt(hb, disk.entry.runId, [stop], 0);
    EnablesManifest(disk, f, m, hb);
    ReachesNext(start, disk, PutManifest(m));
    var committed := disk.(terminals := map["segment" := m]);
    LogsStop(committed, f, m, hb, stop);
    ReachesNext(start, committed, LogManifest);
    var logged := committed.(log := [hb, stop]);
    CompletesSmall(logged, f, m);
    ReachesNext(start, logged, PutComplete);
    end := logged.(completes := map[FenceSha(f) := m]);
  }

  lemma LogsStop(disk: Disk, f: Fence, m: Manifest, hb: Event, stop: Event)
    requires disk.fence == Some(f) && f.beforeSeq == 0 && disk.log == [hb]
    requires Lookup(disk.terminals, f.segmentId) == Some(m)
    requires m.fenceSha == FenceSha(f) && m.events == [EventSha(stop)]
    ensures Enabled(disk, LogManifest) && Next(disk, LogManifest) == disk.(log := [hb, stop])
  {
    assert Events(m.events) == [stop] && [hb] + [stop] == [hb, stop];
  }

  lemma CompletesSmall(disk: Disk, f: Fence, m: Manifest)
    requires disk.fence == Some(f) && f.beforeSeq == 0 && |disk.log| == 2
    requires Lookup(disk.terminals, f.segmentId) == Some(m)
    requires m.fenceSha == FenceSha(f) && |m.events| == 1 && AreEvents(m.events) && disk.completes == map[]
    ensures Enabled(disk, PutComplete) && Next(disk, PutComplete) == disk.(completes := map[FenceSha(f) := m])
  {
  }

  /** Release the completed fence as far as its one event. */
  lemma ReportsSmall(start: Disk, disk: Disk, f: Fence, hb: Event) returns (end: Disk)
    requires Reaches(start, disk) && disk.fence == Some(f) && f.beforeSeq == 0
    requires disk.log == [hb, SmallStop(disk.entry, f, hb)] && hb == FirstHeartbeat(disk.entry.runId, f)
    requires Lookup(disk.heartbeats, FenceSha(f)) == Some(hb) && FenceSha(f) in disk.completes
    requires disk.programs == map[] && disk.spool == {} && disk.retired == map[]
    requires EventBytes(SmallReport(disk.entry, f, hb)) in disk.objects
    ensures Reaches(start, end) && end.entry == disk.entry && end.fence == disk.fence && end.terminals == disk.terminals
    ensures |end.log| == 3
  {
    var report := SmallReport(disk.entry, f, hb);
    var p := ReleaseProgram(Release(FenceSha(f), {}, [EventSha(report)]), 2);
    assert Events(p.release.events) == [report];
    SmallChained(disk.entry, f, hb);
    assert disk.log[..2] + [report] == [hb, SmallStop(disk.entry, f, hb), report];
    WritesProgram(disk, f, hb, p);
    ReachesNext(start, disk, PutProgram(p));
    var programmed := disk.(programs := disk.programs[FenceSha(f) := p]);
    assert programmed.log[2..] == [] == [report][..0] && Digests([report]) == [EventSha(report)];
    CanLogNext(programmed, f, p, [report], 0);
    ReachesNext(start, programmed, LogProgram);
    end := programmed.(log := disk.log + [report]);
  }

  lemma SmallChained(entry: Entry, f: Fence, hb: Event)
    requires hb == FirstHeartbeat(entry.runId, f)
    ensures Chained([hb, SmallStop(entry, f, hb), SmallReport(entry, f, hb)], entry.runId)
  {
    var log := [hb, SmallStop(entry, f, hb), SmallReport(entry, f, hb)];
    assert log[..0] == [] && log[..1] == [hb] && log[..2] == [hb, SmallStop(entry, f, hb)];
    forall i | 0 <= i < 3 ensures PlacedAt(log, entry.runId, i) {
      assert i == 0 || i == 1 || i == 2;
    }
  }

  lemma WritesProgram(disk: Disk, f: Fence, hb: Event, p: ReleaseProgram)
    requires disk.fence == Some(f) && FenceSha(f) in disk.completes && disk.programs == map[] && f.beforeSeq == 0
    requires |disk.log| == 2 && disk.log[0] == hb
    requires Lookup(disk.heartbeats, FenceSha(f)) == Some(hb)
    requires p.beforeSeq == 2 && p.release.fenceSha == FenceSha(f) && p.release.spoolIds == {} && disk.spool == {}
    requires AreEvents(p.release.events) && |p.release.events| == 1 && p.release.events[0].content in disk.objects
    requires Events(p.release.events)[0].segmentId.None? && ProgramChained(disk.log, disk.entry.runId, p)
    ensures Enabled(disk, PutProgram(p))
    ensures Next(disk, PutProgram(p)) == disk.(programs := disk.programs[FenceSha(f) := p])
  {
    assert Live(disk) == {};
  }

  /** Commit, complete, and release as far as one event: from then on `recover` of the fence is refused. */
  lemma RecoverHeldReachable(entry: Entry) returns (disk: Disk, f: Fence)
    ensures Reaches(Created(entry), disk) && disk.fence == Some(f) && f.segmentId in disk.terminals
    ensures Recovered(disk).Refused?
  {
    f := Fence("segment", "1", None, 0);
    var hb := FirstHeartbeat(entry.runId, f);
    var stored := StoresCommit(entry, f, hb);
    var committed := CommitsSmall(Created(entry), stored, f, hb);
    assert SmallContents(entry, f, hb)[6] in stored.objects;
    disk := ReportsSmall(Created(entry), committed, f, hb);
    ReachedSound(entry, disk);
    assert disk.terminals["segment"] == SmallManifest(entry, f, hb);
    RecoverExact(disk, f, TenureOf(disk, f));
  }
}
