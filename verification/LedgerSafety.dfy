/** The ledger's invariant survives every atomic write, so it holds at every crash point of every run. */
module LedgerSafety {
  import opened Outcomes
  import opened AcceptanceRecords
  import opened LedgerModel

  // ---- one fence's tenure: small steps over values ----

  lemma ChainedAppend(log: seq<Event>, runId: string, e: Event)
    requires Chained(log, runId) && Extends(log, runId, e)
    ensures Chained(log + [e], runId)
  {
    var grown := log + [e];
    forall i | 0 <= i < |grown| ensures PlacedAt(grown, runId, i) {
      if i < |log| {
        assert PlacedAt(log, runId, i);
        assert grown[..i] == log[..i];
      } else {
        assert grown[..i] == log;
      }
    }
  }

  /** While a manifest is being appended, the tail is the heartbeat and the manifest's first events. */
  lemma ManifestTail(t: Tenure, runId: string, tail: seq<Event>)
    requires TailInOrder(t, tail) && TerminalSound(t, runId) && t.terminal.Some?
    requires 0 < |tail| <= 1 + |t.ManifestEvents()|
    ensures tail == [t.heartbeat.value] + t.ManifestEvents()[..|tail| - 1]
  {
    var all := [t.heartbeat.value] + t.ManifestEvents() + t.ProgramEvents();
    assert tail == all[..|tail|];
    assert all[..|tail|] == [t.heartbeat.value] + t.ManifestEvents()[..|tail| - 1];
  }

  /** The next manifest event continues the log. */
  lemma ManifestExtends(t: Tenure, runId: string, log: seq<Event>)
    requires t.fence.beforeSeq < |log| < t.fence.beforeSeq + 1 + |t.ManifestEvents()| && |log| < MaxEvents
    requires t.terminal.Some?
    requires TailInOrder(t, log[t.fence.beforeSeq..]) && TerminalSound(t, runId)
    requires HeartbeatSound(t.fence, t.heartbeat.value)
    ensures Extends(log, runId, t.ManifestEvents()[|log| - t.fence.beforeSeq - 1])
  {
    var tail := log[t.fence.beforeSeq..];
    ManifestTail(t, runId, tail);
    var k, man := |tail| - 1, t.ManifestEvents();
    var last := log[|log| - 1];
    assert last == tail[k];
    var e := if k == 0 then t.heartbeat.value else man[k - 1];
    assert LinkedAt(t.heartbeat.value, runId, man, k);
    assert last == e;
  }

  lemma AfterHeartbeatFile(t: Tenure, runId: string, tail: seq<Event>, e: Event)
    requires TenureSound(t, runId, tail) && t.heartbeat.None? && HeartbeatSound(t.fence, e)
    ensures TenureSound(t.(heartbeat := Some(e)), runId, tail)
  {
    assert t.terminal.None?;
    assert t.HeartbeatEvents() + t.ManifestEvents() + t.ProgramEvents() == t.ProgramEvents();
  }

  /** Appending keeps what a prefix of the tail already established. */
  lemma AfterAppend(t: Tenure, runId: string, tail: seq<Event>, e: Event)
    requires TenureSound(t, runId, tail) && TailInOrder(t, tail + [e])
    ensures TenureSound(t, runId, tail + [e])
  {
    if t.program.Some? {
      var n := t.program.value.beforeSeq - t.fence.beforeSeq;
      assert (tail + [e])[..n] == tail[..n];
      assert tail[n..] <= (tail + [e])[n..];
    }
  }

  lemma AfterHeartbeatEvent(t: Tenure, runId: string)
    requires TenureSound(t, runId, []) && t.heartbeat.Some?
    ensures TenureSound(t, runId, [t.heartbeat.value])
  {
    assert [] + [t.heartbeat.value] == [t.heartbeat.value];
    AfterAppend(t, runId, [], t.heartbeat.value);
  }

  lemma AfterManifestEvent(t: Tenure, runId: string, tail: seq<Event>)
    requires TenureSound(t, runId, tail) && t.terminal.Some? && 0 < |tail| < 1 + |t.ManifestEvents()|
    ensures TenureSound(t, runId, tail + [t.ManifestEvents()[|tail| - 1]])
  {
    ManifestTail(t, runId, tail);
    var n, man := |tail| - 1, t.ManifestEvents();
    assert tail + [man[n]] == [t.heartbeat.value] + man[..n + 1];
    AfterAppend(t, runId, tail, man[n]);
  }

  lemma AfterManifest(t: Tenure, runId: string, x: Manifest)
    requires t.heartbeat.Some? && TenureSound(t, runId, [t.heartbeat.value]) && t.terminal.None? && !t.aborted
    requires x.fenceSha == t.Sha() && AreEvents(x.events) && ChainsAfter(t.heartbeat.value, runId, Events(x.events))
    ensures TenureSound(t.(terminal := Some(x)), runId, [t.heartbeat.value])
  {
  }

  lemma AfterComplete(t: Tenure, runId: string, tail: seq<Event>)
    requires TenureSound(t, runId, tail) && t.terminal.Some? && |tail| == 1 + |t.ManifestEvents()|
    ensures TenureSound(t.(complete := t.terminal), runId, tail)
  {
    ManifestTail(t, runId, tail);
  }

  /** When a release program is written, the tail holds all the fence's own events and nothing else. */
  lemma TailBeforeProgram(t: Tenure, runId: string, tail: seq<Event>)
    requires TenureSound(t, runId, tail) && t.program.None? && (t.complete.Some? || t.aborted)
    requires t.heartbeat.Some? ==> tail != [] && tail[0] == t.heartbeat.value
    ensures tail == t.HeartbeatEvents() + t.ManifestEvents()
  {
  }

  lemma AfterProgram(t: Tenure, runId: string, tail: seq<Event>, p: ReleaseProgram)
    requires TenureSound(t, runId, tail) && t.program.None? && (t.complete.Some? || t.aborted)
    requires t.heartbeat.Some? ==> tail != [] && tail[0] == t.heartbeat.value
    requires p.beforeSeq == t.fence.beforeSeq + |tail| && Unowned(Listed(p.release.events))
    ensures TenureSound(t.(program := Some(p)), runId, tail)
  {
    TailBeforeProgram(t, runId, tail);
    var q := t.(program := Some(p));
    assert q.HeartbeatEvents() + q.ManifestEvents() == tail;
    TailStaysInOrder(q, tail, []);
    assert tail + [] == tail && tail[..|tail|] == tail;
    assert ProgramSound(q, tail);
  }

  lemma AfterProgramEvent(t: Tenure, runId: string, tail: seq<Event>, n: nat, k: nat)
    requires TenureSound(t, runId, tail) && t.program.Some? && n == t.program.value.beforeSeq - t.fence.beforeSeq
    requires n + k == |tail| && k < |t.ProgramEvents()| && tail[n..] == t.ProgramEvents()[..k]
    ensures TenureSound(t, runId, tail + [t.ProgramEvents()[k]])
  {
    var all := t.ProgramEvents();
    NextProgramEvent(tail, all, n, k);
    TailStaysInOrder(t, tail[..n], all[..k + 1]);
    AfterAppend(t, runId, tail, all[k]);
  }

  lemma NextProgramEvent(tail: seq<Event>, all: seq<Event>, n: nat, k: nat)
    requires n + k == |tail| && k < |all| && tail[n..] == all[..k]
    ensures tail + [all[k]] == tail[..n] + all[..k + 1]
  {
    assert tail == tail[..n] + tail[n..];
  }

  /** The fence's own events, or none, followed by a first part of the program's. */
  lemma TailStaysInOrder(t: Tenure, own: seq<Event>, part: seq<Event>)
    requires part <= t.ProgramEvents()
    requires own == t.HeartbeatEvents() + t.ManifestEvents() || (own == [] && t.terminal.None?)
    ensures TailInOrder(t, own + part)
  {
    if own == [] && t.terminal.None? {
      assert own + part == part;
    }
  }

  lemma AfterReceipt(t: Tenure, runId: string, tail: seq<Event>, n: nat)
    requires TenureSound(t, runId, tail) && t.program.Some?
    requires n == t.program.value.beforeSeq - t.fence.beforeSeq <= |tail|
    requires tail[n..] == t.ProgramEvents()
    ensures TenureSound(t.(receipt := Some(t.program.value.release)), runId, tail)
  {
  }

  // ---- every write, family by family ----

  predicate Appends(m: Move) {
    m.AppendFree? || m.LogHeartbeat? || m.LogManifest? || m.LogProgram?
  }

  /** An appending write leaves everything but the log alone, and extends the chain. */
  lemma AppendsOne(disk: Disk, m: Move)
    requires FenceSound(disk) && Enabled(disk, m) && Appends(m)
    ensures exists e :: Extends(disk.log, disk.entry.runId, e) && Next(disk, m) == disk.(log := disk.log + [e])
  {
    if m.LogManifest? {
      ManifestExtends(TenureOf(disk, disk.fence.value), disk.entry.runId, disk.log);
    }
    var next := Next(disk, m);
    assert Extends(disk.log, disk.entry.runId, next.log[|disk.log|]);
  }

  lemma ChainKept(disk: Disk, m: Move)
    requires Chained(disk.log, disk.entry.runId) && FenceSound(disk) && Enabled(disk, m)
    ensures var next := Next(disk, m); Chained(next.log, next.entry.runId)
  {
    if Appends(m) {
      AppendsOne(disk, m);
      var e :| Extends(disk.log, disk.entry.runId, e) && Next(disk, m) == disk.(log := disk.log + [e]);
      ChainedAppend(disk.log, disk.entry.runId, e);
    }
  }

  ghost predicate Kept<K, V>(a: map<K, V>, b: map<K, V>) {
    forall k :: k in a ==> k in b && b[k] == a[k]
  }

  /** Nothing already written changes: only the fence and the retry pointer are ever removed. */
  ghost predicate Grows(disk: Disk, next: Disk) {
    && next.entry == disk.entry && disk.log <= next.log
    && Kept(disk.heartbeats, next.heartbeats) && Kept(disk.intents, next.intents)
    && Kept(disk.terminals, next.terminals) && Kept(disk.completes, next.completes) && Kept(disk.aborts, next.aborts)
    && Kept(disk.programs, next.programs) && Kept(disk.receipts, next.receipts)
    && disk.objects <= next.objects && Kept(disk.inventory, next.inventory)
    && disk.spool <= next.spool && Kept(disk.retired, next.retired)
  }

  lemma GrowsTrans(a: Disk, b: Disk, c: Disk)
    requires Grows(a, b) && Grows(b, c)
    ensures Grows(a, c)
  {
  }

  /** The families a write may touch; it leaves the others alone. */
  ghost predicate Framed(disk: Disk, m: Move, next: Disk) {
    && (m.PutObject? || next.objects == disk.objects) && (m.PutInventory? || next.inventory == disk.inventory)
    && (m.PutSpool? || next.spool == disk.spool) && (m.PutHeartbeat? || next.heartbeats == disk.heartbeats)
    && (m.PutManifest? || next.terminals == disk.terminals) && (m.PutAbort? || next.aborts == disk.aborts)
    && (m.PutProgram? || next.programs == disk.programs) && (m.PutReceipt? || next.receipts == disk.receipts)
    && (m.PutRetired? || next.retired == disk.retired) && (m.PutFence? || m.DropFence? || next.fence == disk.fence)
  }

  lemma UnfencedGrows(disk: Disk, m: Move)
    requires Enabled(disk, m) && (m.AppendFree? || m.PutObject? || m.PutInventory? || m.PutSpool? || m.PutFence?)
    ensures Grows(disk, Next(disk, m))
  {
  }

  lemma HeartbeatGrows(disk: Disk, m: Move)
    requires Enabled(disk, m) && (m.PutHeartbeat? || m.LogHeartbeat? || m.PutIntent? || m.PutAbort?)
    ensures Grows(disk, Next(disk, m))
  {
  }

  lemma CommitGrows(disk: Disk, m: Move)
    requires Enabled(disk, m) && (m.PutManifest? || m.LogManifest? || m.PutComplete?)
    ensures Grows(disk, Next(disk, m))
  {
  }

  lemma ProgramGrows(disk: Disk, m: Move)
    requires Enabled(disk, m) && (m.DropRetry? || m.PutProgram? || m.LogProgram? || m.PutReceipt?)
    ensures Grows(disk, Next(disk, m))
  {
  }

  lemma ReleaseGrows(disk: Disk, m: Move)
    requires Enabled(disk, m) && (m.PutRetry? || m.PutRetired? || m.DropFence?)
    ensures Grows(disk, Next(disk, m))
  {
  }

  /** A fenced write changes one family. */
  lemma FencedFramed(disk: Disk, t: Tenure, m: Move)
    requires FencedGuard(disk, t, m).Pass?
    ensures Framed(disk, m, NextFenced(disk, t, m))
  {
  }

  lemma MoveFramed(disk: Disk, m: Move)
    requires Enabled(disk, m)
    ensures Framed(disk, m, Next(disk, m))
  {
    if !(m.AppendFree? || m.PutObject? || m.PutInventory? || m.PutSpool? || m.PutFence?) {
      FencedFramed(disk, TenureOf(disk, disk.fence.value), m);
    }
  }

  lemma MoveGrows(disk: Disk, m: Move)
    requires Enabled(disk, m)
    ensures Grows(disk, Next(disk, m)) && Framed(disk, m, Next(disk, m))
  {
    MoveFramed(disk, m);
    if m.AppendFree? || m.PutObject? || m.PutInventory? || m.PutSpool? || m.PutFence? {
      UnfencedGrows(disk, m);
    } else if m.DropRetry? || m.PutProgram? || m.LogProgram? || m.PutReceipt? {
      ProgramGrows(disk, m);
    } else if m.PutRetry? || m.PutRetired? || m.DropFence? {
      ReleaseGrows(disk, m);
    } else if m.PutManifest? || m.LogManifest? || m.PutComplete? {
      CommitGrows(disk, m);
    } else {
      HeartbeatGrows(disk, m);
    }
  }

  /** A program's start is in the log for good. */
  lemma ProgramsStay(log: seq<Event>, grown: seq<Event>, runId: string, programs: map<Digest, ReleaseProgram>)
    requires ProgramsChained(log, runId, programs) && log <= grown
    ensures ProgramsChained(grown, runId, programs)
  {
    forall d | d in programs ensures programs[d].beforeSeq <= |grown| && ProgramChained(grown, runId, programs[d]) {
      assert grown[..programs[d].beforeSeq] == log[..programs[d].beforeSeq];
      assert ProgramChained(log, runId, programs[d]);
    }
  }

  lemma ProgramsKept(disk: Disk, m: Move)
    requires ProgramsChained(disk.log, disk.entry.runId, disk.programs) && Enabled(disk, m)
    ensures var next := Next(disk, m); ProgramsChained(next.log, next.entry.runId, next.programs)
  {
    MoveGrows(disk, m);
    if m.PutProgram? {
      assert Next(disk, m).log == disk.log;
    } else {
      ProgramsStay(disk.log, Next(disk, m).log, disk.entry.runId, disk.programs);
    }
  }

  lemma StoredStays(a: set<Content>, b: set<Content>, i: map<string, Artifact>, j: map<string, Artifact>, m: Manifest)
    requires ManifestStored(a, i, m) && a <= b && Kept(i, j)
    ensures ManifestStored(b, j, m)
  {
  }

  lemma FilesGrow(disk: Disk, m: Move)
    requires FilesStored(disk.objects, disk.inventory, disk.heartbeats, disk.terminals, disk.programs)
    requires Enabled(disk, m)
    requires m.PutObject? || m.PutInventory?
    ensures var next := Next(disk, m);
            FilesStored(next.objects, next.inventory, next.heartbeats, next.terminals, next.programs)
  {
    var next := Next(disk, m);
    UnfencedGrows(disk, m);
    forall s | s in next.terminals ensures ManifestStored(next.objects, next.inventory, next.terminals[s]) {
      StoredStays(disk.objects, next.objects, disk.inventory, next.inventory, disk.terminals[s]);
    }
  }

  lemma FilesAdd(disk: Disk, m: Move)
    requires FilesStored(disk.objects, disk.inventory, disk.heartbeats, disk.terminals, disk.programs)
    requires Enabled(disk, m)
    requires m.PutHeartbeat? || m.PutManifest? || m.PutProgram?
    ensures var next := Next(disk, m);
            FilesStored(next.objects, next.inventory, next.heartbeats, next.terminals, next.programs)
  {
  }

  lemma FilesKept(disk: Disk, m: Move)
    requires FilesStored(disk.objects, disk.inventory, disk.heartbeats, disk.terminals, disk.programs)
    requires Enabled(disk, m)
    ensures var next := Next(disk, m);
            FilesStored(next.objects, next.inventory, next.heartbeats, next.terminals, next.programs)
  {
    if m.PutObject? || m.PutInventory? {
      FilesGrow(disk, m);
    } else if m.PutHeartbeat? || m.PutManifest? || m.PutProgram? {
      FilesAdd(disk, m);
    } else {
      MoveGrows(disk, m);
    }
  }

  lemma AbortsKept(disk: Disk, m: Move)
    requires AbortsExclusive(disk.terminals, disk.aborts) && Enabled(disk, m)
    ensures AbortsExclusive(Next(disk, m).terminals, Next(disk, m).aborts)
  {
    if m.PutManifest? || m.PutAbort? {
      AbortsAdd(disk, m);
    } else {
      MoveGrows(disk, m);
    }
  }

  lemma AbortsAdd(disk: Disk, m: Move)
    requires AbortsExclusive(disk.terminals, disk.aborts) && Enabled(disk, m) && (m.PutManifest? || m.PutAbort?)
    ensures AbortsExclusive(Next(disk, m).terminals, Next(disk, m).aborts)
  {
  }

  // ---- seals ----

  lemma QualifiedStays(a: Disk, b: Disk, log: seq<Event>, segment: Segment, assessment: Assessment)
    requires Grows(a, b) && QualifiedLog(a.entry, a.objects, a.inventory, log, segment, assessment)
    ensures QualifiedLog(b.entry, b.objects, b.inventory, log, segment, assessment)
  {
    var ev, s :| QualifiedBy(a.entry, a.objects, a.inventory, log, segment, assessment, ev, s);
    assert QualifiedBy(b.entry, b.objects, b.inventory, log, segment, assessment, ev, s);
  }

  lemma SealStays(a: Disk, b: Disk, s: string, m: Manifest)
    requires Grows(a, b) && SealSound(a.entry, a.objects, a.inventory, a.log, a.heartbeats, s, m)
    ensures SealSound(b.entry, b.objects, b.inventory, b.log, b.heartbeats, s, m)
  {
    var base := a.log[..a.heartbeats[m.fenceSha].number + 1];
    SealHoldsStill(a, b, base, s, m);
    BaseKept(a, b, m.fenceSha);
    SealAt(b, s, m, base);
  }

  lemma BaseKept(a: Disk, b: Disk, d: Digest)
    requires Grows(a, b) && d in a.heartbeats && a.heartbeats[d].number < |a.log|
    ensures d in b.heartbeats && b.heartbeats[d].number < |b.log|
    ensures b.log[..b.heartbeats[d].number + 1] == a.log[..a.heartbeats[d].number + 1]
  {
    assert b.heartbeats[d] == a.heartbeats[d];
  }

  lemma SealAt(disk: Disk, s: string, m: Manifest, base: seq<Event>)
    requires m.fenceSha in disk.heartbeats && disk.heartbeats[m.fenceSha].number < |disk.log|
    requires base == disk.log[..disk.heartbeats[m.fenceSha].number + 1]
    requires SealHolds(disk.entry, disk.objects, disk.inventory, base, s, m)
    ensures SealSound(disk.entry, disk.objects, disk.inventory, disk.log, disk.heartbeats, s, m)
  {
  }

  lemma SealHoldsStill(a: Disk, b: Disk, log: seq<Event>, s: string, m: Manifest)
    requires Grows(a, b) && SealHolds(a.entry, a.objects, a.inventory, log, s, m)
    ensures SealHolds(b.entry, b.objects, b.inventory, log, s, m)
  {
    if Seals(m) {
      QualifiedStays(a, b, log, m.objects[0].content.segment, m.objects[1].content.assessment);
    }
  }

  lemma SealsStay(a: Disk, b: Disk)
    requires Grows(a, b) && SealsSound(a.entry, a.objects, a.inventory, a.log, a.heartbeats, a.terminals)
    requires b.terminals == a.terminals
    ensures SealsSound(b.entry, b.objects, b.inventory, b.log, b.heartbeats, b.terminals)
  {
    forall s | s in b.terminals
      ensures SealSound(b.entry, b.objects, b.inventory, b.log, b.heartbeats, s, b.terminals[s])
    {
      SealStays(a, b, s, a.terminals[s]);
    }
  }

  /** The manifest of the standing fence is written when the log ends with its heartbeat. */
  lemma SealWritten(disk: Disk, m: Move)
    requires FenceSound(disk) && Enabled(disk, m) && m.PutManifest?
    ensures SealSound(disk.entry, disk.objects, disk.inventory, disk.log, disk.heartbeats,
                      disk.fence.value.segmentId, m.manifest)
    ensures Next(disk, m) == disk.(terminals := disk.terminals[disk.fence.value.segmentId := m.manifest])
  {
    assert disk.log[..|disk.log|] == disk.log;
  }

  lemma SealsKept(disk: Disk, m: Move)
    requires FenceSound(disk) && Enabled(disk, m)
    requires SealsSound(disk.entry, disk.objects, disk.inventory, disk.log, disk.heartbeats, disk.terminals)
    ensures var next := Next(disk, m);
            SealsSound(next.entry, next.objects, next.inventory, next.log, next.heartbeats, next.terminals)
  {
    if m.PutManifest? {
      SealWritten(disk, m);
    } else {
      MoveGrows(disk, m);
      SealsStay(disk, Next(disk, m));
    }
  }

  /** Writes after which the standing fence owns the same records and the log is the same. */
  predicate Quiet(m: Move) {
    m.PutObject? || m.PutInventory? || m.PutSpool? || m.DropRetry? || m.PutIntent? || m.PutRetry? || m.PutRetired?
  }

  lemma FenceQuiet(disk: Disk, m: Move)
    requires FenceSound(disk) && Enabled(disk, m) && Quiet(m)
    ensures FenceSound(Next(disk, m))
  {
    var next := Next(disk, m);
    if disk.fence.Some? {
      assert TenureOf(next, disk.fence.value) == TenureOf(disk, disk.fence.value);
    }
  }

  /** A fence whose tenure accepts one more event stays sound. */
  lemma FenceGrowsBy(disk: Disk, f: Fence, e: Event)
    requires FenceSound(disk) && disk.fence == Some(f)
    requires TenureSound(TenureOf(disk, f), disk.entry.runId, disk.log[f.beforeSeq..] + [e])
    ensures FenceSound(disk.(log := disk.log + [e]))
  {
    var next := disk.(log := disk.log + [e]);
    assert TenureOf(next, f) == TenureOf(disk, f);
    assert next.log[f.beforeSeq..] == disk.log[f.beforeSeq..] + [e];
    assert next.log[..f.beforeSeq] == disk.log[..f.beforeSeq];
  }

  lemma FenceLogsHeartbeat(disk: Disk, m: Move)
    requires FenceSound(disk) && Enabled(disk, m) && m.LogHeartbeat?
    ensures FenceSound(Next(disk, m))
  {
    var f := disk.fence.value;
    var t := TenureOf(disk, f);
    assert disk.log[f.beforeSeq..] == [];
    assert [] + [t.heartbeat.value] == [t.heartbeat.value];
    AfterHeartbeatEvent(t, disk.entry.runId);
    FenceGrowsBy(disk, f, t.heartbeat.value);
  }

  lemma FenceLogsManifest(disk: Disk, m: Move)
    requires FenceSound(disk) && Enabled(disk, m) && m.LogManifest?
    ensures FenceSound(Next(disk, m))
  {
    var f := disk.fence.value;
    var t, tail := TenureOf(disk, f), disk.log[f.beforeSeq..];
    AfterManifestEvent(t, disk.entry.runId, tail);
    FenceGrowsBy(disk, f, t.ManifestEvents()[|tail| - 1]);
  }

  lemma FenceLogsProgram(disk: Disk, m: Move)
    requires FenceSound(disk) && Enabled(disk, m) && m.LogProgram?
    ensures FenceSound(Next(disk, m))
  {
    var f := disk.fence.value;
    var t := TenureOf(disk, f);
    var b := t.program.value.beforeSeq;
    ProgramNext(disk, m, f, t, b);
    TenureLogsProgram(disk, f, t, b);
    FenceGrowsBy(disk, f, t.ProgramEvents()[|disk.log| - b]);
  }

  lemma ProgramNext(disk: Disk, m: Move, f: Fence, t: Tenure, b: nat)
    requires Enabled(disk, m) && m.LogProgram? && disk.fence == Some(f) && t == TenureOf(disk, f) && t.program.Some?
    requires b == t.program.value.beforeSeq
    ensures b <= |disk.log| < b + |t.ProgramEvents()| && disk.log[b..] == t.ProgramEvents()[..|disk.log| - b]
    ensures Next(disk, m) == disk.(log := disk.log + [t.ProgramEvents()[|disk.log| - b]])
  {
  }

  lemma TenureLogsProgram(disk: Disk, f: Fence, t: Tenure, b: nat)
    requires f.beforeSeq <= |disk.log| && TenureSound(t, disk.entry.runId, disk.log[f.beforeSeq..]) && t.fence == f
    requires t.program.Some? && b == t.program.value.beforeSeq && b <= |disk.log| < b + |t.ProgramEvents()|
    requires disk.log[b..] == t.ProgramEvents()[..|disk.log| - b]
    ensures TenureSound(t, disk.entry.runId, disk.log[f.beforeSeq..] + [t.ProgramEvents()[|disk.log| - b]])
  {
    var tail := disk.log[f.beforeSeq..];
    assert ProgramSound(t, tail);
    var n := b - f.beforeSeq;
    assert tail[n..] == disk.log[b..];
    AfterProgramEvent(t, disk.entry.runId, tail, n, |disk.log| - b);
  }

  lemma FencePutsHeartbeat(disk: Disk, m: Move)
    requires FenceSound(disk) && Enabled(disk, m) && m.PutHeartbeat?
    ensures FenceSound(Next(disk, m))
  {
    var f, next := disk.fence.value, Next(disk, m);
    var t := TenureOf(disk, f);
    assert TenureOf(next, f) == t.(heartbeat := Some(m.event));
    AfterHeartbeatFile(t, disk.entry.runId, disk.log[f.beforeSeq..], m.event);
  }

  lemma FencePutsManifest(disk: Disk, m: Move)
    requires FenceSound(disk) && Enabled(disk, m) && m.PutManifest?
    ensures FenceSound(Next(disk, m))
  {
    var f, next := disk.fence.value, Next(disk, m);
    var t := TenureOf(disk, f);
    assert TenureOf(next, f) == t.(terminal := Some(m.manifest));
    assert disk.log[f.beforeSeq..] == [t.heartbeat.value];
    AfterManifest(t, disk.entry.runId, m.manifest);
  }

  lemma FenceCompletes(disk: Disk, m: Move)
    requires FenceSound(disk) && Enabled(disk, m) && m.PutComplete?
    ensures FenceSound(Next(disk, m))
  {
    var f, next := disk.fence.value, Next(disk, m);
    var t := TenureOf(disk, f);
    assert TenureOf(next, f) == t.(complete := t.terminal);
    AfterComplete(t, disk.entry.runId, disk.log[f.beforeSeq..]);
  }

  lemma FenceAborts(disk: Disk, m: Move)
    requires FenceSound(disk) && Enabled(disk, m) && m.PutAbort?
    ensures FenceSound(Next(disk, m))
  {
    var f, next := disk.fence.value, Next(disk, m);
    assert TenureOf(next, f) == TenureOf(disk, f).(aborted := true);
  }

  lemma FencePrograms(disk: Disk, m: Move)
    requires FenceSound(disk) && Enabled(disk, m) && m.PutProgram?
    ensures FenceSound(Next(disk, m))
  {
    var f, next := disk.fence.value, Next(disk, m);
    var t := TenureOf(disk, f);
    assert TenureOf(next, f) == t.(program := Some(m.program));
    AfterProgram(t, disk.entry.runId, disk.log[f.beforeSeq..], m.program);
  }

  lemma FenceReceipts(disk: Disk, m: Move)
    requires FenceSound(disk) && Enabled(disk, m) && m.PutReceipt?
    ensures FenceSound(Next(disk, m))
  {
    var f := disk.fence.value;
    var t := TenureOf(disk, f);
    var p, next := t.program.value, Next(disk, m);
    assert next == disk.(receipts := disk.receipts[t.Sha() := p.release]);
    TenureReceipts(disk, f, t, p);
    assert TenureOf(next, f) == t.(receipt := Some(p.release));
  }

  lemma TenureReceipts(disk: Disk, f: Fence, t: Tenure, p: ReleaseProgram)
    requires f.beforeSeq <= |disk.log| && TenureSound(t, disk.entry.runId, disk.log[f.beforeSeq..]) && t.fence == f
    requires t.program == Some(p) && p.beforeSeq <= |disk.log| && disk.log[p.beforeSeq..] == t.ProgramEvents()
    ensures TenureSound(t.(receipt := Some(p.release)), disk.entry.runId, disk.log[f.beforeSeq..])
  {
    var tail := disk.log[f.beforeSeq..];
    var n := p.beforeSeq - f.beforeSeq;
    assert ProgramSound(t, tail);
    assert tail[n..] == disk.log[p.beforeSeq..];
    AfterReceipt(t, disk.entry.runId, tail, n);
  }

  lemma FenceBegins(disk: Disk, m: Move)
    requires Enabled(disk, m) && m.PutFence?
    ensures FenceSound(Next(disk, m))
  {
    assert disk.log[..|disk.log|] == disk.log;
    assert disk.log[|disk.log|..] == [];
  }

  lemma FenceKept(disk: Disk, m: Move)
    requires FenceSound(disk) && Enabled(disk, m)
    ensures FenceSound(Next(disk, m))
  {
    if Quiet(m) {
      FenceQuiet(disk, m);
    } else if m.AppendFree? || m.DropFence? {
      assert Next(disk, m).fence.None?;
    } else if m.LogHeartbeat? {
      FenceLogsHeartbeat(disk, m);
    } else if m.LogManifest? {
      FenceLogsManifest(disk, m);
    } else if m.LogProgram? {
      FenceLogsProgram(disk, m);
    } else if m.PutFence? {
      FenceBegins(disk, m);
    } else if m.PutHeartbeat? {
      FencePutsHeartbeat(disk, m);
    } else if m.PutManifest? {
      FencePutsManifest(disk, m);
    } else if m.PutComplete? {
      FenceCompletes(disk, m);
    } else if m.PutAbort? {
      FenceAborts(disk, m);
    } else if m.PutProgram? {
      FencePrograms(disk, m);
    } else {
      FenceReceipts(disk, m);
    }
  }

  // ---- the spool ----

  /** A snapshot of the live envelopes overlaps no earlier program: those are wholly retired. */
  lemma SpoolAfterProgram(disk: Disk, d: Digest, p: ReleaseProgram)
    requires SpoolSound(Some(d), disk.programs, disk.receipts, disk.spool, disk.retired)
    requires d !in disk.programs && p.release.fenceSha == d && p.release.spoolIds == Live(disk)
    ensures SpoolSound(Some(d), disk.programs[d := p], disk.receipts, disk.spool, disk.retired)
  {
    forall e | e in disk.programs ensures disk.programs[e].release.spoolIds !! p.release.spoolIds {
      assert RetiredBy(disk.retired, e, disk.programs[e].release.spoolIds);
    }
  }

  lemma SpoolAfterRetirement(
    d: Digest, x: Digest, programs: map<Digest, ReleaseProgram>, receipts: map<Digest, Release>, spool: set<Digest>,
    retired: map<Digest, Digest>)
    requires SpoolSound(Some(d), programs, receipts, spool, retired) && d in receipts && x in receipts[d].spoolIds
    requires x !in retired
    ensures SpoolSound(Some(d), programs, receipts, spool, retired[x := d])
  {
    var after := retired[x := d];
    forall e | e in programs && e != d ensures RetiredBy(after, e, programs[e].release.spoolIds) {
      assert RetiredBy(retired, e, programs[e].release.spoolIds);
    }
  }

  lemma SpoolAfterFence(
    d: Digest, programs: map<Digest, ReleaseProgram>, receipts: map<Digest, Release>, spool: set<Digest>,
    retired: map<Digest, Digest>)
    requires SpoolSound(Some(d), programs, receipts, spool, retired) && d in receipts
    requires RetiredBy(retired, d, receipts[d].spoolIds)
    ensures SpoolSound(None, programs, receipts, spool, retired)
  {
  }

  lemma SpoolAfterReceipt(
    d: Digest, programs: map<Digest, ReleaseProgram>, receipts: map<Digest, Release>, spool: set<Digest>,
    retired: map<Digest, Digest>)
    requires SpoolSound(Some(d), programs, receipts, spool, retired) && d in programs
    ensures SpoolSound(Some(d), programs, receipts[d := programs[d].release], spool, retired)
  {
  }

  lemma SpoolAfterArrival(
    x: Digest, active: Option<Digest>, programs: map<Digest, ReleaseProgram>, receipts: map<Digest, Release>,
    spool: set<Digest>, retired: map<Digest, Digest>)
    requires SpoolSound(active, programs, receipts, spool, retired)
    ensures SpoolSound(active, programs, receipts, spool + {x}, retired)
  {
  }

  predicate Spooling(m: Move) {
    m.PutSpool? || m.PutFence? || m.PutProgram? || m.PutReceipt? || m.PutRetired? || m.DropFence?
  }

  lemma SpoolMoves(disk: Disk, m: Move)
    requires SpoolSound(ActiveSha(disk), disk.programs, disk.receipts, disk.spool, disk.retired) && Enabled(disk, m)
    requires Spooling(m)
    ensures var next := Next(disk, m);
            SpoolSound(ActiveSha(next), next.programs, next.receipts, next.spool, next.retired)
  {
    match m
    case PutRetired(x) => SpoolAfterRetirement(ActiveSha(disk).value, x, disk.programs, disk.receipts, disk.spool,
                                               disk.retired);
    case DropFence => SpoolAfterFence(ActiveSha(disk).value, disk.programs, disk.receipts, disk.spool, disk.retired);
    case PutProgram(p) => SpoolAfterProgram(disk, ActiveSha(disk).value, p);
    case PutReceipt => SpoolAfterReceipt(ActiveSha(disk).value, disk.programs, disk.receipts, disk.spool, disk.retired);
    case PutSpool(x) => SpoolAfterArrival(x, ActiveSha(disk), disk.programs, disk.receipts, disk.spool, disk.retired);
    case PutFence(_) =>
  }

  lemma SpoolKept(disk: Disk, m: Move)
    requires SpoolSound(ActiveSha(disk), disk.programs, disk.receipts, disk.spool, disk.retired) && Enabled(disk, m)
    ensures var next := Next(disk, m);
            SpoolSound(ActiveSha(next), next.programs, next.receipts, next.spool, next.retired)
  {
    if Spooling(m) {
      SpoolMoves(disk, m);
    } else {
      MoveGrows(disk, m);
      var next := Next(disk, m);
      assert ActiveSha(next) == ActiveSha(disk);
    }
  }

  lemma LiveAfterArrival(disk: Disk, x: Digest)
    requires |Live(disk)| < MaxSpool && |disk.spool| < MaxObjects && x !in disk.spool
    ensures var next := disk.(spool := disk.spool + {x}); |Live(next)| <= MaxSpool && |next.spool| <= MaxObjects
  {
    SubsetSize(Live(disk.(spool := disk.spool + {x})), Live(disk) + {x});
  }

  lemma LiveStays(disk: Disk, next: Disk)
    requires next.spool == disk.spool && Kept(disk.retired, next.retired)
    ensures |Live(next)| <= |Live(disk)| && |next.spool| == |disk.spool|
  {
    SubsetSize(Live(next), Live(disk));
  }

  lemma LiveKept(disk: Disk, m: Move)
    requires Enabled(disk, m) && |Live(disk)| <= MaxSpool && |disk.spool| <= MaxObjects
    ensures |Live(Next(disk, m))| <= MaxSpool && |Next(disk, m).spool| <= MaxObjects
  {
    if m.PutSpool? && m.id !in disk.spool {
      LiveAfterArrival(disk, m.id);
    } else {
      MoveGrows(disk, m);
      assert Next(disk, m).spool == disk.spool;
      LiveStays(disk, Next(disk, m));
    }
  }

  lemma MoveKeeps(disk: Disk, m: Move)
    requires Inv(disk) && Enabled(disk, m)
    ensures Inv(Next(disk, m)) && Grows(disk, Next(disk, m))
  {
    ChainKept(disk, m);
    ProgramsKept(disk, m);
    FilesKept(disk, m);
    AbortsKept(disk, m);
    SealsKept(disk, m);
    FenceKept(disk, m);
    SpoolKept(disk, m);
    LiveKept(disk, m);
    MoveGrows(disk, m);
  }

  // ---- every run of writes ----

  ghost predicate Moves(disk: Disk, m: Move, next: Disk) {
    Enabled(disk, m) && Next(disk, m) == next
  }

  ghost predicate StepTo(disk: Disk, next: Disk) {
    exists m :: Moves(disk, m, next)
  }

  ghost predicate StepAt(path: seq<Disk>, i: nat)
    requires i + 1 < |path|
  {
    StepTo(path[i], path[i + 1])
  }

  /** The states a run of writes goes through. */
  ghost predicate Path(path: seq<Disk>, disk: Disk, end: Disk) {
    && path != [] && path[0] == disk && path[|path| - 1] == end
    && forall i :: 0 <= i < |path| - 1 ==> StepAt(path, i)
  }

  /** Some run of writes leads from one state to the other. */
  ghost predicate Reaches(disk: Disk, end: Disk) {
    exists path :: Path(path, disk, end)
  }

  lemma ReachesSelf(disk: Disk)
    ensures Reaches(disk, disk)
  {
    assert Path([disk], disk, disk);
  }

  lemma ReachesNext(disk: Disk, end: Disk, m: Move)
    requires Reaches(disk, end) && Enabled(end, m)
    ensures Reaches(disk, Next(end, m))
  {
    var path :| Path(path, disk, end);
    var next := Next(end, m);
    assert Moves(end, m, next);
    PathLonger(path, disk, end, next);
    assert Path(path + [next], disk, next);
  }

  lemma PathLonger(path: seq<Disk>, disk: Disk, end: Disk, next: Disk)
    requires Path(path, disk, end) && StepTo(end, next)
    ensures Path(path + [next], disk, next)
  {
    var longer := path + [next];
    forall i | 0 <= i < |longer| - 1 ensures StepAt(longer, i) {
      assert i < |path| - 1 ==> StepAt(path, i);
    }
  }

  /** Sound after `disk`, with nothing that was written lost. */
  ghost predicate SoundAfter(disk: Disk, next: Disk) {
    Inv(next) && Grows(disk, next)
  }

  lemma StepKeeps(disk: Disk, a: Disk, b: Disk)
    requires SoundAfter(disk, a) && StepTo(a, b)
    ensures SoundAfter(disk, b)
  {
    var m :| Moves(a, m, b);
    MoveKeeps(a, m);
    GrowsTrans(disk, a, b);
  }

  lemma GrowsSelf(disk: Disk)
    ensures Grows(disk, disk)
  {
  }

  lemma PathStepKeeps(path: seq<Disk>, disk: Disk, end: Disk, i: nat, before: Disk, state: Disk)
    requires Path(path, disk, end) && 0 < i < |path| && path[i - 1] == before && path[i] == state
    requires SoundAfter(disk, before)
    ensures SoundAfter(disk, state)
  {
    assert StepAt(path, i - 1);
    StepKeeps(disk, before, state);
  }

  /** The invariant holds at every state of a run. */
  lemma {:induction false} PathKeeps(path: seq<Disk>, disk: Disk, end: Disk, i: nat, state: Disk)
    requires SoundAfter(disk, disk) && Path(path, disk, end) && i < |path| && path[i] == state
    ensures SoundAfter(disk, state)
  {
    if i == 0 {
      assert state == disk;
    } else {
      var before := path[i - 1];
      PathKeeps(path, disk, end, i - 1, before);
      PathStepKeeps(path, disk, end, i, before, state);
    }
  }

  lemma ReachesKeeps(disk: Disk, end: Disk)
    requires SoundAfter(disk, disk) && Reaches(disk, end)
    ensures SoundAfter(disk, end)
  {
    var path :| Path(path, disk, end);
    PathKeeps(path, disk, end, |path| - 1, end);
  }

  lemma CreatedSound(entry: Entry)
    ensures Inv(Created(entry))
  {
  }

  lemma ReachedSound(entry: Entry, disk: Disk)
    requires Reaches(Created(entry), disk)
    ensures Inv(disk) && disk.entry == entry
  {
    CreatedSound(entry);
    GrowsSelf(Created(entry));
    ReachesKeeps(Created(entry), disk);
  }

  /**
    * Over every run of writes, wherever it stops: the log is one hash chain that only grew; what a standing fence
    * added is its heartbeat, then its manifest's events, then its program's events; no fence is both aborted and
    * committed; and the manifests already written are unchanged, so no segment gets a second one.
    */
  lemma LogOverRuns(entry: Entry, mid: Disk, end: Disk)
    requires Reaches(Created(entry), mid) && Reaches(mid, end)
    ensures Chained(end.log, entry.runId) && mid.log <= end.log
    ensures end.fence.Some? ==>
              var f := end.fence.value; f.beforeSeq <= |end.log|
                                        && TailInOrder(TenureOf(end, f), end.log[f.beforeSeq..])
    ensures forall s :: s in end.terminals ==> end.terminals[s].fenceSha !in end.aborts
    ensures forall s :: s in mid.terminals ==> s in end.terminals && end.terminals[s] == mid.terminals[s]
  {
    ReachedSound(entry, mid);
    GrowsSelf(mid);
    ReachesKeeps(mid, end);
  }

  /** Over every run: no envelope is lost, and a retired one is named by exactly the one receipt that retired it. */
  lemma SpoolOverRuns(entry: Entry, mid: Disk, end: Disk)
    requires Reaches(Created(entry), mid) && Reaches(mid, end)
    ensures mid.spool <= end.spool && Kept(mid.retired, end.retired)
    ensures forall x :: x in end.retired ==>
                          && x in end.spool && end.retired[x] in end.receipts
                          && forall d :: d in end.receipts ==> (x in end.receipts[d].spoolIds <==> d == end.retired[x])
  {
    ReachedSound(entry, mid);
    GrowsSelf(mid);
    ReachesKeeps(mid, end);
  }
}
