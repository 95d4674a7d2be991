/**
  * The acceptance ledger as its publisher runs it: each operation is a run of atomic writes that a crash may cut
  * short.
  */
module Ledgers {
  import opened Outcomes
  import opened AcceptanceRecords
  import opened LedgerModel
  import opened LedgerSafety
  import opened Recovery = LedgerRecovery
  import opened Releases = LedgerRelease
  import opened LedgerCommit
  import opened LedgerExact
  import Evaluators
  import opened LedgerMoves

  /** How an operation ends: with its answer, refused with a `Hold`, or cut short by a crash. */
  datatype Progress<+T> = Done(value: T) | Held(code: string) | Crashed {
    predicate IsFailure() {
      !Done?
    }

    function PropagateFailure<U>(): Progress<U>
      requires !Done?
    {
      if Held? then Held(code) else Crashed
    }

    function Extract(): T
      requires Done?
    {
      value
    }

    /** The same outcome with this value if it is done. */
    function Then<U>(next: U): Progress<U> {
      if Done? then Progress.Done(next) else PropagateFailure()
    }
  }

  // ---- which writes are due, and what they do ----

  /** The checks of `heartbeat` before it writes anything. */
  function HeartbeatCheck(fence: Option<Fence>, e: Event): Check {
    if fence.None? then Fail("no_active_fence")
    else if !(e.kind == Heartbeat && e.checkpoint.Some? && e.segmentId == Some(fence.value.segmentId)) then
      Fail("terminal_heartbeat")
    else if !(e.number == fence.value.beforeSeq && e.previous == fence.value.beforeHead) then
      Fail("terminal_heartbeat_chain")
    else Pass
  }

  lemma CanLogHeartbeat(disk: Disk, f: Fence)
    requires Reaches(Created(disk.entry), disk) && disk.fence == Some(f) && FenceSha(f) in disk.heartbeats
    ensures var e := disk.heartbeats[FenceSha(f)];
            Extends(disk.log, disk.entry.runId, e) ==>
              Enabled(disk, LogHeartbeat) && Next(disk, LogHeartbeat) == disk.(log := disk.log + [e])
  {
    ReachedSound(disk.entry, disk);
    assert HeartbeatSound(f, TenureOf(disk, f).heartbeat.value);
  }

  /** The committed manifest of a standing fence, as `_complete` finds it. */
  ghost predicate Committed(disk: Disk, f: Fence, m: Manifest) {
    disk.fence == Some(f) && Lookup(disk.terminals, f.segmentId) == Some(m)
  }

  lemma CommittedFacts(disk: Disk, f: Fence, m: Manifest)
    requires Reaches(Created(disk.entry), disk) && Committed(disk, f, m)
    ensures m.fenceSha == FenceSha(f) && ManifestStored(disk.objects, disk.inventory, m)
    ensures TenureOf(disk, f).ManifestEvents() == Listed(m.events) && f.beforeSeq < |disk.log|
    ensures forall i :: 0 <= i < |m.events| ==> Listed(m.events)[i].number == f.beforeSeq + 1 + i
    ensures FenceSha(f) in disk.completes ==> disk.completes[FenceSha(f)] == m
  {
    ReachedSound(disk.entry, disk);
    var t := TenureOf(disk, f);
    assert TerminalSound(t, disk.entry.runId) && HeartbeatSound(f, t.heartbeat.value);
    forall i | 0 <= i < |m.events| ensures Listed(m.events)[i].number == f.beforeSeq + 1 + i {
      assert LinkedAt(t.heartbeat.value, disk.entry.runId, t.ManifestEvents(), i);
    }
    assert CompleteSound(t, disk.log[f.beforeSeq..]);
  }

  lemma CanLogManifest(disk: Disk, f: Fence, m: Manifest, i: nat)
    requires Reaches(Created(disk.entry), disk) && Committed(disk, f, m) && AreEvents(m.events) && i < |m.events|
    ensures var e := Events(m.events)[i];
            && e.number == f.beforeSeq + 1 + i
            && (Extends(disk.log, disk.entry.runId, e) ==>
                  Enabled(disk, LogManifest) && Next(disk, LogManifest) == disk.(log := disk.log + [e]))
  {
    CommittedFacts(disk, f, m);
  }

  lemma CommittedNumbers(disk: Disk, f: Fence, m: Manifest)
    requires Reaches(Created(disk.entry), disk) && Committed(disk, f, m) && AreEvents(m.events)
    ensures f.beforeSeq + 1 <= |disk.log| && forall i :: 0 <= i < |m.events| ==>
                                                           Events(m.events)[i].number == f.beforeSeq + 1 + i
  {
    CommittedFacts(disk, f, m);
  }

  lemma AppendLength(log: seq<Event>, runId: string, e: Event)
    ensures Append(log, runId, e).Ok? ==>
              var next := Append(log, runId, e).value; e.number < |next| && (next == log || |next| == e.number + 1)
  {
  }

  /** `_complete` comes down to appending the manifest's events. */
  lemma CompletesBy(disk: Disk, f: Fence, m: Manifest)
    requires Reaches(Created(disk.entry), disk) && Committed(disk, f, m)
    ensures AreEvents(m.events)
    ensures |disk.log| > f.beforeSeq + 1 + |m.events| ==> Recovery.Completed(disk, m).Refused?
    ensures |disk.log| <= f.beforeSeq + 1 + |m.events| ==>
              var r := Recovery.AppendAll(disk.log, disk.entry.runId, Events(m.events));
              if r.Refused? then Recovery.Completed(disk, m).Refused?
              else Recovery.Completed(disk, m) ==
                   Ok(disk.(log := r.value, completes := disk.completes[FenceSha(f) := m]))
  {
    CommittedFacts(disk, f, m);
    Recovery.CompletedBy(disk, f, m);
  }

  lemma CompleteHeld(disk: Disk, f: Fence, m: Manifest)
    requires Reaches(Created(disk.entry), disk) && Committed(disk, f, m)
    ensures AreEvents(m.events)
    ensures |disk.log| > f.beforeSeq + 1 + |m.events| ==> Recovery.Completed(disk, m).Refused?
  {
    CompletesBy(disk, f, m);
  }

  lemma CompleteLeaves(was: Disk, disk: Disk, f: Fence, m: Manifest, r: Progress<()>)
    requires Reaches(Created(was.entry), was) && Committed(was, f, m) && AreEvents(m.events)
    requires |was.log| <= f.beforeSeq + 1 + |m.events| && disk == was.(log := disk.log, completes := disk.completes)
    requires r.Done? ==>
               && Recovery.AppendAll(was.log, was.entry.runId, Events(m.events)) == Ok(disk.log)
               && disk.completes == was.completes[FenceSha(f) := m]
    requires r.Held? ==> Recovery.AppendAll(was.log, was.entry.runId, Events(m.events)).Refused?
    ensures r.Done? ==> Recovery.Completed(was, m) == Ok(disk)
    ensures r.Held? ==> Recovery.Completed(was, m).Refused?
  {
    CompletesBy(was, f, m);
  }

  lemma CanComplete(disk: Disk, f: Fence, m: Manifest)
    requires Reaches(Created(disk.entry), disk) && Committed(disk, f, m) && FenceSha(f) !in disk.completes
    requires |disk.log| == f.beforeSeq + 1 + |m.events|
    ensures Enabled(disk, PutComplete)
    ensures Next(disk, PutComplete) == disk.(completes := disk.completes[FenceSha(f) := m])
  {
    CommittedFacts(disk, f, m);
  }

  /** After `_fence`, the heartbeat is in the log. */
  lemma AttachedIs(disk: Disk, f: Fence)
    requires Reaches(Created(disk.entry), disk) && disk.fence == Some(f) && Recovery.Attached(disk).Ok?
    ensures var next := Recovery.Attached(disk).value;
            && next == disk.(log := Recovery.AttachedLog(TenureOf(disk, f), disk.log))
            && (FenceSha(f) in disk.heartbeats ==>
                  f.beforeSeq < |next.log| && next.log[f.beforeSeq] == disk.heartbeats[FenceSha(f)])
    ensures Attachable(TenureOf(disk, f), disk.entry.runId, disk.log)
  {
    ReachedSound(disk.entry, disk);
    Recovery.FenceStands(disk, f);
    Recovery.AttachedExact(disk, f, TenureOf(disk, f));
  }

  lemma AttachLeaves(was: Disk, disk: Disk, f: Fence, r: Progress<()>)
    requires Reaches(Created(was.entry), was) && was.fence == Some(f)
    requires r.Done? ==> Recovery.Attached(was) == Ok(disk)
    requires r.Held? ==> Recovery.Attached(was).Refused?
    ensures r.Done? ==>
              && Attachable(TenureOf(was, f), was.entry.runId, was.log)
              && disk == was.(log := Recovery.AttachedLog(TenureOf(was, f), was.log))
              && HeartbeatLogged(TenureOf(disk, f), disk.log)
    ensures r.Held? ==> !Attachable(TenureOf(was, f), was.entry.runId, was.log)
  {
    ReachedStands(was, f);
    Recovery.AttachedExact(was, f, TenureOf(was, f));
    if r.Done? {
      AttachedIs(was, f);
    }
  }

  lemma ReachedStands(disk: Disk, f: Fence)
    requires Reaches(Created(disk.entry), disk) && disk.fence == Some(f)
    ensures Recovery.Stands(TenureOf(disk, f), disk.entry.runId, disk.log)
  {
    ReachedSound(disk.entry, disk);
    Recovery.FenceStands(disk, f);
  }

  lemma AttachableNext(t: Tenure, next: Tenure, runId: string, log: seq<Event>, grown: seq<Event>)
    requires Recovery.Stands(t, runId, log) && Recovery.Stands(next, runId, grown)
    requires next.fence == t.fence && next.heartbeat == t.heartbeat && Recovery.Attachable(t, runId, log)
    requires next.terminal.Some? || grown == log || grown == Recovery.AttachedLog(t, log)
    ensures Recovery.Attachable(next, runId, grown)
  {
    if next.terminal.Some? {
      Recovery.CommittedHeartbeat(next, runId, grown);
    }
  }

  /** Wherever `commit` stopped, the heartbeat can still be put in its place. */
  lemma StillAttachable(disk: Disk, next: Disk, f: Fence)
    requires Reaches(Created(disk.entry), disk) && Reaches(Created(next.entry), next) && disk.fence == Some(f)
    requires next.entry.runId == disk.entry.runId && next.fence == disk.fence && next.heartbeats == disk.heartbeats
    requires Recovery.Attachable(TenureOf(disk, f), disk.entry.runId, disk.log)
    requires var t := TenureOf(disk, f);
             (f.segmentId in next.terminals || next.log == disk.log || next.log == Recovery.AttachedLog(t, disk.log))
    ensures Recovery.Attachable(TenureOf(next, f), next.entry.runId, next.log)
  {
    ReachedStands(disk, f);
    ReachedStands(next, f);
    AttachableNext(TenureOf(disk, f), TenureOf(next, f), disk.entry.runId, disk.log, next.log);
  }

  lemma AtomicFound(disk: Disk, f: Fence, t: Tenure)
    requires Reaches(Created(disk.entry), disk) && disk.fence == Some(f) && t == TenureOf(disk, f) && t.program.None?
    requires Recovery.Attachable(t, disk.entry.runId, disk.log) && Recovery.Fits(t)
    ensures f.beforeSeq <= |disk.log| && Recovery.Recovered(disk).Ok?
    ensures Recovery.Recovered(disk).value ==
            if t.terminal.None? then (disk.(log := Recovery.OwnLog(t, disk.log)), Recovery.PreparedFence)
            else (disk.(log := Recovery.OwnLog(t, disk.log), completes :=
                  disk.completes[FenceSha(f) := t.terminal.value]), Recovery.CommittedComplete)
    ensures t.terminal.None? ==> t.complete.None?
  {
    ReachedSound(disk.entry, disk);
    Recovery.CommitIsAtomic(disk, f, t);
  }

  /**
    * Either nothing was committed, nothing is complete and the log ends with the fence's heartbeat alone; or the
    * fence's
    * manifest is committed and complete and its events end the log.
    */
  ghost predicate AllOrNothing(disk: Disk, f: Fence, standing: Recovery.Standing) {
    var t := TenureOf(disk, f);
    && f.beforeSeq <= |disk.log| && disk.log == disk.log[..f.beforeSeq] + t.HeartbeatEvents() + t.ManifestEvents()
    && standing == (if t.terminal.Some? then Recovery.CommittedComplete else Recovery.PreparedFence)
    && t.complete == t.terminal
  }

  lemma OwnTenure(disk: Disk, f: Fence, t: Tenure, next: Disk, standing: Recovery.Standing)
    requires t == TenureOf(disk, f) && f.beforeSeq <= |disk.log| && (t.terminal.None? ==> t.complete.None?)
    requires next ==
             if t.terminal.None? then disk.(log := Recovery.OwnLog(t, disk.log))
             else disk.(log := Recovery.OwnLog(t, disk.log), completes :=
                  disk.completes[FenceSha(f) := t.terminal.value])
    requires standing == (if t.terminal.Some? then Recovery.CommittedComplete else Recovery.PreparedFence)
    ensures AllOrNothing(next, f, standing)
  {
    assert next.log[..f.beforeSeq] == disk.log[..f.beforeSeq];
    assert TenureOf(next, f) == t.(complete := t.terminal);
  }

  /** What `recover` finds from `disk`, in terms of the state it leaves. */
  lemma AtomicAfter(disk: Disk, f: Fence)
    requires Reaches(Created(disk.entry), disk) && disk.fence == Some(f) && FenceSha(f) !in disk.programs
    requires Recovery.Attachable(TenureOf(disk, f), disk.entry.runId, disk.log) && Recovery.Fits(TenureOf(disk, f))
    ensures Recovery.Recovered(disk).Ok?
    ensures AllOrNothing(Recovery.Recovered(disk).value.0, f, Recovery.Recovered(disk).value.1)
  {
    var t := TenureOf(disk, f);
    AtomicFound(disk, f, t);
    OwnTenure(disk, f, t, Recovery.Recovered(disk).value.0, Recovery.Recovered(disk).value.1);
  }

  lemma ManifestFits(disk: Disk, f: Fence)
    requires Reaches(Created(disk.entry), disk) && disk.fence == Some(f) && f.beforeSeq + 3 <= MaxEvents
    ensures Recovery.Fits(TenureOf(disk, f))
  {
    ReachedSound(disk.entry, disk);
    var t := TenureOf(disk, f);
    assert t.terminal.Some? ==> ManifestStored(disk.objects, disk.inventory, t.terminal.value);
  }

  /** The point `commit` has reached when it writes the manifest. */
  ghost predicate Prepared(disk: Disk, f: Fence, b: Bundle, a: Answers, v: Reading) {
    && disk.fence == Some(f) && FenceSha(f) in disk.heartbeats && FenceSha(f) !in disk.aborts
    && f.beforeSeq < |disk.log| && disk.log[f.beforeSeq] == disk.heartbeats[FenceSha(f)]
    && CommitCheck(disk.entry, disk.log, f, disk.heartbeats[FenceSha(f)], b, a, v) == Pass && References(disk, b)
    && Judged(disk.entry, disk.log, b, a, v)
    && FromInventory(EvidenceOf(a, v.captures), disk.objects, disk.inventory)
  }

  lemma CanPutManifest(disk: Disk, f: Fence, b: Bundle, a: Answers, v: Reading, spool: set<Digest>)
    requires Reaches(Created(disk.entry), disk) && Prepared(disk, f, b, a, v) && f.segmentId !in disk.terminals
    requires forall c :: c in BundleContents(f, b, spool) ==> c in disk.objects
    ensures var m := ManifestOf(f, b, spool);
            Enabled(disk, PutManifest(m))
            && Next(disk, PutManifest(m)) == disk.(terminals := disk.terminals[f.segmentId := m])
  {
    var hb, m := disk.heartbeats[FenceSha(f)], ManifestOf(f, b, spool);
    PreparedHeartbeat(disk, f);
    PreparedChains(disk, f, b, a, v);
    BundleStored(disk, f, b, spool);
    CommitSeals(disk, f, hb, b, a, v, spool);
    EnablesManifest(disk, f, m, hb);
  }

  lemma PreparedChains(disk: Disk, f: Fence, b: Bundle, a: Answers, v: Reading)
    requires Prepared(disk, f, b, a, v) && disk.heartbeats[FenceSha(f)].number == f.beforeSeq
    ensures |disk.log| == f.beforeSeq + 1 && 1 <= |b.events| <= 2
    ensures ChainsAfter(disk.heartbeats[FenceSha(f)], disk.entry.runId, b.events)
  {
    CommitChains(disk.entry, disk.log, f, disk.heartbeats[FenceSha(f)], b, a, v);
  }

  /** The completed log of a bundle that passed: the log it was checked against, then its events. */
  lemma CompletedLog(disk: Disk, done: Disk, f: Fence, b: Bundle, a: Answers, v: Reading, m: Manifest)
    requires Reaches(Created(disk.entry), disk) && Prepared(disk, f, b, a, v) && Committed(disk, f, m)
    requires m.events == Digests(b.events)
    requires Recovery.Completed(disk, m) == Ok(done)
    ensures done == disk.(log := disk.log + b.events, completes := disk.completes[FenceSha(f) := m])
  {
    PreparedNumbers(disk, f, b, a, v);
    CompletesBy(disk, f, m);
    Recovery.AppendsFresh(disk.log, disk.entry.runId, b.events);
  }

  lemma PreparedNumbers(disk: Disk, f: Fence, b: Bundle, a: Answers, v: Reading)
    requires Reaches(Created(disk.entry), disk) && Prepared(disk, f, b, a, v)
    ensures |disk.log| == f.beforeSeq + 1 && 1 <= |b.events|
    ensures forall i :: 0 <= i < |b.events| ==> b.events[i].number == |disk.log| + i
  {
    var hb := disk.heartbeats[FenceSha(f)];
    PreparedHeartbeat(disk, f);
    PreparedChains(disk, f, b, a, v);
    forall i | 0 <= i < |b.events| ensures b.events[i].number == |disk.log| + i {
      assert LinkedAt(hb, disk.entry.runId, b.events, i);
    }
  }

  lemma PreparedHeartbeat(disk: Disk, f: Fence)
    requires Reaches(Created(disk.entry), disk) && disk.fence == Some(f) && FenceSha(f) in disk.heartbeats
    ensures disk.heartbeats[FenceSha(f)].number == f.beforeSeq
  {
    ReachedSound(disk.entry, disk);
    assert HeartbeatSound(f, TenureOf(disk, f).heartbeat.value);
  }

  /** What `heartbeat` leaves once its checks passed; a refusal with no other file in the way is the log's. */
  ghost predicate HeartbeatLeaves(was: Disk, f: Fence, e: Event, disk: Disk, r: Progress<()>) {
    && (disk.heartbeats == was.heartbeats
        || (Unopposed(was, f, e) && Lookup(disk.heartbeats, FenceSha(f)) == Some(e)))
    && (r.Done? ==>
          && Unopposed(was, f, e) && disk.heartbeats == was.heartbeats[FenceSha(f) := e]
          && Append(was.log, was.entry.runId, e) == Ok(disk.log))
    && (r.Held? ==>
          disk.log == was.log && (Unopposed(was, f, e) ==> Append(was.log, was.entry.runId, e).Refused?))
  }

  /** No other heartbeat file stands for the fence. */
  predicate Unopposed(disk: Disk, f: Fence, e: Event) {
    FenceSha(f) in disk.heartbeats ==> disk.heartbeats[FenceSha(f)] == e
  }

  lemma HeartbeatLeft(
    was: Disk, mid: Disk, disk: Disk, f: Fence, e: Event, file: Progress<()>, r: Progress<()>)
    requires mid == was.(objects := mid.objects, heartbeats := mid.heartbeats) && disk == mid.(log := disk.log)
    requires file.Done? ==> Unopposed(was, f, e) && mid.heartbeats == was.heartbeats[FenceSha(f) := e]
    requires !file.Done? ==> mid.heartbeats == was.heartbeats && disk == mid && r == file
    requires file.Held? ==> !Unopposed(was, f, e)
    requires file.Done? && r.Done? ==> Append(mid.log, was.entry.runId, e) == Ok(disk.log)
    requires file.Done? && r.Held? ==> disk == mid && Append(mid.log, was.entry.runId, e).Refused?
    ensures disk == was.(objects := disk.objects, heartbeats := disk.heartbeats, log := disk.log)
    ensures HeartbeatLeaves(was, f, e, disk, r)
  {
  }

  lemma HeartbeatIsReady(disk: Disk, f: Fence, e: Event)
    requires Reaches(Created(disk.entry), disk) && disk.fence == Some(f) && HeartbeatSound(f, e)
    ensures HeartbeatReady(disk, e) <==> Unopposed(disk, f, e) && Append(disk.log, disk.entry.runId, e).Ok?
  {
    ReachedStands(disk, f);
    HeartbeatExact(disk, f, e);
  }

  lemma AttachRefused(disk: Disk, f: Fence, e: Event)
    requires disk.fence == Some(f) && Lookup(disk.heartbeats, FenceSha(f)) == Some(e)
    ensures Attached(disk).Refused? <==> Append(disk.log, disk.entry.runId, e).Refused?
  {
  }

  lemma CanPutProgram(disk: Disk, f: Fence, requested: seq<Event>)
    requires disk.fence == Some(f) && HeartbeatLogged(TenureOf(disk, f), disk.log) && FenceSha(f) !in disk.programs
    requires FenceSha(f) in disk.completes || FenceSha(f) in disk.aborts
    requires Unowned(requested) && Contents(requested) <= disk.objects
    requires Chained(disk.log + requested, disk.entry.runId)
    ensures var p := NewProgram(disk, FenceSha(f), requested);
            Enabled(disk, PutProgram(p))
            && Next(disk, PutProgram(p)) == disk.(programs := disk.programs[FenceSha(f) := p])
  {
    var p := NewProgram(disk, FenceSha(f), requested);
    assert disk.log[..|disk.log|] == disk.log && Listed(p.release.events) == requested;
    forall x | x in p.release.events ensures x.content in disk.objects {
      var i :| 0 <= i < |p.release.events| && p.release.events[i] == x;
      assert EventBytes(requested[i]) in Contents(requested);
    }
  }

  lemma NumbersOf(base: seq<Event>, runId: string, es: seq<Event>)
    requires Chained(base + es, runId)
    ensures forall i :: 0 <= i < |es| ==> es[i].number == |base| + i
  {
    forall i | 0 <= i < |es| ensures es[i].number == |base| + i {
      assert PlacedAt(base + es, runId, |base| + i);
    }
  }

  /** The first `i` events are in the log from `b` on, and nothing follows the last of them all. */
  predicate InPlace(log: seq<Event>, es: seq<Event>, b: nat, i: nat) {
    i <= |es| && b + i <= |log| <= b + |es| && log[b..b + i] == es[..i]
  }

  /** Putting event `i` in its place leaves the first `i + 1` events in place. */
  lemma AppendInPlace(log: seq<Event>, runId: string, es: seq<Event>, b: nat, i: nat)
    requires i < |es| && es[i].number == b + i && InPlace(log, es, b, i)
    ensures Append(log, runId, es[i]).Ok? ==> InPlace(Append(log, runId, es[i]).value, es, b, i + 1)
  {
    if Append(log, runId, es[i]).Ok? {
      var next := Append(log, runId, es[i]).value;
      assert next[b..b + i + 1] == log[b..b + i] + [next[b + i]];
    }
  }

  function EventContents(es: seq<Event>): seq<Content> {
    seq(|es|, i requires 0 <= i < |es| => EventBytes(es[i]))
  }

  lemma ContentsListed(es: seq<Event>)
    ensures (set c | c in EventContents(es)) == Contents(es)
  {
    assert forall i :: 0 <= i < |es| ==> EventContents(es)[i] == EventBytes(es[i]);
  }

  lemma SameProgram(was: Disk, disk: Disk, f: Fence, requested: seq<Event>)
    requires disk == was.(objects := disk.objects)
    ensures NewProgram(disk, FenceSha(f), requested) == NewProgram(was, FenceSha(f), requested)
    ensures TenureOf(disk, f) == TenureOf(was, f)
  {
  }

  /** Where a resumed release stands: its program, and the fence it belongs to or the pointer left after unfencing. */
  ghost predicate Resuming(disk: Disk, d: Digest, p: ReleaseProgram) {
    && Lookup(disk.programs, d) == Some(p)
    && (if disk.fence.Some? then FenceSha(disk.fence.value) == d else disk.retry == Some(d))
  }

  lemma SameTarget(disk: Disk, next: Disk, d: Digest, p: ReleaseProgram)
    requires p.beforeSeq <= |disk.log| && disk.log <= next.log && next.retired == disk.retired
    requires next == disk.(log := next.log, receipts := next.receipts)
    requires next.receipts == disk.receipts || next.receipts == disk.receipts[d := p.release]
    ensures Target(next, d, p) == Target(disk, d, p)
  {
    assert next.log[..p.beforeSeq] == disk.log[..p.beforeSeq];
  }

  /** The receipt names the envelopes to retire. */
  ghost predicate Retiring(disk: Disk, d: Digest, ids: set<Digest>) {
    && d in disk.receipts && d in disk.programs && disk.receipts[d] == disk.programs[d].release
    && disk.receipts[d].spoolIds == ids
    && (disk.fence.Some? ==> FenceSha(disk.fence.value) == d)
  }

  lemma RetireMore(retired: map<Digest, Digest>, d: Digest, ids: set<Digest>, x: Digest)
    requires Ours(retired, d, ids) && x !in ids
    ensures var mid := Retire(retired, d, ids);
            && mid[x := d] == Retire(retired, d, ids + {x})
            && (x in mid <==> x in retired) && (x in mid ==> mid[x] == retired[x])
            && (Ours(retired, d, ids + {x}) <==> x in retired ==> retired[x] == d)
  {
  }

  lemma RetiredTarget(was: Disk, disk: Disk, d: Digest, p: ReleaseProgram, part: set<Digest>)
    requires p.beforeSeq <= |was.log| && part <= p.release.spoolIds
    requires disk == was.(retry := disk.retry, retired := Retire(was.retired, d, part), fence := disk.fence)
    ensures Target(disk, d, p) == Target(was, d, p)
  {
    RetireWhole(was.retired, d, p.release.spoolIds, part);
  }

  /** Receipt and log first, then pointer, retirements and unfencing: what that leaves, wherever it stopped. */
  lemma FinishLeaves(
    was: Disk, mid: Disk, disk: Disk, d: Digest, p: ReleaseProgram, requested: seq<Event>, o: Oracle,
    r: Progress<()>, part: set<Digest>)
    requires Lookup(was.programs, d) == Some(p) && p.release.fenceSha == d && Stored(was.objects, p.release.events)
    requires p.beforeSeq <= |was.log| && was.log <= mid.log && part <= p.release.spoolIds
    requires mid == was.(log := mid.log, receipts := mid.receipts)
    requires mid.receipts == was.receipts || mid.receipts == was.receipts[d := p.release]
    requires disk == mid.(retry := disk.retry, retired := Retire(mid.retired, d, part), fence := disk.fence)
    requires r.Done? ==>
               && ProgramLog(was, d, p, requested, o) == Ok(mid.log) && mid.receipts == was.receipts[d := p.release]
               && Free(mid, d, p.release.spoolIds) && part == p.release.spoolIds && disk.retry == Some(d)
               && disk.fence.None?
    requires r.Held? ==> ProgramLog(was, d, p, requested, o).Refused? || !Free(mid, d, p.release.spoolIds)
    ensures Heading(was, disk, d)
    ensures r.Done? ==> Finished(was, d, requested, o) == Ok(disk)
    ensures r.Held? ==> Finished(was, d, requested, o).Refused?
  {
    SameTarget(was, mid, d, p);
    RetiredTarget(mid, disk, d, p, part);
    if r.Done? {
      FinishesAs(was, mid, disk, d, p, requested, o);
    } else if r.Held? {
      FinishRefused(was, mid, d, p, requested, o);
    }
  }

  /** Retiring part first changes nothing about retiring the whole. */
  lemma RetireWhole(retired: map<Digest, Digest>, d: Digest, ids: set<Digest>, part: set<Digest>)
    requires part <= ids
    ensures Retire(Retire(retired, d, part), d, ids) == Retire(retired, d, ids)
  {
  }

  /** Whatever was done, a program that existed is still heading for the same final state. */
  ghost predicate Heading(was: Disk, disk: Disk, d: Digest) {
    d in was.programs ==>
      var p := was.programs[d];
      && Lookup(disk.programs, d) == Some(p) && p.beforeSeq <= |was.log| && p.beforeSeq <= |disk.log|
      && Target(disk, d, p) == Target(was, d, p)
  }

  lemma HeadingOn(a: Disk, b: Disk, c: Disk, d: Digest)
    requires Heading(a, b, d) && Heading(b, c, d)
    ensures Heading(a, c, d)
  {
  }

  lemma AttachedHeading(was: Disk, disk: Disk, d: Digest)
    requires Reaches(Created(was.entry), was) && disk == was.(log := disk.log) && was.log <= disk.log
    ensures Heading(was, disk, d)
  {
    if d in was.programs {
      ProgramStart(was, d);
      SameTarget(was, disk, d, was.programs[d]);
    }
  }

  /** A standing program of the fence, as `release` works on it. */
  ghost predicate Programs(disk: Disk, f: Fence, p: ReleaseProgram, requested: seq<Event>) {
    disk.fence == Some(f) && Lookup(disk.programs, FenceSha(f)) == Some(p) && p.release.events == Digests(requested)
  }

  lemma CanLogProgram(disk: Disk, f: Fence, p: ReleaseProgram, requested: seq<Event>, i: nat)
    requires Programs(disk, f, p, requested) && i < |requested| && requested[i].number == p.beforeSeq + i
    requires InPlace(disk.log, requested, p.beforeSeq, i)
    ensures Extends(disk.log, disk.entry.runId, requested[i]) ==>
              Enabled(disk, LogProgram) && Next(disk, LogProgram) == disk.(log := disk.log + [requested[i]])
  {
    if Extends(disk.log, disk.entry.runId, requested[i]) {
      assert disk.log[p.beforeSeq..] == disk.log[p.beforeSeq..p.beforeSeq + i];
      CanLogNext(disk, f, p, requested, i);
    }
  }

  lemma CanPutReceipt(disk: Disk, f: Fence, p: ReleaseProgram, requested: seq<Event>)
    requires Programs(disk, f, p, requested) && FenceSha(f) !in disk.receipts
    requires p.beforeSeq <= |disk.log| && disk.log[p.beforeSeq..] == requested
    ensures Enabled(disk, PutReceipt)
    ensures Next(disk, PutReceipt) == disk.(receipts := disk.receipts[FenceSha(f) := p.release])
  {
    assert TenureOf(disk, f).ProgramEvents() == requested;
  }

  /** An unfenced ledger has the receipt of every program, and every envelope it names is retired. */
  lemma UnfencedFacts(disk: Disk, d: Digest)
    requires Reaches(Created(disk.entry), disk) && disk.fence.None? && d in disk.programs
    ensures d in disk.receipts && RetiredBy(disk.retired, d, disk.programs[d].release.spoolIds)
  {
    ReachedSound(disk.entry, disk);
  }

  lemma ProgramStart(disk: Disk, d: Digest)
    requires Reaches(Created(disk.entry), disk) && d in disk.programs
    ensures disk.programs[d].beforeSeq <= |disk.log|
    ensures (d in disk.receipts ==> disk.receipts[d] == disk.programs[d].release)
  {
    ReachedSound(disk.entry, disk);
    ProgramFacts(disk, d, disk.programs[d]);
  }

  /** After a passed check, `_complete` is refused only when the bundle's events do not fit the log. */
  lemma CompletesExact(disk: Disk, f: Fence, b: Bundle, a: Answers, v: Reading, m: Manifest)
    requires Reaches(Created(disk.entry), disk) && Prepared(disk, f, b, a, v) && Committed(disk, f, m)
    requires m.events == Digests(b.events)
    ensures Recovery.Completed(disk, m).Ok? <==> |disk.log| + |b.events| <= MaxEvents
  {
    PreparedNumbers(disk, f, b, a, v);
    CompletesBy(disk, f, m);
    assert Chained(disk.log + b.events, disk.entry.runId);
    Recovery.AppendsChained(disk.log, disk.entry.runId, b.events);
  }

  /** The intent, the references and the terminal fence, as `commit` finds them before it stores the bundle. */
  predicate Storable(disk: Disk, f: Fence, b: Bundle, a: Answers) {
    && (FenceSha(f) in disk.intents ==> disk.intents[FenceSha(f)] == b.intent)
    && References(disk, b) && a.fence
  }

  /** No other manifest stands, and the events fit. */
  predicate Committable(disk: Disk, f: Fence, b: Bundle) {
    && (f.segmentId in disk.terminals ==> disk.terminals[f.segmentId] == ManifestOf(f, b, Live(disk)))
    && |disk.log| + |b.events| <= MaxEvents
  }

  /** The families a `commit` may touch. */
  ghost predicate CommitTouches(was: Disk, disk: Disk) {
    disk == was.(log := disk.log, intents := disk.intents, objects := disk.objects, terminals :=
    disk.terminals, completes := disk.completes)
  }

  /** From the stored bundle to what `commit` leaves. */
  lemma StoredLeaves(was: Disk, mid: Disk, disk: Disk, f: Fence, b: Bundle, r: Progress<Manifest>)
    requires mid == was.(objects := mid.objects, intents := was.intents[FenceSha(f) := b.intent])
    requires CommitTouches(mid, disk) && CommitOutcome(mid, mid.log, f, disk, r, b)
    ensures CommitTouches(was, disk) && CommitOutcome(was, was.log, f, disk, r, b)
    ensures Committable(mid, f, b) <==> Committable(was, f, b)
  {
    assert mid.intents[FenceSha(f) := b.intent] == mid.intents;
  }

  /** From the committed manifest to what `commit` leaves, wherever the completion stopped. */
  lemma PublishedLeaves(
    was: Disk, committed: Disk, disk: Disk, f: Fence, b: Bundle, a: Answers, v: Reading, r: Progress<()>)
    requires Reaches(Created(was.entry), committed) && Prepared(was, f, b, a, v)
    requires FenceSha(f) in was.intents && was.intents[FenceSha(f)] == b.intent
    requires committed == was.(terminals := was.terminals[f.segmentId := ManifestOf(f, b, Live(was))])
    requires f.segmentId in was.terminals ==> was.terminals[f.segmentId] == ManifestOf(f, b, Live(was))
    requires Committed(committed, f, ManifestOf(f, b, Live(was)))
    requires disk == committed.(log := disk.log, completes := disk.completes)
    requires r.Done? ==> Recovery.Completed(committed, ManifestOf(f, b, Live(was))) == Ok(disk)
    requires r.Held? ==> Recovery.Completed(committed, ManifestOf(f, b, Live(was))).Refused?
    ensures CommitTouches(was, disk) && CommitOutcome(was, was.log, f, disk, r.Then(ManifestOf(f, b, Live(was))), b)
    ensures !r.Crashed? ==> (r.Done? <==> Committable(was, f, b))
  {
    var m := ManifestOf(f, b, Live(was));
    CompletesExact(committed, f, b, a, v, m);
    if r.Done? {
      CompletedLog(committed, disk, f, b, a, v, m);
    }
    assert was.intents == was.intents[FenceSha(f) := b.intent];
  }

  /** The checks and the storing together ask for what the bundle and the files must be. */
  lemma ReadyExact(disk: Disk, f: Fence, b: Bundle, a: Answers, v: Reading)
    requires Reaches(Created(disk.entry), disk) && disk.fence == Some(f) && FenceSha(f) in disk.heartbeats
    requires HeartbeatLogged(TenureOf(disk, f), disk.log) && FenceSha(f) !in disk.aborts
    requires v.captures == Captures(disk.objects, disk.inventory) && Judged(disk.entry, disk.log, b, a, v)
    ensures ReadyAttached(disk, f, b, a) <==>
            && CommitCheck(disk.entry, disk.log, f, disk.heartbeats[FenceSha(f)], b, a, v).Pass?
            && Storable(disk, f, b, a) && Committable(disk, f, b)
  {
    var hb := disk.heartbeats[FenceSha(f)];
    LogChained(disk);
    FilesExact(disk, f, b);
    if CommitCheck(disk.entry, disk.log, f, hb, b, a, v).Pass? {
      CheckedReady(disk, disk.log, f, hb, b, a, v);
    }
    if ReadyAttached(disk, f, b, a) {
      ReadyChecked(disk, disk.log, f, hb, b, a, v);
    }
  }

  lemma LogChained(disk: Disk)
    requires Reaches(Created(disk.entry), disk)
    ensures Chained(disk.log, disk.entry.runId)
  {
    ReachedSound(disk.entry, disk);
  }

  /**
    * Where a `commit` may stop: with no manifest, and then no completion and no event beyond `base`; or with exactly
    * the manifest of this bundle and its intent retained. When done, the completion is written and the bundle's
    * events follow `base`.
    */
  ghost predicate CommitOutcome(was: Disk, base: seq<Event>, f: Fence, disk: Disk, r: Progress<Manifest>, b: Bundle) {
    var m := ManifestOf(f, b, Live(disk));
    && (disk.intents == was.intents || disk.intents == was.intents[FenceSha(f) := b.intent])
    && (disk.terminals == was.terminals || disk.terminals == was.terminals[f.segmentId := m])
    && (r.Done? || disk.terminals != was.terminals ==> disk.intents == was.intents[FenceSha(f) := b.intent])
    && (f.segmentId !in disk.terminals ==> disk.completes == was.completes && disk.log == base)
    && (r.Done? ==>
          && r.value == m && disk.terminals == was.terminals[f.segmentId := m]
          && disk.completes == was.completes[FenceSha(f) := m] && disk.log == base + b.events)
  }

  /** What `begin` leaves: everything, nothing, or the fence without the removal of the old pointer. */
  ghost predicate BeginResult(was: Disk, f: Fence, disk: Disk, r: Progress<Digest>) {
    && (r.Done? ==>
          && was.fence.None? && f.segmentId !in was.terminals
          && disk == was.(fence := Some(f), retry := None) && r.value == FenceSha(f))
    && (r.Held? ==> disk == was && (was.fence.Some? || f.segmentId in was.terminals))
    && (r.Crashed? ==> disk == was || disk == was.(fence := Some(f)))
  }

  ghost predicate AbortTouches(was: Disk, disk: Disk) {
    disk == was.(log := disk.log, intents := disk.intents, objects := disk.objects, aborts := disk.aborts)
  }

  /** An abort is recorded exactly when it is done: of a fence without a manifest, as checked against this log. */
  ghost predicate AbortResult(
    was: Disk, f: Fence, base: seq<Event>, disk: Disk, r: Progress<Abort>, reason: string, given: Option<SealIntent>,
    a: Answers) {
    var retained := Lookup(was.intents, FenceSha(f));
    && (r.Done? ==>
          && f.segmentId !in was.terminals && disk.log == base
          && r.value == AbortOf(f, Chosen(retained, given), reason)
          && AbortCheck(was.entry, base, f, Lookup(was.heartbeats, FenceSha(f)), retained, given, a) == Pass
          && disk.aborts == was.aborts[FenceSha(f) := r.value])
    && (!r.Done? ==> disk.aborts == was.aborts)
    && IntentKept(was, f, disk, Chosen(retained, given), r.Done?)
  }

  /** The intent of an abort, if it has one, is retained by the time the abort is done; no other ever is. */
  ghost predicate IntentKept(was: Disk, f: Fence, disk: Disk, intent: Option<SealIntent>, done: bool) {
    if intent.None? then disk.intents == was.intents
    else
      && (done ==> disk.intents == was.intents[FenceSha(f) := intent.value]
                   && IntentBytes(intent.value) in disk.objects)
      && (disk.intents == was.intents || disk.intents == was.intents[FenceSha(f) := intent.value])
  }

  /** Neither another intent nor another abort is on file. */
  predicate Recordable(disk: Disk, f: Fence, intent: Option<SealIntent>, reason: string) {
    && (intent.Some? && FenceSha(f) in disk.intents ==> disk.intents[FenceSha(f)] == intent.value)
    && (FenceSha(f) in disk.aborts ==> disk.aborts[FenceSha(f)] == AbortOf(f, intent, reason))
  }

  /** The same over `abort` as a whole, which puts the heartbeat in its place first. */
  ghost predicate AbortLeaves(
    was: Disk, f: Fence, disk: Disk, r: Progress<Abort>, reason: string, given: Option<SealIntent>, a: Answers) {
    var attached := AttachedLog(TenureOf(was, f), was.log);
    && (disk.log == was.log || disk.log == attached)
    && AbortResult(was, f, attached, disk, r, reason, given, a)
    && (!r.Crashed? ==> (r.Done? <==> exists intent :: AbortReady(was, reason, given, intent, a)))
  }

  /** At most one intent is the one an abort records. */
  lemma AbortReadyExact(was: Disk, f: Fence, reason: string, given: Option<SealIntent>, a: Answers)
    requires Reaches(Created(was.entry), was) && was.fence == Some(f)
    ensures (exists intent :: AbortReady(was, reason, given, intent, a)) <==>
            && Attachable(TenureOf(was, f), was.entry.runId, was.log)
            && AbortReadyAttached(was.(log := AttachedLog(TenureOf(was, f), was.log)), f, reason, given,
                                  Chosen(Lookup(was.intents, FenceSha(f)), given), a)
  {
    ReachedStands(was, f);
    var mid, chosen := was.(log := AttachedLog(TenureOf(was, f), was.log)),
                       Chosen(Lookup(was.intents, FenceSha(f)), given);
    AttachedAbort(was, mid, f, reason, given, chosen, a);
    if intent :| AbortReady(was, reason, given, intent, a) {
      AttachedAbort(was, mid, f, reason, given, intent, a);
      assert intent == chosen;
    }
  }

  lemma AbortAfterAttach(
    was: Disk, mid: Disk, disk: Disk, f: Fence, r: Progress<Abort>, reason: string, given: Option<SealIntent>,
    a: Answers)
    requires Reaches(Created(was.entry), was) && was.fence == Some(f)
    requires Attachable(TenureOf(was, f), was.entry.runId, was.log)
    requires !r.Crashed? ==>
               (r.Done? <==> AbortReadyAttached(mid, f, reason, given,
                                                Chosen(Lookup(mid.intents, FenceSha(f)), given), a))
    requires mid == was.(log := AttachedLog(TenureOf(was, f), was.log))
    requires AbortTouches(mid, disk) && disk.log == mid.log && AbortResult(mid, f, mid.log, disk, r, reason, given, a)
    ensures AbortTouches(was, disk) && AbortLeaves(was, f, disk, r, reason, given, a)
  {
    AbortReadyExact(was, f, reason, given, a);
  }

  /** What a `commit` leaves behind, wherever it stopped; one not cut short is done exactly when it was ready. */
  ghost predicate CommitResult(was: Disk, f: Fence, disk: Disk, r: Progress<Manifest>, b: Bundle, a: Answers) {
    var attached := AttachedLog(TenureOf(was, f), was.log);
    && (!r.Crashed? ==> (r.Done? <==> CommitReady(was, b, a)))
    && ((disk == was && !r.Done?) || CommitOutcome(was, attached, f, disk, r, b))
  }

  lemma CommitAfterAttach(
    was: Disk, mid: Disk, disk: Disk, f: Fence, r: Progress<Manifest>, b: Bundle, a: Answers)
    requires Reaches(Created(was.entry), was) && was.fence == Some(f)
    requires Attachable(TenureOf(was, f), was.entry.runId, was.log)
    requires mid == was.(log := AttachedLog(TenureOf(was, f), was.log))
    requires CommitTouches(mid, disk) && CommitOutcome(mid, mid.log, f, disk, r, b)
    requires !r.Crashed? ==> (r.Done? <==> ReadyAttached(mid, f, b, a))
    ensures CommitTouches(was, disk) && CommitResult(was, f, disk, r, b, a)
  {
    ReachedStands(was, f);
    AttachedReady(was, mid, f, b, a);
  }

  /** Without a place for the heartbeat nothing commits. */
  lemma UnattachedUnready(was: Disk, f: Fence, b: Bundle, a: Answers)
    requires Reaches(Created(was.entry), was) && was.fence == Some(f)
    ensures CommitReady(was, b, a) ==> Attachable(TenureOf(was, f), was.entry.runId, was.log)
  {
    ReachedStands(was, f);
    AttachedReady(was, was.(log := AttachedLog(TenureOf(was, f), was.log)), f, b, a);
  }

  class Ledger {
    var disk: Disk
    /** Atomic writes left before the publisher crashes. */
    var power: nat

    /** Some run of atomic writes led here from an empty directory. */
    ghost predicate Valid()
      reads this
    {
      Reaches(Created(disk.entry), disk)
    }

    constructor (entry: Entry, power: nat)
      ensures Valid() && disk == Created(entry) && this.power == power
    {
      disk := Created(entry);
      this.power := power;
      new;
      ReachesSelf(disk);
    }

    /** A new publisher process over the same directory. */
    method Restart(power: nat)
      requires Valid()
      modifies this`power
      ensures Valid() && this.power == power
    {
      this.power := power;
    }

    method Write(m: Move) returns (r: Progress<()>)
      requires Valid() && Enabled(disk, m)
      modifies this
      ensures r.Crashed? ==> power == 0
      ensures Valid() && Grows(old(disk), disk)
      ensures r.Done? ==> disk == Next(old(disk), m)
      ensures r.Done? || (r.Crashed? && disk == old(disk))
    {
      if power == 0 {
        return Crashed;
      }
      ReachesNext(Created(disk.entry), disk, m);
      MoveGrows(disk, m);
      power := power - 1;
      disk := Next(disk, m);
      r := Done(());
    }

    /** `_object`: content-addressed, so storing twice writes once. */
    method Store(c: Content) returns (r: Progress<()>)
      requires Valid()
      modifies this
      ensures r.Crashed? ==> power == 0
      ensures Valid() && disk == old(disk).(objects := disk.objects)
      ensures r.Done? ==> disk.objects == old(disk).objects + {c}
      ensures !r.Done? ==> r.Crashed? && disk == old(disk)
    {
      if c in disk.objects {
        assert disk.objects + {c} == disk.objects;
        return Done(());
      }
      r := Write(PutObject(c));
    }

    /** `_append`; `m` names the write it makes when the event is not there yet. */
    method AppendEvent(e: Event, m: Move) returns (r: Progress<()>)
      requires Valid()
      requires Extends(disk.log, disk.entry.runId, e) ==>
                 Enabled(disk, m) && Next(disk, m) == disk.(log := disk.log + [e])
      modifies this
      ensures r.Crashed? ==> power == 0
      ensures Valid() && disk == old(disk).(log := disk.log) && old(disk).log <= disk.log
      ensures r.Done? ==> Recovery.Append(old(disk).log, disk.entry.runId, e) == Ok(disk.log)
      ensures r.Held? ==> Recovery.Append(old(disk).log, disk.entry.runId, e) == Refused(r.code) && disk == old(disk)
      ensures r.Crashed? ==> disk == old(disk)
    {
      if e.number < |disk.log| {
        if disk.log[e.number] != e {
          return Held("event_recovery_conflict");
        }
        return Done(());
      }
      if e.number != |disk.log| || e.runId != disk.entry.runId || e.previous != Head(disk.log) {
        return Held("event_chain");
      }
      if e.number >= MaxEvents {
        return Held("event_capacity");
      }
      r := Write(m);
    }

    /** `append`: refused while a fence stands. */
    method AppendUnfenced(e: Event) returns (r: Progress<()>)
      requires Valid()
      modifies this
      ensures r.Crashed? ==> power == 0
      ensures Valid() && disk == old(disk).(log := disk.log)
      ensures r.Done? ==> old(disk).fence.None? && Recovery.Append(old(disk).log, disk.entry.runId, e) == Ok(disk.log)
      ensures r.Held? ==>
                disk == old(disk) && (disk.fence.Some? || Recovery.Append(disk.log, disk.entry.runId, e).Refused?)
      ensures r.Crashed? ==> disk == old(disk)
    {
      if disk.fence.Some? {
        return Held("terminal_fenced");
      }
      r := AppendEvent(e, AppendFree(e));
    }

    /** `spool`: keeps the envelope, with at most 1,024 live ones. */
    method Spool(id: Digest) returns (r: Progress<()>)
      requires Valid()
      modifies this
      ensures r.Crashed? ==> power == 0
      ensures Valid() && disk == old(disk).(spool := disk.spool)
      ensures r.Done? ==> disk.spool == old(disk).spool + {id}
      ensures r.Held? <==>
              && id !in old(disk).spool
              && (|old(disk).spool - old(disk).retired.Keys| >= 1024 || |old(disk).spool| >= 100_000)
      ensures !r.Done? ==> disk == old(disk)
    {
      if id in disk.spool {
        assert disk.spool + {id} == disk.spool;
        return Done(());
      }
      if |Live(disk)| >= MaxSpool {
        return Held("spool_overflow");
      }
      if |disk.spool| >= MaxObjects {
        return Held("spool_retention_capacity");
      }
      r := Write(PutSpool(id));
    }

    /** `retain`: an artifact identifier is bound to one content for good. */
    method Retain(a: Artifact) returns (r: Progress<()>)
      requires Valid()
      modifies this
      ensures r.Crashed? ==> power == 0
      ensures Valid() && Grows(old(disk), disk)
      ensures r.Done? ==> Bound(disk.objects, disk.inventory, [a])
      ensures r.Held? <==> r == Held("immutable_file_conflict")
      ensures r.Held? ==> a.id in old(disk).inventory && old(disk).inventory[a.id] != a
    {
      r := Store(a.sha.content);
      if r.Done? {
        if a.id in disk.inventory {
          return if disk.inventory[a.id] == a then Done(()) else Held("immutable_file_conflict");
        }
        r := Write(PutInventory(a));
      }
    }

    /** `begin`: the fence first, then the old retry pointer; `attemptId` is a new UUID. */
    method Begin(segmentId: string, attemptId: string) returns (r: Progress<Digest>)
      requires Valid() && Unused(disk, FenceSha(Fence(segmentId, attemptId, Head(disk.log), |disk.log|)))
      modifies this
      ensures r.Crashed? ==> power == 0
      ensures Valid()
      ensures BeginResult(old(disk), Fence(segmentId, attemptId, Head(old(disk).log), |old(disk).log|), disk, r)
    {
      if disk.fence.Some? {
        return Held("terminal_fenced");
      }
      if segmentId in disk.terminals {
        return Held("segment_already_terminal");
      }
      r := PutFenceFile(Fence(segmentId, attemptId, Head(disk.log), |disk.log|));
    }

    method PutFenceFile(f: Fence) returns (r: Progress<Digest>)
      requires Valid() && Unused(disk, FenceSha(f)) && disk.fence.None? && f.segmentId !in disk.terminals
      requires f.beforeHead == Head(disk.log) && f.beforeSeq == |disk.log|
      modifies this
      ensures r.Crashed? ==> power == 0
      ensures Valid() && BeginResult(old(disk), f, disk, r) && !r.Held?
    {
      CanFence(disk, f);
      var _ :- Write(PutFence(f));
      var _ :- ForgetRetry();
      r := Done(FenceSha(f));
    }

    method ForgetRetry() returns (r: Progress<()>)
      requires Valid() && disk.fence.Some?
      modifies this
      ensures r.Crashed? ==> power == 0
      ensures Valid()
      ensures r.Done? ==> disk == old(disk).(retry := None)
      ensures !r.Done? ==> r.Crashed? && disk == old(disk)
    {
      if disk.retry.None? {
        return Done(());
      }
      CanDropRetry(disk);
      r := Write(DropRetry);
    }

    /** `_fence`: the heartbeat file's event is put in its place first. */
    method AttachHeartbeat() returns (r: Progress<()>)
      requires Valid() && disk.fence.Some?
      modifies this
      ensures r.Crashed? ==> power == 0
      ensures Valid() && disk == old(disk).(log := disk.log) && old(disk).log <= disk.log
      ensures r.Done? ==> Recovery.Attached(old(disk)) == Ok(disk)
      ensures r.Held? ==> Recovery.Attached(old(disk)).Refused? && disk == old(disk)
      ensures r.Crashed? ==> disk == old(disk)
    {
      var f := disk.fence.value;
      var d := FenceSha(f);
      if d !in disk.heartbeats {
        return Done(());
      }
      CanLogHeartbeat(disk, f);
      r := AppendEvent(disk.heartbeats[d], LogHeartbeat);
    }

    /** The same, in terms of the log it leaves. */
    method Attach(f: Fence) returns (r: Progress<()>)
      requires Valid() && disk.fence == Some(f)
      modifies this
      ensures r.Crashed? ==> power == 0
      ensures Valid()
      ensures r.Done? ==>
                && Attachable(TenureOf(old(disk), f), disk.entry.runId, old(disk).log)
                && disk == old(disk).(log := Recovery.AttachedLog(TenureOf(old(disk), f), old(disk).log))
                && HeartbeatLogged(TenureOf(disk, f), disk.log)
      ensures r.Held? ==> !Attachable(TenureOf(old(disk), f), disk.entry.runId, old(disk).log)
      ensures !r.Done? ==> disk == old(disk)
    {
      ghost var was := disk;
      r := AttachHeartbeat();
      AttachLeaves(was, disk, f, r);
    }

    /** The fence's heartbeat file: written once, or required equal. */
    method PutHeartbeatFile(f: Fence, e: Event) returns (r: Progress<()>)
      requires Valid() && disk.fence == Some(f) && HeartbeatSound(f, e)
      modifies this
      ensures r.Crashed? ==> power == 0
      ensures Valid() && disk == old(disk).(objects := disk.objects, heartbeats := disk.heartbeats)
      ensures r.Done? ==> disk.heartbeats == old(disk).heartbeats[FenceSha(f) := e]
      ensures r.Done? ==> disk.objects == old(disk).objects + {EventBytes(e)}
      ensures !r.Done? ==> disk.heartbeats == old(disk).heartbeats
      ensures FenceSha(f) in old(disk).heartbeats ==> disk.heartbeats == old(disk).heartbeats
      ensures !r.Crashed? ==> (r.Done? <==> Unopposed(old(disk), f, e))
    {
      var _ :- Store(EventBytes(e));
      if FenceSha(f) in disk.heartbeats {
        assert disk.heartbeats[FenceSha(f) := disk.heartbeats[FenceSha(f)]] == disk.heartbeats;
        return if disk.heartbeats[FenceSha(f)] == e then Done(()) else Held("immutable_file_conflict");
      }
      CanPutHeartbeat(disk, f, e);
      r := Write(PutHeartbeat(e));
    }

    /**
      * `heartbeat`: the object, the fence's heartbeat file, then its event; a refusal after the file holds the fence
      * for good.
      */
    method AddHeartbeat(e: Event) returns (r: Progress<()>)
      requires Valid()
      modifies this
      ensures r.Crashed? ==> power == 0
      ensures Valid() && disk == old(disk).(objects := disk.objects, heartbeats := disk.heartbeats, log := disk.log)
      ensures disk.fence.None? || !HeartbeatSound(disk.fence.value, e) ==> r.Held? && disk == old(disk)
      ensures r.Done? ==>
                && disk.heartbeats == old(disk).heartbeats[FenceSha(disk.fence.value) := e]
                && Recovery.Append(old(disk).log, disk.entry.runId, e) == Ok(disk.log)
      ensures r.Held? ==> disk.log == old(disk).log
      ensures r.Held? && disk.heartbeats != old(disk).heartbeats ==> Recovery.Attached(disk).Refused?
      ensures !r.Crashed? ==> (r.Done? <==> HeartbeatReady(old(disk), e))
    {
      var check := HeartbeatCheck(disk.fence, e);
      if check.Fail? {
        return Held(check.code);
      }
      var f := disk.fence.value;
      HeartbeatIsReady(disk, f, e);
      r := AttachNew(f, e);
      if r.Held? && Lookup(disk.heartbeats, FenceSha(f)) == Some(e) {
        AttachRefused(disk, f, e);
      }
    }

    method AttachNew(f: Fence, e: Event) returns (r: Progress<()>)
      requires Valid() && disk.fence == Some(f) && HeartbeatSound(f, e)
      modifies this
      ensures r.Crashed? ==> power == 0
      ensures Valid() && disk == old(disk).(objects := disk.objects, heartbeats := disk.heartbeats, log := disk.log)
      ensures HeartbeatLeaves(old(disk), f, e, disk, r)
    {
      ghost var was := disk;
      r := PutHeartbeatFile(f, e);
      ghost var mid, file := disk, r;
      if r.Done? {
        r := LogNewHeartbeat(f, e);
      }
      HeartbeatLeft(was, mid, disk, f, e, file, r);
    }

    method LogNewHeartbeat(f: Fence, e: Event) returns (r: Progress<()>)
      requires Valid() && disk.fence == Some(f) && Lookup(disk.heartbeats, FenceSha(f)) == Some(e)
      modifies this
      ensures r.Crashed? ==> power == 0
      ensures Valid() && disk == old(disk).(log := disk.log)
      ensures r.Done? ==> Append(old(disk).log, disk.entry.runId, e) == Ok(disk.log)
      ensures r.Held? ==> disk == old(disk) && Append(disk.log, disk.entry.runId, e).Refused?
    {
      CanLogHeartbeat(disk, f);
      r := AppendEvent(e, LogHeartbeat);
    }

    method LogManifestEvent(f: Fence, m: Manifest, i: nat) returns (r: Progress<()>)
      requires Valid() && Committed(disk, f, m) && AreEvents(m.events) && i < |m.events|
      modifies this
      ensures r.Crashed? ==> power == 0
      ensures Valid() && disk == old(disk).(log := disk.log)
      ensures r.Done? ==> Append(old(disk).log, disk.entry.runId, Events(m.events)[i]) == Ok(disk.log)
      ensures r.Held? ==> Append(old(disk).log, disk.entry.runId, Events(m.events)[i]).Refused?
      ensures !r.Done? ==> disk == old(disk)
    {
      CanLogManifest(disk, f, m, i);
      r := AppendEvent(Events(m.events)[i], LogManifest);
    }

    /** The loop of `_complete` over the manifest's events. */
    method AppendManifest(f: Fence, m: Manifest) returns (r: Progress<()>)
      requires Valid() && Committed(disk, f, m) && AreEvents(m.events) && |disk.log| <= f.beforeSeq + 1 + |m.events|
      modifies this
      ensures r.Crashed? ==> power == 0
      ensures Valid() && disk == old(disk).(log := disk.log) && |disk.log| <= f.beforeSeq + 1 + |m.events|
      ensures r.Done? ==>
                Recovery.AppendAll(old(disk).log, disk.entry.runId, Events(m.events)) == Ok(disk.log)
                && |disk.log| == f.beforeSeq + 1 + |m.events|
      ensures r.Held? ==> Recovery.AppendAll(old(disk).log, disk.entry.runId, Events(m.events)).Refused?
    {
      ghost var was := disk;
      var es, i := Events(m.events), 0;
      CommittedNumbers(disk, f, m);
      assert es[0..] == es;
      while i < |es|
        invariant 0 <= i <= |es| && Valid() && disk == was.(log := disk.log)
        invariant f.beforeSeq + 1 + i <= |disk.log| <= f.beforeSeq + 1 + |es|
        invariant Recovery.AppendAll(was.log, was.entry.runId, es)
               == Recovery.AppendAll(disk.log, was.entry.runId, es[i..])
      {
        assert es[i..][1..] == es[i + 1..];
        AppendLength(disk.log, disk.entry.runId, es[i]);
        var _ :- LogManifestEvent(f, m, i);
        i := i + 1;
      }
      r := Done(());
    }

    method PutCompletion(f: Fence, m: Manifest) returns (r: Progress<()>)
      requires Valid() && Committed(disk, f, m) && |disk.log| == f.beforeSeq + 1 + |m.events|
      modifies this
      ensures r.Crashed? ==> power == 0
      ensures Valid()
      ensures r.Done? ==> disk == old(disk).(completes := old(disk).completes[FenceSha(f) := m])
      ensures !r.Done? ==> r.Crashed? && disk == old(disk)
    {
      if FenceSha(f) in disk.completes {
        CommittedFacts(disk, f, m);
        assert disk.completes[FenceSha(f) := m] == disk.completes;
        return Done(());
      }
      CanComplete(disk, f, m);
      r := Write(PutComplete);
    }

    /** The manifest's events that are missing, then the completion. */
    method AppendAndComplete(f: Fence, m: Manifest) returns (r: Progress<()>)
      requires Valid() && Committed(disk, f, m) && AreEvents(m.events) && |disk.log| <= f.beforeSeq + 1 + |m.events|
      modifies this
      ensures r.Crashed? ==> power == 0
      ensures Valid() && disk == old(disk).(log := disk.log, completes := disk.completes)
      ensures r.Done? ==>
                && Recovery.AppendAll(old(disk).log, disk.entry.runId, Events(m.events)) == Ok(disk.log)
                && disk.completes == old(disk).completes[FenceSha(f) := m]
      ensures r.Held? ==> Recovery.AppendAll(old(disk).log, disk.entry.runId, Events(m.events)).Refused?
    {
      var _ :- AppendManifest(f, m);
      r := PutCompletion(f, m);
    }

    /** `_complete`: append the manifest's events that are missing, then the completion. */
    method Complete(f: Fence, m: Manifest) returns (r: Progress<()>)
      requires Valid() && Committed(disk, f, m)
      modifies this
      ensures r.Crashed? ==> power == 0
      ensures Valid() && disk == old(disk).(log := disk.log, completes := disk.completes)
      ensures r.Done? ==> Recovery.Completed(old(disk), m) == Ok(disk)
      ensures r.Held? ==> Recovery.Completed(old(disk), m).Refused?
    {
      ghost var was := disk;
      CompleteHeld(disk, f, m);
      if |disk.log| > f.beforeSeq + 1 + |m.events| {
        return Held("unexpected_event_tail");
      }
      r := AppendAndComplete(f, m);
      CompleteLeaves(was, disk, f, m, r);
    }

    method Recover() returns (r: Progress<Recovery.Standing>)
      requires Valid()
      modifies this
      ensures r.Crashed? ==> power == 0
      ensures Valid() && disk == old(disk).(log := disk.log, completes := disk.completes)
      ensures r.Done? ==> Recovery.Recovered(old(disk)) == Ok((disk, r.value))
      ensures r.Held? ==> Recovery.Recovered(old(disk)).Refused?
    {
      if disk.fence.None? {
        return Done(Recovery.Unfenced);
      }
      var f := disk.fence.value;
      var _ :- AttachHeartbeat();
      if f.segmentId !in disk.terminals {
        if FenceSha(f) in disk.completes {
          return Held("terminal_manifest_missing");
        }
        return Done(Recovery.PreparedFence);
      }
      var m := disk.terminals[f.segmentId];
      CommittedFacts(disk, f, m);
      var _ :- Complete(f, m);
      r := Done(Recovery.CommittedComplete);
    }

    /** Store several contents, in order. */
    method StoreAll(cs: seq<Content>) returns (r: Progress<()>)
      requires Valid()
      modifies this
      ensures r.Crashed? ==> power == 0
      ensures Valid() && disk == old(disk).(objects := disk.objects) && old(disk).objects <= disk.objects
      ensures r.Done? ==> disk.objects == old(disk).objects + set c | c in cs
      ensures !r.Done? ==> r.Crashed?
    {
      ghost var was := disk;
      var i := 0;
      while i < |cs|
        invariant 0 <= i <= |cs| && Valid() && disk == was.(objects := disk.objects)
        invariant disk.objects == was.objects + set c | c in cs[..i]
      {
        var _ :- Store(cs[i]);
        assert cs[..i + 1] == cs[..i] + [cs[i]];
        i := i + 1;
      }
      assert cs[..i] == cs;
      r := Done(());
    }

    /** The retained intent: written once, or required equal. */
    method PutIntentFile(f: Fence, i: SealIntent) returns (r: Progress<()>)
      requires Valid() && disk.fence == Some(f)
      modifies this
      ensures r.Crashed? ==> power == 0
      ensures Valid() && disk == old(disk).(intents := disk.intents)
      ensures r.Done? ==> disk.intents == old(disk).intents[FenceSha(f) := i]
      ensures r.Held? <==> FenceSha(f) in old(disk).intents && old(disk).intents[FenceSha(f)] != i
      ensures !r.Done? ==> disk == old(disk)
    {
      if FenceSha(f) in disk.intents {
        assert disk.intents[FenceSha(f) := disk.intents[FenceSha(f)]] == disk.intents;
        return if disk.intents[FenceSha(f)] == i then Done(()) else Held("immutable_file_conflict");
      }
      CanPutIntent(disk, f, i);
      r := Write(PutIntent(i));
    }

    /** The commit point: the terminal manifest of the segment, written once. */
    method PutTerminal(f: Fence, b: Bundle, a: Answers, ghost v: Reading, spool: set<Digest>) returns (r: Progress<()>)
      requires Valid() && Prepared(disk, f, b, a, v)
      requires forall c :: c in BundleContents(f, b, spool) ==> c in disk.objects
      modifies this
      ensures r.Crashed? ==> power == 0
      ensures Valid() && disk == old(disk).(terminals := disk.terminals)
      ensures r.Done? ==>
                disk.terminals == old(disk).terminals[f.segmentId := ManifestOf(f, b, spool)]
                && Committed(disk, f, ManifestOf(f, b, spool))
      ensures !r.Crashed? ==>
                (r.Done? <==> f.segmentId in old(disk).terminals ==>
                                old(disk).terminals[f.segmentId] == ManifestOf(f, b, spool))
      ensures !r.Done? ==> disk == old(disk)
    {
      var m := ManifestOf(f, b, spool);
      if f.segmentId in disk.terminals {
        assert disk.terminals[f.segmentId := disk.terminals[f.segmentId]] == disk.terminals;
        return if disk.terminals[f.segmentId] == m then Done(()) else Held("immutable_file_conflict");
      }
      CanPutManifest(disk, f, b, a, v, spool);
      r := Write(PutManifest(m));
    }

    /** Store what the manifest will name, once every reference is bound. */
    method StoreNamed(f: Fence, b: Bundle, a: Answers) returns (r: Progress<()>)
      requires Valid() && disk.fence == Some(f)
      modifies this
      ensures r.Crashed? ==> power == 0
      ensures Valid() && disk == old(disk).(objects := disk.objects) && old(disk).objects <= disk.objects
      ensures r.Done? ==>
                References(disk, b) && forall c :: c in BundleContents(f, b, Live(disk)) ==> c in disk.objects
      ensures !r.Crashed? ==> (r.Done? <==> References(old(disk), b) && a.fence)
    {
      if !References(disk, b) {
        return Held("artifact_missing_or_changed");
      }
      if !a.fence {
        return Held("source_adapter_unavailable:terminal_fence");
      }
      ghost var before := disk;
      r := StoreAll(BundleContents(f, b, Live(disk)));
      ReferencesStay(before, disk, b);
    }

    /** Retain the intent and store what the manifest will name. */
    method StoreBundle(f: Fence, b: Bundle, a: Answers) returns (r: Progress<set<Digest>>)
      requires Valid() && disk.fence == Some(f)
      modifies this
      ensures r.Crashed? ==> power == 0
      ensures Valid() && disk == old(disk).(intents := disk.intents, objects := disk.objects)
      ensures old(disk).objects <= disk.objects
      ensures disk.intents == old(disk).intents || disk.intents == old(disk).intents[FenceSha(f) := b.intent]
      ensures r.Done? ==> disk.intents == old(disk).intents[FenceSha(f) := b.intent]
      ensures r.Done? ==>
                && r.value == Live(disk) && References(disk, b)
                && forall c :: c in BundleContents(f, b, r.value) ==> c in disk.objects
      ensures !r.Crashed? ==> (r.Done? <==> Storable(old(disk), f, b, a))
    {
      var _ :- PutIntentFile(f, b.intent);
      var _ :- StoreNamed(f, b, a);
      r := Done(Live(disk));
    }

    /** `commit` after its checks: store what the manifest names, commit, complete. */
    method Publish(f: Fence, b: Bundle, a: Answers, ghost v: Reading) returns (r: Progress<Manifest>)
      requires Valid() && disk.fence == Some(f) && FenceSha(f) in disk.heartbeats && FenceSha(f) !in disk.aborts
      requires f.beforeSeq < |disk.log| && disk.log[f.beforeSeq] == disk.heartbeats[FenceSha(f)]
      requires CommitCheck(disk.entry, disk.log, f, disk.heartbeats[FenceSha(f)], b, a, v) == Pass
      requires Judged(disk.entry, disk.log, b, a, v)
      requires FromInventory(EvidenceOf(a, v.captures), disk.objects, disk.inventory)
      modifies this
      ensures r.Crashed? ==> power == 0
      ensures Valid() && CommitTouches(old(disk), disk) && CommitOutcome(old(disk), old(disk).log, f, disk, r, b)
      ensures !r.Crashed? ==> (r.Done? <==> Storable(old(disk), f, b, a) && Committable(old(disk), f, b))
    {
      ghost var was := disk;
      var spool :- StoreBundle(f, b, a);
      ghost var mid := disk;
      r := PublishStored(f, b, a, v, spool);
      StoredLeaves(was, mid, disk, f, b, r);
    }

    /** The commit point and the completion. */
    method PublishStored(f: Fence, b: Bundle, a: Answers, ghost v: Reading, spool: set<Digest>)
      returns (r: Progress<Manifest>)
      requires Valid() && Prepared(disk, f, b, a, v) && spool == Live(disk)
               && forall c :: c in BundleContents(f, b, spool) ==> c in disk.objects
      requires FenceSha(f) in disk.intents && disk.intents[FenceSha(f)] == b.intent
      modifies this
      ensures r.Crashed? ==> power == 0
      ensures Valid() && CommitTouches(old(disk), disk) && CommitOutcome(old(disk), old(disk).log, f, disk, r, b)
      ensures !r.Crashed? ==> (r.Done? <==> Committable(old(disk), f, b))
    {
      ghost var was := disk;
      var _ :- PutTerminal(f, b, a, v, spool);
      var m := ManifestOf(f, b, spool);
      ghost var committed := disk;
      var completed := Complete(f, m);
      r := completed.Then(m);
      PublishedLeaves(was, committed, disk, f, b, a, v, completed);
    }

    /** The retained checkpoints and, for a seal, the evaluator's own answer over the log. */
    method ReadBundle(b: Bundle, a: Answers) returns (v: Reading)
      ensures v.captures == Captures(disk.objects, disk.inventory) && Judged(disk.entry, disk.log, b, a, v)
    {
      var captures := Captures(disk.objects, disk.inventory);
      var evaluation := Evaluators.NotQualified("not_sealed");
      if b.intent.sealed {
        evaluation := Evaluators.Evaluate(disk.entry, EvidenceOf(a, captures), disk.log, b.segment.segmentId,
                                          b.assessment.coverage, b.assessment.additions, b.assessment.unresolved);
      }
      v := Reading(captures, evaluation);
    }

    /** `commit` once the heartbeat is in its place: its checks, then the bundle. */
    method CommitAttached(f: Fence, b: Bundle, a: Answers) returns (r: Progress<Manifest>)
      requires Valid() && disk.fence == Some(f) && HeartbeatLogged(TenureOf(disk, f), disk.log)
      modifies this
      ensures r.Crashed? ==> power == 0
      ensures Valid() && CommitTouches(old(disk), disk) && CommitOutcome(old(disk), old(disk).log, f, disk, r, b)
      ensures !r.Crashed? ==> (r.Done? <==> ReadyAttached(old(disk), f, b, a))
    {
      if FenceSha(f) in disk.aborts {
        return Held("aborted_fence");
      }
      if FenceSha(f) !in disk.heartbeats {
        return Held("terminal_heartbeat_missing");
      }
      var v := ReadBundle(b, a);
      ReadyExact(disk, f, b, a, v);
      var check := CommitCheck(disk.entry, disk.log, f, disk.heartbeats[FenceSha(f)], b, a, v);
      if check.Fail? {
        return Held(check.code);
      }
      CapturesRetained(disk.objects, disk.inventory, a);
      r := Publish(f, b, a, v);
    }

    method Commit(b: Bundle, a: Answers) returns (r: Progress<Manifest>)
      requires Valid()
      modifies this
      ensures r.Crashed? ==> power == 0
      ensures Valid() && CommitTouches(old(disk), disk)
      ensures old(disk).fence.None? ==> r.Held? && disk == old(disk)
      ensures old(disk).fence.Some? ==> CommitResult(old(disk), old(disk).fence.value, disk, r, b, a)
    {
      if disk.fence.None? {
        return Held("no_active_fence");
      }
      var f := disk.fence.value;
      ghost var was := disk;
      UnattachedUnready(was, f, b, a);
      var _ :- Attach(f);
      ghost var mid := disk;
      r := CommitAttached(f, b, a);
      CommitAfterAttach(was, mid, disk, f, r, b, a);
    }

    method RetainIntent(f: Fence, intent: Option<SealIntent>) returns (r: Progress<()>)
      requires Valid() && disk.fence == Some(f)
      modifies this
      ensures r.Crashed? ==> power == 0
      ensures Valid() && disk == old(disk).(intents := disk.intents, objects := disk.objects)
      ensures IntentKept(old(disk), f, disk, intent, r.Done?)
      ensures !r.Crashed? ==>
                (r.Done? <==> intent.Some? && FenceSha(f) in old(disk).intents ==>
                                old(disk).intents[FenceSha(f)] == intent.value)
    {
      if intent.None? {
        return Done(());
      }
      var _ :- Store(IntentBytes(intent.value));
      r := PutIntentFile(f, intent.value);
    }

    /** The abort of a fence without a manifest: written once, or required equal. */
    method PutAbortFile(f: Fence, value: Abort) returns (r: Progress<()>)
      requires Valid() && disk.fence == Some(f) && f.segmentId !in disk.terminals && value.fenceSha == FenceSha(f)
      modifies this
      ensures r.Crashed? ==> power == 0
      ensures Valid() && disk == old(disk).(aborts := disk.aborts)
      ensures r.Done? ==> disk.aborts == old(disk).aborts[FenceSha(f) := value]
      ensures !r.Crashed? ==>
                (r.Done? <==> FenceSha(f) in old(disk).aborts ==> old(disk).aborts[FenceSha(f)] == value)
      ensures !r.Done? ==> disk == old(disk)
    {
      if FenceSha(f) in disk.aborts {
        assert disk.aborts[FenceSha(f) := disk.aborts[FenceSha(f)]] == disk.aborts;
        return if disk.aborts[FenceSha(f)] == value then Done(()) else Held("immutable_file_conflict");
      }
      CanPutAbort(disk, f, value);
      r := Write(PutAbort(value));
    }

    /** `abort`: only of a fence without a manifest; a retained intent must be the one given, if one is given. */
    method AbortFence(reason: string, given: Option<SealIntent>, a: Answers) returns (r: Progress<Abort>)
      requires Valid()
      modifies this
      ensures r.Crashed? ==> power == 0
      ensures Valid() && AbortTouches(old(disk), disk)
      ensures old(disk).fence.None? ==> r.Held? && disk == old(disk)
      ensures old(disk).fence.Some? ==> AbortLeaves(old(disk), old(disk).fence.value, disk, r, reason, given, a)
    {
      if disk.fence.None? {
        return Held("no_active_fence");
      }
      var f := disk.fence.value;
      ghost var was := disk;
      AbortReadyExact(was, f, reason, given, a);
      var _ :- Attach(f);
      ghost var mid := disk;
      r := AbortAttached(f, reason, given, a);
      AbortAfterAttach(was, mid, disk, f, r, reason, given, a);
    }

    /** `abort` once the heartbeat is in its place. */
    method AbortAttached(f: Fence, reason: string, given: Option<SealIntent>, a: Answers) returns (r: Progress<Abort>)
      requires Valid() && disk.fence == Some(f)
      modifies this
      ensures r.Crashed? ==> power == 0
      ensures Valid() && AbortTouches(old(disk), disk) && disk.log == old(disk).log
      ensures AbortResult(old(disk), f, old(disk).log, disk, r, reason, given, a)
      ensures var intent := Chosen(Lookup(old(disk).intents, FenceSha(f)), given);
              !r.Crashed? ==> (r.Done? <==> AbortReadyAttached(old(disk), f, reason, given, intent, a))
    {
      AbortExact(disk, f, reason, given, Chosen(Lookup(disk.intents, FenceSha(f)), given), a);
      if f.segmentId in disk.terminals {
        return Held("committed_cannot_abort");
      }
      var retained := Lookup(disk.intents, FenceSha(f));
      var check := AbortCheck(disk.entry, disk.log, f, Lookup(disk.heartbeats, FenceSha(f)), retained, given, a);
      if check.Fail? {
        return Held(check.code);
      }
      r := RecordAbort(f, Chosen(retained, given), reason);
    }

    /** The intent, if there is one, then the abort. */
    method RecordAbort(f: Fence, intent: Option<SealIntent>, reason: string) returns (r: Progress<Abort>)
      requires Valid() && disk.fence == Some(f) && f.segmentId !in disk.terminals
      modifies this
      ensures r.Crashed? ==> power == 0
      ensures Valid() && AbortTouches(old(disk), disk) && disk.log == old(disk).log
      ensures r.Done? ==>
                r.value == AbortOf(f, intent, reason) && disk.aborts == old(disk).aborts[FenceSha(f) := r.value]
      ensures !r.Done? ==> disk.aborts == old(disk).aborts
      ensures IntentKept(old(disk), f, disk, intent, r.Done?)
      ensures !r.Crashed? ==> (r.Done? <==> Recordable(old(disk), f, intent, reason))
    {
      var _ :- RetainIntent(f, intent);
      var value := AbortOf(f, intent, reason);
      var _ :- PutAbortFile(f, value);
      r := Done(value);
    }

    /**
      * Commit atomicity as a publisher meets it: `commit` stops after any number of writes, a new publisher recovers.
      * Unless that one crashes too, either nothing was committed and the log ends with the heartbeat alone, or this
      * fence's manifest stands, completed, and its events end the log.
      */
    method CommitThenRecover(b: Bundle, a: Answers, writes: nat, later: nat) returns (r: Progress<Recovery.Standing>)
      requires Valid() && disk.fence.Some? && FenceSha(disk.fence.value) !in disk.programs
      requires disk.fence.value.beforeSeq + 3 <= MaxEvents
      requires Recovery.Attachable(TenureOf(disk, disk.fence.value), disk.entry.runId, disk.log)
      modifies this
      ensures r.Crashed? ==> power == 0
      ensures Valid() && disk.fence == old(disk).fence && !r.Held?
      ensures r.Done? ==> AllOrNothing(disk, disk.fence.value, r.value)
      ensures disk.terminals == old(disk).terminals
              || disk.terminals ==
                 old(disk).terminals[disk.fence.value.segmentId := ManifestOf(disk.fence.value, b, Live(disk))]
    {
      var f := disk.fence.value;
      ghost var was := disk;
      Restart(writes);
      var _ := Commit(b, a);
      ghost var mid := disk;
      StillAttachable(was, mid, f);
      ManifestFits(mid, f);
      Restart(later);
      r := Recover();
      AtomicAfter(mid, f);
    }

    /** The release program: found from an earlier attempt, or written over a snapshot of the live envelopes. */
    method EnsureProgram(f: Fence, requested: seq<Event>, o: Oracle) returns (r: Progress<()>)
      requires Valid() && disk.fence == Some(f) && HeartbeatLogged(TenureOf(disk, f), disk.log)
      requires FenceSha(f) in disk.completes || FenceSha(f) in disk.aborts
      modifies this
      ensures r.Crashed? ==> power == 0
      ensures Valid() && disk == old(disk).(objects := disk.objects, programs := disk.programs)
      ensures r.Done? ==> Programmed(old(disk), FenceSha(f), requested, o) == Ok(disk)
      ensures r.Held? ==> Programmed(old(disk), FenceSha(f), requested, o).Refused? && disk == old(disk)
      ensures !r.Done? ==> disk.programs == old(disk).programs
    {
      var d := FenceSha(f);
      if d in disk.programs {
        return if disk.programs[d].release.events == Digests(requested) then Done(())
          else Held("release_program_conflict");
      }
      var check := NewCheck(disk, requested, o);
      if check.Fail? {
        return Held(check.code);
      }
      r := WriteProgram(f, requested);
    }

    method WriteProgram(f: Fence, requested: seq<Event>) returns (r: Progress<()>)
      requires Valid() && disk.fence == Some(f) && HeartbeatLogged(TenureOf(disk, f), disk.log)
      requires FenceSha(f) !in disk.programs
      requires FenceSha(f) in disk.completes || FenceSha(f) in disk.aborts
      requires Unowned(requested) && Chained(disk.log + requested, disk.entry.runId)
      modifies this
      ensures r.Crashed? ==> power == 0
      ensures Valid() && disk == old(disk).(objects := disk.objects, programs := disk.programs)
      ensures r.Done? ==> disk.objects == old(disk).objects + Contents(requested)
      ensures r.Done? ==>
                disk.programs == old(disk).programs[FenceSha(f) := NewProgram(old(disk), FenceSha(f), requested)]
      ensures !r.Done? ==> r.Crashed? && disk.programs == old(disk).programs
    {
      ghost var was := disk;
      var p := NewProgram(disk, FenceSha(f), requested);
      ContentsListed(requested);
      var _ :- StoreAll(EventContents(requested));
      SameProgram(was, disk, f, requested);
      CanPutProgram(disk, f, requested);
      r := Write(PutProgram(p));
    }

    /** One step of the loop that appends the program's events. */
    method LogProgramEvent(f: Fence, p: ReleaseProgram, requested: seq<Event>, i: nat) returns (r: Progress<()>)
      requires Valid() && Programs(disk, f, p, requested) && i < |requested| && requested[i].number == p.beforeSeq + i
      requires InPlace(disk.log, requested, p.beforeSeq, i)
      modifies this
      ensures r.Crashed? ==> power == 0
      ensures Valid() && disk == old(disk).(log := disk.log) && old(disk).log <= disk.log
      ensures r.Done? ==> Append(old(disk).log, disk.entry.runId, requested[i]) == Ok(disk.log)
      ensures r.Held? ==> Append(old(disk).log, disk.entry.runId, requested[i]).Refused?
      ensures !r.Done? ==> disk == old(disk)
    {
      CanLogProgram(disk, f, p, requested, i);
      r := AppendEvent(requested[i], LogProgram);
    }

    /** Append the program's events that are missing. */
    method LogProgramEvents(f: Fence, p: ReleaseProgram, requested: seq<Event>) returns (r: Progress<()>)
      requires Valid() && Programs(disk, f, p, requested) && p.beforeSeq <= |disk.log| <= p.beforeSeq + |requested|
      requires Chained(disk.log[..p.beforeSeq] + requested, disk.entry.runId)
      modifies this
      ensures r.Crashed? ==> power == 0
      ensures Valid() && disk == old(disk).(log := disk.log) && old(disk).log <= disk.log
      ensures r.Done? ==>
                AppendAll(old(disk).log, disk.entry.runId, requested) == Ok(disk.log)
                && disk.log[p.beforeSeq..] == requested
      ensures r.Held? ==> AppendAll(old(disk).log, disk.entry.runId, requested).Refused?
    {
      ghost var was := disk;
      NumbersOf(disk.log[..p.beforeSeq], disk.entry.runId, requested);
      var i := 0;
      assert requested[0..] == requested;
      while i < |requested|
        invariant 0 <= i <= |requested| && Valid() && disk == was.(log := disk.log) && was.log <= disk.log
        invariant InPlace(disk.log, requested, p.beforeSeq, i)
        invariant AppendAll(was.log, was.entry.runId, requested) == AppendAll(disk.log, was.entry.runId, requested[i..])
      {
        assert requested[i..][1..] == requested[i + 1..];
        AppendInPlace(disk.log, disk.entry.runId, requested, p.beforeSeq, i);
        var _ :- LogProgramEvent(f, p, requested, i);
        i := i + 1;
      }
      assert disk.log[p.beforeSeq..] == disk.log[p.beforeSeq..p.beforeSeq + i];
      assert requested[..i] == requested && requested[i..] == [];
      r := Done(());
    }

    /**
      * The program's events, then its receipt; an existing receipt is required equal, with the log ending in the
      * events.
      */
    method EnsureReceipt(d: Digest, p: ReleaseProgram, requested: seq<Event>, o: Oracle) returns (r: Progress<()>)
      requires Valid() && Resuming(disk, d, p) && p.release.events == Digests(requested) && p.beforeSeq <= |disk.log|
      modifies this
      ensures r.Crashed? ==> power == 0
      ensures Valid() && disk == old(disk).(log := disk.log, receipts := disk.receipts) && old(disk).log <= disk.log
      ensures r.Done? ==>
                ProgramLog(old(disk), d, p, requested, o) == Ok(disk.log)
                && disk.receipts == old(disk).receipts[d := p.release]
      ensures r.Held? ==> ProgramLog(old(disk), d, p, requested, o).Refused?
      ensures !r.Done? ==> disk.receipts == old(disk).receipts
    {
      if |disk.log| > p.beforeSeq + |requested| {
        return Held("release_event_tail");
      }
      if !(o.events && Chained(disk.log[..p.beforeSeq] + requested, disk.entry.runId)) {
        return Held("event_chain");
      }
      if d in disk.receipts {
        if disk.receipts[d] != p.release {
          return Held("release_receipt_conflict");
        }
        assert disk.receipts[d := p.release] == disk.receipts;
        return if disk.log == disk.log[..p.beforeSeq] + requested then Done(()) else Held("release_event_tail");
      }
      if !o.fence {
        return Held("source_adapter_unavailable:terminal_fence");
      }
      ghost var was := disk;
      if disk.fence.None? {
        UnfencedFacts(disk, d);
      }
      var f := disk.fence.value;
      var _ :- LogProgramEvents(f, p, requested);
      CanPutReceipt(disk, f, p, requested);
      r := Write(PutReceipt);
    }

    /** The retry pointer: written once per release, or required equal. */
    method PointRetry(d: Digest) returns (r: Progress<()>)
      requires Valid() && d in disk.receipts
      requires (if disk.fence.Some? then FenceSha(disk.fence.value) == d else disk.retry == Some(d))
      modifies this
      ensures r.Crashed? ==> power == 0
      ensures Valid() && disk == old(disk).(retry := disk.retry)
      ensures r.Done? ==> disk.retry == Some(d) && (old(disk).retry.None? || old(disk).retry.value == d)
      ensures r.Held? ==> old(disk).retry.Some? && old(disk).retry.value != d
      ensures !r.Done? ==> disk == old(disk)
    {
      if disk.retry.Some? {
        return if disk.retry.value == d then Done(()) else Held("immutable_file_conflict");
      }
      CanPutRetry(disk, disk.fence.value);
      r := Write(PutRetry);
    }

    /** Retire one envelope of the snapshot. */
    method RetireOne(d: Digest, ids: set<Digest>, x: Digest) returns (r: Progress<()>)
      requires Valid() && Retiring(disk, d, ids) && x in ids
      modifies this
      ensures r.Crashed? ==> power == 0
      ensures Valid() && disk == old(disk).(retired := disk.retired)
      ensures r.Done? ==>
                disk.retired == old(disk).retired[x := d] && x in disk.spool
                && (x in old(disk).retired ==> old(disk).retired[x] == d)
      ensures r.Held? ==> x !in disk.spool || (x in disk.retired && disk.retired[x] != d)
      ensures !r.Done? ==> disk == old(disk)
    {
      if x !in disk.spool {
        return Held("ledger_file_unavailable");
      }
      if x in disk.retired {
        assert disk.retired[x := disk.retired[x]] == disk.retired;
        return if disk.retired[x] == d then Done(()) else Held("immutable_file_conflict");
      }
      if disk.fence.None? {
        UnfencedFacts(disk, d);
      }
      CanPutRetired(disk, disk.fence.value, x);
      r := Write(PutRetired(x));
    }

    /** Retire the snapshot's envelopes; any that arrived later stay live. `part` is how far it came. */
    method RetireAll(d: Digest, ids: set<Digest>) returns (r: Progress<()>, part: set<Digest>)
      requires Valid() && Retiring(disk, d, ids)
      modifies this
      ensures r.Crashed? ==> power == 0
      ensures Valid() && part <= ids && disk == old(disk).(retired := Retire(old(disk).retired, d, part))
      ensures r.Done? ==> part == ids && ids <= disk.spool && Ours(old(disk).retired, d, ids)
      ensures r.Held? ==> !(ids <= disk.spool) || !Ours(old(disk).retired, d, ids)
    {
      ghost var was := disk;
      part := {};
      assert Retire(was.retired, d, {}) == was.retired;
      r := Done(());
      while ids - part != {} && r.Done?
        invariant part <= ids && Valid() && disk == was.(retired := Retire(was.retired, d, part))
        invariant part <= disk.spool && Ours(was.retired, d, part)
        invariant r.Held? ==> !(ids <= disk.spool) || !Ours(was.retired, d, ids)
        invariant r.Crashed? ==> power == 0
        decreases ids - part, r.Done?
      {
        var x :| x in ids - part;
        RetireMore(was.retired, d, part, x);
        r := RetireOne(d, ids, x);
        if r.Done? {
          part := part + {x};
        }
      }
    }

    /** `release` once its program exists. Cut short or refused, it is still heading for the same final state. */
    method FinishRelease(d: Digest, p: ReleaseProgram, requested: seq<Event>, o: Oracle) returns (r: Progress<()>)
      requires Valid() && Resuming(disk, d, p) && p.release.events == Digests(requested)
      modifies this
      ensures r.Crashed? ==> power == 0
      ensures Valid() && Heading(old(disk), disk, d)
      ensures r.Done? ==> Finished(old(disk), d, requested, o) == Ok(disk)
      ensures r.Held? ==> Finished(old(disk), d, requested, o).Refused?
    {
      ProgramStart(disk, d);
      FinishedBy(disk, d, p, requested, o);
      if p.release.fenceSha != d {
        return Held("release_fence_changed");
      }
      if !Stored(disk.objects, p.release.events) {
        return Held("ledger_file_unavailable");
      }
      r := FinishStored(d, p, requested, o);
    }

    /** The same, once the program's own bytes are known to be in place. */
    method FinishStored(d: Digest, p: ReleaseProgram, requested: seq<Event>, o: Oracle) returns (r: Progress<()>)
      requires Valid() && Resuming(disk, d, p) && p.release.events == Digests(requested)
      requires p.release.fenceSha == d && Stored(disk.objects, p.release.events) && p.beforeSeq <= |disk.log|
      modifies this
      ensures r.Crashed? ==> power == 0
      ensures Valid() && Heading(old(disk), disk, d)
      ensures r.Done? ==> Finished(old(disk), d, requested, o) == Ok(disk)
      ensures r.Held? ==> Finished(old(disk), d, requested, o).Refused?
    {
      ghost var was := disk;
      ghost var part := {};
      r := EnsureReceipt(d, p, requested, o);
      ghost var mid := disk;
      assert Retire(mid.retired, d, {}) == mid.retired;
      if r.Done? {
        r, part := PointAndRetire(d, p.release.spoolIds);
      }
      FinishLeaves(was, mid, disk, d, p, requested, o, r, part);
    }

    /** The retirements and the unfencing. */
    method RetireAndUnfence(d: Digest, ids: set<Digest>) returns (r: Progress<()>, ghost part: set<Digest>)
      requires Valid() && Retiring(disk, d, ids) && disk.retry == Some(d)
      modifies this
      ensures r.Crashed? ==> power == 0
      ensures Valid() && part <= ids
      ensures disk == old(disk).(retired := Retire(old(disk).retired, d, part), fence := disk.fence)
      ensures r.Done? ==> disk.fence.None? && part == ids && ids <= disk.spool && Ours(old(disk).retired, d, ids)
      ensures r.Held? ==> !(ids <= disk.spool) || !Ours(old(disk).retired, d, ids)
      ensures !r.Done? ==> disk.fence == old(disk).fence
    {
      r, part := RetireAll(d, ids);
      if r.Done? && disk.fence.Some? {
        CanDropFence(disk, disk.fence.value);
        r := Write(DropFence);
      }
    }

    /** The retry pointer, the retirements and the unfencing; `part` is how far the retirements came. */
    method PointAndRetire(d: Digest, ids: set<Digest>) returns (r: Progress<()>, ghost part: set<Digest>)
      requires Valid() && Retiring(disk, d, ids) && (disk.fence.None? ==> disk.retry == Some(d))
      modifies this
      ensures r.Crashed? ==> power == 0
      ensures Valid() && part <= ids
      ensures disk ==
              old(disk).(retry := disk.retry, retired := Retire(old(disk).retired, d, part), fence := disk.fence)
      ensures r.Done? ==> disk.retry == Some(d) && part == ids && disk.fence.None? && Free(old(disk), d, ids)
      ensures r.Held? ==> !Free(old(disk), d, ids)
    {
      r := PointRetry(d);
      if r.Done? {
        r, part := RetireAndUnfence(d, ids);
      } else {
        part := {};
        assert Retire(disk.retired, d, {}) == disk.retired;
      }
    }

    method Release(requested: seq<Event>, o: Oracle) returns (r: Progress<()>)
      requires Valid()
      modifies this
      ensures r.Crashed? ==> power == 0
      ensures Valid()
      ensures r.Done? ==> Released(old(disk), requested, o) == Ok(disk)
      ensures r.Held? ==> Released(old(disk), requested, o).Refused?
      ensures old(disk).fence.Some? ==> Heading(old(disk), disk, FenceSha(old(disk).fence.value))
    {
      if disk.fence.None? {
        r := ReleaseUnfenced(requested, o);
      } else {
        r := ReleaseFenced(disk.fence.value, requested, o);
      }
    }

    /** A repeated `release` of a fence that is already gone. */
    method ReleaseUnfenced(requested: seq<Event>, o: Oracle) returns (r: Progress<()>)
      requires Valid() && disk.fence.None?
      modifies this
      ensures r.Crashed? ==> power == 0
      ensures Valid()
      ensures r.Done? ==> Released(old(disk), requested, o) == Ok(disk)
      ensures r.Held? ==> Released(old(disk), requested, o).Refused?
    {
      if disk.retry.None? || disk.retry.value !in disk.programs {
        return Held("no_active_fence");
      }
      var d := disk.retry.value;
      if disk.programs[d].release.events != Digests(requested) {
        return Held("release_program_conflict");
      }
      r := FinishRelease(d, disk.programs[d], requested, o);
    }

    method ReleaseFenced(f: Fence, requested: seq<Event>, o: Oracle) returns (r: Progress<()>)
      requires Valid() && disk.fence == Some(f)
      modifies this
      ensures r.Crashed? ==> power == 0
      ensures Valid()
      ensures r.Done? ==> Released(old(disk), requested, o) == Ok(disk)
      ensures r.Held? ==> Released(old(disk), requested, o).Refused?
      ensures Heading(old(disk), disk, FenceSha(f))
    {
      var d := FenceSha(f);
      ghost var was := disk;
      ReleasedBy(disk, f, requested, o);
      r := AttachHeartbeat();
      AttachedHeading(was, disk, d);
      if !r.Done? {
        return;
      }
      AttachedIs(was, f);
      if d !in disk.completes && d !in disk.aborts {
        return Held("fence_not_terminal");
      }
      ghost var attached := disk;
      r := ReleaseAttached(f, requested, o);
      HeadingOn(was, attached, disk, d);
    }

    method ReleaseAttached(f: Fence, requested: seq<Event>, o: Oracle) returns (r: Progress<()>)
      requires Valid() && disk.fence == Some(f) && HeartbeatLogged(TenureOf(disk, f), disk.log)
      requires FenceSha(f) in disk.completes || FenceSha(f) in disk.aborts
      modifies this
      ensures r.Crashed? ==> power == 0
      ensures Valid()
      ensures r.Done? ==> Resumed(old(disk), FenceSha(f), requested, o) == Ok(disk)
      ensures r.Held? ==> Resumed(old(disk), FenceSha(f), requested, o).Refused?
      ensures Heading(old(disk), disk, FenceSha(f))
    {
      var d := FenceSha(f);
      ghost var was := disk;
      if d in disk.programs {
        ProgramStart(disk, d);
        if disk.programs[d].release.events != Digests(requested) {
          return Held("release_program_conflict");
        }
      } else {
        var _ :- EnsureProgram(f, requested, o);
      }
      r := FinishRelease(d, disk.programs[d], requested, o);
    }
  }
}
