/** Releasing a fence: what one uninterrupted `release` does, and why it can be started again from any crash point. */
module LedgerRelease {
  import opened Outcomes
  import opened AcceptanceRecords
  import opened LedgerModel
  import opened LedgerSafety
  import opened LedgerRecovery
  import opened LedgerMoves

  /** The answers of the proof adapters during one call: for the events, and for the terminal fence. */
  datatype Oracle = Oracle(events: bool, fence: bool)

  function Retire(retired: map<Digest, Digest>, d: Digest, ids: set<Digest>): map<Digest, Digest> {
    map x | x in retired.Keys + ids :: if x in ids then d else retired[x]
  }

  function Contents(es: seq<Event>): set<Content> {
    set i | 0 <= i < |es| :: EventBytes(es[i])
  }

  function NewProgram(disk: Disk, d: Digest, requested: seq<Event>): ReleaseProgram {
    ReleaseProgram(Release(d, Live(disk), Digests(requested)), |disk.log|)
  }

  /** The checks of `release` before it writes a program. */
  function NewCheck(disk: Disk, requested: seq<Event>, o: Oracle): Check {
    if disk.fence.None? then Fail("no_active_fence")
    else if !Unowned(requested) then Fail("spooled_segment")
    else if !(o.events && Chained(disk.log + requested, disk.entry.runId)) then Fail("event_chain")
    else if |Live(disk)| > MaxSpool then Fail("spool_overflow")
    else if !o.fence then Fail("source_adapter_unavailable:terminal_fence")
    else Pass
  }

  /** The release program, written now or found from an earlier attempt. */
  function Programmed(disk: Disk, d: Digest, requested: seq<Event>, o: Oracle): (r: Result<Disk>)
    ensures r.Ok? ==> d in r.value.programs && r.value.programs[d].release.events == Digests(requested)
  {
    if d in disk.programs then
      :- Need(disk.programs[d].release.events == Digests(requested), "release_program_conflict");
      Ok(disk)
    else
      :- NewCheck(disk, requested, o);
      Ok(disk.(objects := disk.objects + Contents(requested), programs :=
         disk.programs[d := NewProgram(disk, d, requested)]))
  }

  /** The log with the program's events in place. */
  function ProgramLog(disk: Disk, d: Digest, p: ReleaseProgram, requested: seq<Event>, o: Oracle): Result<seq<Event>> {
    if !(p.beforeSeq <= |disk.log| <= p.beforeSeq + |requested|) then Refused("release_event_tail") else
    :- Need(o.events && Chained(disk.log[..p.beforeSeq] + requested, disk.entry.runId), "event_chain");
    if d !in disk.receipts then
      :- Need(o.fence, "source_adapter_unavailable:terminal_fence");
      AppendAll(disk.log, disk.entry.runId, requested)
    else
      :- Need(disk.receipts[d] == p.release, "release_receipt_conflict");
      :- Need(disk.log == disk.log[..p.beforeSeq] + requested, "release_event_tail");
      Ok(disk.log)
  }

  /** The pointer and the envelopes must be free or already this release's. */
  function PointerCheck(disk: Disk, d: Digest, ids: set<Digest>): Check {
    if !(disk.retry.None? || disk.retry.value == d) then Fail("immutable_file_conflict")
    else if !(ids <= disk.spool) then Fail("ledger_file_unavailable")
    else if exists x :: x in ids && x in disk.retired && disk.retired[x] != d then Fail("immutable_file_conflict")
    else Pass
  }

  /** The rest of `release`: events, receipt, retry pointer, retirements, unfence. */
  function Finished(disk: Disk, d: Digest, requested: seq<Event>, o: Oracle): Result<Disk>
    requires d in disk.programs
  {
    var p := disk.programs[d];
    :- Need(p.release.fenceSha == d, "release_fence_changed");
    :- Need(Stored(disk.objects, p.release.events), "ledger_file_unavailable");
    var log :- ProgramLog(disk, d, p, requested, o);
    :- PointerCheck(disk, d, p.release.spoolIds);
    Ok(disk.(log := log, receipts := disk.receipts[d := p.release], retry := Some(d),
       retired := Retire(disk.retired, d, p.release.spoolIds), fence := None))
  }

  function Resumed(disk: Disk, d: Digest, requested: seq<Event>, o: Oracle): Result<Disk> {
    var programmed :- Programmed(disk, d, requested, o);
    Finished(programmed, d, requested, o)
  }

  function Released(disk: Disk, requested: seq<Event>, o: Oracle): Result<Disk> {
    if disk.fence.Some? then
      var d := FenceSha(disk.fence.value);
      var attached :- Attached(disk);
      :- Need(d in disk.completes || d in disk.aborts, "fence_not_terminal");
      Resumed(attached, d, requested, o)
    else
      :- Need(disk.retry.Some?, "no_active_fence");
      Resumed(disk, disk.retry.value, requested, o)
  }

  /** Nobody else retired any of these envelopes. */
  predicate Ours(retired: map<Digest, Digest>, d: Digest, ids: set<Digest>) {
    forall x :: x in ids && x in retired ==> retired[x] == d
  }

  /** Neither the pointer nor any envelope is taken by another release. */
  ghost predicate Free(disk: Disk, d: Digest, ids: set<Digest>) {
    (disk.retry.None? || disk.retry.value == d) && ids <= disk.spool && Ours(disk.retired, d, ids)
  }

  lemma PointerExact(disk: Disk, d: Digest, ids: set<Digest>)
    ensures PointerCheck(disk, d, ids) == Pass <==> Free(disk, d, ids)
  {
  }

  /** `release` on its program comes down to the events, the receipt and what is free. */
  lemma FinishedBy(disk: Disk, d: Digest, p: ReleaseProgram, requested: seq<Event>, o: Oracle)
    requires Lookup(disk.programs, d) == Some(p)
    ensures p.release.fenceSha != d || !Stored(disk.objects, p.release.events) ==>
              Finished(disk, d, requested, o).Refused?
    ensures ProgramLog(disk, d, p, requested, o).Refused? ==> Finished(disk, d, requested, o).Refused?
    ensures !Free(disk, d, p.release.spoolIds) ==> Finished(disk, d, requested, o).Refused?
    ensures p.release.fenceSha == d && Stored(disk.objects, p.release.events) && Free(disk, d, p.release.spoolIds) ==>
              var log := ProgramLog(disk, d, p, requested, o);
              log.Ok? ==> Finished(disk, d, requested, o) ==
                          Ok(disk.(log := log.value, receipts := disk.receipts[d := p.release], retry := Some(d),
                             retired := Retire(disk.retired, d,
                                               p.release.spoolIds), fence := None))
  {
    PointerExact(disk, d, p.release.spoolIds);
  }

  /** The events and the receipt are in place, and nothing is taken: the rest completes the release. */
  lemma FinishesAs(was: Disk, mid: Disk, disk: Disk, d: Digest, p: ReleaseProgram, requested: seq<Event>, o: Oracle)
    requires Lookup(was.programs, d) == Some(p) && p.release.fenceSha == d && Stored(was.objects, p.release.events)
    requires ProgramLog(was, d, p, requested, o) == Ok(mid.log)
    requires mid == was.(log := mid.log, receipts := was.receipts[d := p.release])
    requires Free(mid, d, p.release.spoolIds)
    requires disk == mid.(retry := Some(d), retired := Retire(mid.retired, d, p.release.spoolIds), fence := None)
    ensures Finished(was, d, requested, o) == Ok(disk)
  {
    FinishedBy(was, d, p, requested, o);
  }

  lemma FinishRefused(was: Disk, mid: Disk, d: Digest, p: ReleaseProgram, requested: seq<Event>, o: Oracle)
    requires Lookup(was.programs, d) == Some(p)
    requires mid == was.(log := mid.log, receipts := mid.receipts)
    requires ProgramLog(was, d, p, requested, o).Refused? || !Free(mid, d, p.release.spoolIds)
    ensures Finished(was, d, requested, o).Refused?
  {
    FinishedBy(was, d, p, requested, o);
  }

  lemma ReleasedBy(disk: Disk, f: Fence, requested: seq<Event>, o: Oracle)
    requires disk.fence == Some(f)
    ensures Attached(disk).Refused? || (FenceSha(f) !in disk.completes && FenceSha(f) !in disk.aborts) ==>
              Released(disk, requested, o).Refused?
    ensures Attached(disk).Ok? && (FenceSha(f) in disk.completes || FenceSha(f) in disk.aborts) ==>
              Released(disk, requested, o) == Resumed(Attached(disk).value, FenceSha(f), requested, o)
  {
  }

  // ---- the state every attempt is heading for ----

  /** The one final state of releasing the program `p` of the fence with digest `d`. */
  function Target(disk: Disk, d: Digest, p: ReleaseProgram): Disk
    requires p.beforeSeq <= |disk.log|
  {
    disk.(log := disk.log[..p.beforeSeq] + Listed(p.release.events), receipts := disk.receipts[d := p.release], retry :=
    Some(d),
    retired := Retire(disk.retired, d, p.release.spoolIds), fence := None)
  }

  /** The program's events never clash with the tail unless a heartbeat was put in their place. */
  lemma ProgramTail(t: Tenure, runId: string, log: seq<Event>, b: nat)
    requires Stands(t, runId, log) && t.program.Some? && b == t.program.value.beforeSeq
    requires t.heartbeat.Some? ==> t.fence.beforeSeq < b
    ensures t.fence.beforeSeq <= b <= |log| && log[b..] <= t.ProgramEvents()
    ensures t.heartbeat.Some? ==> log[t.fence.beforeSeq] == t.heartbeat.value
  {
    var tail := log[t.fence.beforeSeq..];
    var n := b - t.fence.beforeSeq;
    assert ProgramSound(t, tail) && TailInOrder(t, tail);
    assert log[b..] == tail[n..];
    OwnThenProgram(t, tail, n);
  }

  lemma OwnThenProgram(t: Tenure, tail: seq<Event>, n: nat)
    requires TailInOrder(t, tail) && ProgramSound(t, tail) && t.program.Some?
    requires n == t.program.value.beforeSeq - t.fence.beforeSeq
    requires (t.heartbeat.Some? ==> 0 < n && t.heartbeat.value.segmentId.Some?)
    requires (t.terminal.Some? ==> t.heartbeat.Some?)
    ensures tail[n..] <= t.ProgramEvents() && (t.heartbeat.Some? ==> tail != [] && tail[0] == t.heartbeat.value)
  {
    var own := t.HeartbeatEvents() + t.ManifestEvents();
    if t.heartbeat.Some? {
      assert tail[..n] == own;
      assert tail[0] == tail[..n][0] == t.heartbeat.value;
      assert tail == own + tail[n..];
    }
  }

  /** A heartbeat put where the program starts keeps the release from ever finishing. */
  lemma MisplacedHeartbeat(t: Tenure, runId: string, log: seq<Event>)
    requires Stands(t, runId, log) && t.program.Some? && t.heartbeat.Some?
    requires t.program.value.beforeSeq == t.fence.beforeSeq
    requires Attachable(t, runId, log)
    ensures var after := AttachedLog(t, log);
            t.fence.beforeSeq < |after| && after[t.fence.beforeSeq] == t.heartbeat.value
    ensures t.ProgramEvents() != [] ==> t.receipt.None? && t.ProgramEvents()[0] != t.heartbeat.value
  {
    var tail := log[t.fence.beforeSeq..];
    assert ReceiptSound(t, tail);
  }

  lemma AppendConflicts(log: seq<Event>, runId: string, es: seq<Event>)
    requires es != [] && es[0].number < |log| && log[es[0].number] != es[0]
    ensures AppendAll(log, runId, es).Refused?
  {
  }

  /** No envelope of the program was retired by another receipt. */
  lemma OwnEnvelopes(disk: Disk, d: Digest)
    requires SpoolSound(ActiveSha(disk), disk.programs, disk.receipts, disk.spool, disk.retired) && d in disk.programs
    ensures disk.programs[d].release.fenceSha == d
    ensures PointerCheck(disk, d, disk.programs[d].release.spoolIds) == Pass <==>
            disk.retry.None? || disk.retry.value == d
  {
    var r := disk.programs[d].release;
    forall x | x in r.spoolIds && x in disk.retired ensures disk.retired[x] == d {
      var e := disk.retired[x];
      assert x in disk.programs[e].release.spoolIds;
    }
  }

  lemma ProgramAppends(disk: Disk, d: Digest, p: ReleaseProgram, requested: seq<Event>, o: Oracle)
    requires p.beforeSeq <= |disk.log| && disk.log[p.beforeSeq..] <= requested && p.beforeSeq + |requested| <= MaxEvents
    requires Chained(disk.log[..p.beforeSeq] + requested, disk.entry.runId)
    requires d in disk.receipts ==> disk.receipts[d] == p.release && requested <= disk.log[p.beforeSeq..]
    requires o.events && (d !in disk.receipts ==> o.fence)
    ensures ProgramLog(disk, d, p, requested, o) == Ok(disk.log[..p.beforeSeq] + requested)
  {
    var base, k := disk.log[..p.beforeSeq], |disk.log| - p.beforeSeq;
    assert disk.log == base + requested[..k];
    if d !in disk.receipts {
      AppendsRest(base, disk.entry.runId, requested, k);
    } else {
      assert requested == disk.log[p.beforeSeq..];
    }
  }

  /** What an accepting call needs: adapters that accept, a requested list that is the program's, and room for it. */
  ghost predicate Accepts(disk: Disk, d: Digest, requested: seq<Event>, o: Oracle) {
    && d in disk.programs && disk.programs[d].release.events == Digests(requested)
    && o.events && (d !in disk.receipts ==> o.fence)
    && disk.programs[d].beforeSeq + |requested| <= MaxEvents
  }

  /** A resumed release finishes exactly when no other fence's retry pointer is left. */
  lemma ResumesExact(disk: Disk, d: Digest, p: ReleaseProgram, requested: seq<Event>, o: Oracle, log: seq<Event>)
    requires Lookup(disk.programs, d) == Some(p) && p.release.events == Digests(requested) && p.release.fenceSha == d
    requires Stored(disk.objects, p.release.events) && ProgramLog(disk, d, p, requested, o) == Ok(log)
    requires PointerCheck(disk, d, p.release.spoolIds) == Pass <==> disk.retry.None? || disk.retry.value == d
    ensures Resumed(disk, d, requested, o).Ok? <==> disk.retry.None? || disk.retry.value == d
    ensures Resumed(disk, d, requested, o).Ok? ==>
              Resumed(disk, d, requested, o).value ==
              disk.(log := log, receipts := disk.receipts[d := p.release], retry := Some(d), retired :=
              Retire(disk.retired, d, p.release.spoolIds), fence := None)
  {
    assert Programmed(disk, d, requested, o) == Ok(disk);
  }

  /** The program's part of the log, once its tail is known to be in order. */
  lemma ProgramLogExact(disk: Disk, f: Fence, t: Tenure, requested: seq<Event>, o: Oracle)
    requires disk.fence == Some(f) && t == TenureOf(disk, f) && Stands(t, disk.entry.runId, disk.log)
    requires Accepts(disk, FenceSha(f), requested, o)
    requires ProgramsChained(disk.log, disk.entry.runId, disk.programs)
    requires t.heartbeat.Some? ==> f.beforeSeq < t.program.value.beforeSeq
    ensures t.program.value.beforeSeq <= |disk.log| && Attached(disk) == Ok(disk)
    ensures ProgramLog(disk, FenceSha(f), t.program.value, requested, o) ==
            Ok(disk.log[..t.program.value.beforeSeq] + requested)
  {
    var d, p := FenceSha(f), t.program.value;
    ProgramTail(t, disk.entry.runId, disk.log, p.beforeSeq);
    AttachesUnchanged(disk, f, t);
    assert Listed(p.release.events) == requested;
    assert ProgramChained(disk.log, disk.entry.runId, p);
    if t.receipt.Some? {
      ReceiptInLog(t, disk.entry.runId, disk.log);
    }
    ProgramAppends(disk, d, p, requested, o);
  }

  /**
    * With the heartbeat where it belongs, `release` goes through exactly when no other fence's retry pointer is
    * left.
    */
  lemma ReleaseFinishes(disk: Disk, f: Fence, t: Tenure, requested: seq<Event>, o: Oracle)
    requires Inv(disk) && disk.fence == Some(f) && t == TenureOf(disk, f) && Accepts(disk, FenceSha(f), requested, o)
    requires t.heartbeat.Some? ==> f.beforeSeq < t.program.value.beforeSeq
    ensures t.program.value.beforeSeq <= |disk.log|
    ensures Released(disk, requested, o).Ok? <==> disk.retry.None? || disk.retry.value == FenceSha(f)
    ensures Released(disk, requested, o).Ok? ==>
              Released(disk, requested, o).value == Target(disk, FenceSha(f), t.program.value)
  {
    var d, p := FenceSha(f), t.program.value;
    FenceStands(disk, f);
    ProgramLogExact(disk, f, t, requested, o);
    OwnEnvelopes(disk, d);
    ResumesExact(disk, d, p, requested, o, disk.log[..p.beforeSeq] + requested);
    ReleasedIsResumed(disk, f, requested, o);
  }

  lemma ReleasedIsResumed(disk: Disk, f: Fence, requested: seq<Event>, o: Oracle)
    requires Inv(disk) && disk.fence == Some(f) && Accepts(disk, FenceSha(f), requested, o)
    requires Attached(disk) == Ok(disk)
    ensures Released(disk, requested, o) == Resumed(disk, FenceSha(f), requested, o)
  {
    FenceStands(disk, f);
    ProgramIsTerminal(TenureOf(disk, f), disk.entry.runId, disk.log);
  }

  lemma ProgramIsTerminal(t: Tenure, runId: string, log: seq<Event>)
    requires Stands(t, runId, log) && t.program.Some?
    ensures t.complete.Some? || t.aborted
  {
  }

  lemma ReceiptInLog(t: Tenure, runId: string, log: seq<Event>)
    requires Stands(t, runId, log) && t.receipt.Some?
    ensures t.program.Some? && t.receipt.value == t.program.value.release && t.program.value.beforeSeq <= |log|
    ensures t.ProgramEvents() <= log[t.program.value.beforeSeq..]
  {
    var n := t.program.value.beforeSeq - t.fence.beforeSeq;
    assert log[t.fence.beforeSeq..][n..] == log[t.program.value.beforeSeq..];
  }

  lemma AttachesUnchanged(disk: Disk, f: Fence, t: Tenure)
    requires disk.fence == Some(f) && t == TenureOf(disk, f) && Stands(t, disk.entry.runId, disk.log)
    requires t.heartbeat.Some? ==> f.beforeSeq < |disk.log| && disk.log[f.beforeSeq] == t.heartbeat.value
    ensures Attached(disk) == Ok(disk)
  {
  }

  /**
    * When a release that has written its program can finish: exactly when `release-retry.json` is absent or names this
    * fence, and the heartbeat, if one was attached, was attached before the program was written.
    */
  lemma ReleaseExact(disk: Disk, f: Fence, t: Tenure, requested: seq<Event>, o: Oracle)
    requires Inv(disk) && disk.fence == Some(f) && t == TenureOf(disk, f) && Accepts(disk, FenceSha(f), requested, o)
    ensures t.program.value.beforeSeq <= |disk.log|
    ensures Released(disk, requested, o).Ok? <==>
            (disk.retry.None? || disk.retry.value == FenceSha(f))
            && (t.heartbeat.Some? ==> f.beforeSeq < t.program.value.beforeSeq)
    ensures Released(disk, requested, o).Ok? ==>
              Released(disk, requested, o).value == Target(disk, FenceSha(f), t.program.value)
  {
    if t.heartbeat.Some? ==> f.beforeSeq < t.program.value.beforeSeq {
      ReleaseFinishes(disk, f, t, requested, o);
    } else {
      MisplacedHolds(disk, f, t, requested, o);
    }
  }

  lemma MisplacedHolds(disk: Disk, f: Fence, t: Tenure, requested: seq<Event>, o: Oracle)
    requires Inv(disk) && disk.fence == Some(f) && t == TenureOf(disk, f) && Accepts(disk, FenceSha(f), requested, o)
    requires t.heartbeat.Some? && t.program.value.beforeSeq <= f.beforeSeq
    ensures t.program.value.beforeSeq <= |disk.log| && Released(disk, requested, o).Refused?
  {
    FenceStands(disk, f);
    assert ProgramSound(t, disk.log[f.beforeSeq..]);
    MisplacedRefused(disk, f, t, requested, o);
  }

  lemma MisplacedRefused(disk: Disk, f: Fence, t: Tenure, requested: seq<Event>, o: Oracle)
    requires disk.fence == Some(f) && t == TenureOf(disk, f) && Stands(t, disk.entry.runId, disk.log)
    requires Accepts(disk, FenceSha(f), requested, o)
    requires ProgramsChained(disk.log, disk.entry.runId, disk.programs) && t.heartbeat.Some?
    requires t.program.value.beforeSeq == f.beforeSeq
    ensures Released(disk, requested, o).Refused?
  {
    AttachedExact(disk, f, t);
    ReleasedBy(disk, f, requested, o);
    if Attached(disk).Ok? {
      MisplacedLog(disk, f, t, requested, o);
      FinishedBy(Attached(disk).value, FenceSha(f), t.program.value, requested, o);
    }
  }

  lemma MisplacedLog(disk: Disk, f: Fence, t: Tenure, requested: seq<Event>, o: Oracle)
    requires disk.fence == Some(f) && t == TenureOf(disk, f) && Stands(t, disk.entry.runId, disk.log)
    requires Accepts(disk, FenceSha(f), requested, o)
    requires ProgramsChained(disk.log, disk.entry.runId, disk.programs) && Attachable(t, disk.entry.runId, disk.log)
    requires t.heartbeat.Some? && t.program.value.beforeSeq == f.beforeSeq
    ensures ProgramLog(disk.(log := AttachedLog(t, disk.log)), FenceSha(f), t.program.value, requested, o).Refused?
  {
    var p := t.program.value;
    MisplacedHeartbeat(t, disk.entry.runId, disk.log);
    if requested != [] {
      var all := disk.log[..p.beforeSeq] + requested;
      assert ProgramChained(disk.log, disk.entry.runId, p);
      assert PlacedAt(all, disk.entry.runId, p.beforeSeq);
      assert all[p.beforeSeq] == requested[0];
      AppendConflicts(AttachedLog(t, disk.log), disk.entry.runId, requested);
    }
  }

  // ---- a release that has no program yet ----

  /** The state once the program is written: the heartbeat in place, the events stored, the live envelopes listed. */
  function Started(disk: Disk, t: Tenure, requested: seq<Event>): Disk {
    var attached := disk.(log := AttachedLog(t, disk.log));
    attached.(objects := disk.objects + Contents(requested),
    programs := disk.programs[t.Sha() := NewProgram(attached, t.Sha(), requested)])
  }

  /** Where the first `release` ends: the final state of the program it writes. */
  function StartedEnd(disk: Disk, t: Tenure, requested: seq<Event>): Disk {
    var attached := disk.(log := AttachedLog(t, disk.log));
    Target(Started(disk, t, requested), t.Sha(), NewProgram(attached, t.Sha(), requested))
  }

  /** What the first `release` of a fence needs, apart from the retry pointer. */
  predicate Startable(disk: Disk, t: Tenure, requested: seq<Event>, o: Oracle) {
    && Attachable(t, disk.entry.runId, disk.log) && (t.complete.Some? || t.aborted)
    && NewCheck(disk.(log := AttachedLog(t, disk.log)), requested, o).Pass?
    && (requested == [] || |AttachedLog(t, disk.log)| + |requested| <= MaxEvents)
  }

  lemma NoReceiptYet(t: Tenure, runId: string, log: seq<Event>)
    requires Stands(t, runId, log) && t.program.None?
    ensures t.receipt.None?
  {
  }

  lemma StartedStores(disk: Disk, t: Tenure, requested: seq<Event>)
    ensures Stored(Started(disk, t, requested).objects, Digests(requested))
  {
    var ds := Digests(requested);
    forall x | x in ds ensures x.content in Contents(requested) {
      var i :| 0 <= i < |ds| && ds[i] == x;
      assert EventBytes(requested[i]) in Contents(requested);
    }
  }

  /** Resuming with the program just written. */
  lemma StartedFinishes(disk: Disk, t: Tenure, requested: seq<Event>, o: Oracle)
    requires t.Sha() !in disk.receipts && o.events && o.fence
    requires Chained(AttachedLog(t, disk.log) + requested, disk.entry.runId)
    ensures var started := Started(disk, t, requested);
            && (Finished(started, t.Sha(), requested, o).Ok? <==>
                && (requested == [] || |started.log| + |requested| <= MaxEvents)
                && (disk.retry.None? || disk.retry.value == t.Sha()))
            && (Finished(started, t.Sha(), requested, o).Ok? ==>
                  Finished(started, t.Sha(), requested, o).value == StartedEnd(disk, t, requested))
  {
    var started := Started(disk, t, requested);
    var p := started.programs[t.Sha()];
    var log := started.log;
    assert log[..|log|] == log;
    StartedStores(disk, t, requested);
    AppendsChained(log, disk.entry.runId, requested);
    assert Listed(p.release.events) == requested;
    assert ProgramLog(started, t.Sha(), p, requested, o).Ok? <==> AppendAll(log, disk.entry.runId, requested).Ok?;
    FinishedBy(started, t.Sha(), p, requested, o);
  }

  /**
    * The first `release` of a fence, or one repeated after a crash before the program: it succeeds exactly when the
    * heartbeat can take its place, the fence is terminal, the checks of a new program pass, the events' numbers fit,
    * and the retry pointer is absent or its own; and it ends in the final state of the program it writes.
    */
  lemma ReleaseStartsExact(disk: Disk, f: Fence, t: Tenure, requested: seq<Event>, o: Oracle)
    requires Inv(disk) && disk.fence == Some(f) && t == TenureOf(disk, f) && t.program.None?
    ensures Released(disk, requested, o).Ok? <==>
            Startable(disk, t, requested, o) && (disk.retry.None? || disk.retry.value == t.Sha())
    ensures Released(disk, requested, o).Ok? ==> Released(disk, requested, o).value == StartedEnd(disk, t, requested)
  {
    FenceStands(disk, f);
    NoReceiptYet(t, disk.entry.runId, disk.log);
    StartsExact(disk, f, t, requested, o);
  }

  lemma StartsExact(disk: Disk, f: Fence, t: Tenure, requested: seq<Event>, o: Oracle)
    requires disk.fence == Some(f) && t == TenureOf(disk, f) && Stands(t, disk.entry.runId, disk.log)
    requires t.program.None? && t.receipt.None?
    ensures Released(disk, requested, o).Ok? <==>
            Startable(disk, t, requested, o) && (disk.retry.None? || disk.retry.value == t.Sha())
    ensures Released(disk, requested, o).Ok? ==> Released(disk, requested, o).value == StartedEnd(disk, t, requested)
  {
    AttachedExact(disk, f, t);
    ReleasedBy(disk, f, requested, o);
    var attached := disk.(log := AttachedLog(t, disk.log));
    if Attached(disk).Ok? && (t.complete.Some? || t.aborted) && NewCheck(attached, requested, o).Pass? {
      StartedFinishes(disk, t, requested, o);
      assert Programmed(attached, t.Sha(), requested, o) == Ok(Started(disk, t, requested));
    }
  }

  // ---- restart ----

  /** A run given by its writes. */
  ghost predicate Runs(disk: Disk, moves: seq<Move>)
    decreases |moves|
  {
    moves == [] || (Enabled(disk, moves[0]) && Runs(Next(disk, moves[0]), moves[1..]))
  }

  ghost function RunTo(disk: Disk, moves: seq<Move>): Disk
    requires Runs(disk, moves)
    decreases |moves|
  {
    if moves == [] then disk else RunTo(Next(disk, moves[0]), moves[1..])
  }

  /** The writes of `release` after its program, and envelopes that arrive meanwhile. */
  predicate Releasing(m: Move) {
    m.LogProgram? || m.PutReceipt? || m.PutRetry? || m.PutRetired? || m.DropFence? || m.PutSpool?
  }

  lemma RetireAgain(retired: map<Digest, Digest>, d: Digest, ids: set<Digest>, x: Digest)
    requires x in ids
    ensures Retire(retired[x := d], d, ids) == Retire(retired, d, ids)
  {
  }

  lemma TargetPrefix(disk: Disk, e: Event, d: Digest, p: ReleaseProgram)
    requires p.beforeSeq <= |disk.log|
    ensures Target(disk.(log := disk.log + [e]), d, p) == Target(disk, d, p)
  {
    assert (disk.log + [e])[..p.beforeSeq] == disk.log[..p.beforeSeq];
  }

  lemma LoggedStable(disk: Disk, d: Digest, p: ReleaseProgram)
    requires Enabled(disk, LogProgram) && p.beforeSeq <= |disk.log|
    ensures Target(Next(disk, LogProgram), d, p) == Target(disk, d, p)
  {
    var next := Next(disk, LogProgram);
    TargetPrefix(disk, next.log[|disk.log|], d, p);
  }

  /** No write of the release, and no late arrival, changes where it is heading. */
  lemma TargetStable(disk: Disk, m: Move, d: Digest, p: ReleaseProgram)
    requires Enabled(disk, m) && Releasing(m) && Lookup(disk.programs, d) == Some(p) && p.beforeSeq <= |disk.log|
    requires disk.fence.Some? ==> FenceSha(disk.fence.value) == d
    requires d in disk.receipts ==> disk.receipts[d] == p.release
    ensures var next := Next(disk, m);
            p.beforeSeq <= |next.log| && Target(next, d, p) == Target(disk, d, p).(spool := next.spool)
  {
    if m.LogProgram? {
      LoggedStable(disk, d, p);
    } else {
      if m.PutRetired? {
        RetireAgain(disk.retired, d, p.release.spoolIds, m.id);
      }
    }
  }

  lemma ReleasingPointers(disk: Disk, m: Move, d: Digest)
    requires Enabled(disk, m) && Releasing(m)
    requires disk.fence.Some? ==> FenceSha(disk.fence.value) == d
    ensures var next := Next(disk, m);
            && (next.fence == disk.fence || next.fence.None?)
            && (disk.retry.None? || disk.retry.value == d ==> next.retry.None? || next.retry.value == d)
  {
  }

  lemma ReleasingFrame(disk: Disk, m: Move, d: Digest)
    requires Enabled(disk, m) && Releasing(m)
    requires disk.fence.Some? ==> FenceSha(disk.fence.value) == d
    ensures var next := Next(disk, m);
            && next.heartbeats == disk.heartbeats && next.programs == disk.programs
            && (next.fence == disk.fence || next.fence.None?)
            && (disk.retry.None? || disk.retry.value == d ==> next.retry.None? || next.retry.value == d)
  {
    MoveGrows(disk, m);
    assert Framed(disk, m, Next(disk, m));
    ReleasingPointers(disk, m, d);
  }

  lemma ProgramFacts(disk: Disk, d: Digest, p: ReleaseProgram)
    requires Inv(disk) && Lookup(disk.programs, d) == Some(p)
    ensures p.beforeSeq <= |disk.log| && (d in disk.receipts ==> disk.receipts[d] == p.release)
  {
    assert ProgramChained(disk.log, disk.entry.runId, p);
  }

  ghost predicate AllReleasing(moves: seq<Move>) {
    forall i :: 0 <= i < |moves| ==> Releasing(moves[i])
  }

  /** Still heading for the same end: only envelopes may have come in. */
  ghost predicate SameRelease(disk: Disk, mid: Disk, d: Digest, p: ReleaseProgram) {
    Inv(mid) && SameEnd(disk, mid, d, p)
  }

  ghost predicate SameEnd(disk: Disk, mid: Disk, d: Digest, p: ReleaseProgram) {
    && disk.spool <= mid.spool && Lookup(mid.programs, d) == Some(p)
    && p.beforeSeq <= |disk.log| <= |mid.log|
    && (mid.fence.Some? ==> FenceSha(mid.fence.value) == d)
    && Target(mid, d, p) == Target(disk, d, p).(spool := mid.spool)
  }

  lemma SameEndNext(disk: Disk, m: Move, d: Digest, p: ReleaseProgram)
    requires Enabled(disk, m) && Releasing(m) && Lookup(disk.programs, d) == Some(p) && p.beforeSeq <= |disk.log|
    requires d in disk.receipts ==> disk.receipts[d] == p.release
    requires disk.fence.Some? ==> FenceSha(disk.fence.value) == d
    ensures SameEnd(disk, Next(disk, m), d, p)
  {
    MoveGrows(disk, m);
    ReleasingFrame(disk, m, d);
    TargetStable(disk, m, d, p);
  }

  lemma SameReleaseNext(disk: Disk, m: Move, d: Digest, p: ReleaseProgram)
    requires Inv(disk) && Enabled(disk, m) && Releasing(m) && Lookup(disk.programs, d) == Some(p)
    requires disk.fence.Some? ==> FenceSha(disk.fence.value) == d
    ensures SameRelease(disk, Next(disk, m), d, p)
  {
    ProgramFacts(disk, d, p);
    SameEndNext(disk, m, d, p);
    MoveKeeps(disk, m);
  }

  lemma SameReleaseSelf(disk: Disk, d: Digest, p: ReleaseProgram)
    requires Inv(disk) && Lookup(disk.programs, d) == Some(p)
    requires disk.fence.Some? ==> FenceSha(disk.fence.value) == d
    ensures SameRelease(disk, disk, d, p)
  {
    ProgramFacts(disk, d, p);
  }

  lemma SameReleaseTrans(a: Disk, b: Disk, c: Disk, d: Digest, p: ReleaseProgram)
    requires SameRelease(a, b, d, p) && SameRelease(b, c, d, p)
    ensures SameRelease(a, c, d, p)
  {
  }

  /**
    * Release is restartable and loses nothing. Stop it after any of its writes, with any late arrivals in between:
    * it is still heading for the same log, receipt, retirements and unfenced state, and the late envelopes stay live.
    */
  lemma {:induction false} ReleaseRestarts(disk: Disk, moves: seq<Move>, d: Digest, p: ReleaseProgram)
    requires Inv(disk) && Runs(disk, moves) && AllReleasing(moves) && Lookup(disk.programs, d) == Some(p)
    requires disk.fence.Some? ==> FenceSha(disk.fence.value) == d
    ensures SameRelease(disk, RunTo(disk, moves), d, p)
    decreases |moves|
  {
    if moves == [] {
      SameReleaseSelf(disk, d, p);
    } else {
      var next := Next(disk, moves[0]);
      SameReleaseNext(disk, moves[0], d, p);
      assert AllReleasing(moves[1..]);
      ReleaseRestarts(next, moves[1..], d, p);
      SameReleaseTrans(disk, next, RunTo(disk, moves), d, p);
    }
  }

  lemma LateArrivalsStayLive(disk: Disk, mid: Disk, d: Digest, p: ReleaseProgram, x: Digest)
    requires Inv(disk) && Lookup(disk.programs, d) == Some(p) && p.beforeSeq <= |disk.log| && p.beforeSeq <= |mid.log|
    requires Target(mid, d, p) == Target(disk, d, p).(spool := mid.spool)
    requires x in mid.spool && x !in disk.spool
    ensures x in Live(Target(mid, d, p))
  {
    assert x !in Retire(disk.retired, d, p.release.spoolIds);
  }

  /** The last write of a release leaves exactly the final state. */
  lemma DropReaches(disk: Disk, f: Fence, t: Tenure, p: ReleaseProgram)
    requires Inv(disk) && disk.fence == Some(f) && t == TenureOf(disk, f) && t.program == Some(p)
    requires t.heartbeat.Some? ==> f.beforeSeq < p.beforeSeq
    requires Enabled(disk, DropFence)
    ensures p.beforeSeq <= |disk.log| && Next(disk, DropFence) == Target(disk, FenceSha(f), p)
  {
    FenceStands(disk, f);
    DropNeeds(disk, f);
    ReceivedLog(t, disk.entry.runId, disk.log, p);
    DropIsTarget(disk, f, p);
  }

  lemma DropNeeds(disk: Disk, f: Fence)
    requires disk.fence == Some(f) && Enabled(disk, DropFence)
    ensures FenceSha(f) in disk.receipts && disk.retry == Some(FenceSha(f))
    ensures RetiredBy(disk.retired, FenceSha(f), disk.receipts[FenceSha(f)].spoolIds)
  {
  }

  /** Once the receipt exists, the program's events are all that follows its start. */
  lemma ReceivedLog(t: Tenure, runId: string, log: seq<Event>, p: ReleaseProgram)
    requires Stands(t, runId, log) && t.program == Some(p) && t.receipt.Some?
    requires t.heartbeat.Some? ==> t.fence.beforeSeq < p.beforeSeq
    ensures t.receipt == Some(p.release)
    ensures p.beforeSeq <= |log| && log == log[..p.beforeSeq] + Listed(p.release.events)
  {
    ProgramTail(t, runId, log, p.beforeSeq);
    ReceiptInLog(t, runId, log);
    WholeTail(log, p.beforeSeq, t.ProgramEvents());
  }

  lemma WholeTail(log: seq<Event>, b: nat, es: seq<Event>)
    requires b <= |log| && log[b..] <= es && es <= log[b..]
    ensures log == log[..b] + es
  {
    assert log[b..] == es;
    assert log == log[..b] + log[b..];
  }

  lemma DropIsTarget(disk: Disk, f: Fence, p: ReleaseProgram)
    requires disk.fence == Some(f) && Enabled(disk, DropFence) && Lookup(disk.receipts, FenceSha(f)) == Some(p.release)
    requires p.beforeSeq <= |disk.log| && disk.log == disk.log[..p.beforeSeq] + Listed(p.release.events)
    ensures Next(disk, DropFence) == Target(disk, FenceSha(f), p)
  {
    var d, ids := FenceSha(f), p.release.spoolIds;
    DropNeeds(disk, f);
    assert disk.receipts[d := p.release] == disk.receipts;
    assert RetiredBy(disk.retired, d, ids);
    assert Retire(disk.retired, d, ids) == disk.retired;
  }

  /** The heartbeat, if the fence still stands and has one, was attached before the program was written. */
  ghost predicate InTime(disk: Disk, d: Digest, p: ReleaseProgram) {
    disk.fence.Some? && d in disk.heartbeats ==> disk.fence.value.beforeSeq < p.beforeSeq
  }

  /** Unfenced, the release has nothing left to do. */
  ghost predicate Ended(disk: Disk, d: Digest, p: ReleaseProgram) {
    disk.fence.None? ==> p.beforeSeq <= |disk.log| && disk == Target(disk, d, p)
  }

  lemma InTimeNext(disk: Disk, m: Move, d: Digest, p: ReleaseProgram)
    requires Enabled(disk, m) && Releasing(m) && (disk.fence.Some? ==> FenceSha(disk.fence.value) == d)
    requires InTime(disk, d, p)
    ensures InTime(Next(disk, m), d, p)
  {
    ReleasingFrame(disk, m, d);
  }

  lemma EndedNext(disk: Disk, m: Move, d: Digest, p: ReleaseProgram)
    requires Inv(disk) && Enabled(disk, m) && Releasing(m) && Lookup(disk.programs, d) == Some(p)
    requires disk.fence.Some? ==> FenceSha(disk.fence.value) == d
    requires InTime(disk, d, p) && Ended(disk, d, p)
    ensures Ended(Next(disk, m), d, p)
  {
    if disk.fence.None? {
      ArrivalEnds(disk, m, d, p);
    } else {
      FencedEnds(disk, m, d, p);
    }
  }

  lemma FencedEnds(disk: Disk, m: Move, d: Digest, p: ReleaseProgram)
    requires Inv(disk) && Enabled(disk, m) && Releasing(m) && Lookup(disk.programs, d) == Some(p)
    requires disk.fence.Some? && FenceSha(disk.fence.value) == d && InTime(disk, d, p)
    ensures Ended(Next(disk, m), d, p)
  {
    if m.DropFence? {
      DropEnds(disk, m, d, p);
    } else {
      NotYetEnded(disk, m, d, p);
    }
  }

  lemma NotYetEnded(disk: Disk, m: Move, d: Digest, p: ReleaseProgram)
    requires Enabled(disk, m) && Releasing(m) && !m.DropFence? && disk.fence.Some?
    ensures Ended(Next(disk, m), d, p)
  {
    FenceStays(disk, m);
  }

  lemma DropEnds(disk: Disk, m: Move, d: Digest, p: ReleaseProgram)
    requires Inv(disk) && Enabled(disk, m) && m.DropFence? && Lookup(disk.programs, d) == Some(p)
    requires disk.fence.Some? && FenceSha(disk.fence.value) == d && InTime(disk, d, p)
    ensures Ended(Next(disk, m), d, p)
  {
    ProgramFacts(disk, d, p);
    TargetStable(disk, m, d, p);
    DropReaches(disk, disk.fence.value, TenureOf(disk, disk.fence.value), p);
  }

  /** After the release only envelopes arrive. */
  lemma ArrivalEnds(disk: Disk, m: Move, d: Digest, p: ReleaseProgram)
    requires Enabled(disk, m) && Releasing(m) && disk.fence.None? && Ended(disk, d, p)
    ensures Ended(Next(disk, m), d, p)
  {
    assert m.PutSpool?;
    var next := disk.(spool := disk.spool + {m.id});
    assert next == Next(disk, m);
  }

  lemma FenceStays(disk: Disk, m: Move)
    requires Enabled(disk, m) && Releasing(m) && !m.DropFence?
    ensures Next(disk, m).fence == disk.fence
  {
  }

  lemma {:induction false} EndsAtTarget(disk: Disk, moves: seq<Move>, d: Digest, p: ReleaseProgram)
    requires Inv(disk) && Runs(disk, moves) && AllReleasing(moves) && Lookup(disk.programs, d) == Some(p)
    requires disk.fence.Some? ==> FenceSha(disk.fence.value) == d
    requires InTime(disk, d, p) && Ended(disk, d, p)
    ensures Ended(RunTo(disk, moves), d, p)
    decreases |moves|
  {
    if moves != [] {
      assert AllReleasing(moves[1..]);
      MoveKeeps(disk, moves[0]);
      ReleasingFrame(disk, moves[0], d);
      InTimeNext(disk, moves[0], d, p);
      EndedNext(disk, moves[0], d, p);
      EndsAtTarget(Next(disk, moves[0]), moves[1..], d, p);
    }
  }

  /**
    * From any crash point after the program was written, before or after the fence is gone, running `release` again
    * reaches the one final state.
    */
  lemma RerunReachesTarget(disk: Disk, moves: seq<Move>, f: Fence, requested: seq<Event>, o: Oracle)
    requires Inv(disk) && disk.fence == Some(f) && Accepts(disk, FenceSha(f), requested, o) && o.fence
    requires Runs(disk, moves) && AllReleasing(moves)
    requires FenceSha(f) in disk.heartbeats ==> f.beforeSeq < disk.programs[FenceSha(f)].beforeSeq
    requires disk.retry.None? || disk.retry.value == FenceSha(f)
    ensures var p, mid := disk.programs[FenceSha(f)], RunTo(disk, moves);
            && p.beforeSeq <= |disk.log|
            && Released(mid, requested, o) == Ok(Target(disk, FenceSha(f), p).(spool := mid.spool))
  {
    var d := FenceSha(f);
    var p := disk.programs[d];
    var mid := RunTo(disk, moves);
    ReleaseRestarts(disk, moves, d, p);
    RunKeepsPointers(disk, moves, d);
    if mid.fence.Some? {
      assert mid.fence == Some(f);
      ReleaseFinishes(mid, f, TenureOf(mid, f), requested, o);
    } else {
      EndsAtTarget(disk, moves, d, p);
      RerunUnfenced(mid, d, p, requested, o);
    }
  }

  lemma RerunUnfenced(mid: Disk, d: Digest, p: ReleaseProgram, requested: seq<Event>, o: Oracle)
    requires Inv(mid) && mid.fence.None? && Accepts(mid, d, requested, o) && mid.programs[d] == p && Ended(mid, d, p)
    ensures Released(mid, requested, o) == Ok(mid)
  {
    assert mid.retry == Target(mid, d, p).retry == Some(d);
    assert mid.log == Target(mid, d, p).log;
    ReleaseAgain(mid, d, p, requested, o);
    assert Listed(p.release.events) == requested;
  }

  /** Release writes neither heartbeats nor programs, and only its own retry pointer. */
  lemma {:induction false} RunKeepsPointers(disk: Disk, moves: seq<Move>, d: Digest)
    requires Runs(disk, moves) && AllReleasing(moves)
    requires disk.fence.Some? ==> FenceSha(disk.fence.value) == d
    ensures var mid := RunTo(disk, moves);
            && mid.heartbeats == disk.heartbeats && mid.programs == disk.programs
            && (disk.retry.None? || disk.retry.value == d ==> mid.retry.None? || mid.retry.value == d)
    decreases |moves|
  {
    if moves != [] {
      assert AllReleasing(moves[1..]);
      ReleasingFrame(disk, moves[0], d);
      RunKeepsPointers(Next(disk, moves[0]), moves[1..], d);
    }
  }

  /** Once unfenced, `release` with the same events changes nothing while its events still end the log. */
  lemma ReleaseAgain(disk: Disk, d: Digest, p: ReleaseProgram, requested: seq<Event>, o: Oracle)
    requires Inv(disk) && disk.fence.None? && disk.retry == Some(d) && Accepts(disk, d, requested, o)
    requires disk.programs[d] == p
    ensures p.beforeSeq <= |disk.log|
    ensures Released(disk, requested, o).Ok? <==> disk.log == disk.log[..p.beforeSeq] + requested
    ensures Released(disk, requested, o).Ok? ==> Released(disk, requested, o).value == disk
  {
    ProgramFacts(disk, d, p);
    OwnEnvelopes(disk, d);
    assert Listed(p.release.events) == requested;
    assert ProgramChained(disk.log, disk.entry.runId, p);
    AllRetired(disk, d, p);
    ResumesUnfenced(disk, d, p, requested, o);
    assert Released(disk, requested, o) == Resumed(disk, d, requested, o);
  }

  lemma AllRetired(disk: Disk, d: Digest, p: ReleaseProgram)
    requires SpoolSound(None, disk.programs, disk.receipts, disk.spool, disk.retired)
    requires Lookup(disk.programs, d) == Some(p)
    ensures d in disk.receipts && disk.receipts[d] == p.release
    ensures Retire(disk.retired, d, p.release.spoolIds) == disk.retired
  {
    assert RetiredBy(disk.retired, d, p.release.spoolIds);
  }

  lemma ResumesUnfenced(disk: Disk, d: Digest, p: ReleaseProgram, requested: seq<Event>, o: Oracle)
    requires disk.fence.None? && disk.retry == Some(d) && Accepts(disk, d, requested, o) && disk.programs[d] == p
    requires p.release.fenceSha == d
    requires Stored(disk.objects, p.release.events) && PointerCheck(disk, d, p.release.spoolIds) == Pass
    requires p.beforeSeq <= |disk.log| && Chained(disk.log[..p.beforeSeq] + requested, disk.entry.runId)
    requires d in disk.receipts && disk.receipts[d] == p.release
    requires Retire(disk.retired, d, p.release.spoolIds) == disk.retired
    ensures Resumed(disk, d, requested, o).Ok? <==> disk.log == disk.log[..p.beforeSeq] + requested
    ensures Resumed(disk, d, requested, o).Ok? ==> Resumed(disk, d, requested, o).value == disk
  {
    assert Programmed(disk, d, requested, o) == Ok(disk);
    assert disk.receipts[d := p.release] == disk.receipts;
    if disk.log == disk.log[..p.beforeSeq] + requested {
      assert ProgramLog(disk, d, p, requested, o) == Ok(disk.log);
    } else {
      assert ProgramLog(disk, d, p, requested, o).Refused?;
    }
  }
}
