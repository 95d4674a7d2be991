/** What `recover` and `release` leave behind, from whatever point the last publisher stopped at. */
module LedgerRecovery {
  import opened Outcomes
  import opened AcceptanceRecords
  import opened LedgerModel
  import opened LedgerSafety

  // ---- appending events that may already be there ----

  /** `_append`: an event already in place is accepted, another one in its place is a conflict. */
  function Append(log: seq<Event>, runId: string, e: Event): Result<seq<Event>> {
    if e.number < |log| then
      if log[e.number] == e then Ok(log) else Refused("event_recovery_conflict")
    else if e.number != |log| || e.runId != runId || e.previous != Head(log) then Refused("event_chain")
    else if e.number >= MaxEvents then Refused("event_capacity")
    else Ok(log + [e])
  }

  function AppendAll(log: seq<Event>, runId: string, es: seq<Event>): Result<seq<Event>>
    decreases |es|
  {
    if es == [] then Ok(log) else
    var next :- Append(log, runId, es[0]);
    AppendAll(next, runId, es[1..])
  }

  /** The first event of the list is in place, or can be put there. */
  lemma AppendsFirst(base: seq<Event>, runId: string, es: seq<Event>, k: nat)
    requires Chained(base + es, runId) && es != [] && k <= |es| && |base| + |es| <= MaxEvents
    ensures var left := if k == 0 then 0 else k - 1;
            Append(base + es[..k], runId, es[0]) == Ok(base + [es[0]] + es[1..][..left])
  {
    var log, all := base + es[..k], base + es;
    assert PlacedAt(all, runId, |base|);
    assert all[|base|] == es[0] && all[..|base|] == base;
    if k == 0 {
      assert log == base;
      assert base + [es[0]] + es[1..][..0] == base + [es[0]];
    } else {
      assert log[|base|] == es[0];
      assert base + [es[0]] + es[1..][..k - 1] == log;
    }
  }

  /** Appending a list of which some first part is already in place completes it. */
  lemma {:induction false} AppendsRest(base: seq<Event>, runId: string, es: seq<Event>, k: nat)
    requires Chained(base + es, runId) && k <= |es| && |base| + |es| <= MaxEvents
    ensures AppendAll(base + es[..k], runId, es) == Ok(base + es)
    decreases |es|
  {
    if es == [] {
      assert base + es[..k] == base + es;
    } else {
      AppendsFirst(base, runId, es, k);
      var grown := base + [es[0]];
      assert grown + es[1..] == base + es;
      AppendsRest(grown, runId, es[1..], if k == 0 then 0 else k - 1);
    }
  }

  /** Events numbered from the end of the log are all added. */
  lemma {:induction false} AppendsFresh(log: seq<Event>, runId: string, es: seq<Event>)
    requires forall i :: 0 <= i < |es| ==> es[i].number == |log| + i
    ensures AppendAll(log, runId, es).Ok? ==> AppendAll(log, runId, es).value == log + es
    decreases |es|
  {
    if es == [] {
      assert log + es == log;
    } else if Append(log, runId, es[0]).Ok? {
      AppendsFresh(log + [es[0]], runId, es[1..]);
      assert log + [es[0]] + es[1..] == log + es;
    }
  }

  /** Chained events are all added exactly when their numbers fit. */
  lemma {:induction false} AppendsChained(log: seq<Event>, runId: string, es: seq<Event>)
    requires Chained(log + es, runId)
    ensures AppendAll(log, runId, es).Ok? <==> es == [] || |log| + |es| <= MaxEvents
    ensures AppendAll(log, runId, es).Ok? ==> AppendAll(log, runId, es).value == log + es
    decreases |es|
  {
    if es == [] {
      assert log + es == log;
    } else {
      AppendsHead(log, runId, es);
      var grown := log + [es[0]];
      assert grown + es[1..] == log + es;
      if |log| < MaxEvents {
        AppendsChained(grown, runId, es[1..]);
      }
    }
  }

  lemma AppendsHead(log: seq<Event>, runId: string, es: seq<Event>)
    requires Chained(log + es, runId) && es != []
    ensures if |log| < MaxEvents then Append(log, runId, es[0]) == Ok(log + [es[0]])
            else Append(log, runId, es[0]).Refused?
  {
    assert PlacedAt(log + es, runId, |log|);
    assert (log + es)[|log|] == es[0] && (log + es)[..|log|] == log;
  }

  /** `_fence`: put the heartbeat file's event in its place before anything else. */
  function Attached(disk: Disk): Result<Disk>
    requires disk.fence.Some?
  {
    var d := FenceSha(disk.fence.value);
    if d !in disk.heartbeats then Ok(disk) else
    var log :- Append(disk.log, disk.entry.runId, disk.heartbeats[d]);
    Ok(disk.(log := log))
  }

  /** When `_fence` gets past the heartbeat file. */
  predicate Attachable(t: Tenure, runId: string, log: seq<Event>) {
    t.heartbeat.Some? ==>
      if t.fence.beforeSeq < |log| then log[t.fence.beforeSeq] == t.heartbeat.value
      else t.heartbeat.value.runId == runId && |log| < MaxEvents
  }

  /** What the invariant says of the standing fence, in terms of its own records and the log. */
  ghost predicate Stands(t: Tenure, runId: string, log: seq<Event>) {
    && Chained(log, runId)
    && t.fence.beforeSeq <= |log| && t.fence.beforeHead == Head(log[..t.fence.beforeSeq])
    && TenureSound(t, runId, log[t.fence.beforeSeq..])
  }

  lemma FenceStands(disk: Disk, f: Fence)
    requires Inv(disk) && disk.fence == Some(f)
    ensures Stands(TenureOf(disk, f), disk.entry.runId, disk.log)
  {
  }

  /** The log once the heartbeat is in place. */
  function AttachedLog(t: Tenure, log: seq<Event>): seq<Event> {
    if t.fence.beforeSeq < |log| then log else log + t.HeartbeatEvents()
  }

  lemma AttachedExact(disk: Disk, f: Fence, t: Tenure)
    requires disk.fence == Some(f) && t == TenureOf(disk, f) && Stands(t, disk.entry.runId, disk.log)
    ensures Attached(disk).Ok? <==> Attachable(t, disk.entry.runId, disk.log)
    ensures Attached(disk).Ok? ==> Attached(disk).value == disk.(log := AttachedLog(t, disk.log))
  {
    assert |disk.log| == f.beforeSeq ==> disk.log[..f.beforeSeq] == disk.log;
    assert disk.log + [] == disk.log;
    assert disk.(log := disk.log) == disk;
  }

  // ---- recover ----

  datatype Standing = Unfenced | PreparedFence | CommittedComplete

  /** The checks of `_complete` before it appends anything. */
  function ManifestCheck(objects: set<Content>, inventory: map<string, Artifact>, m: Manifest): Check {
    if !(|m.objects| == 2 && 1 <= |m.events| <= 2) then Fail("manifest_shape")
    else if !(ManifestBytes(m) in objects && Stored(objects, [m.intentSha] + m.objects)) then
      Fail("ledger_file_unavailable")
    else if !(m.intentSha.content.IntentBytes? && m.objects[0].content.SegmentBytes?
              && m.objects[1].content.AssessmentBytes?) then Fail("invalid_schema")
    else if !Bound(objects, inventory, IntentRefs(m.intentSha.content.intent)) then Fail("artifact_missing_or_changed")
    else if !Bound(objects, inventory, m.objects[0].content.segment.evidence) then Fail("artifact_missing_or_changed")
    else if !Bound(objects, inventory, m.objects[1].content.assessment.evidence) then
      Fail("artifact_missing_or_changed")
    else Pass
  }

  lemma StoredPasses(objects: set<Content>, inventory: map<string, Artifact>, m: Manifest)
    requires ManifestStored(objects, inventory, m)
    ensures ManifestCheck(objects, inventory, m) == Pass && Stored(objects, m.events) && AreEvents(m.events)
  {
  }

  /** `_complete`: finish the bytes the manifest names, and nothing else. */
  function Completed(disk: Disk, m: Manifest): Result<Disk>
    requires disk.fence.Some?
  {
    var f := disk.fence.value;
    var d := FenceSha(f);
    :- Need(m.fenceSha == d, "fence_changed");
    :- ManifestCheck(disk.objects, disk.inventory, m);
    :- Need(|disk.log| <= f.beforeSeq + 1 + |m.events|, "unexpected_event_tail");
    :- Need(Stored(disk.objects, m.events) && AreEvents(m.events), "ledger_file_unavailable");
    var log :- AppendAll(disk.log, disk.entry.runId, Events(m.events));
    :- Need(d in disk.completes ==> disk.completes[d] == m, "immutable_file_conflict");
    Ok(disk.(log := log, completes := disk.completes[d := m]))
  }

  /** `_complete` on a stored manifest of the standing fence comes down to appending its events. */
  lemma CompletedBy(disk: Disk, f: Fence, m: Manifest)
    requires disk.fence == Some(f) && m.fenceSha == FenceSha(f) && ManifestStored(disk.objects, disk.inventory, m)
    requires FenceSha(f) in disk.completes ==> disk.completes[FenceSha(f)] == m
    ensures |disk.log| > f.beforeSeq + 1 + |m.events| ==> Completed(disk, m).Refused?
    ensures |disk.log| <= f.beforeSeq + 1 + |m.events| ==>
              var r := AppendAll(disk.log, disk.entry.runId, Events(m.events));
              if r.Refused? then Completed(disk, m).Refused?
              else Completed(disk, m) == Ok(disk.(log := r.value, completes := disk.completes[FenceSha(f) := m]))
    ensures FenceSha(f) in disk.completes ==> disk.completes[FenceSha(f) := m] == disk.completes
  {
    StoredPasses(disk.objects, disk.inventory, m);
  }

  function Recovered(disk: Disk): Result<(Disk, Standing)> {
    if disk.fence.None? then Ok((disk, Unfenced)) else
    var f := disk.fence.value;
    var attached :- Attached(disk);
    if f.segmentId !in disk.terminals then
      :- Need(FenceSha(f) !in disk.completes, "terminal_manifest_missing");
      Ok((attached, PreparedFence))
    else
      :- Need(disk.terminals[f.segmentId].fenceSha == FenceSha(f), "manifest_fence");
      var done :- Completed(attached, disk.terminals[f.segmentId]);
      Ok((done, CommittedComplete))
  }

  /** The log up to the fence, then the fence's heartbeat and its manifest's events. */
  function OwnLog(t: Tenure, log: seq<Event>): seq<Event>
    requires t.fence.beforeSeq <= |log|
  {
    log[..t.fence.beforeSeq] + t.HeartbeatEvents() + t.ManifestEvents()
  }

  /** A committed fence has its heartbeat in the log. */
  lemma CommittedHeartbeat(t: Tenure, runId: string, log: seq<Event>)
    requires Stands(t, runId, log) && t.terminal.Some?
    ensures t.heartbeat.Some? && t.fence.beforeSeq < |log| && log[t.fence.beforeSeq] == t.heartbeat.value
  {
    assert log[t.fence.beforeSeq] == log[t.fence.beforeSeq..][0];
  }

  /** A committed fence's log, as long as nothing follows the manifest. */
  lemma CommittedLog(t: Tenure, runId: string, log: seq<Event>)
    requires t.terminal.Some? && TerminalSound(t, runId)
    requires t.fence.beforeSeq < |log| <= t.fence.beforeSeq + 1 + |t.ManifestEvents()|
    requires TailInOrder(t, log[t.fence.beforeSeq..])
    ensures var base := log[..t.fence.beforeSeq] + t.HeartbeatEvents();
            |base| <= |log| <= |base| + |t.ManifestEvents()| && log == base + t.ManifestEvents()[..|log| - |base|]
  {
    var tail, hb := log[t.fence.beforeSeq..], [t.heartbeat.value];
    ManifestTail(t, runId, tail);
    assert log == log[..t.fence.beforeSeq] + tail;
    assert t.HeartbeatEvents() == hb;
    var k := |tail| - 1;
    assert log[..t.fence.beforeSeq] + (hb + t.ManifestEvents()[..k]) == log[..t.fence.beforeSeq] + hb
                                                                        + t.ManifestEvents()[..k];
  }

  /** A chained list stays chained when events chained after its last one follow. */
  lemma ChainedOn(base: seq<Event>, runId: string, e: Event, es: seq<Event>)
    requires base != [] && base[|base| - 1] == e && e.number == |base| - 1
    requires Chained(base, runId) && ChainsAfter(e, runId, es)
    ensures Chained(base + es, runId)
  {
    var n, all := |base|, base + es;
    forall i | 0 <= i < |all| ensures PlacedAt(all, runId, i) {
      if i < n {
        assert PlacedAt(base, runId, i);
        assert all[..i] == base[..i];
      } else {
        var k := i - n;
        var last := if k == 0 then e else es[k - 1];
        assert all[..i][i - 1] == all[i - 1] == last;
        assert all[i] == es[k];
        assert LinkedAt(e, runId, es, k);
      }
    }
  }

  lemma ChainedPrefix(log: seq<Event>, runId: string, n: nat)
    requires Chained(log, runId) && n <= |log|
    ensures Chained(log[..n], runId)
  {
    forall i | 0 <= i < n ensures PlacedAt(log[..n], runId, i) {
      assert PlacedAt(log, runId, i);
      assert log[..n][..i] == log[..i];
    }
  }

  lemma OwnLogChained(t: Tenure, runId: string, log: seq<Event>)
    requires Stands(t, runId, log) && t.terminal.Some?
    ensures Chained(OwnLog(t, log), runId)
  {
    CommittedHeartbeat(t, runId, log);
    var n := t.fence.beforeSeq + 1;
    assert log[..n] == log[..t.fence.beforeSeq] + t.HeartbeatEvents();
    ChainedPrefix(log, runId, n);
    ChainedOn(log[..n], runId, t.heartbeat.value, t.ManifestEvents());
  }

  /** Appending the manifest's events to a committed fence's log completes it. */
  lemma ManifestAppends(t: Tenure, runId: string, log: seq<Event>)
    requires Stands(t, runId, log) && t.terminal.Some?
    requires |log| <= t.fence.beforeSeq + 1 + |t.ManifestEvents()| <= MaxEvents
    ensures AppendAll(log, runId, t.ManifestEvents()) == Ok(OwnLog(t, log))
  {
    CommittedHeartbeat(t, runId, log);
    CommittedLog(t, runId, log);
    OwnLogChained(t, runId, log);
    var base := log[..t.fence.beforeSeq] + t.HeartbeatEvents();
    AppendsRest(base, runId, t.ManifestEvents(), |log| - |base|);
  }

  ghost predicate Fits(t: Tenure) {
    t.fence.beforeSeq + 1 + |t.ManifestEvents()| <= MaxEvents
  }

  /** `_complete` on a committed fence holds exactly when something follows the manifest's events. */
  lemma CompletedExact(disk: Disk, f: Fence, t: Tenure, m: Manifest)
    requires disk.fence == Some(f) && t == TenureOf(disk, f) && Stands(t, disk.entry.runId, disk.log)
    requires t.terminal == Some(m) && ManifestStored(disk.objects, disk.inventory, m) && Fits(t)
    ensures Completed(disk, m).Ok? <==> |disk.log| <= f.beforeSeq + 1 + |m.events|
    ensures Completed(disk, m).Ok? ==>
              Completed(disk, m).value ==
              disk.(log := OwnLog(t, disk.log), completes := disk.completes[FenceSha(f) := m])
  {
    StoredPasses(disk.objects, disk.inventory, m);
    if |disk.log| <= f.beforeSeq + 1 + |m.events| {
      ManifestAppends(t, disk.entry.runId, disk.log);
    }
  }

  lemma RecoverCommitted(disk: Disk, f: Fence, t: Tenure, m: Manifest)
    requires disk.fence == Some(f) && t == TenureOf(disk, f) && Stands(t, disk.entry.runId, disk.log)
    requires t.terminal == Some(m) && ManifestStored(disk.objects, disk.inventory, m) && Fits(t)
    ensures Recovered(disk).Ok? <==> |disk.log| <= f.beforeSeq + 1 + |t.ManifestEvents()|
    ensures Recovered(disk).Ok? ==>
              Recovered(disk).value ==
              (disk.(log := OwnLog(t, disk.log), completes := disk.completes[FenceSha(f) := m]), CommittedComplete)
  {
    AttachedExact(disk, f, t);
    CommittedHeartbeat(t, disk.entry.runId, disk.log);
    assert Attached(disk) == Ok(disk);
    CompletedExact(disk, f, t, m);
  }

  lemma RecoverPrepared(disk: Disk, f: Fence, t: Tenure)
    requires disk.fence == Some(f) && t == TenureOf(disk, f) && Stands(t, disk.entry.runId, disk.log)
    requires t.terminal.None?
    ensures Recovered(disk).Ok? <==> Attachable(t, disk.entry.runId, disk.log)
    ensures Recovered(disk).Ok? ==> Recovered(disk).value == (disk.(log := AttachedLog(t, disk.log)), PreparedFence)
  {
    AttachedExact(disk, f, t);
  }

  /** `recover` holds exactly when release events follow the manifest's, or the heartbeat file cannot take its place. */
  lemma RecoverExact(disk: Disk, f: Fence, t: Tenure)
    requires Inv(disk) && disk.fence == Some(f) && t == TenureOf(disk, f) && Fits(t)
    ensures t.terminal.Some? ==> (Recovered(disk).Ok? <==> |disk.log| <= f.beforeSeq + 1 + |t.ManifestEvents()|)
    ensures t.terminal.None? ==> (Recovered(disk).Ok? <==> Attachable(t, disk.entry.runId, disk.log))
  {
    FenceStands(disk, f);
    if t.terminal.Some? {
      RecoverCommitted(disk, f, t, t.terminal.value);
    } else {
      RecoverPrepared(disk, f, t);
    }
  }

  /** Before a release program exists, only the fence's own events can follow it. */
  lemma TailBeforeRelease(t: Tenure, runId: string, log: seq<Event>)
    requires Stands(t, runId, log) && t.program.None?
    ensures t.terminal.Some? ==> |log| <= t.fence.beforeSeq + 1 + |t.ManifestEvents()|
    ensures t.terminal.None? ==> AttachedLog(t, log) == OwnLog(t, log)
  {
    var tail := log[t.fence.beforeSeq..];
    assert log == log[..t.fence.beforeSeq] + tail;
    if t.terminal.None? {
      assert tail <= t.HeartbeatEvents();
      assert tail != [] ==> tail == t.HeartbeatEvents();
    }
  }

  /**
    * Commit atomicity, from any crash point. With no release program yet and a readable heartbeat, `recover` answers:
    * either no manifest, no completion and no terminal event exist; or the log ends with exactly the heartbeat and the
    * manifest's events, the completion is present, and all it names was stored beforehand.
    */
  lemma CommitIsAtomic(disk: Disk, f: Fence, t: Tenure)
    requires Inv(disk) && disk.fence == Some(f) && t == TenureOf(disk, f) && t.program.None?
    requires Attachable(t, disk.entry.runId, disk.log) && Fits(t)
    ensures Recovered(disk).Ok?
    ensures Recovered(disk).value ==
            if t.terminal.None? then (disk.(log := OwnLog(t, disk.log)), PreparedFence)
            else (disk.(log := OwnLog(t, disk.log), completes := disk.completes[FenceSha(f) := t.terminal.value]),
                  CommittedComplete)
    ensures t.terminal.None? ==>
              t.complete.None? && OwnLog(t, disk.log) == disk.log[..f.beforeSeq] + t.HeartbeatEvents()
    ensures t.terminal.Some? ==>
              t.heartbeat.Some? && !t.aborted && ManifestStored(disk.objects, disk.inventory, t.terminal.value)
  {
    FenceStands(disk, f);
    TailBeforeRelease(t, disk.entry.runId, disk.log);
    if t.terminal.Some? {
      RecoverCommitted(disk, f, t, t.terminal.value);
    } else {
      RecoverPrepared(disk, f, t);
    }
  }

  /** A second `recover` changes nothing. */
  lemma RecoverTwice(disk: Disk, f: Fence, t: Tenure)
    requires Inv(disk) && disk.fence == Some(f) && t == TenureOf(disk, f) && Fits(t) && Recovered(disk).Ok?
    ensures Recovered(Recovered(disk).value.0) == Recovered(disk)
  {
    FenceStands(disk, f);
    if t.terminal.Some? {
      RecoverCommitted(disk, f, t, t.terminal.value);
      RecoversAgain(disk, f, t, Recovered(disk).value.0);
    } else {
      RecoverPrepared(disk, f, t);
      PreparedAgain(disk, f, t);
    }
  }

  lemma PreparedAgain(disk: Disk, f: Fence, t: Tenure)
    requires disk.fence == Some(f) && t == TenureOf(disk, f) && Stands(t, disk.entry.runId, disk.log)
    requires t.terminal.None? && Attachable(t, disk.entry.runId, disk.log)
    ensures var next := disk.(log := AttachedLog(t, disk.log)); Recovered(next) == Ok((next, PreparedFence))
  {
    var next := disk.(log := AttachedLog(t, disk.log));
    assert t.heartbeat.Some? ==> next.log[f.beforeSeq] == t.heartbeat.value == disk.heartbeats[FenceSha(f)];
    assert Attached(next) == Ok(next);
  }

  lemma RecoversAgain(disk: Disk, f: Fence, t: Tenure, next: Disk)
    requires disk.fence == Some(f) && t == TenureOf(disk, f) && Stands(t, disk.entry.runId, disk.log) && Fits(t)
    requires t.terminal.Some? && ManifestStored(disk.objects, disk.inventory, t.terminal.value)
    requires next == disk.(log := OwnLog(t, disk.log), completes := disk.completes[FenceSha(f) := t.terminal.value])
    ensures Recovered(next) == Ok((next, CommittedComplete))
  {
    var m := t.terminal.value;
    StoredPasses(disk.objects, disk.inventory, m);
    OwnLogChained(t, disk.entry.runId, disk.log);
    var base, man := disk.log[..f.beforeSeq] + t.HeartbeatEvents(), t.ManifestEvents();
    assert man[..|man|] == man;
    AppendsRest(base, disk.entry.runId, man, |man|);
    assert AppendAll(next.log, next.entry.runId, man) == Ok(next.log);
    assert next.completes[FenceSha(f) := m] == next.completes;
    assert Completed(next, m) == Ok(next);
    assert next.log[f.beforeSeq] == t.heartbeat.value == disk.heartbeats[FenceSha(f)];
    assert Attached(next) == Ok(next);
  }
}
