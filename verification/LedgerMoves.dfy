/** When each simple write of the fenced protocol is due, and the state it leaves. */
module LedgerMoves {
  import opened Outcomes
  import opened AcceptanceRecords
  import opened LedgerModel

  lemma CanFence(disk: Disk, f: Fence)
    requires disk.fence.None? && f.segmentId !in disk.terminals && Unused(disk, FenceSha(f))
    requires f.beforeSeq == |disk.log| && f.beforeHead == Head(disk.log)
    ensures Enabled(disk, PutFence(f)) && Next(disk, PutFence(f)) == disk.(fence := Some(f))
  {
  }

  lemma CanPutObject(disk: Disk, c: Content)
    ensures Enabled(disk, PutObject(c)) && Next(disk, PutObject(c)) == disk.(objects := disk.objects + {c})
  {
  }

  lemma CanPutInventory(disk: Disk, a: Artifact)
    requires a.id !in disk.inventory && a.sha.content in disk.objects
    ensures Enabled(disk, PutInventory(a))
    ensures Next(disk, PutInventory(a)) == disk.(inventory := disk.inventory[a.id := a])
  {
  }

  lemma CanDropRetry(disk: Disk)
    requires disk.fence.Some?
    ensures Enabled(disk, DropRetry) && Next(disk, DropRetry) == disk.(retry := None)
  {
  }

  lemma CanPutHeartbeat(disk: Disk, f: Fence, e: Event)
    requires disk.fence == Some(f) && FenceSha(f) !in disk.heartbeats && HeartbeatSound(f, e)
    requires EventBytes(e) in disk.objects
    ensures Enabled(disk, PutHeartbeat(e))
    ensures Next(disk, PutHeartbeat(e)) == disk.(heartbeats := disk.heartbeats[FenceSha(f) := e])
  {
  }

  lemma CanPutIntent(disk: Disk, f: Fence, i: SealIntent)
    requires disk.fence == Some(f) && FenceSha(f) !in disk.intents
    ensures Enabled(disk, PutIntent(i)) && Next(disk, PutIntent(i)) == disk.(intents := disk.intents[FenceSha(f) := i])
  {
  }

  lemma CanPutAbort(disk: Disk, f: Fence, a: Abort)
    requires disk.fence == Some(f) && f.segmentId !in disk.terminals && FenceSha(f) !in disk.aborts
    requires a.fenceSha == FenceSha(f)
    ensures Enabled(disk, PutAbort(a)) && Next(disk, PutAbort(a)) == disk.(aborts := disk.aborts[FenceSha(f) := a])
  {
  }

  lemma EnablesManifest(disk: Disk, f: Fence, m: Manifest, hb: Event)
    requires disk.fence == Some(f) && f.segmentId !in disk.terminals && FenceSha(f) !in disk.aborts
    requires Lookup(disk.heartbeats, FenceSha(f)) == Some(hb) && |disk.log| == f.beforeSeq + 1
    requires disk.log[f.beforeSeq] == hb
    requires m.fenceSha == FenceSha(f) && AreEvents(m.events) && ChainsAfter(hb, disk.entry.runId, Events(m.events))
    requires ManifestStored(disk.objects, disk.inventory, m)
    requires SealHolds(disk.entry, disk.objects, disk.inventory, disk.log, f.segmentId, m)
    ensures Enabled(disk, PutManifest(m))
    ensures Next(disk, PutManifest(m)) == disk.(terminals := disk.terminals[f.segmentId := m])
  {
  }

  lemma CanLogNext(disk: Disk, f: Fence, p: ReleaseProgram, es: seq<Event>, k: nat)
    requires disk.fence == Some(f) && Lookup(disk.programs, FenceSha(f)) == Some(p) && p.release.events == Digests(es)
    requires k < |es| && |disk.log| == p.beforeSeq + k && disk.log[p.beforeSeq..] == es[..k]
    requires Extends(disk.log, disk.entry.runId, es[k])
    ensures Enabled(disk, LogProgram) && Next(disk, LogProgram) == disk.(log := disk.log + [es[k]])
  {
    assert TenureOf(disk, f).ProgramEvents() == es;
  }

  lemma CanPutRetry(disk: Disk, f: Fence)
    requires disk.fence == Some(f) && FenceSha(f) in disk.receipts && disk.retry.None?
    ensures Enabled(disk, PutRetry) && Next(disk, PutRetry) == disk.(retry := Some(FenceSha(f)))
  {
  }

  lemma CanPutRetired(disk: Disk, f: Fence, x: Digest)
    requires disk.fence == Some(f) && FenceSha(f) in disk.receipts && x in disk.receipts[FenceSha(f)].spoolIds
    requires x !in disk.retired
    ensures Enabled(disk, PutRetired(x))
    ensures Next(disk, PutRetired(x)) == disk.(retired := disk.retired[x := FenceSha(f)])
  {
  }

  lemma CanDropFence(disk: Disk, f: Fence)
    requires disk.fence == Some(f) && FenceSha(f) in disk.receipts && disk.retry == Some(FenceSha(f))
    requires RetiredBy(disk.retired, FenceSha(f), disk.receipts[FenceSha(f)].spoolIds)
    ensures Enabled(disk, DropFence) && Next(disk, DropFence) == disk.(fence := None)
  {
  }
}
