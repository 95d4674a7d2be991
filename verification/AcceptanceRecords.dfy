/** The records of the acceptance run and their hash chain (acceptance/models.py, and the records of ledger.py). */
module AcceptanceRecords {
  import opened Outcomes

  /** The ten-digit event numbers of ledger.py:243. */
  const MaxEvents := 2147483647

  // ---- evidence records; a digest names exactly one content ----

  datatype Digest = Sha(content: Content)

  datatype Content =
    | EventBytes(event: Event)
    | FenceBytes(fence: Fence)
    | IntentBytes(intent: SealIntent)
    | SegmentBytes(segment: Segment)
    | AssessmentBytes(assessment: Assessment)
    | ManifestBytes(manifest: Manifest)
    | CheckpointBytes(checkpoint: Checkpoint)
    | RawBytes(raw: string)

  datatype Artifact = Artifact(id: string, sha: Digest)

  datatype EventKind = SegmentStart | Heartbeat | SegmentStop | Qualification | OtherEvent(name: string)
  datatype Actor = Automatic | Operator | Observer
  datatype Stop = Stop(reason: string, checkpoint: Artifact, checkpointEvent: Digest, transactionId: string)

  datatype Event = Event(
    number: nat, runId: string, segmentId: Option<string>, previous: Option<Digest>, kind: EventKind,
    checkpoint: Option<Artifact>, stop: Option<Stop>, bootId: string, mono: int, at: int, actor: Actor,
    refs: seq<Artifact>, detail: string)

  datatype Fence = Fence(segmentId: string, attemptId: string, beforeHead: Option<Digest>, beforeSeq: nat)

  datatype SealIntent = SealIntent(
    transactionId: string, entry: string, segmentId: string, startEvent: Digest, checkpoint: Artifact,
    checkpointEvent: Digest, evaluation: Artifact, reason: string, sealed: bool)

  datatype Segment = Segment(
    runId: string, segmentId: string, entry: string, startEvent: Digest, endEvent: Option<Digest>, start: int,
    end: Option<int>, duration: Option<int>, sealed: bool, reason: string, evidence: seq<Artifact>)

  datatype Assessment = Assessment(
    runId: string, segmentSha: Digest, coverage: seq<Coverage>, additions: seq<Addition>, evaluation: Artifact,
    unresolved: seq<string>, result: string, evidence: seq<Artifact>)

  datatype Manifest = Manifest(intentSha: Digest, fenceSha: Digest, objects: seq<Digest>, events: seq<Digest>,
                               spoolIds: set<Digest>)
  datatype Release = Release(fenceSha: Digest, spoolIds: set<Digest>, events: seq<Digest>)
  datatype ReleaseProgram = ReleaseProgram(release: Release, beforeSeq: nat)
  datatype Abort = Abort(fenceSha: Digest, intentSha: Option<Digest>, reason: string)

  // ---- checkpoints, reserve rows and the entry ----

  datatype AuditInterval = AuditInterval(source: string, fromCursor: string, toCursor: string, fromMono: int,
                                         toMono: int)
  datatype Checkpoint = Checkpoint(entry: string, passed: bool, identity: string, bootId: string, mono: int, at: int,
                                   audits: seq<AuditInterval>)
  datatype Row = Row(target: string, origin: string, evidence: string)
  datatype Addition = Addition(entry: string, event: Digest, delta: Artifact, rows: seq<Row>)

  /** One path of the system seen working; `identity` stands for the release it was seen on. */
  datatype Coverage = Coverage(id: string, segment: bool, passed: bool, members: seq<string>, identity: string,
                               projection: seq<string>, evidence: seq<Artifact>)

  /** The entry receipt, as far as the interval depends on it; `components` are those of its release identity. */
  datatype Entry = Entry(digest: string, runId: string, createdAt: int, identity: string, components: set<string>,
                         corpus: set<string>, reserve: map<string, Row>)

  // ---- the event chain ----

  function EventSha(e: Event): Digest {
    Sha(EventBytes(e))
  }

  function FenceSha(f: Fence): Digest {
    Sha(FenceBytes(f))
  }

  function Head(log: seq<Event>): Option<Digest> {
    if log == [] then None else Some(EventSha(log[|log| - 1]))
  }

  /** `_events`: contiguous numbering, one run, and every event naming its predecessor's digest. */
  predicate Chained(log: seq<Event>, runId: string) {
    forall i :: 0 <= i < |log| ==> PlacedAt(log, runId, i)
  }

  /** Event `i` carries its number and run and names the event before it. */
  predicate PlacedAt(log: seq<Event>, runId: string, i: nat)
    requires i < |log|
  {
    log[i].number == i && log[i].runId == runId && log[i].previous == Head(log[..i])
  }

  predicate Extends(log: seq<Event>, runId: string, e: Event) {
    e.number == |log| < MaxEvents && e.runId == runId && e.previous == Head(log)
  }

  predicate AreEvents(ds: seq<Digest>) {
    forall i :: 0 <= i < |ds| ==> ds[i].content.EventBytes?
  }

  function Events(ds: seq<Digest>): (r: seq<Event>)
    requires AreEvents(ds)
    ensures |r| == |ds| && forall i :: 0 <= i < |ds| ==> ds[i] == EventSha(r[i])
  {
    seq(|ds|, i requires 0 <= i < |ds| => ds[i].content.event)
  }

  function Digests(es: seq<Event>): (r: seq<Digest>)
    ensures AreEvents(r) && Events(r) == es
  {
    seq(|es|, i requires 0 <= i < |es| => EventSha(es[i]))
  }

  function Listed(ds: seq<Digest>): seq<Event> {
    if AreEvents(ds) then Events(ds) else []
  }
}
