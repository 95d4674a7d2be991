/** Evaluating one segment's ordered events: when the interval qualifies (src/heterodyne/acceptance/evaluator.py). */
module Evaluators {
  import opened Outcomes
  import opened AcceptanceRecords

  /** Nanoseconds. */
  const Duration := 259_200_000_000_000
  const MaxGap := 600_000_000_000
  const MaxError := 1_000_000_000

  /** What a segment must have seen. */
  const SegmentCoverage := {"pickup", "park_resume", "marmot_approval", "codex_managed", "claude_managed",
                            "review_close", "ordinary_operation"}

  /** The captured checkpoints by reference, and the answers of the proof adapters and of the entry's own checks. */
  datatype Evidence = Evidence(
    captures: map<Artifact, Checkpoint>, entryHolds: bool, eventHolds: Event -> bool,
    checkpointHolds: Checkpoint -> bool,
    additionHolds: Addition -> bool, coverageHolds: Coverage -> bool)

  datatype Evaluation = Qualified(duration: int) | NotQualified(reason: string)

  // ---- the event list ----

  /** Shape, chronology and proof of one event, given the one before. */
  predicate EventSound(ev: Evidence, events: seq<Event>, i: nat)
    requires i < |events|
  {
    var e := events[i];
    && (e.stop.Some? <==> e.kind == SegmentStop)
    && (e.checkpoint.Some? <==> e.kind == Heartbeat || e.kind == SegmentStart)
    && (i > 0 ==> e.at >= events[i - 1].at)
    && ev.eventHolds(e)
  }

  ghost predicate EventsSound(entry: Entry, ev: Evidence, events: seq<Event>) {
    Chained(events, entry.runId) && forall i :: 0 <= i < |events| ==> EventSound(ev, events, i)
  }

  /** `_events`: the chain, the shapes, the chronology and the proofs, event by event. */
  method ValidateEvents(entry: Entry, ev: Evidence, events: seq<Event>) returns (c: Check)
    ensures c.Pass? <==> EventsSound(entry, ev, events)
  {
    var previous: Option<Digest> := None;
    var i := 0;
    while i < |events|
      invariant 0 <= i <= |events| && previous == Head(events[..i])
      invariant forall j :: 0 <= j < i ==> PlacedAt(events, entry.runId, j) && EventSound(ev, events, j)
    {
      var e := events[i];
      if !(e.runId == entry.runId && e.number == i && e.previous == previous) {
        assert !PlacedAt(events, entry.runId, i);
        return Fail("event_chain");
      }
      if e.stop.Some? != (e.kind == SegmentStop) {
        assert !EventSound(ev, events, i);
        return Fail("event_stop_shape");
      }
      if e.checkpoint.Some? != (e.kind == Heartbeat || e.kind == SegmentStart) {
        assert !EventSound(ev, events, i);
        return Fail("event_checkpoint_shape");
      }
      if i > 0 && e.at < events[i - 1].at {
        assert !EventSound(ev, events, i);
        return Fail("event_chronology");
      }
      if !ev.eventHolds(e) {
        assert !EventSound(ev, events, i);
        return Fail("source_adapter_unavailable:event");
      }
      previous := Some(EventSha(e));
      assert events[..i + 1][i] == e;
      i := i + 1;
    }
    c := Pass;
  }

  // ---- checkpoints ----

  predicate DistinctSources(c: Checkpoint) {
    forall i, j :: 0 <= i < j < |c.audits| ==> c.audits[i].source != c.audits[j].source
  }

  function Sources(c: Checkpoint): set<string> {
    set i | 0 <= i < |c.audits| :: c.audits[i].source
  }

  /** Every source's interval starts at the cursor and the time where the previous checkpoint left it. */
  predicate AuditsChain(c: Checkpoint, previous: Checkpoint) {
    && Sources(c) == Sources(previous)
    && forall i, j :: 0 <= i < |c.audits| && 0 <= j < |previous.audits|
                      && c.audits[i].source == previous.audits[j].source ==>
                        c.audits[i].fromCursor == previous.audits[j].toCursor && c.audits[i].fromMono == previous.mono
  }

  predicate Follows(c: Checkpoint, previous: Checkpoint) {
    && c.bootId == previous.bootId && 0 < c.mono - previous.mono <= MaxGap
    && 0 <= c.at - previous.at && -MaxError <= (c.at - previous.at) - (c.mono - previous.mono) <= MaxError
    && AuditsChain(c, previous)
  }

  predicate Audited(c: Checkpoint) {
    && DistinctSources(c) && c.audits != []
    && forall i :: 0 <= i < |c.audits| ==> c.audits[i].toMono == c.mono && c.audits[i].fromMono <= c.audits[i].toMono
  }

  predicate CheckpointSound(entry: Entry, ev: Evidence, c: Checkpoint, previous: Option<Checkpoint>) {
    && c.entry == entry.digest && c.passed && c.identity == entry.identity && Audited(c)
    && (previous.Some? ==> Follows(c, previous.value))
    && ev.checkpointHolds(c)
  }

  // ---- one event of the segment ----

  /** `_intervention`. */
  predicate HandsOff(e: Event) {
    && e.kind !in {OtherEvent("source_change"), OtherEvent("manual_intervention"), OtherEvent("observation_gap"),
                   OtherEvent("drill"), OtherEvent("hold")}
    && (e.actor.Operator? ==> e.kind == OtherEvent("approval"))
  }

  /** Belongs to the open segment, or to none without a checkpoint. */
  predicate InSegment(e: Event, segmentId: string) {
    && HandsOff(e) && (e.segmentId.None? || e.segmentId.value == segmentId)
    && (e.segmentId.None? ==> e.checkpoint.None?)
    && e.kind != Qualification && e.kind != OtherEvent("archive") && e.stop.None?
  }

  /** An event without a checkpoint comes within the gap after the last one. */
  predicate Watched(e: Event, last: Option<Checkpoint>) {
    last.Some? && e.bootId == last.value.bootId && 0 <= e.mono - last.value.mono <= MaxGap
  }

  predicate Timely(e: Event, c: Checkpoint) {
    e.bootId == c.bootId && e.mono >= c.mono && e.at >= c.at
  }

  /** One event of the loop, given the last checkpoint before it. */
  predicate StepSound(entry: Entry, ev: Evidence, segmentId: string, e: Event, last: Option<Checkpoint>) {
    && InSegment(e, segmentId)
    && (if e.checkpoint.None? then Watched(e, last)
        else
          && e.checkpoint.value in ev.captures
          && var c := ev.captures[e.checkpoint.value];
          CheckpointSound(entry, ev, c, last) && Timely(e, c) && (last.None? ==> c.at >= entry.createdAt))
  }

  // ---- the checks in the order they are made, with their codes ----

  function AuditCheck(c: Checkpoint): Check {
    if !DistinctSources(c) then Fail("audit_duplicate_source")
    else if c.audits == [] then Fail("audit_empty")
    else if exists i :: 0 <= i < |c.audits| && c.audits[i].toMono != c.mono then Fail("audit_endpoint")
    else if exists i :: 0 <= i < |c.audits| && c.audits[i].fromMono > c.audits[i].toMono then Fail("audit_order")
    else Pass
  }

  function FollowCheck(c: Checkpoint, previous: Checkpoint): Check {
    var elapsed, wall := c.mono - previous.mono, c.at - previous.at;
    if c.bootId != previous.bootId then Fail("clock_uncertain")
    else if !(0 < elapsed <= MaxGap) then Fail("observation_gap")
    else if !(wall >= 0 && -MaxError <= wall - elapsed <= MaxError) then Fail("clock_uncertain")
    else if Sources(c) != Sources(previous) then Fail("audit_registry_changed")
    else if !AuditsChain(c, previous) then Fail("audit_discontinuity")
    else Pass
  }

  function CheckpointCheck(entry: Entry, ev: Evidence, c: Checkpoint, previous: Option<Checkpoint>): Check {
    if c.entry != entry.digest then Fail("checkpoint_entry")
    else if !c.passed then Fail("checkpoint_fail")
    else if c.identity != entry.identity then Fail("release_change")
    else if AuditCheck(c).Fail? then AuditCheck(c)
    else if previous.Some? && FollowCheck(c, previous.value).Fail? then FollowCheck(c, previous.value)
    else if !ev.checkpointHolds(c) then Fail("source_adapter_unavailable:checkpoint")
    else Pass
  }

  lemma CheckpointExact(entry: Entry, ev: Evidence, c: Checkpoint, previous: Option<Checkpoint>)
    ensures CheckpointCheck(entry, ev, c, previous).Pass? <==> CheckpointSound(entry, ev, c, previous)
  {
  }

  function SegmentCheck(e: Event, segmentId: string): Check {
    if !HandsOff(e) then Fail("manual_intervention")
    else if e.segmentId.Some? && e.segmentId.value != segmentId then Fail("overlapping_segment")
    else if e.segmentId.None? && e.checkpoint.Some? then Fail("unbound_checkpoint")
    else if e.kind == Qualification || e.kind == OtherEvent("archive") then Fail("segment_already_terminal")
    else if e.stop.Some? then Fail("segment_already_stopped")
    else Pass
  }

  function StepCheck(entry: Entry, ev: Evidence, segmentId: string, e: Event, last: Option<Checkpoint>): Check {
    if SegmentCheck(e, segmentId).Fail? then SegmentCheck(e, segmentId)
    else if e.checkpoint.None? then
      if last.None? || e.bootId != last.value.bootId then Fail("clock_uncertain")
      else if !(0 <= e.mono - last.value.mono <= MaxGap) then Fail("observation_gap")
      else Pass
    else if e.checkpoint.value !in ev.captures then Fail("artifact_missing_or_changed")
    else
      var c := ev.captures[e.checkpoint.value];
      if CheckpointCheck(entry, ev, c, last).Fail? then CheckpointCheck(entry, ev, c, last)
      else if !Timely(e, c) then Fail("checkpoint_event_time")
      else if last.None? && c.at < entry.createdAt then Fail("start_before_entry")
      else Pass
  }

  lemma StepExact(entry: Entry, ev: Evidence, segmentId: string, e: Event, last: Option<Checkpoint>)
    ensures StepCheck(entry, ev, segmentId, e, last).Pass? <==> StepSound(entry, ev, segmentId, e, last)
  {
    if e.checkpoint.Some? && e.checkpoint.value in ev.captures {
      CheckpointExact(entry, ev, ev.captures[e.checkpoint.value], last);
    }
  }

  // ---- the run of events from the segment's start ----

  /** The last checkpoint captured by the first `k` events. */
  function LastOf(ev: Evidence, events: seq<Event>): Option<Checkpoint> {
    if events == [] then None else
    var e := events[|events| - 1];
    if e.checkpoint.Some? && e.checkpoint.value in ev.captures then
      Some(ev.captures[e.checkpoint.value]) else LastOf(ev, events[..|events| - 1])
  }

  /** The checkpoints captured by the events, in order. */
  function Captured(ev: Evidence, events: seq<Event>): seq<Checkpoint> {
    if events == [] then [] else
    var before := Captured(ev, events[..|events| - 1]);
    var e := events[|events| - 1];
    if e.checkpoint.Some? && e.checkpoint.value in ev.captures then
      before + [ev.captures[e.checkpoint.value]] else before
  }

  /** Event `k` of the run, with the last checkpoint captured before it. */
  ghost predicate StepAt(entry: Entry, ev: Evidence, segmentId: string, run: seq<Event>, k: nat)
    requires k < |run|
  {
    StepSound(entry, ev, segmentId, run[k], LastOf(ev, run[..k]))
  }

  ghost predicate RunSound(entry: Entry, ev: Evidence, segmentId: string, run: seq<Event>) {
    forall k :: 0 <= k < |run| ==> StepAt(entry, ev, segmentId, run, k)
  }

  lemma {:induction false} LastCaptured(ev: Evidence, run: seq<Event>)
    ensures LastOf(ev, run) == (var cs := Captured(ev, run); if cs == [] then None else Some(cs[|cs| - 1]))
    decreases |run|
  {
    if run != [] {
      LastCaptured(ev, run[..|run| - 1]);
    }
  }

  /** One more event: how the captured list and its last element grow. */
  lemma CapturedStep(ev: Evidence, run: seq<Event>, k: nat)
    requires k < |run|
    ensures var e, cs := run[k], Captured(ev, run[..k]);
            Captured(ev, run[..k + 1]) ==
            if e.checkpoint.Some? && e.checkpoint.value in ev.captures then cs + [ev.captures[e.checkpoint.value]]
            else cs
  {
    assert run[..k + 1][..k] == run[..k];
  }

  /** The loop over the segment: its first and last checkpoints, or why it does not qualify. */
  method Walk(
    entry: Entry, ev: Evidence, segmentId: string,
    run: seq<Event>) returns (r: Result<(Option<Checkpoint>, Option<Checkpoint>)>)
    ensures r.Ok? <==> RunSound(entry, ev, segmentId, run)
    ensures r.Ok? ==> r.value == Ends(Captured(ev, run))
  {
    var start: Option<Checkpoint>, last: Option<Checkpoint> := None, None;
    var k := 0;
    while k < |run|
      invariant 0 <= k <= |run|
      invariant forall j :: 0 <= j < k ==> StepAt(entry, ev, segmentId, run, j)
      invariant (start, last) == Ends(Captured(ev, run[..k]))
    {
      LastCaptured(ev, run[..k]);
      var e := run[k];
      StepExact(entry, ev, segmentId, e, last);
      var check := StepCheck(entry, ev, segmentId, e, last);
      if check.Fail? {
        assert !StepAt(entry, ev, segmentId, run, k);
        return Refused(check.code);
      }
      CapturedStep(ev, run, k);
      if e.checkpoint.Some? {
        last := Some(ev.captures[e.checkpoint.value]);
        start := if start.None? then last else start;
      }
      k := k + 1;
    }
    assert run[..k] == run;
    r := Ok((start, last));
  }

  function Ends(cs: seq<Checkpoint>): (Option<Checkpoint>, Option<Checkpoint>) {
    if cs == [] then (None, None) else (Some(cs[0]), Some(cs[|cs| - 1]))
  }

  // ---- reserve rows activated during the segment ----

  /** The event an addition names: a corpus transition of this segment that carries its delta. */
  predicate Announces(events: seq<Event>, segmentId: string, a: Addition) {
    exists i :: 0 <= i < |events| && EventSha(events[i]) == a.event && Transition(events[i], segmentId, a)
  }

  predicate Transition(e: Event, segmentId: string, a: Addition) {
    e.kind == OtherEvent("corpus_transition") && e.segmentId == Some(segmentId) && a.delta in e.refs
  }

  predicate AdditionSound(entry: Entry, ev: Evidence, events: seq<Event>, segmentId: string, a: Addition) {
    a.entry == entry.digest && a.rows != [] && Announces(events, segmentId, a) && ev.additionHolds(a)
  }

  function AllRows(additions: seq<Addition>): seq<Row> {
    if additions == [] then [] else AllRows(additions[..|additions| - 1]) + additions[|additions| - 1].rows
  }

  /** Each row is the prepared reserve row of its target, and no target comes twice. */
  ghost predicate RowsSound(entry: Entry, rows: seq<Row>) {
    && (forall i :: 0 <= i < |rows| ==> rows[i].target in entry.reserve && entry.reserve[rows[i].target] == rows[i])
    && (forall i, j :: 0 <= i < j < |rows| ==> rows[i].target != rows[j].target)
  }

  function Targets(rows: seq<Row>): set<string> {
    set i | 0 <= i < |rows| :: rows[i].target
  }

  ghost predicate AdditionsSound(
    entry: Entry, ev: Evidence, events: seq<Event>, segmentId: string, additions: seq<Addition>) {
    && (forall i :: 0 <= i < |additions| ==> AdditionSound(entry, ev, events, segmentId, additions[i]))
    && RowsSound(entry, AllRows(additions))
  }

  /** The inner loop: the rows of one addition, after those already activated. */
  method Activate(entry: Entry, before: seq<Row>, rows: seq<Row>) returns (ok: bool)
    requires RowsSound(entry, before)
    ensures ok <==> RowsSound(entry, before + rows)
  {
    var activated := Targets(before);
    var i := 0;
    assert before + rows[..0] == before;
    while i < |rows|
      invariant 0 <= i <= |rows| && RowsSound(entry, before + rows[..i]) && activated == Targets(before + rows[..i])
    {
      var row := rows[i];
      var grown := before + rows[..i] + [row];
      assert before + rows[..i + 1] == grown;
      if !(row.target in entry.reserve && entry.reserve[row.target] == row && row.target !in activated) {
        RowRefused(entry, before, rows, i);
        return false;
      }
      activated := activated + {row.target};
      TargetsGrow(before + rows[..i], row);
      i := i + 1;
    }
    assert rows[..i] == rows;
    ok := true;
  }

  lemma TargetsGrow(rows: seq<Row>, row: Row)
    ensures Targets(rows + [row]) == Targets(rows) + {row.target}
  {
    var all := rows + [row];
    assert all[|rows|] == row;
    forall i | 0 <= i < |rows| ensures rows[i].target in Targets(all) {
      assert all[i] == rows[i];
    }
  }

  lemma RowRefused(entry: Entry, before: seq<Row>, rows: seq<Row>, i: nat)
    requires i < |rows|
    requires var row := rows[i];
             !(row.target in entry.reserve && entry.reserve[row.target] == row
               && row.target !in Targets(before + rows[..i]))
    ensures !RowsSound(entry, before + rows)
  {
    var all, row := before + rows, rows[i];
    var n := |before| + i;
    assert all[n] == row;
    if row.target in Targets(before + rows[..i]) {
      var j :| 0 <= j < n && (before + rows[..i])[j].target == row.target;
      assert all[j] == (before + rows[..i])[j];
    }
  }

  lemma RowsPrefix(entry: Entry, rows: seq<Row>, more: seq<Row>)
    requires RowsSound(entry, rows + more)
    ensures RowsSound(entry, rows)
  {
    var all := rows + more;
    assert forall i :: 0 <= i < |rows| ==> all[i] == rows[i];
  }

  lemma {:induction false} RowsOfPrefix(entry: Entry, additions: seq<Addition>, k: nat)
    requires k <= |additions| && RowsSound(entry, AllRows(additions))
    ensures RowsSound(entry, AllRows(additions[..k]))
    decreases |additions| - k
  {
    if k == |additions| {
      assert additions[..k] == additions;
    } else {
      RowsOfPrefix(entry, additions, k + 1);
      assert additions[..k + 1][..k] == additions[..k];
      RowsPrefix(entry, AllRows(additions[..k]), additions[k].rows);
    }
  }

  method CheckAdditions(
    entry: Entry, ev: Evidence, events: seq<Event>, segmentId: string, additions: seq<Addition>) returns (c: Check)
    ensures c.Pass? <==> AdditionsSound(entry, ev, events, segmentId, additions)
  {
    var rows: seq<Row> := [];
    var k := 0;
    while k < |additions|
      invariant 0 <= k <= |additions| && rows == AllRows(additions[..k]) && RowsSound(entry, rows)
      invariant forall i :: 0 <= i < k ==> AdditionSound(entry, ev, events, segmentId, additions[i])
    {
      var a := additions[k];
      assert additions[..k + 1][..k] == additions[..k];
      if !(a.entry == entry.digest && a.rows != []) {
        return Fail("addition_entry");
      }
      if !Announces(events, segmentId, a) {
        return Fail("addition_event");
      }
      var ok := Activate(entry, rows, a.rows);
      if !ok {
        if RowsSound(entry, AllRows(additions)) {
          RowsOfPrefix(entry, additions, k + 1);
        }
        return Fail("addition_not_prepared_reserve");
      }
      if !ev.additionHolds(a) {
        return Fail("source_adapter_unavailable:reserve_activation");
      }
      rows := rows + a.rows;
      k := k + 1;
    }
    assert additions[..k] == additions;
    c := Pass;
  }

  // ---- what the segment has seen ----

  function Ids(rows: seq<Coverage>): set<string> {
    set i | 0 <= i < |rows| :: rows[i].id
  }

  /** `_projection`. */
  predicate Projects(ids: seq<string>, components: set<string>) {
    ids != [] && Ascending(ids) && forall i :: 0 <= i < |ids| ==> ids[i] in components
  }

  /** One row: passed in this phase, by distinct members of the corpus, on the entry's release, with evidence. */
  ghost predicate CoverageRowSound(entry: Entry, ev: Evidence, members: set<string>, row: Coverage) {
    && row.segment && row.passed
    && row.members != [] && (forall i :: 0 <= i < |row.members| ==> row.members[i] in members)
    && NoDuplicates(row.members)
    && row.identity == entry.identity && Projects(row.projection, entry.components)
    && row.evidence != [] && ev.coverageHolds(row)
  }

  ghost predicate CoverageSound(entry: Entry, ev: Evidence, members: set<string>, rows: seq<Coverage>) {
    && |rows| == |SegmentCoverage| && Ids(rows) == SegmentCoverage
    && forall i :: 0 <= i < |rows| ==> CoverageRowSound(entry, ev, members, rows[i])
  }

  /** `_coverage`: the required rows, each checked in turn. */
  method CheckCoverage(entry: Entry, ev: Evidence, members: set<string>, rows: seq<Coverage>) returns (c: Check)
    ensures c.Pass? <==> CoverageSound(entry, ev, members, rows)
  {
    if |rows| != |SegmentCoverage| || Ids(rows) != SegmentCoverage {
      return Fail("coverage_set");
    }
    var k := 0;
    while k < |rows|
      invariant 0 <= k <= |rows| && forall i :: 0 <= i < k ==> CoverageRowSound(entry, ev, members, rows[i])
    {
      c := CheckCoverageRow(entry, ev, members, rows[k]);
      if c.Fail? {
        return;
      }
      k := k + 1;
    }
    c := Pass;
  }

  method CheckCoverageRow(entry: Entry, ev: Evidence, members: set<string>, row: Coverage) returns (c: Check)
    ensures c.Pass? <==> CoverageRowSound(entry, ev, members, row)
  {
    if !(row.segment && row.passed) {
      return Fail("coverage_not_passing");
    }
    if row.members == [] || exists i :: 0 <= i < |row.members| && row.members[i] !in members {
      return Fail("coverage_members");
    }
    if exists i, j :: 0 <= i < j < |row.members| && row.members[i] == row.members[j] {
      return Fail("coverage_duplicate_members");
    }
    if row.identity != entry.identity {
      return Fail("coverage_identity");
    }
    if !Projects(row.projection, entry.components) {
      return Fail("component_projection");
    }
    if row.evidence == [] {
      return Fail("coverage_evidence");
    }
    if !ev.coverageHolds(row) {
      return Fail("source_adapter_unavailable:coverage");
    }
    c := Pass;
  }

  /** As many rows as required paths, covering them all: each is covered by exactly one row. */
  lemma CoveredOnce(entry: Entry, ev: Evidence, members: set<string>, rows: seq<Coverage>, id: string)
    requires CoverageSound(entry, ev, members, rows) && id in SegmentCoverage
    ensures exists i :: 0 <= i < |rows| && rows[i].id == id
                        && forall j :: 0 <= j < |rows| && rows[j].id == id ==> j == i
  {
    IdsDiffer(rows);
    assert id in Ids(rows);
  }

  lemma {:induction false} IdsDiffer(rows: seq<Coverage>)
    requires |Ids(rows)| == |rows|
    ensures forall i, j :: 0 <= i < j < |rows| ==> rows[i].id != rows[j].id
    decreases |rows|
  {
    if rows != [] {
      var n := |rows| - 1;
      var front := rows[..n];
      IdsGrow(rows);
      IdsBounded(front);
      IdsDiffer(front);
      assert rows[n].id !in Ids(front);
      assert forall i :: 0 <= i < n ==> front[i] == rows[i] && front[i].id in Ids(front);
    }
  }

  lemma IdsGrow(rows: seq<Coverage>)
    requires rows != []
    ensures Ids(rows) == Ids(rows[..|rows| - 1]) + {rows[|rows| - 1].id}
  {
    var n := |rows| - 1;
    assert forall i :: 0 <= i < n ==> rows[..n][i] == rows[i];
  }

  lemma {:induction false} IdsBounded(rows: seq<Coverage>)
    ensures |Ids(rows)| <= |rows|
    decreases |rows|
  {
    if rows == [] {
      assert Ids(rows) == {};
    } else {
      IdsGrow(rows);
      IdsBounded(rows[..|rows| - 1]);
    }
  }

  // ---- the whole interval ----

  /** The first event of the segment. */
  ghost predicate StartsAt(events: seq<Event>, segmentId: string, s: nat) {
    && s < |events| && events[s].segmentId == Some(segmentId)
    && forall i :: 0 <= i < s ==> events[i].segmentId != Some(segmentId)
  }

  /** It is the one start event of the segment. */
  ghost predicate OneStart(events: seq<Event>, segmentId: string, s: nat)
    requires s < |events|
  {
    && events[s].kind == SegmentStart
    && forall i :: s < i < |events| && events[i].segmentId == Some(segmentId) ==> events[i].kind != SegmentStart
  }

  /** The checkpoints span 72 hours by the monotonic clock, and the wall clock agrees within a second. */
  predicate LongEnough(cs: seq<Checkpoint>) {
    && cs != []
    && var duration := cs[|cs| - 1].mono - cs[0].mono;
    duration >= Duration && -MaxError <= cs[|cs| - 1].at - cs[0].at - duration <= MaxError
  }

  /** When the interval qualifies, and the segment starts at event `s`. */
  ghost predicate QualifiesFrom(
    entry: Entry, ev: Evidence, events: seq<Event>, segmentId: string, coverage: seq<Coverage>,
    additions: seq<Addition>, unresolved: seq<string>, s: nat)
  {
    && ev.entryHolds && unresolved == [] && EventsSound(entry, ev, events)
    && StartsAt(events, segmentId, s) && OneStart(events, segmentId, s)
    && AdditionsSound(entry, ev, events, segmentId, additions)
    && RunSound(entry, ev, segmentId, events[s..]) && LongEnough(Captured(ev, events[s..]))
    && CoverageSound(entry, ev, entry.corpus + Targets(AllRows(additions)), coverage)
  }

  /** What an evaluation says: qualified exactly when the interval qualifies from some start, for its true duration. */
  ghost predicate Judges(
    r: Evaluation, entry: Entry, ev: Evidence, events: seq<Event>, segmentId: string, coverage: seq<Coverage>,
    additions: seq<Addition>, unresolved: seq<string>) {
    if r.Qualified? then
      exists s :: QualifiedFor(r.duration, entry, ev, events, segmentId, coverage, additions, unresolved, s)
    else
      forall s :: !QualifiesFrom(entry, ev, events, segmentId, coverage, additions, unresolved, s)
  }

  ghost predicate QualifiedFor(
    duration: int, entry: Entry, ev: Evidence, events: seq<Event>, segmentId: string, coverage: seq<Coverage>,
    additions: seq<Addition>, unresolved: seq<string>, s: nat) {
    && QualifiesFrom(entry, ev, events, segmentId, coverage, additions, unresolved, s)
    && var cs := Captured(ev, events[s..]); duration == cs[|cs| - 1].mono - cs[0].mono
  }

  lemma OneStartIndex(events: seq<Event>, segmentId: string, s: nat, t: nat)
    requires StartsAt(events, segmentId, s) && StartsAt(events, segmentId, t)
    ensures s == t
  {
  }

  /** The first event of the segment, and how many start events it has. */
  method FindStart(events: seq<Event>, segmentId: string) returns (s: nat, single: bool)
    ensures s <= |events| && (s < |events| ==> StartsAt(events, segmentId, s))
    ensures s == |events| ==> forall i :: 0 <= i < |events| ==> events[i].segmentId != Some(segmentId)
    ensures s < |events| ==> (single <==> OneStart(events, segmentId, s))
  {
    s := 0;
    while s < |events| && events[s].segmentId != Some(segmentId)
      invariant 0 <= s <= |events| && forall i :: 0 <= i < s ==> events[i].segmentId != Some(segmentId)
    {
      s := s + 1;
    }
    single := false;
    if s < |events| && events[s].kind == SegmentStart {
      single := true;
      var i := s + 1;
      while i < |events|
        invariant s < i <= |events|
        invariant single <==>
                  forall j :: s < j < i && events[j].segmentId == Some(segmentId) ==> events[j].kind != SegmentStart
      {
        if events[i].segmentId == Some(segmentId) && events[i].kind == SegmentStart {
          single := false;
        }
        i := i + 1;
      }
    }
  }

  /** `interval`: qualified exactly when every check holds, with the duration between the first and last checkpoints. */
  method Interval(
    entry: Entry, ev: Evidence, events: seq<Event>, segmentId: string, coverage: seq<Coverage>,
    additions: seq<Addition>, unresolved: seq<string>)
    returns (r: Evaluation, ghost s: nat)
    ensures r.Qualified? <==> QualifiesFrom(entry, ev, events, segmentId, coverage, additions, unresolved, s)
    ensures r.NotQualified? ==>
              forall t :: !QualifiesFrom(entry, ev, events, segmentId, coverage, additions, unresolved, t)
    ensures r.Qualified? ==>
              s <= |events| && var cs := Captured(ev, events[s..]); cs != []
                                                                    && r.duration == cs[|cs| - 1].mono - cs[0].mono
  {
    s := 0;
    if !ev.entryHolds {
      return NotQualified("entry"), s;
    }
    if unresolved != [] {
      return NotQualified("unresolved_acceptance_faults"), s;
    }
    var check := ValidateEvents(entry, ev, events);
    if check.Fail? {
      return NotQualified(check.code), s;
    }
    var start, single := FindStart(events, segmentId);
    s := start;
    if start == |events| {
      return NotQualified("segment_start_missing"), s;
    }
    forall t | StartsAt(events, segmentId, t) ensures t == s {
      OneStartIndex(events, segmentId, s, t);
    }
    if !single {
      return NotQualified("duplicate_segment_start"), s;
    }
    check := CheckAdditions(entry, ev, events, segmentId, additions);
    if check.Fail? {
      return NotQualified(check.code), s;
    }
    r := Conclude(entry, ev, segmentId, events[start..], entry.corpus + Targets(AllRows(additions)), coverage);
  }

  /** The walk over the segment and the checks that follow it. */
  method Conclude(
    entry: Entry, ev: Evidence, segmentId: string, run: seq<Event>, members: set<string>, coverage: seq<Coverage>)
    returns (r: Evaluation)
    ensures r.Qualified? <==>
            && RunSound(entry, ev, segmentId, run) && LongEnough(Captured(ev, run))
            && CoverageSound(entry, ev, members, coverage)
    ensures r.Qualified? ==> var cs := Captured(ev, run); r.duration == cs[|cs| - 1].mono - cs[0].mono
  {
    var walked := Walk(entry, ev, segmentId, run);
    if walked.Refused? {
      return NotQualified(walked.code);
    }
    var (start, last) := walked.value;
    if start.None? || last.None? {
      return NotQualified("checkpoint_missing");
    }
    var duration := last.value.mono - start.value.mono;
    if duration < Duration {
      return NotQualified("duration_short");
    }
    var drift := last.value.at - start.value.at - duration;
    if !(-MaxError <= drift <= MaxError) {
      return NotQualified("clock_uncertain");
    }
    var check := CheckCoverage(entry, ev, members, coverage);
    if check.Fail? {
      return NotQualified(check.code);
    }
    r := Qualified(duration);
  }

  /** `interval` as its callers see it. */
  method Evaluate(
    entry: Entry, ev: Evidence, events: seq<Event>, segmentId: string, coverage: seq<Coverage>,
    additions: seq<Addition>, unresolved: seq<string>)
    returns (r: Evaluation)
    ensures Judges(r, entry, ev, events, segmentId, coverage, additions, unresolved)
  {
    ghost var s;
    r, s := Interval(entry, ev, events, segmentId, coverage, additions, unresolved);
    assert r.Qualified? ==> QualifiedFor(r.duration, entry, ev, events, segmentId, coverage, additions, unresolved, s);
  }
}
