/** What a qualified interval says about the events and checkpoints themselves, in both directions. */
module EvaluatorMeaning {
  import opened Outcomes
  import opened AcceptanceRecords
  import opened Evaluators

  // ---- single events and checkpoints ----

  /** Nobody intervened, and the segment neither ended nor was left. */
  ghost predicate Undisturbed(e: Event, segmentId: string) {
    && e.kind != OtherEvent("source_change") && e.kind != OtherEvent("manual_intervention")
    && e.kind != OtherEvent("observation_gap") && e.kind != OtherEvent("drill") && e.kind != OtherEvent("hold")
    && (e.actor == Operator ==> e.kind == OtherEvent("approval"))
    && (e.segmentId == Some(segmentId) || (e.segmentId == None && e.checkpoint == None))
    && e.kind != Qualification && e.kind != OtherEvent("archive") && e.stop == None
  }

  /** A passing checkpoint of the entry's release whose audit intervals, one a source, all end with it. */
  ghost predicate Passes(entry: Entry, ev: Evidence, c: Checkpoint) {
    && c.entry == entry.digest && c.passed && c.identity == entry.identity && ev.checkpointHolds(c)
    && c.audits != []
    && (forall a :: a in c.audits ==> a.toMono == c.mono && a.fromMono <= c.mono)
    && (forall i, j :: 0 <= i < j < |c.audits| ==> c.audits[i].source != c.audits[j].source)
  }

  /** A checkpoint event names a retained checkpoint that passes and was taken no later than the event. */
  ghost predicate Observes(entry: Entry, ev: Evidence, e: Event) {
    e.checkpoint.Some? ==>
      && e.checkpoint.value in ev.captures
      && var c := ev.captures[e.checkpoint.value];
      Passes(entry, ev, c) && e.bootId == c.bootId && e.mono >= c.mono && e.at >= c.at
  }

  /** The audit interval takes up another at its cursor, from the moment of that other's checkpoint. */
  ghost predicate TakenUp(a: AuditInterval, b: AuditInterval, from: int) {
    a.source == b.source && a.fromCursor == b.toCursor && a.fromMono == from
  }

  /** Every audit source of the earlier checkpoint is taken up by the later one, which has no other. */
  ghost predicate AllTakenUp(p: Checkpoint, c: Checkpoint) {
    forall a :: a in c.audits ==> exists b :: b in p.audits && TakenUp(a, b, p.mono)
  }

  ghost predicate NoneDropped(p: Checkpoint, c: Checkpoint) {
    forall b :: b in p.audits ==> exists a :: a in c.audits && a.source == b.source
  }

  /** At most 600 seconds later on the same boot, clocks within a second, every audit source taken up. */
  ghost predicate Continues(p: Checkpoint, c: Checkpoint) {
    && c.bootId == p.bootId && 0 < c.mono - p.mono <= 600_000_000_000
    && 0 <= c.at - p.at && -1_000_000_000 <= (c.at - p.at) - (c.mono - p.mono) <= 1_000_000_000
    && AllTakenUp(p, c) && NoneDropped(p, c)
  }

  /** An event without a checkpoint comes at most 600 seconds after the last one, on the same boot. */
  ghost predicate Attended(e: Event, cs: seq<Checkpoint>) {
    e.checkpoint.None? ==>
      cs != [] && e.bootId == cs[|cs| - 1].bootId && 0 <= e.mono - cs[|cs| - 1].mono <= 600_000_000_000
  }

  lemma AuditedExact(entry: Entry, ev: Evidence, c: Checkpoint)
    ensures Passes(entry, ev, c) <==>
            && c.entry == entry.digest && c.passed && c.identity == entry.identity && ev.checkpointHolds(c)
            && Audited(c)
  {
  }

  lemma ChainExact(p: Checkpoint, c: Checkpoint)
    requires DistinctSources(p)
    ensures AuditsChain(c, p) <==> AllTakenUp(p, c) && NoneDropped(p, c)
  {
    if AuditsChain(c, p) {
      ChainTakesUp(p, c);
      ChainDropsNone(p, c);
    }
    if AllTakenUp(p, c) && NoneDropped(p, c) {
      SourcesKept(p, c);
      forall i, j | 0 <= i < |c.audits| && 0 <= j < |p.audits| && c.audits[i].source == p.audits[j].source
        ensures c.audits[i].fromCursor == p.audits[j].toCursor && c.audits[i].fromMono == p.mono
      {
        var k := TakenUpAt(p, c, i);
        assert k == j;
      }
    }
  }

  lemma ChainTakesUp(p: Checkpoint, c: Checkpoint)
    requires AuditsChain(c, p)
    ensures AllTakenUp(p, c)
  {
    forall a | a in c.audits ensures exists b :: b in p.audits && TakenUp(a, b, p.mono) {
      assert a.source in Sources(c);
      assert a.source in Sources(p);
      var j :| 0 <= j < |p.audits| && p.audits[j].source == a.source;
      assert p.audits[j] in p.audits && TakenUp(a, p.audits[j], p.mono);
    }
  }

  lemma ChainDropsNone(p: Checkpoint, c: Checkpoint)
    requires Sources(c) == Sources(p)
    ensures NoneDropped(p, c)
  {
    forall b | b in p.audits ensures exists a :: a in c.audits && a.source == b.source {
      assert b.source in Sources(p);
      assert b.source in Sources(c);
      var i :| 0 <= i < |c.audits| && c.audits[i].source == b.source;
      assert c.audits[i] in c.audits;
    }
  }

  lemma TakenUpAt(p: Checkpoint, c: Checkpoint, i: nat) returns (k: nat)
    requires AllTakenUp(p, c) && i < |c.audits|
    ensures k < |p.audits| && TakenUp(c.audits[i], p.audits[k], p.mono)
  {
    assert c.audits[i] in c.audits;
    var b :| b in p.audits && TakenUp(c.audits[i], b, p.mono);
    k :| 0 <= k < |p.audits| && p.audits[k] == b;
  }

  lemma SourceFound(c: Checkpoint, a: AuditInterval)
    requires a in c.audits
    ensures a.source in Sources(c)
  {
    var i :| 0 <= i < |c.audits| && c.audits[i] == a;
  }

  lemma SourceKept(p: Checkpoint, c: Checkpoint, s: string)
    requires NoneDropped(p, c) && s in Sources(p)
    ensures s in Sources(c)
  {
    var j :| 0 <= j < |p.audits| && p.audits[j].source == s;
    var b := p.audits[j];
    assert b in p.audits;
    var a :| a in c.audits && a.source == b.source;
    SourceFound(c, a);
  }

  lemma SourceKnown(p: Checkpoint, c: Checkpoint, s: string)
    requires AllTakenUp(p, c) && s in Sources(c)
    ensures s in Sources(p)
  {
    var i :| 0 <= i < |c.audits| && c.audits[i].source == s;
    var k := TakenUpAt(p, c, i);
    SourceFound(p, p.audits[k]);
  }

  lemma SourcesKept(p: Checkpoint, c: Checkpoint)
    requires AllTakenUp(p, c) && NoneDropped(p, c)
    ensures Sources(c) == Sources(p)
  {
    forall s | s in Sources(c) ensures s in Sources(p) {
      SourceKnown(p, c, s);
    }
    forall s | s in Sources(p) ensures s in Sources(c) {
      SourceKept(p, c, s);
    }
  }

  // ---- the run of events from the segment's start ----

  ghost predicate EachObserves(entry: Entry, ev: Evidence, segmentId: string, run: seq<Event>) {
    forall k :: 0 <= k < |run| ==> Undisturbed(run[k], segmentId) && Observes(entry, ev, run[k])
  }

  ghost predicate AttendedAt(ev: Evidence, run: seq<Event>, k: nat)
    requires k < |run|
  {
    Attended(run[k], Captured(ev, run[..k]))
  }

  ghost predicate EachAttended(ev: Evidence, run: seq<Event>) {
    forall k :: 0 <= k < |run| ==> AttendedAt(ev, run, k)
  }

  /** The checkpoints continue one another, and the first is no older than the entry. */
  ghost predicate Unbroken(entry: Entry, cs: seq<Checkpoint>) {
    && (forall i, j :: 0 <= i < |cs| && j == i + 1 < |cs| ==> Continues(cs[i], cs[j]))
    && (cs != [] ==> cs[0].at >= entry.createdAt)
  }

  ghost predicate RunMeans(entry: Entry, ev: Evidence, segmentId: string, run: seq<Event>) {
    && EachObserves(entry, ev, segmentId, run) && EachAttended(ev, run) && Unbroken(entry, Captured(ev, run))
  }

  /** One more event: what it says by itself, and against the checkpoints before it. */
  ghost predicate EventMeans(entry: Entry, ev: Evidence, segmentId: string, e: Event, cs: seq<Checkpoint>) {
    && Undisturbed(e, segmentId) && Observes(entry, ev, e) && Attended(e, cs)
    && (e.checkpoint.Some? ==> Prolongs(entry, cs, ev.captures[e.checkpoint.value]))
  }

  ghost predicate Prolongs(entry: Entry, cs: seq<Checkpoint>, c: Checkpoint) {
    if cs == [] then c.at >= entry.createdAt else Continues(cs[|cs| - 1], c)
  }

  lemma EventExact(entry: Entry, ev: Evidence, segmentId: string, e: Event, cs: seq<Checkpoint>)
    requires forall i :: 0 <= i < |cs| ==> Passes(entry, ev, cs[i])
    ensures StepSound(entry, ev, segmentId, e, if cs == [] then None else Some(cs[|cs| - 1])) <==>
            EventMeans(entry, ev, segmentId, e, cs)
  {
    if e.checkpoint.Some? && e.checkpoint.value in ev.captures {
      var c := ev.captures[e.checkpoint.value];
      AuditedExact(entry, ev, c);
      if cs != [] && DistinctSources(c) {
        ChainExact(cs[|cs| - 1], c);
      }
    }
  }

  lemma {:induction false} CapturedPass(entry: Entry, ev: Evidence, run: seq<Event>)
    requires forall k :: 0 <= k < |run| ==> Observes(entry, ev, run[k])
    ensures forall i :: 0 <= i < |Captured(ev, run)| ==> Passes(entry, ev, Captured(ev, run)[i])
    decreases |run|
  {
    if run != [] {
      var n := |run| - 1;
      assert forall k :: 0 <= k < n ==> run[..n][k] == run[k];
      CapturedPass(entry, ev, run[..n]);
      assert Observes(entry, ev, run[n]);
    }
  }

  lemma UnbrokenNext(entry: Entry, cs: seq<Checkpoint>, c: Checkpoint)
    ensures Unbroken(entry, cs + [c]) <==> Unbroken(entry, cs) && Prolongs(entry, cs, c)
  {
    var all, n := cs + [c], |cs|;
    if Unbroken(entry, all) {
      assert n > 0 ==> all[n - 1] == cs[n - 1] && Continues(all[n - 1], all[n]);
      forall i, j | 0 <= i < n && j == i + 1 < n ensures Continues(cs[i], cs[j]) {
        assert all[i] == cs[i] && all[j] == cs[j];
      }
      assert all[0] == if n == 0 then c else cs[0];
    }
    if Unbroken(entry, cs) && Prolongs(entry, cs, c) {
      forall i, j | 0 <= i <= n && j == i + 1 <= n ensures Continues(all[i], all[j]) {
        assert all[i] == cs[i] && (j < n ==> all[j] == cs[j]);
      }
    }
  }

  lemma EachNext(entry: Entry, ev: Evidence, segmentId: string, run: seq<Event>)
    requires run != []
    ensures var n := |run| - 1;
            EachObserves(entry, ev, segmentId, run) <==>
            EachObserves(entry, ev, segmentId, run[..n]) && Undisturbed(run[n], segmentId)
            && Observes(entry, ev, run[n])
  {
    var n := |run| - 1;
    assert forall k :: 0 <= k < n ==> run[..n][k] == run[k];
  }

  lemma AttendedNext(ev: Evidence, run: seq<Event>)
    requires run != []
    ensures var n := |run| - 1;
            EachAttended(ev, run) <==> EachAttended(ev, run[..n]) && Attended(run[n], Captured(ev, run[..n]))
  {
    var n := |run| - 1;
    forall k | 0 <= k < n ensures AttendedAt(ev, run[..n], k) <==> AttendedAt(ev, run, k) {
      assert run[..n][..k] == run[..k] && run[..n][k] == run[k];
    }
    if EachAttended(ev, run) {
      assert AttendedAt(ev, run, n);
    }
    if EachAttended(ev, run[..n]) && Attended(run[n], Captured(ev, run[..n])) {
      forall k | 0 <= k <= n ensures AttendedAt(ev, run, k) {
        assert k < n ==> AttendedAt(ev, run[..n], k);
      }
    }
  }

  lemma RunMeansNext(entry: Entry, ev: Evidence, segmentId: string, run: seq<Event>)
    requires run != []
    ensures var n := |run| - 1;
            RunMeans(entry, ev, segmentId, run) <==>
            RunMeans(entry, ev, segmentId, run[..n]) && EventMeans(entry, ev, segmentId, run[n], Captured(ev, run[..n]))
  {
    var n := |run| - 1;
    var e, cs := run[n], Captured(ev, run[..n]);
    EachNext(entry, ev, segmentId, run);
    AttendedNext(ev, run);
    if e.checkpoint.Some? && e.checkpoint.value in ev.captures {
      UnbrokenNext(entry, cs, ev.captures[e.checkpoint.value]);
    }
  }

  lemma RunSoundNext(entry: Entry, ev: Evidence, segmentId: string, run: seq<Event>)
    requires run != []
    ensures var n := |run| - 1;
            RunSound(entry, ev, segmentId, run) <==>
            RunSound(entry, ev, segmentId, run[..n]) && StepAt(entry, ev, segmentId, run, n)
  {
    var n := |run| - 1;
    forall k | 0 <= k < n ensures StepAt(entry, ev, segmentId, run[..n], k) <==> StepAt(entry, ev, segmentId, run, k) {
      assert run[..n][..k] == run[..k] && run[..n][k] == run[k];
    }
  }

  /** The walk accepts exactly the undisturbed runs whose checkpoints continue one another. */
  lemma {:induction false} RunExact(entry: Entry, ev: Evidence, segmentId: string, run: seq<Event>)
    ensures RunSound(entry, ev, segmentId, run) <==> RunMeans(entry, ev, segmentId, run)
    decreases |run|
  {
    if run != [] {
      var n := |run| - 1;
      RunSoundNext(entry, ev, segmentId, run);
      RunMeansNext(entry, ev, segmentId, run);
      RunExact(entry, ev, segmentId, run[..n]);
      if RunMeans(entry, ev, segmentId, run[..n]) {
        CapturedPass(entry, ev, run[..n]);
        LastCaptured(ev, run[..n]);
        EventExact(entry, ev, segmentId, run[n], Captured(ev, run[..n]));
      }
    }
  }

  // ---- the event list ----

  /** Numbered from zero in one run, each event naming the one before; shapes, order in time and proofs. */
  ghost predicate EventsMean(entry: Entry, ev: Evidence, events: seq<Event>) {
    && (forall i :: 0 <= i < |events| ==> events[i].number == i && EventProven(entry, ev, events[i]))
    && (events != [] ==> events[0].previous == None)
    && (forall i, j :: 0 <= i < |events| && j == i + 1 < |events| ==> Succeeds(events[i], events[j]))
  }

  ghost predicate EventProven(entry: Entry, ev: Evidence, e: Event) {
    && e.runId == entry.runId && ev.eventHolds(e)
    && (e.stop != None <==> e.kind == SegmentStop)
    && (e.checkpoint != None <==> e.kind == Heartbeat || e.kind == SegmentStart)
  }

  ghost predicate Succeeds(d: Event, e: Event) {
    e.previous == Some(Sha(EventBytes(d))) && e.at >= d.at
  }

  lemma EventsExact(entry: Entry, ev: Evidence, events: seq<Event>)
    ensures EventsSound(entry, ev, events) <==> EventsMean(entry, ev, events)
  {
    if EventsSound(entry, ev, events) {
      forall i | 0 <= i < |events| ensures events[i].number == i && EventProven(entry, ev, events[i]) {
        assert PlacedAt(events, entry.runId, i) && EventSound(ev, events, i);
      }
      forall i, j | 0 <= i < |events| && j == i + 1 < |events| ensures Succeeds(events[i], events[j]) {
        assert PlacedAt(events, entry.runId, j) && EventSound(ev, events, j);
        assert events[..j][i] == events[i];
      }
      assert events != [] ==> PlacedAt(events, entry.runId, 0);
    }
    if EventsMean(entry, ev, events) {
      forall i | 0 <= i < |events| ensures PlacedAt(events, entry.runId, i) && EventSound(ev, events, i) {
        assert EventProven(entry, ev, events[i]);
        assert i > 0 ==> Succeeds(events[i - 1], events[i]) && events[..i][i - 1] == events[i - 1];
      }
    }
  }

  // ---- reserve rows and coverage ----

  /** The addition names an event of the list, of this segment, that announces its delta. */
  ghost predicate Announced(events: seq<Event>, segmentId: string, a: Addition) {
    exists e :: e in events && a.event == Sha(EventBytes(e)) && e.kind == OtherEvent("corpus_transition")
                && e.segmentId == Some(segmentId) && a.delta in e.refs
  }

  /** Announced additions of prepared reserve rows, over all of which no target comes twice. */
  ghost predicate AdditionsMean(
    entry: Entry, ev: Evidence, events: seq<Event>, segmentId: string, additions: seq<Addition>) {
    && (forall a :: a in additions ==>
                      && a.entry == entry.digest && a.rows != [] && ev.additionHolds(a)
                      && Announced(events, segmentId, a)
                      && (forall row :: row in a.rows ==>
                                          row.target in entry.reserve && entry.reserve[row.target] == row))
    && (forall i, j :: 0 <= i < j < |AllRows(additions)| ==>
                         AllRows(additions)[i].target != AllRows(additions)[j].target)
  }

  lemma AnnouncedExact(events: seq<Event>, segmentId: string, a: Addition)
    ensures Announces(events, segmentId, a) <==> Announced(events, segmentId, a)
  {
    if Announces(events, segmentId, a) {
      var i :| 0 <= i < |events| && EventSha(events[i]) == a.event && Transition(events[i], segmentId, a);
      assert events[i] in events;
    }
    if Announced(events, segmentId, a) {
      var e :| e in events && a.event == Sha(EventBytes(e)) && e.kind == OtherEvent("corpus_transition")
               && e.segmentId == Some(segmentId) && a.delta in e.refs;
      var i :| 0 <= i < |events| && events[i] == e;
      assert EventSha(events[i]) == a.event && Transition(events[i], segmentId, a);
    }
  }

  lemma {:induction false} RowAmong(additions: seq<Addition>, row: Row)
    ensures row in AllRows(additions) <==> exists a :: a in additions && row in a.rows
    decreases |additions|
  {
    if additions != [] {
      var n := |additions| - 1;
      RowAmong(additions[..n], row);
      assert additions == additions[..n] + [additions[n]];
      if exists a :: a in additions && row in a.rows {
        var a :| a in additions && row in a.rows;
        assert a in additions[..n] || a == additions[n];
      }
      if row in additions[n].rows {
        assert additions[n] in additions;
      }
    }
  }

  lemma AdditionsExact(entry: Entry, ev: Evidence, events: seq<Event>, segmentId: string, additions: seq<Addition>)
    ensures AdditionsSound(entry, ev, events, segmentId, additions) <==>
            AdditionsMean(entry, ev, events, segmentId, additions)
  {
    forall a ensures Announces(events, segmentId, a) <==> Announced(events, segmentId, a) {
      AnnouncedExact(events, segmentId, a);
    }
    var rows := AllRows(additions);
    if AdditionsSound(entry, ev, events, segmentId, additions) {
      forall a, row | a in additions && row in a.rows
        ensures row.target in entry.reserve && entry.reserve[row.target] == row
      {
        RowAmong(additions, row);
        var i :| 0 <= i < |rows| && rows[i] == row;
      }
    }
    if AdditionsMean(entry, ev, events, segmentId, additions) {
      forall i | 0 <= i < |rows|
        ensures rows[i].target in entry.reserve && entry.reserve[rows[i].target] == rows[i]
      {
        RowAmong(additions, rows[i]);
      }
      forall i | 0 <= i < |additions| ensures AdditionSound(entry, ev, events, segmentId, additions[i]) {
        assert additions[i] in additions;
      }
    }
  }

  /** A passed segment row: on the entry's release and components, by distinct members, with evidence. */
  ghost predicate RowMeans(entry: Entry, ev: Evidence, members: set<string>, row: Coverage) {
    && row.segment && row.passed && row.identity == entry.identity && ev.coverageHolds(row)
    && row.members != [] && row.evidence != [] && row.projection != []
    && (forall x :: x in row.members ==> x in members)
    && (forall x :: x in row.projection ==> x in entry.components)
    && (forall i, j :: 0 <= i < j < |row.members| ==> row.members[i] != row.members[j])
    && (forall i, j :: 0 <= i < j < |row.projection| ==> Less(row.projection[i], row.projection[j]))
  }

  ghost predicate Covers(rows: seq<Coverage>, id: string) {
    exists row :: row in rows && row.id == id
  }

  /** Seven rows, and among them one for each of the seven paths. */
  ghost predicate CoverageMeans(entry: Entry, ev: Evidence, members: set<string>, rows: seq<Coverage>) {
    && |rows| == 7 && (forall row :: row in rows ==> RowMeans(entry, ev, members, row))
    && Covers(rows, "pickup") && Covers(rows, "park_resume") && Covers(rows, "marmot_approval")
    && Covers(rows, "codex_managed") && Covers(rows, "claude_managed") && Covers(rows, "review_close")
    && Covers(rows, "ordinary_operation")
  }

  lemma RowExact(entry: Entry, ev: Evidence, members: set<string>, row: Coverage)
    ensures CoverageRowSound(entry, ev, members, row) <==> RowMeans(entry, ev, members, row)
  {
    assert forall i :: 0 <= i < |row.members| ==> row.members[i] in row.members;
    assert forall i :: 0 <= i < |row.projection| ==> row.projection[i] in row.projection;
  }

  lemma SevenPaths()
    ensures |SegmentCoverage| == 7
  {
    var names := ["pickup", "park_resume", "marmot_approval", "codex_managed", "claude_managed", "review_close",
                  "ordinary_operation"];
    var initials := ['p', 'p', 'm', 'c', 'c', 'r', 'o'];
    assert forall i :: 0 <= i < 7 ==> names[i][0] == initials[i];
    assert names[0][1] != names[1][1] && names[3][1] != names[4][1];
    DistinctSize(names);
    assert (set x | x in names) == SegmentCoverage;
  }

  lemma CoversId(rows: seq<Coverage>, id: string)
    ensures Covers(rows, id) <==> id in Ids(rows)
  {
    if Covers(rows, id) {
      var row :| row in rows && row.id == id;
      var i :| 0 <= i < |rows| && rows[i] == row;
    }
    if id in Ids(rows) {
      var i :| 0 <= i < |rows| && rows[i].id == id;
      assert rows[i] in rows;
    }
  }

  /** With as many rows as paths, covering every path leaves no room for another. */
  lemma SevenIds(rows: seq<Coverage>)
    requires |rows| == 7 && SegmentCoverage <= Ids(rows)
    ensures Ids(rows) == SegmentCoverage
  {
    SevenPaths();
    IdsBounded(rows);
    forall x | x in Ids(rows) ensures x in SegmentCoverage {
      if x !in SegmentCoverage {
        SubsetSize(SegmentCoverage + {x}, Ids(rows));
      }
    }
  }

  lemma CoverageExact(entry: Entry, ev: Evidence, members: set<string>, rows: seq<Coverage>)
    ensures CoverageSound(entry, ev, members, rows) <==> CoverageMeans(entry, ev, members, rows)
  {
    SevenPaths();
    forall row ensures CoverageRowSound(entry, ev, members, row) <==> RowMeans(entry, ev, members, row) {
      RowExact(entry, ev, members, row);
    }
    forall id ensures Covers(rows, id) <==> id in Ids(rows) {
      CoversId(rows, id);
    }
    if CoverageMeans(entry, ev, members, rows) {
      SevenIds(rows);
      forall i | 0 <= i < |rows| ensures CoverageRowSound(entry, ev, members, rows[i]) {
        assert rows[i] in rows;
      }
    }
  }

  // ---- the whole interval ----

  /** The segment's first event is its only start event. */
  ghost predicate StartsOnce(events: seq<Event>, segmentId: string, s: nat) {
    && s < |events| && events[s].segmentId == Some(segmentId) && events[s].kind == SegmentStart
    && (forall i :: 0 <= i < s ==> events[i].segmentId != Some(segmentId))
    && (forall i :: s < i < |events| ==> !(events[i].segmentId == Some(segmentId) && events[i].kind == SegmentStart))
  }

  /** 72 hours by the monotonic clock, with the wall clock within a second of it. */
  ghost predicate ThreeDays(cs: seq<Checkpoint>) {
    && cs != []
    && var mono, wall := cs[|cs| - 1].mono - cs[0].mono, cs[|cs| - 1].at - cs[0].at;
    mono >= 259_200_000_000_000 && wall - mono <= 1_000_000_000 && mono - wall <= 1_000_000_000
  }

  /** The corpus and the targets the additions activated. */
  ghost function Members(entry: Entry, additions: seq<Addition>): set<string> {
    entry.corpus + set row | row in AllRows(additions) :: row.target
  }

  /** What it takes to qualify, said of the events, checkpoints, additions and coverage rows themselves. */
  ghost predicate IntervalMeans(
    entry: Entry, ev: Evidence, events: seq<Event>, segmentId: string, coverage: seq<Coverage>,
    additions: seq<Addition>, unresolved: seq<string>, s: nat)
  {
    && ev.entryHolds && unresolved == [] && EventsMean(entry, ev, events) && StartsOnce(events, segmentId, s)
    && AdditionsMean(entry, ev, events, segmentId, additions)
    && RunMeans(entry, ev, segmentId, events[s..]) && ThreeDays(Captured(ev, events[s..]))
    && CoverageMeans(entry, ev, Members(entry, additions), coverage)
  }

  lemma StartExact(events: seq<Event>, segmentId: string, s: nat)
    ensures StartsAt(events, segmentId, s) && OneStart(events, segmentId, s) <==> StartsOnce(events, segmentId, s)
  {
  }

  lemma SpanExact(cs: seq<Checkpoint>)
    ensures LongEnough(cs) <==> ThreeDays(cs)
  {
  }

  lemma RunAndSpanExact(entry: Entry, ev: Evidence, events: seq<Event>, segmentId: string, s: nat)
    requires s < |events|
    ensures RunSound(entry, ev, segmentId, events[s..]) <==> RunMeans(entry, ev, segmentId, events[s..])
    ensures LongEnough(Captured(ev, events[s..])) <==> ThreeDays(Captured(ev, events[s..]))
  {
    RunExact(entry, ev, segmentId, events[s..]);
    SpanExact(Captured(ev, events[s..]));
  }

  lemma CoveredExact(entry: Entry, ev: Evidence, additions: seq<Addition>, coverage: seq<Coverage>)
    ensures CoverageSound(entry, ev, entry.corpus + Targets(AllRows(additions)), coverage) <==>
            CoverageMeans(entry, ev, Members(entry, additions), coverage)
  {
    MembersExact(entry, additions);
    CoverageExact(entry, ev, Members(entry, additions), coverage);
  }

  lemma MembersExact(entry: Entry, additions: seq<Addition>)
    ensures Members(entry, additions) == entry.corpus + Targets(AllRows(additions))
  {
    var rows := AllRows(additions);
    forall row | row in rows ensures row.target in Targets(rows) {
      var i :| 0 <= i < |rows| && rows[i] == row;
    }
    forall i | 0 <= i < |rows| ensures rows[i].target in Members(entry, additions) {
      assert rows[i] in rows;
    }
  }

  /**
    * `interval` qualifies a segment exactly when: nothing is unresolved; the events are one numbered chain in order of
    * time; the segment starts once; from there no event is an intervention, a gap, a drill, a hold, an operator's
    * action other than an approval, another segment's, terminal or a stop; the checkpoints pass, continue one another
    * source by source at most 600 seconds apart and span 72 hours on both clocks; events without one come within 600
    * seconds of the last; and the seven paths are each covered by members of the corpus or announced reserve.
    */
  lemma IntervalExact(
    entry: Entry, ev: Evidence, events: seq<Event>, segmentId: string, coverage: seq<Coverage>,
    additions: seq<Addition>, unresolved: seq<string>, s: nat)
    ensures QualifiesFrom(entry, ev, events, segmentId, coverage, additions, unresolved, s) <==>
            IntervalMeans(entry, ev, events, segmentId, coverage, additions, unresolved, s)
  {
    EventsExact(entry, ev, events);
    AdditionsExact(entry, ev, events, segmentId, additions);
    CoveredExact(entry, ev, additions, coverage);
    StartExact(events, segmentId, s);
    if s < |events| {
      RunAndSpanExact(entry, ev, events, segmentId, s);
    }
  }

  lemma SameStart(
    entry: Entry, ev: Evidence, events: seq<Event>, segmentId: string, coverage: seq<Coverage>,
    additions: seq<Addition>, unresolved: seq<string>, s: nat, t: nat)
    requires QualifiesFrom(entry, ev, events, segmentId, coverage, additions, unresolved, s)
    requires QualifiesFrom(entry, ev, events, segmentId, coverage, additions, unresolved, t)
    ensures s == t
  {
    OneStartIndex(events, segmentId, s, t);
  }

  /** Time from the first to the last checkpoint captured from event `s` on. */
  ghost function Span(ev: Evidence, events: seq<Event>, s: nat): Option<int> {
    if s > |events| then None else
    var cs := Captured(ev, events[s..]);
    if cs == [] then None else Some(cs[|cs| - 1].mono - cs[0].mono)
  }

  lemma QualifiedSpan(
    duration: int, entry: Entry, ev: Evidence, events: seq<Event>, segmentId: string, coverage: seq<Coverage>,
    additions: seq<Addition>, unresolved: seq<string>, s: nat)
    ensures QualifiedFor(duration, entry, ev, events, segmentId, coverage, additions, unresolved, s) <==>
            QualifiesFrom(entry, ev, events, segmentId, coverage, additions, unresolved, s)
            && Span(ev, events, s) == Some(duration)
    ensures QualifiedFor(duration, entry, ev, events, segmentId, coverage, additions, unresolved, s) ==>
              duration >= 259_200_000_000_000
  {
  }

  /** The evaluation qualifies a segment exactly when its interval does, for the time its checkpoints span. */
  lemma EvaluationExact(
    r: Evaluation, entry: Entry, ev: Evidence, events: seq<Event>, segmentId: string, coverage: seq<Coverage>,
    additions: seq<Addition>, unresolved: seq<string>, duration: int)
    requires Judges(r, entry, ev, events, segmentId, coverage, additions, unresolved)
    ensures r == Qualified(duration) <==>
            exists s :: IntervalMeans(entry, ev, events, segmentId, coverage, additions, unresolved, s)
                        && Span(ev, events, s) == Some(duration)
    ensures r == Qualified(duration) ==> duration >= 259_200_000_000_000
  {
    if r == Qualified(duration) {
      var s :| QualifiedFor(duration, entry, ev, events, segmentId, coverage, additions, unresolved, s);
      QualifiedSpan(duration, entry, ev, events, segmentId, coverage, additions, unresolved, s);
      IntervalExact(entry, ev, events, segmentId, coverage, additions, unresolved, s);
    }
    if s :| IntervalMeans(entry, ev, events, segmentId, coverage, additions, unresolved, s)
            && Span(ev, events, s) == Some(duration) {
      IntervalExact(entry, ev, events, segmentId, coverage, additions, unresolved, s);
      OneEvaluation(r, entry, ev, events, segmentId, coverage, additions, unresolved, s);
    }
  }

  lemma OneEvaluation(
    r: Evaluation, entry: Entry, ev: Evidence, events: seq<Event>, segmentId: string, coverage: seq<Coverage>,
    additions: seq<Addition>, unresolved: seq<string>, s: nat)
    requires Judges(r, entry, ev, events, segmentId, coverage, additions, unresolved)
    requires QualifiesFrom(entry, ev, events, segmentId, coverage, additions, unresolved, s)
    ensures r.Qualified? && Span(ev, events, s) == Some(r.duration)
  {
    if r.Qualified? {
      var t :| QualifiedFor(r.duration, entry, ev, events, segmentId, coverage, additions, unresolved, t);
      QualifiedSpan(r.duration, entry, ev, events, segmentId, coverage, additions, unresolved, t);
      SameStart(entry, ev, events, segmentId, coverage, additions, unresolved, s, t);
    }
  }

  /** From the start of a qualified interval nobody intervened. */
  lemma QualifiedUndisturbed(
    entry: Entry, ev: Evidence, events: seq<Event>, segmentId: string, coverage: seq<Coverage>,
    additions: seq<Addition>, unresolved: seq<string>, s: nat)
    requires QualifiesFrom(entry, ev, events, segmentId, coverage, additions, unresolved, s)
    ensures forall k :: s <= k < |events| ==> Undisturbed(events[k], segmentId) && Observes(entry, ev, events[k])
  {
    RunExact(entry, ev, segmentId, events[s..]);
    forall k | s <= k < |events| ensures Undisturbed(events[k], segmentId) && Observes(entry, ev, events[k]) {
      assert events[k] == events[s..][k - s];
    }
  }
}
