/** What the local checks of a qualified interval add up to: 72 hours observed without a gap. */
module EvaluatorContinuity {
  import opened Outcomes
  import opened AcceptanceRecords
  import opened Evaluators

  /** Each checkpoint is audited and follows the one before it. */
  ghost predicate Linked(cs: seq<Checkpoint>) {
    forall i :: 0 <= i < |cs| ==> Audited(cs[i]) && (i > 0 ==> Follows(cs[i], cs[i - 1]))
  }

  lemma RunPrefix(entry: Entry, ev: Evidence, segmentId: string, run: seq<Event>, n: nat)
    requires RunSound(entry, ev, segmentId, run) && n <= |run|
    ensures RunSound(entry, ev, segmentId, run[..n])
  {
    forall k | 0 <= k < n ensures StepAt(entry, ev, segmentId, run[..n], k) {
      assert run[..n][..k] == run[..k];
      assert StepAt(entry, ev, segmentId, run, k);
    }
  }

  lemma {:induction false} CapturedLinked(entry: Entry, ev: Evidence, segmentId: string, run: seq<Event>)
    requires RunSound(entry, ev, segmentId, run)
    ensures Linked(Captured(ev, run))
    ensures Captured(ev, run) != [] ==> Captured(ev, run)[0].at >= entry.createdAt
    decreases |run|
  {
    if run != [] {
      var n := |run| - 1;
      RunPrefix(entry, ev, segmentId, run, n);
      CapturedLinked(entry, ev, segmentId, run[..n]);
      LastCaptured(ev, run[..n]);
      assert StepAt(entry, ev, segmentId, run, n);
    }
  }

  // ---- the clock ----

  /** From checkpoint `i` to `j`: same boot, later by both clocks, and no more than 600 seconds for each step. */
  lemma {:induction false} Advances(cs: seq<Checkpoint>, i: nat, j: nat)
    requires Linked(cs) && i <= j < |cs|
    ensures cs[j].bootId == cs[i].bootId && cs[i].at <= cs[j].at
    ensures (i < j ==> cs[i].mono < cs[j].mono) && cs[j].mono - cs[i].mono <= (j - i) * MaxGap
    decreases j - i
  {
    if i < j {
      Advances(cs, i, j - 1);
      assert Follows(cs[j], cs[j - 1]);
    }
  }

  /** 432 gaps of at most 600 seconds make 72 hours, so there are at least 433 checkpoints. */
  lemma EnoughCheckpoints(cs: seq<Checkpoint>)
    requires Linked(cs) && LongEnough(cs)
    ensures |cs| >= 433
  {
    Advances(cs, 0, |cs| - 1);
  }

  // ---- the audit sources ----

  ghost function AuditOf(c: Checkpoint, source: string): (a: AuditInterval)
    requires source in Sources(c)
    ensures a in c.audits && a.source == source
  {
    var i :| 0 <= i < |c.audits| && c.audits[i].source == source;
    c.audits[i]
  }

  lemma {:induction false} SourceStays(cs: seq<Checkpoint>, source: string, i: nat)
    requires Linked(cs) && i < |cs| && source in Sources(cs[0])
    ensures source in Sources(cs[i])
  {
    if i > 0 {
      SourceStays(cs, source, i - 1);
      assert Follows(cs[i], cs[i - 1]);
    }
  }

  /** The source's interval at checkpoint `i` takes up the cursor and the time of the interval before it. */
  ghost predicate TakesUp(cs: seq<Checkpoint>, source: string, i: nat)
    requires 0 < i < |cs|
  {
    && source in Sources(cs[i - 1]) && source in Sources(cs[i])
    && AuditOf(cs[i], source).fromCursor == AuditOf(cs[i - 1], source).toCursor
    && AuditOf(cs[i], source).fromMono == AuditOf(cs[i - 1], source).toMono == cs[i - 1].mono
    && AuditOf(cs[i], source).toMono == cs[i].mono
  }

  lemma AuditTakesUp(cs: seq<Checkpoint>, source: string, i: nat)
    requires Linked(cs) && 0 < i < |cs| && source in Sources(cs[0])
    ensures TakesUp(cs, source, i)
  {
    SourceStays(cs, source, i - 1);
    SourceStays(cs, source, i);
    assert Follows(cs[i], cs[i - 1]) && Audited(cs[i]) && Audited(cs[i - 1]);
    var now, was := AuditOf(cs[i], source), AuditOf(cs[i - 1], source);
    var a :| 0 <= a < |cs[i].audits| && cs[i].audits[a] == now;
    var b :| 0 <= b < |cs[i - 1].audits| && cs[i - 1].audits[b] == was;
    assert cs[i].audits[a].source == cs[i - 1].audits[b].source;
  }

  /** Every moment between the first checkpoint and checkpoint `n` lies in some later interval of the source. */
  lemma {:induction false} MomentCovered(cs: seq<Checkpoint>, source: string, n: nat, t: int) returns (i: nat)
    requires Linked(cs) && 0 < n < |cs| && source in Sources(cs[0]) && cs[0].mono <= t <= cs[n].mono
    ensures 0 < i <= n && source in Sources(cs[i])
    ensures AuditOf(cs[i], source).fromMono <= t <= AuditOf(cs[i], source).toMono
  {
    AuditTakesUp(cs, source, n);
    if t >= cs[n - 1].mono {
      i := n;
    } else {
      assert n > 1;
      i := MomentCovered(cs, source, n - 1, t);
    }
  }

  /** Time audited for the source by checkpoints 1 to `n`. */
  ghost function AuditedTime(cs: seq<Checkpoint>, source: string, n: nat): int
    requires n < |cs| && forall i :: 0 <= i <= n ==> source in Sources(cs[i])
  {
    if n == 0 then
      0 else AuditedTime(cs, source, n - 1) + (AuditOf(cs[n], source).toMono - AuditOf(cs[n], source).fromMono)
  }

  /** The intervals neither overlap nor leave a gap: their lengths add up to the time between the checkpoints. */
  lemma {:induction false} IntervalsTile(cs: seq<Checkpoint>, source: string, n: nat)
    requires Linked(cs) && n < |cs| && source in Sources(cs[0])
    ensures forall i :: 0 <= i <= n ==> source in Sources(cs[i])
    ensures AuditedTime(cs, source, n) == cs[n].mono - cs[0].mono
  {
    SourceStays(cs, source, n);
    if n > 0 {
      IntervalsTile(cs, source, n - 1);
      AuditTakesUp(cs, source, n);
    }
  }

  // ---- the whole claim ----

  ghost predicate OneBootRising(cs: seq<Checkpoint>) {
    forall i, j :: 0 <= i < j < |cs| ==> cs[i].bootId == cs[j].bootId && cs[i].mono < cs[j].mono && cs[i].at <= cs[j].at
  }

  ghost predicate NoGap(cs: seq<Checkpoint>) {
    forall i :: 0 < i < |cs| ==> cs[i].mono - cs[i - 1].mono <= MaxGap
  }

  ghost predicate SourcesTile(cs: seq<Checkpoint>) {
    cs != [] && forall source :: source in Sources(cs[0]) ==> SourceTiles(cs, source)
  }

  /** Interval takes up interval, their lengths add up to the whole time, and every moment lies in one of them. */
  ghost predicate SourceTiles(cs: seq<Checkpoint>, source: string)
    requires cs != []
  {
    var last := |cs| - 1;
    && (forall i :: 0 <= i <= last ==> source in Sources(cs[i]))
    && (forall i :: 0 < i <= last ==> TakesUp(cs, source, i))
    && AuditedTime(cs, source, last) == cs[last].mono - cs[0].mono
    && (forall t :: cs[0].mono <= t <= cs[last].mono ==> CoveredAt(cs, source, t))
  }

  /** Some interval of the source after the first contains the moment. */
  ghost predicate CoveredAt(cs: seq<Checkpoint>, source: string, t: int) {
    exists i :: 0 < i < |cs| && Contains(cs[i], source, t)
  }

  ghost predicate Contains(c: Checkpoint, source: string, t: int) {
    source in Sources(c) && AuditOf(c, source).fromMono <= t <= AuditOf(c, source).toMono
  }

  lemma SourceTilesAll(cs: seq<Checkpoint>, source: string)
    requires Linked(cs) && |cs| >= 2 && source in Sources(cs[0])
    ensures SourceTiles(cs, source)
  {
    var last := |cs| - 1;
    IntervalsTile(cs, source, last);
    forall i | 0 < i <= last ensures TakesUp(cs, source, i) {
      AuditTakesUp(cs, source, i);
    }
    forall t | cs[0].mono <= t <= cs[last].mono ensures CoveredAt(cs, source, t) {
      var i := MomentCovered(cs, source, last, t);
      assert Contains(cs[i], source, t);
    }
  }

  /**
    * A qualified interval is one boot with strictly rising checkpoints at most 600 seconds apart, at least 433 of them
    * over at least 259,200 seconds, wall and monotonic clocks within a second over the whole, and every audit source's
    * intervals running cursor to cursor and tiling the time from the first checkpoint to the last.
    */
  lemma QualifiedIsContinuous(
    entry: Entry, ev: Evidence, events: seq<Event>, segmentId: string, coverage: seq<Coverage>,
    additions: seq<Addition>, unresolved: seq<string>, s: nat)
    requires QualifiesFrom(entry, ev, events, segmentId, coverage, additions, unresolved, s)
    ensures var cs := Captured(ev, events[s..]);
            && |cs| >= 433 && OneBootRising(cs) && NoGap(cs)
            && cs[|cs| - 1].mono - cs[0].mono >= Duration
            && -MaxError <= (cs[|cs| - 1].at - cs[0].at) - (cs[|cs| - 1].mono - cs[0].mono) <= MaxError
            && cs[0].at >= entry.createdAt && SourcesTile(cs)
  {
    var cs := Captured(ev, events[s..]);
    CapturedLinked(entry, ev, segmentId, events[s..]);
    EnoughCheckpoints(cs);
    forall i, j | 0 <= i < j < |cs|
      ensures cs[i].bootId == cs[j].bootId && cs[i].mono < cs[j].mono && cs[i].at <= cs[j].at
    {
      Advances(cs, i, j);
    }
    forall i | 0 < i < |cs| ensures cs[i].mono - cs[i - 1].mono <= MaxGap {
      assert Follows(cs[i], cs[i - 1]);
    }
    forall source | source in Sources(cs[0]) ensures SourceTiles(cs, source) {
      SourceTilesAll(cs, source);
    }
  }
}
