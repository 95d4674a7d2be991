/** The logged stages of every decision, in every run. */
module JournalDecisions {
  import opened Outcomes
  import opened Clocks
  import opened Requests
  import opened Decisions
  import opened Dispatches
  import opened Transitions
  import opened TransitionFacts
  import opened DecisionOutcomes
  import opened JournalTables
  import opened JournalSpec
  import opened JournalCapacity
  import opened JournalSteps
  import opened JournalLog
  import opened JournalSafety
  import opened JournalRuns
  import opened JournalChanges

  // ---- the logged versions of one decision ----

  function DecisionHistory(events: seq<Event>, a: string): seq<Decision> {
    if events == [] then []
    else
      var e := events[|events| - 1];
      DecisionHistory(events[..|events| - 1], a)
      + (if e.DecisionEvent? && e.approvalId == a then [e.decision] else [])
  }

  /** Version `q` follows version `p`: a replacement of an invalid one, or the next stage of the same event. */
  ghost predicate Staged(p: Decision, q: Decision) {
    && q.version == p.version + 1
    && (Replaces(p, q) || exists request, o :: Decided(p, q, request, o))
  }

  ghost predicate StagedAt(h: seq<Decision>, i: nat)
    requires 0 < i < |h|
  {
    var p := h[i - 1]; Staged(p, h[i])
  }

  /** Versions without a gap, the first pending, each staged from the one before. */
  ghost predicate StagedHistory(h: seq<Decision>) {
    && (h != [] ==> h[0].phase == Pending && h[0].nativeEventId == None)
    && (forall i :: 0 <= i < |h| ==> h[i].version == i)
    && (forall i :: 0 < i < |h| ==> StagedAt(h, i))
  }

  ghost predicate StagesOf(db: Database, a: string) {
    var h := DecisionHistory(db.events, a);
    && StagedHistory(h)
    && (if a in db.decisions then h != [] && h[|h| - 1] == db.decisions[a] else h == [])
  }

  ghost predicate StagesLawful(db: Database) {
    forall a :: StagesOf(db, a)
  }

  lemma DecisionsAppend(events: seq<Event>, e: Event, a: string)
    ensures DecisionHistory(events + [e], a) ==
            DecisionHistory(events, a) + (if e.DecisionEvent? && e.approvalId == a then [e.decision] else [])
  {
    assert (events + [e])[..|events|] == events;
  }

  lemma {:induction false} DecisionsAuxiliary(events: seq<Event>, es: seq<Event>, a: string)
    requires forall e :: e in es ==> !e.DecisionEvent?
    ensures DecisionHistory(events + es, a) == DecisionHistory(events, a)
    decreases |es|
  {
    if es == [] {
      assert events + es == events;
    } else {
      var n := |es| - 1;
      assert events + es == events + es[..n] + [es[n]];
      DecisionsAuxiliary(events, es[..n], a);
      DecisionsAppend(events + es[..n], es[n], a);
    }
  }

  lemma DecisionsGrown(db: Database, d: Delta, after: Database, a: string)
    requires Grew(db, d, after) && RowShape(d.rows)
    ensures DecisionHistory(after.events, a) ==
            DecisionHistory(db.events, a)
            + (if d.rows != [] && d.rows[0].DecisionEvent? && d.rows[0].approvalId == a then [d.rows[0].decision]
               else [])
  {
    DecisionsAuxiliary(db.events, d.before, a);
    var base := db.events + d.before;
    if d.rows == [] {
      assert base + d.rows == base;
    } else {
      DecisionsAppend(base, d.rows[0], a);
      assert base + d.rows == base + [d.rows[0]] + d.rows[1..];
      DecisionsAuxiliary(base + [d.rows[0]], d.rows[1..], a);
    }
    DecisionsAuxiliary(base + d.rows, d.behind, a);
  }

  lemma StagesUntouched(db: Database, d: Delta, after: Database)
    requires StagesLawful(db) && Grew(db, d, after) && RowShape(d.rows) && after.decisions == db.decisions
    requires d.rows != [] ==> !d.rows[0].DecisionEvent?
    ensures StagesLawful(after)
  {
    forall a ensures StagesOf(after, a) {
      assert StagesOf(db, a);
      DecisionsGrown(db, d, after, a);
      assert DecisionHistory(after.events, a) == DecisionHistory(db.events, a);
    }
  }

  lemma StagedHistoryExtended(h: seq<Decision>, w: Decision)
    requires StagedHistory(h) && w.version == |h|
    requires if h == [] then w.phase == Pending && w.nativeEventId == None else Staged(h[|h| - 1], w)
    ensures StagedHistory(h + [w])
  {
    var all := h + [w];
    forall i | 0 < i < |all| ensures StagedAt(all, i) {
      assert i < |h| ==> StagedAt(h, i);
    }
  }

  /** One row of one decision logged at its next version. */
  lemma StagesExtended(db: Database, d: Delta, after: Database, a: string, w: Decision)
    requires StagesLawful(db) && Grew(db, d, after) && RowShape(d.rows)
    requires d.rows != [] && d.rows[0] == DecisionEvent(a, w.version, w)
    requires after.decisions == db.decisions[a := w]
    requires if a in db.decisions then Staged(db.decisions[a], w)
             else w.version == 0 && w.phase == Pending && w.nativeEventId == None
    ensures StagesLawful(after)
  {
    forall b ensures StagesOf(after, b) {
      assert StagesOf(db, b);
      DecisionsGrown(db, d, after, b);
      if b == a {
        StagedHistoryExtended(DecisionHistory(db.events, a), w);
      } else {
        assert DecisionHistory(after.events, b) == DecisionHistory(db.events, b);
      }
    }
  }

  // ---- every step of a run ----

  lemma DecisionsWritten(db: Database, d: Delta, after: Database, v: Decision, w: Decision)
    requires StagesLawful(db) && WritesDecision(db, d, after, v, w)
    ensures StagesLawful(after)
  {
    StagesExtended(db, d, after, v.approvalId, w);
  }

  lemma DecisionsMoved(
    db: Database, d: Delta, after: Database, a: string, v: Decision, q: Request, o: Observation, at: Clock)
    requires StagesLawful(db) && MovesDecision(db, d, after, a, v, q, o, at)
    ensures StagesLawful(after)
  {
    StagesExtended(db, d, after, a, v);
  }

  lemma ChangeStaged(db: Database, d: Delta, after: Database, change: Change)
    requires RowidsStored(db) && StagesLawful(db) && Made(db, d, after, change).Pass?
    ensures StagesLawful(after)
  {
    match change
    case Unchanged =>
    case DecisionWritten(v, w) => DecisionsWritten(db, d, after, v, w);
    case DecisionMoved(a, v, q, o, at) => DecisionsMoved(db, d, after, a, v, q, o, at);
    case _ => StagesUntouched(db, d, after);
  }

  // ---- what the stages add up to ----

  /** The stages a decision newly committed at version `i` passed, one version each, all for its own event. */
  ghost predicate Passed(h: seq<Decision>, i: nat) {
    && 3 < i < |h|
    && (forall j :: i - 3 <= j <= i ==> h[j].event == h[i].event && h[j].nativeEventId == Some(h[i].event.eventId))
    && h[i - 1].phase == PinsFinished && h[i - 2].phase == NativeClosed && h[i - 3].phase == NativeWritten
    && (|| (h[i - 4].phase == WriteIssued && h[i - 4].event == h[i].event)
        || (h[i - 4].phase == Invalid && h[i - 4].observedNativeEvent == Some(h[i].event)))
  }

  /** Before an issued write comes the pending decision of the same event. */
  ghost predicate Issued(h: seq<Decision>, i: nat) {
    0 < i < |h| && h[i - 1].phase == Pending && h[i - 1].event == h[i].event
  }

  lemma StageBefore(h: seq<Decision>, i: nat)
    requires StagedHistory(h) && i < |h|
    ensures h[i].phase != Pending && i == 0 ==> false
    ensures i > 0 ==> var p, q := h[i - 1], h[i];
                      match q.phase
                      case Pending => p.phase == Invalid
                      case Invalid => p.phase == Pending || p.phase == WriteIssued
                      case WriteIssued => p.phase == Pending && p.event == q.event
                      case NativeWritten =>
                        && q.nativeEventId == Some(q.event.eventId)
                        && (|| (p.phase == WriteIssued && p.event == q.event)
                            || (p.phase == Invalid && p.observedNativeEvent == Some(q.event)))
                      case NativeClosed =>
                        p.phase == NativeWritten && p.event == q.event && p.nativeEventId == q.nativeEventId
                      case PinsFinished =>
                        p.phase == NativeClosed && p.event == q.event && p.nativeEventId == q.nativeEventId
                      case Committed =>
                        && (p.phase == PinsFinished || p.phase == Committed)
                        && p.event == q.event && p.nativeEventId == q.nativeEventId
  {
    if i > 0 {
      assert StagedAt(h, i);
      StagedFrom(h[i - 1], h[i]);
    }
  }

  lemma StagedFrom(p: Decision, q: Decision)
    requires Staged(p, q)
    ensures Replaces(p, q) || exists request, o :: Decided(p, q, request, o)
    ensures !Replaces(p, q) ==> q.event == p.event && p.phase != Invalid
  {
    if !Replaces(p, q) {
      var request, o :| Decided(p, q, request, o);
    }
  }

  lemma HistoryPassed(h: seq<Decision>, i: nat)
    requires StagedHistory(h) && 0 < i < |h|
    ensures h[i].phase == Committed && h[i - 1].phase != Committed ==> Passed(h, i)
    ensures h[i].phase == WriteIssued ==> Issued(h, i)
    ensures h[i].phase == Committed && h[i - 1].phase == Committed ==> h[i].event == h[i - 1].event
  {
    StageBefore(h, i);
    if h[i].phase == Committed && h[i - 1].phase != Committed {
      StageBefore(h, i - 1);
      StageBefore(h, i - 2);
      StageBefore(h, i - 3);
    }
  }
}
