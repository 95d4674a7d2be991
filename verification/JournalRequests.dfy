/** The logged stages of every request, the denials no request may repeat, and the admission bounds, in every run. */
module JournalRequests {
  import opened Outcomes
  import opened Clocks
  import opened Requests
  import opened Decisions
  import opened Dispatches
  import opened Transitions
  import opened TransitionFacts
  import opened RequestOutcomes
  import opened JournalTables
  import opened JournalSpec
  import opened JournalCapacity
  import opened JournalSteps
  import opened JournalLog
  import opened JournalSafety
  import opened JournalRuns
  import opened JournalChanges

  // ---- the logged versions of one request ----

  function RequestHistory(events: seq<Event>, k: CreationKey): seq<Request> {
    if events == [] then []
    else
      var e := events[|events| - 1];
      RequestHistory(events[..|events| - 1], k) + (if e.RequestEvent? && e.requestKey == k then [e.request] else [])
  }

  /** Version `q` is an admitted next version of `p`, with the denials of its session added. */
  ghost predicate Follows(p: Request, q: Request) {
    exists v, decision, dispatch, o :: FollowsAs(p, q, v, decision, dispatch, o)
  }

  ghost predicate FollowsAs(
    p: Request, q: Request, v: Request, decision: Option<Decision>, dispatch: Option<Dispatch>, o: Observation) {
    Advanced(p, v, decision, dispatch, o) && q == v.(priorDenials := q.priorDenials)
  }

  ghost predicate FollowsAt(h: seq<Request>, i: nat)
    requires 0 < i < |h|
  {
    var p := h[i - 1]; Follows(p, h[i])
  }

  ghost predicate StagedHistory(h: seq<Request>) {
    && (h != [] ==> h[0].phase == AllocationIntent)
    && (forall i :: 0 <= i < |h| ==> h[i].version == i)
    && (forall i :: 0 < i < |h| ==> FollowsAt(h, i))
  }

  ghost predicate StagesOf(db: Database, k: CreationKey) {
    var h := RequestHistory(db.events, k);
    && StagedHistory(h)
    && (if k in db.requests then h != [] && h[|h| - 1] == db.requests[k].value else h == [])
  }

  ghost predicate StagesLawful(db: Database) {
    forall k :: StagesOf(db, k)
  }

  lemma RequestsAppend(events: seq<Event>, e: Event, k: CreationKey)
    ensures RequestHistory(events + [e], k) ==
            RequestHistory(events, k) + (if e.RequestEvent? && e.requestKey == k then [e.request] else [])
  {
    assert (events + [e])[..|events|] == events;
  }

  lemma {:induction false} RequestsAuxiliary(events: seq<Event>, es: seq<Event>, k: CreationKey)
    requires forall e :: e in es ==> !e.RequestEvent?
    ensures RequestHistory(events + es, k) == RequestHistory(events, k)
    decreases |es|
  {
    if es == [] {
      assert events + es == events;
    } else {
      var n := |es| - 1;
      assert events + es == events + es[..n] + [es[n]];
      RequestsAuxiliary(events, es[..n], k);
      RequestsAppend(events + es[..n], es[n], k);
    }
  }

  lemma RequestsGrown(db: Database, d: Delta, after: Database, k: CreationKey)
    requires Grew(db, d, after) && RowShape(d.rows)
    ensures RequestHistory(after.events, k) ==
            RequestHistory(db.events, k)
            + (if d.rows != [] && d.rows[0].RequestEvent? && d.rows[0].requestKey == k then [d.rows[0].request] else [])
  {
    RequestsAuxiliary(db.events, d.before, k);
    var base := db.events + d.before;
    if d.rows == [] {
      assert base + d.rows == base;
    } else {
      RequestsAppend(base, d.rows[0], k);
      assert base + d.rows == base + [d.rows[0]] + d.rows[1..];
      RequestsAuxiliary(base + [d.rows[0]], d.rows[1..], k);
    }
    RequestsAuxiliary(base + d.rows, d.behind, k);
  }

  lemma StagesUntouched(db: Database, d: Delta, after: Database)
    requires StagesLawful(db) && Grew(db, d, after) && RowShape(d.rows) && after.requests == db.requests
    requires d.rows != [] ==> !d.rows[0].RequestEvent?
    ensures StagesLawful(after)
  {
    forall k ensures StagesOf(after, k) {
      assert StagesOf(db, k);
      RequestsGrown(db, d, after, k);
      assert RequestHistory(after.events, k) == RequestHistory(db.events, k);
    }
  }

  lemma StagedHistoryExtended(h: seq<Request>, w: Request)
    requires StagedHistory(h) && w.version == |h|
    requires if h == [] then w.phase == AllocationIntent else Follows(h[|h| - 1], w)
    ensures StagedHistory(h + [w])
  {
    var all := h + [w];
    forall i | 0 < i < |all| ensures FollowsAt(all, i) {
      assert i < |h| ==> FollowsAt(h, i);
    }
  }

  lemma StagesExtended(db: Database, d: Delta, after: Database, k: CreationKey, row: Row)
    requires StagesLawful(db) && Grew(db, d, after) && RowShape(d.rows)
    requires d.rows != [] && d.rows[0] == RequestEvent(k, row.value.version, row.value)
    requires after.requests == db.requests[k := row]
    requires if k in db.requests then Follows(db.requests[k].value, row.value)
             else row.value.version == 0 && row.value.phase == AllocationIntent
    requires k in db.requests ==> row.value.version == db.requests[k].value.version + 1
    ensures StagesLawful(after)
  {
    forall j ensures StagesOf(after, j) {
      assert StagesOf(db, j);
      RequestsGrown(db, d, after, j);
      if j == k {
        StagedHistoryExtended(RequestHistory(db.events, k), row.value);
      } else {
        assert RequestHistory(after.events, j) == RequestHistory(db.events, j);
      }
    }
  }

  lemma RequestsMoved(
    db: Database, d: Delta, after: Database, k: CreationKey, v: Request, final: Request, o: Observation, at: Clock)
    requires StagesLawful(db) && MovesRequest(db, d, after, k, v, final, o, at)
    ensures StagesLawful(after)
  {
    var decision, dispatch := Lookup(db.decisions, OrEmpty(v.approvalId)),
                              Lookup(db.dispatches, InitialKey(OrEmpty(v.approvalId)));
    assert FollowsAs(db.requests[k].value, final, v, decision, dispatch, o);
    StagesExtended(db, d, after, k, StoreRequest(db, k, final).requests[k]);
  }

  lemma RequestsAdded(db: Database, d: Delta, after: Database, v: Request)
    requires StagesLawful(db) && AddsRequest(db, d, after, v)
    ensures StagesLawful(after)
  {
    AdmittedRequest(db, v);
    StagesExtended(db, d, after, v.key, Row(v.origin.workstream, v.origin.bead, true, v));
  }

  lemma ChangeStaged(db: Database, d: Delta, after: Database, change: Change)
    requires RowidsStored(db) && StagesLawful(db) && Made(db, d, after, change).Pass?
    ensures StagesLawful(after)
  {
    match change
    case Unchanged =>
    case RequestAdded(v) => RequestsAdded(db, d, after, v);
    case RequestMoved(k, v, final, o, at) => RequestsMoved(db, d, after, k, v, final, o, at);
    case _ => StagesUntouched(db, d, after);
  }

  // ---- what the stages add up to ----

  /** The two versions are of the same revision of the same allocated request. */
  ghost predicate SameRevision(p: Request, q: Request) {
    && p.approvalId.Some? && p.approvalId == q.approvalId && p.requestRevision == q.requestRevision
    && p.intent == q.intent && p.resolved == q.resolved && p.origin == q.origin
    && p.requestedSource == q.requestedSource && p.envelope == q.envelope
  }

  ghost predicate SameAsk(p: Request, q: Request) {
    p.askBytes == q.askBytes && p.contextDigest == q.contextDigest
  }

  /** The stage a version comes from. */
  ghost predicate ComesFrom(p: Request, q: Request) {
    match q.phase
    case AllocationIntent => false
    case AllocationUnknown => p.phase == AllocationIntent || p.phase == AllocationUnknown
    case Allocated => p.phase == AllocationUnknown
    case BlockerPending =>
      || (p.phase == Allocated && SameRevision(p, q))
      || ((p.phase == AskPinned || p.phase == Sufficient) && q.requestRevision == p.requestRevision + 1
          && q.groomRevisions == p.groomRevisions + 1 <= 2 && q.askBytes == None && q.contextDigest == None)
    case Parked => p.phase == BlockerPending && SameRevision(p, q)
    case Landed => p.phase == Parked && SameRevision(p, q)
    case AskPinned => p.phase == Landed && SameRevision(p, q) && q.contextDigest.Some?
    case Sufficient => p.phase == AskPinned && SameRevision(p, q) && SameAsk(p, q)
    case Filed => p.phase == Sufficient && SameRevision(p, q) && SameAsk(p, q)
    case _ => !Over(p.phase) && q.cleanupConfirmed
  }

  /** From its allocation on a request has an approval. */
  predicate Shelled(r: Request) {
    r.phase in {Allocated, BlockerPending, Parked, Landed, AskPinned, Sufficient, Filed} ==> r.approvalId.Some?
  }

  lemma EndsFrom(p: Request, v: Request, decision: Option<Decision>, dispatch: Option<Dispatch>, o: Observation)
    requires Ends(p, v, decision, dispatch, o)
    ensures ComesFrom(p, v) && Shelled(v)
  {
  }

  lemma MovesFrom(p: Request, v: Request, decision: Option<Decision>, o: Observation)
    requires Moves(p, v, decision, o) && Shelled(p)
    ensures ComesFrom(p, v) && Shelled(v)
  {
    match p.phase
    case AllocationUnknown => AllocatesFrom(p, v, o);
    case _ =>
  }

  lemma AllocatesFrom(p: Request, v: Request, o: Observation)
    requires p.phase == AllocationUnknown && (Repairs(p, v, o) || LooksFor(p, v, o))
    ensures ComesFrom(p, v) && Shelled(v)
  {
  }

  lemma AdvancedFrom(p: Request, v: Request, decision: Option<Decision>, dispatch: Option<Dispatch>, o: Observation)
    requires Advanced(p, v, decision, dispatch, o) && Shelled(p)
    ensures ComesFrom(p, v) && Shelled(v)
  {
    if Over(v.phase) {
      EndsFrom(p, v, decision, dispatch, o);
    } else {
      MovesFrom(p, v, decision, o);
    }
  }

  /** The creation of the shell is issued in the first step and never again. */
  lemma IssuedFrom(p: Request, v: Request, decision: Option<Decision>, dispatch: Option<Dispatch>, o: Observation)
    requires Advanced(p, v, decision, dispatch, o)
    ensures p.phase == AllocationIntent <==> v.createIssued && !p.createIssued
    ensures p.createIssued ==> v.createIssued
  {
  }

  lemma FollowsFrom(p: Request, q: Request)
    requires Follows(p, q) && Shelled(p)
    ensures ComesFrom(p, q) && Shelled(q)
  {
    var v, decision, dispatch, o :| FollowsAs(p, q, v, decision, dispatch, o);
    AdvancedFrom(p, v, decision, dispatch, o);
  }

  lemma {:induction false} HistoryShelled(h: seq<Request>, i: nat)
    requires StagedHistory(h) && i < |h|
    ensures Shelled(h[i]) && (i > 0 ==> ComesFrom(h[i - 1], h[i]))
  {
    if i > 0 {
      HistoryShelled(h, i - 1);
      assert FollowsAt(h, i);
      FollowsFrom(h[i - 1], h[i]);
    }
  }

  /**
    * A filed request's last six versions: allocated or groomed, its blocker, parked, landed, its ask pinned, found
    * sufficient, filed; one revision throughout, and the ask it was filed with is the one that was pinned.
    */
  ghost predicate Filings(h: seq<Request>, i: nat) {
    && 5 < i < |h|
    && h[i - 1].phase == Sufficient && h[i - 2].phase == AskPinned && h[i - 3].phase == Landed
    && h[i - 4].phase == Parked && h[i - 5].phase == BlockerPending
    && (forall j :: i - 5 <= j < i ==> SameRevision(h[j], h[i]))
    && SameAsk(h[i - 2], h[i]) && SameAsk(h[i - 1], h[i]) && h[i].contextDigest.Some?
    && ComesFrom(h[i - 6], h[i - 5])
  }

  lemma HistoryFiles(h: seq<Request>, i: nat)
    requires StagedHistory(h) && i < |h| && h[i].phase == Filed
    ensures Filings(h, i)
  {
    HistoryShelled(h, i);
    HistoryShelled(h, i - 1);
    HistoryShelled(h, i - 2);
    HistoryShelled(h, i - 3);
    HistoryShelled(h, i - 4);
    HistoryShelled(h, i - 5);
  }

  lemma IssuesFrom(p: Request, q: Request)
    requires Follows(p, q)
    ensures q.createIssued && !p.createIssued ==> p.phase == AllocationIntent
  {
    var v, decision, dispatch, o :| FollowsAs(p, q, v, decision, dispatch, o);
    IssuedFrom(p, v, decision, dispatch, o);
  }

  lemma HistoryIssues(h: seq<Request>, i: nat)
    requires StagedHistory(h) && 0 < i < |h| && h[i].createIssued && !h[i - 1].createIssued
    ensures i == 1
  {
    assert FollowsAt(h, i);
    IssuesFrom(h[i - 1], h[i]);
    HistoryShelled(h, i - 1);
  }
}
