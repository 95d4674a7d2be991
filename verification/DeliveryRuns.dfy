/** Every delivery reducer keeps the constructor checks and only adds evidence, so every run of them does. */
module DeliveryRuns {
  import opened Outcomes
  import opened Utf8
  import opened ReceiptIds
  import opened Deliveries

  // ---- what a step may do ----

  /** Evidence about one attempt only grows. */
  ghost predicate AttemptEvolves(a: Attempt, b: Attempt) {
    && b.identity == a.identity && b.binding == a.binding
    && (a.marked ==> b.marked) && (a.contradicted ==> b.contradicted)
    && a.uncertainties <= b.uncertainties && a.rawIds <= b.rawIds
    && (a.phase.Confirmed? ==> b.phase.Confirmed? && b.messageId == a.messageId && b.accepted == a.accepted)
    && (a.phase.ProvenUnissued? ==> b.phase.ProvenUnissued? && b.proofFact == a.proofFact)
    && (a.phase.Uncertain? ==> b.phase.Uncertain? || b.phase.Confirmed?)
    && (a.phase.DispatchMarked? ==> !b.phase.Reserved?)
  }

  ghost predicate SamePlace(p: Part, q: Part) {
    q.copy == p.copy && q.owner == p.owner && q.index == p.index && q.eligibleAt == p.eligibleAt
    && q.replyTarget == p.replyTarget
  }

  ghost predicate Evolves(p: Part, q: Part) {
    && SamePlace(p, q) && (p.cancelled ==> q.cancelled) && (p.superseded ==> q.superseded)
    && |p.history| <= |q.history|
    && forall i :: 0 <= i < |p.history| ==> AttemptEvolves(p.history[i], q.history[i])
  }

  lemma EvolvesTrans(p: Part, q: Part, r: Part)
    requires Evolves(p, q) && Evolves(q, r)
    ensures Evolves(p, r)
  {
    forall i | 0 <= i < |p.history| ensures AttemptEvolves(p.history[i], r.history[i]) {
      assert AttemptEvolves(p.history[i], q.history[i]) && AttemptEvolves(q.history[i], r.history[i]);
    }
  }

  ghost predicate Kept(p: Part, q: Part) {
    ValidPart(q) && Evolves(p, q)
  }

  // ---- changing one attempt ----

  /** Replacing attempt `k` by a valid evolution of it that is still proven unissued if it must be. */
  lemma ReplaceKeeps(p: Part, k: nat, b: Attempt)
    requires ValidPart(p) && k < |p.history|
    requires ValidAttempt(b) && AttemptEvolves(p.history[k], b)
    requires k + 1 == |p.history| && p.cancelled ==> b.phase.ProvenUnissued?
    ensures Kept(p, p.(history := p.history[k := b]))
  {
    var q := p.(history := p.history[k := b]);
    forall i | 0 <= i < |q.history| ensures ValidAt(q, i) {
      assert ValidAt(p, i);
    }
    forall i | 0 <= i < |p.history| ensures AttemptEvolves(p.history[i], q.history[i]) {
      assert i != k ==> q.history[i] == p.history[i];
    }
  }

  lemma UpdateKeeps(p: Part, b: Attempt)
    requires ValidPart(p) && p.history != [] && !p.cancelled && ValidAttempt(b) && AttemptEvolves(p.Last(), b)
    ensures Kept(p, Update(p, b))
  {
    var k := |p.history| - 1;
    assert Update(p, b).history == p.history[k := b];
    ReplaceKeeps(p, k, b);
  }

  lemma LastValid(p: Part)
    requires ValidPart(p) && p.history != []
    ensures ValidAttempt(p.Last()) && p.Last().identity == p.OwnIdentity(|p.history|)
    ensures p.Last().binding == p.OwnBinding()
  {
    assert ValidAt(p, |p.history| - 1);
  }

  lemma NotedSound(kinds: seq<Uncertainty>, kind: Uncertainty)
    requires NoDuplicates(kinds)
    ensures var more := Noted(kinds, kind); kinds <= more && kind in more && NoDuplicates(more) && |more| <= 4
  {
    AtMostFour(Noted(kinds, kind));
  }

  /** Four kinds of uncertainty, so a list without duplicates has at most four. */
  lemma AtMostFour(kinds: seq<Uncertainty>)
    requires NoDuplicates(kinds)
    ensures |kinds| <= 4
  {
    var all := {WriteStarted, ResponseLost, InvalidReceipt, RecoveredDispatchMark};
    forall k | k in kinds ensures k in all {
      match k
      case WriteStarted =>
      case ResponseLost =>
      case InvalidReceipt =>
      case RecoveredDispatchMark =>
    }
    DistinctSize(kinds);
    SubsetSize((set k | k in kinds), all);
  }

  lemma MoreIdsSound(a: Attempt, r: Receipt)
    requires Bounded(Ids(Texts(a.rawIds))) == a.rawIds
    ensures var raw := MoreIds(a, r); a.rawIds <= raw && Bounded(Ids(Texts(raw))) == raw
  {
    BoundedKeepsPrefix(a.rawIds, Texts(Bounded(r.messageIds)));
    BoundedIdempotent(Ids(Texts(a.rawIds) + Texts(Bounded(r.messageIds))));
  }

  // ---- each reducer ----

  lemma ReserveKeeps(p: Part, now: Option<real>, g: Gates)
    requires ValidPart(p) && Reserve(p, now, g).Ok?
    ensures Kept(p, Reserve(p, now, g).value)
  {
    var a := NewAttempt(p);
    var q := p.(history := p.history + [a]);
    assert Reserve(p, now, g) == Ok(q);
    FreshValid(p);
    forall i | 0 <= i < |q.history| ensures ValidAt(q, i) {
      if i < |p.history| {
        assert ValidAt(p, i);
        assert q.history[i] == p.history[i];
      }
    }
  }

  lemma FreshValid(p: Part)
    ensures ValidAttempt(NewAttempt(p))
  {
    assert Texts([]) == [];
    BoundedExact([]);
  }

  lemma MarkDispatchKeeps(p: Part)
    requires ValidPart(p) && MarkDispatch(p).Ok?
    ensures Kept(p, MarkDispatch(p).value)
  {
    LastValid(p);
    UpdateKeeps(p, p.Last().(phase := DispatchMarked, marked := true));
  }

  lemma ProveUnissuedKeeps(p: Part, proof: NonDispatchProof)
    requires ValidPart(p) && ProveUnissued(p, proof).Ok?
    ensures Kept(p, ProveUnissued(p, proof).value)
  {
    LastValid(p);
    var b := p.Last().(phase := ProvenUnissued, proof := Some(proof.kind), proofFact := Some(proof));
    assert ExactFact(b, proof);
    UpdateKeeps(p, b);
  }

  lemma MarkUncertainKeeps(p: Part, kind: Uncertainty)
    requires ValidPart(p) && MarkUncertain(p, kind).Ok?
    ensures Kept(p, MarkUncertain(p, kind).value)
  {
    LastValid(p);
    NotedSound(p.Last().uncertainties, kind);
    UpdateKeeps(p,
                p.Last().(phase := Uncertain, uncertainty := Some(kind), uncertainties :=
                Noted(p.Last().uncertainties, kind)));
  }

  lemma DiagnoseSound(a: Attempt, r: Receipt)
    requires ValidAttempt(a) && (a.phase.Confirmed? || a.phase.ProvenUnissued?)
    ensures ValidAttempt(Diagnose(a, r)) && AttemptEvolves(a, Diagnose(a, r))
  {
    NotedSound(a.uncertainties, InvalidReceipt);
    MoreIdsSound(a, r);
  }

  lemma SettledSound(p: Part, a: Attempt, r: Receipt, claims: seq<ReceiptClaim>)
    requires p.index < |p.copy.nativeKeys| && p.index < |p.copy.textHashes|
    requires ValidAttempt(a) && (a.phase.DispatchMarked? || a.phase.Uncertain?)
    ensures ValidAttempt(Settled(p, a, r, claims)) && AttemptEvolves(a, Settled(p, a, r, claims))
  {
    NotedSound(a.uncertainties, InvalidReceipt);
    MoreIdsSound(a, r);
    if ReceiptMatches(p, a, r, claims) {
      assert r.messageIds.values == [r.messageIds.values[0]];
      assert ExactReceipt(Settled(p, a, r, claims), r);
    }
  }

  /** A receipt for an attempt already settled only diagnoses that attempt. */
  lemma SettledReceiptKeeps(p: Part, receipt: Receipt, claims: seq<ReceiptClaim>)
    requires ValidPart(p) && SettledMatch(p, receipt, 0) < |p.history| && AcceptReceipt(p, Some(receipt), claims).Ok?
    ensures Kept(p, AcceptReceipt(p, Some(receipt), claims).value)
  {
    var k := SettledMatch(p, receipt, 0);
    assert ValidAt(p, k);
    DiagnoseSound(p.history[k], receipt);
    ReplaceKeeps(p, k, Diagnose(p.history[k], receipt));
    Unchanged(p);
  }

  /** Any other receipt settles the last attempt. */
  lemma NewReceiptKeeps(p: Part, receipt: Receipt, claims: seq<ReceiptClaim>)
    requires ValidPart(p) && SettledMatch(p, receipt, 0) >= |p.history| && AcceptReceipt(p, Some(receipt), claims).Ok?
    ensures Kept(p, AcceptReceipt(p, Some(receipt), claims).value)
  {
    LastValid(p);
    SettledSound(p, p.Last(), receipt, claims);
    UpdateKeeps(p, Settled(p, p.Last(), receipt, claims));
  }

  lemma AcceptReceiptKeeps(p: Part, receipt: Option<Receipt>, claims: seq<ReceiptClaim>)
    requires ValidPart(p) && AcceptReceipt(p, receipt, claims).Ok?
    ensures Kept(p, AcceptReceipt(p, receipt, claims).value)
  {
    if receipt.None? {
      MarkUncertainKeeps(p, InvalidReceipt);
    } else if SettledMatch(p, receipt.value, 0) < |p.history| {
      SettledReceiptKeeps(p, receipt.value, claims);
    } else {
      NewReceiptKeeps(p, receipt.value, claims);
    }
  }

  lemma Unchanged(p: Part)
    requires ValidPart(p)
    ensures Kept(p, p)
  {
  }

  // ---- runs ----

  datatype Op =
    | DoReserve(now: Option<real>, gates: Gates)
    | DoMarkDispatch
    | DoProveUnissued(proof: NonDispatchProof)
    | DoMarkUncertain(kind: Uncertainty)
    | DoAcceptReceipt(receipt: Option<Receipt>, claims: seq<ReceiptClaim>)
    | DoCancel
    | DoSupersede

  function Apply(p: Part, op: Op): Result<Part>
    requires p.index < |p.copy.nativeKeys| && p.index < |p.copy.textHashes|
  {
    match op
    case DoReserve(now, gates) => Reserve(p, now, gates)
    case DoMarkDispatch => MarkDispatch(p)
    case DoProveUnissued(proof) => ProveUnissued(p, proof)
    case DoMarkUncertain(kind) => MarkUncertain(p, kind)
    case DoAcceptReceipt(receipt, claims) => AcceptReceipt(p, receipt, claims)
    case DoCancel => Cancel(p)
    case DoSupersede => Ok(Supersede(p))
  }

  /**
    * Each reducer, on a valid part, refuses or returns a part that passes every constructor check and has only more
    * evidence.
    */
  lemma ApplyKeeps(p: Part, op: Op)
    requires ValidPart(p) && Apply(p, op).Ok?
    ensures Kept(p, Apply(p, op).value)
  {
    match op
    case DoReserve(now, gates) => ReserveKeeps(p, now, gates);
    case DoMarkDispatch => MarkDispatchKeeps(p);
    case DoProveUnissued(proof) => ProveUnissuedKeeps(p, proof);
    case DoMarkUncertain(kind) => MarkUncertainKeeps(p, kind);
    case DoAcceptReceipt(receipt, claims) => AcceptReceiptKeeps(p, receipt, claims);
    case DoCancel => FlagsKeep(p, Cancel(p).value);
    case DoSupersede => FlagsKeep(p, Supersede(p));
  }

  lemma FlagsKeep(p: Part, q: Part)
    requires ValidPart(p) && q == p.(cancelled := q.cancelled, superseded := q.superseded)
    requires (p.cancelled ==> q.cancelled) && (p.superseded ==> q.superseded)
    requires q.cancelled && q.history != [] ==> q.Last().phase.ProvenUnissued?
    ensures Kept(p, q)
  {
    forall i | 0 <= i < |q.history| ensures ValidAt(q, i) {
      assert ValidAt(p, i);
    }
  }

  /** A refused operation leaves the part alone. */
  ghost function Run(p: Part, ops: seq<Op>): Part
    requires ValidPart(p)
    decreases |ops|
  {
    if ops == [] then p
    else if Apply(p, ops[0]).Refused? then Run(p, ops[1..])
    else
      ApplyKeeps(p, ops[0]);
      Run(Apply(p, ops[0]).value, ops[1..])
  }

  lemma {:induction false} RunKeeps(p: Part, ops: seq<Op>)
    requires ValidPart(p)
    ensures Kept(p, Run(p, ops))
    decreases |ops|
  {
    if ops == [] {
      Unchanged(p);
    } else if Apply(p, ops[0]).Refused? {
      RunKeeps(p, ops[1..]);
    } else {
      ApplyKeeps(p, ops[0]);
      var q := Apply(p, ops[0]).value;
      RunKeeps(q, ops[1..]);
      EvolvesTrans(p, q, Run(q, ops[1..]));
    }
  }

  predicate MayBeWritten(a: Attempt) {
    a.phase.DispatchMarked? || a.phase.Confirmed? || a.phase.Uncertain?
  }

  /**
    * In any reachable history every attempt but the last carries the exact positive fact that it was not dispatched,
    * so at most one attempt, the last, can have been written, and none follows a confirmed or uncertain one.
    */
  lemma HistoryOverRuns(p: Part, ops: seq<Op>)
    requires ValidPart(p)
    ensures var h := Run(p, ops).history;
            && |h| <= 3
            && (forall i :: 0 <= i < |h| - 1 ==>
                              !MayBeWritten(h[i]) && h[i].proofFact.Some? && ExactFact(h[i], h[i].proofFact.value))
            && (forall i, j :: 0 <= i < j < |h| ==> h[i].identity != h[j].identity)
  {
    RunKeeps(p, ops);
    var q := Run(p, ops);
    var h := q.history;
    forall i | 0 <= i < |h| - 1
      ensures !MayBeWritten(h[i]) && h[i].proofFact.Some? && ExactFact(h[i], h[i].proofFact.value)
    {
      assert ValidAt(q, i);
    }
    forall i, j | 0 <= i < j < |h| ensures h[i].identity != h[j].identity {
      assert ValidAt(q, i) && ValidAt(q, j);
    }
  }

  /** Over any run: a confirmation keeps its message ID and receipt, and uncertainties and retained IDs only grow. */
  lemma EvidenceOverRuns(p: Part, ops: seq<Op>, i: nat)
    requires ValidPart(p) && i < |p.history|
    ensures i < |Run(p, ops).history| && AttemptEvolves(p.history[i], Run(p, ops).history[i])
  {
    RunKeeps(p, ops);
  }

  // ---- contradictions absorb ----

  /** No further attempt, mark or cancellation. */
  ghost predicate Frozen(p: Part, q: Part) {
    && |q.history| == |p.history| && q.cancelled == p.cancelled
    && forall i :: 0 <= i < |p.history| ==> q.history[i].marked == p.history[i].marked
  }

  lemma ContradictionBlocks(p: Part, op: Op)
    requires ValidPart(p) && Contradicted(p) && (op.DoReserve? || op.DoMarkDispatch? || op.DoCancel?)
    ensures Apply(p, op).Refused?
  {
  }

  lemma StaysContradicted(p: Part, q: Part)
    requires Evolves(p, q) && Contradicted(p)
    ensures Contradicted(q)
  {
    var i :| 0 <= i < |p.history| && p.history[i].contradicted;
    assert AttemptEvolves(p.history[i], q.history[i]);
  }

  lemma UpdateFrozen(p: Part, b: Attempt)
    requires p.history != [] && b.marked == p.Last().marked
    ensures Frozen(p, Update(p, b))
  {
  }

  lemma AcceptFrozen(p: Part, receipt: Option<Receipt>, claims: seq<ReceiptClaim>)
    requires ValidPart(p) && AcceptReceipt(p, receipt, claims).Ok?
    ensures Frozen(p, AcceptReceipt(p, receipt, claims).value)
  {
    var k := if receipt.Some? then SettledMatch(p, receipt.value, 0) else |p.history|;
    if k < |p.history| {
      assert Retained(p, receipt.value, claims, k) in {p,
                                                       p.(history :=
                                                       p.history[k := Diagnose(p.history[k], receipt.value)])};
    } else if receipt.Some? {
      UpdateFrozen(p, Settled(p, p.Last(), receipt.value, claims));
    } else {
      var a := p.Last();
      UpdateFrozen(p,
                   a.(phase := Uncertain, uncertainty := Some(InvalidReceipt), uncertainties :=
                   Noted(a.uncertainties, InvalidReceipt)));
    }
  }

  lemma FrozenStep(p: Part, op: Op)
    requires ValidPart(p) && Contradicted(p) && Apply(p, op).Ok?
    ensures Frozen(p, Apply(p, op).value)
  {
    ContradictionAllows(p, op);
    match op
    case DoAcceptReceipt(receipt, claims) => AcceptFrozen(p, receipt, claims);
    case DoProveUnissued(proof) =>
      UpdateFrozen(p, p.Last().(phase := ProvenUnissued, proof := Some(proof.kind), proofFact := Some(proof)));
    case DoMarkUncertain(kind) =>
      UpdateFrozen(p,
                   p.Last().(phase := Uncertain, uncertainty := Some(kind), uncertainties :=
                   Noted(p.Last().uncertainties, kind)));
    case DoSupersede =>
  }

  lemma ContradictionAllows(p: Part, op: Op)
    requires ValidPart(p) && Contradicted(p) && Apply(p, op).Ok?
    ensures op.DoProveUnissued? || op.DoMarkUncertain? || op.DoAcceptReceipt? || op.DoSupersede?
  {
    if op.DoReserve? || op.DoMarkDispatch? || op.DoCancel? {
      ContradictionBlocks(p, op);
    }
  }

  /** Once an attempt is contradicted it stays so, and no later reducer reserves, dispatches or cancels. */
  lemma {:induction false} ContradictionAbsorbs(p: Part, ops: seq<Op>)
    requires ValidPart(p) && Contradicted(p)
    ensures Contradicted(Run(p, ops)) && Frozen(p, Run(p, ops))
    decreases |ops|
  {
    if ops != [] {
      if Apply(p, ops[0]).Refused? {
        ContradictionAbsorbs(p, ops[1..]);
      } else {
        var q := Apply(p, ops[0]).value;
        ApplyKeeps(p, ops[0]);
        FrozenStep(p, ops[0]);
        StaysContradicted(p, q);
        ContradictionAbsorbs(q, ops[1..]);
      }
    }
  }
}
