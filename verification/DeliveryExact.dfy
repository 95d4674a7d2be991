/** Exactly when each delivery reducer goes through, what it changes, and what the status of a copy means. */
module DeliveryExact {
  import opened Outcomes
  import opened Utf8
  import opened ReceiptIds
  import opened Deliveries
  import opened DeliveryRuns
  import opened DeliveryStatus

  /** Neither cancelled nor superseded, and nothing contradicted. */
  ghost predicate Standing(p: Part) {
    !p.cancelled && !p.superseded && forall i :: 0 <= i < |p.history| ==> !p.history[i].contradicted
  }

  /** The part may still have an effect; reminders never may. */
  ghost predicate Live(p: Part) {
    Standing(p) && !p.copy.reminder
  }

  /** Only the last attempt changes. */
  ghost predicate LastChanged(p: Part, q: Part, b: Attempt) {
    && p.history != [] && |q.history| == |p.history| && q.Last() == b
    && (forall i :: 0 <= i < |p.history| - 1 ==> q.history[i] == p.history[i])
    && q == p.(history := q.history)
  }

  lemma UpdateChanges(p: Part, b: Attempt)
    requires p.history != []
    ensures LastChanged(p, Update(p, b), b)
  {
  }

  // ---- reservations and marks ----

  /** The part answers the confirmed message of part 0 of its copy, which still stands. */
  ghost predicate AnswersFirst(p: Part, first: Option<Part>) {
    && first.Some?
    && var f := first.value;
    && f.index == 0 && f.copy == p.copy && f.owner == p.owner && Standing(f)
    && f.history != [] && f.Last().phase == Confirmed && p.replyTarget == f.Last().messageId
  }

  /** The earliest time of the next attempt: at once, then 5 and 30 seconds after the part became eligible. */
  ghost predicate Due(p: Part, now: real) {
    && (|p.history| == 0 ==> now >= p.eligibleAt)
    && (|p.history| == 1 ==> now >= p.eligibleAt + 5.0)
    && (|p.history| == 2 ==> now >= p.eligibleAt + 30.0)
  }

  ghost predicate MayReserve(p: Part, now: Option<real>, g: Gates) {
    && Live(p) && g.sourceCurrent && g.trustCurrent && g.parentConfirmed
    && (p.index > 0 ==> AnswersFirst(p, g.parent))
    && |p.history| < 3 && (forall i :: 0 <= i < |p.history| ==> p.history[i].phase == ProvenUnissued)
    && now.Some? && Due(p, now.value)
    && g.binding == Some(Binding(p.replyTarget, p.copy.sourceToken, p.copy.epoch, p.copy.digest))
    && (p.replyTarget.Some? ==> Hex64(p.replyTarget.value))
  }

  /** A blank attempt at the next place. */
  ghost predicate Blank(p: Part, a: Attempt) {
    && a.identity == Identity(p.owner, p.copy.copyId, p.index, |p.history| + 1)
    && a.binding == Binding(p.replyTarget, p.copy.sourceToken, p.copy.epoch, p.copy.digest)
    && a.phase == Reserved && !a.marked && !a.contradicted && a.rawIds == [] && a.uncertainties == []
    && a.messageId.None? && a.proof.None? && a.uncertainty.None? && a.proofFact.None? && a.accepted.None?
  }

  /** A reservation goes through exactly when everything allows it and it is due, and appends one blank attempt. */
  lemma ReserveExact(p: Part, now: Option<real>, g: Gates)
    requires ValidPart(p)
    ensures Reserve(p, now, g).Ok? <==> MayReserve(p, now, g)
    ensures Reserve(p, now, g).Ok? ==>
              var q := Reserve(p, now, g).value;
              && |q.history| == |p.history| + 1 && q.history[..|p.history|] == p.history
              && q == p.(history := q.history) && Blank(p, q.Last())
  {
    EarlierUnissued(p);
    ParentExact(p, g.parent);
  }

  lemma EarlierUnissued(p: Part)
    requires ValidPart(p)
    ensures p.history != [] && p.Last().phase == ProvenUnissued ==>
              forall i :: 0 <= i < |p.history| ==> p.history[i].phase == ProvenUnissued
  {
    forall i | 0 <= i < |p.history| - 1 ensures p.history[i].phase == ProvenUnissued {
      assert ValidAt(p, i);
    }
  }

  lemma ParentExact(p: Part, first: Option<Part>)
    ensures ParentMatches(p, first) <==> AnswersFirst(p, first)
  {
  }

  lemma MarkDispatchExact(p: Part)
    ensures MarkDispatch(p).Ok? <==> Live(p) && p.history != [] && p.Last().phase == Reserved
    ensures MarkDispatch(p).Ok? ==>
              LastChanged(p, MarkDispatch(p).value, p.Last().(phase := DispatchMarked, marked := true))
  {
  }

  // ---- facts about an attempt ----

  /** A reserved attempt was not dispatched; a marked one needs the writer's own refusal, bound to this attempt. */
  ghost predicate MayProve(p: Part, proof: NonDispatchProof) {
    && p.history != []
    && var a := p.Last();
    && proof.identity == a.identity && (proof.binding.Some? ==> proof.binding.value == a.binding)
    && (|| a.phase == Reserved
        || (a.phase == DispatchMarked && proof.kind == PrewriteRefusal && proof.writeNotInvoked
            && proof.binding.Some?))
  }

  lemma ProveUnissuedExact(p: Part, proof: NonDispatchProof)
    ensures ProveUnissued(p, proof).Ok? <==> MayProve(p, proof)
    ensures ProveUnissued(p, proof).Ok? ==>
              LastChanged(p, ProveUnissued(p, proof).value,
                          p.Last().(phase := ProvenUnissued, proof := Some(proof.kind), proofFact := Some(proof)))
  {
  }

  /** One more kind of doubt, noted once. */
  ghost predicate NotedOnce(before: seq<Uncertainty>, after: seq<Uncertainty>, kind: Uncertainty) {
    if kind in before then after == before else after == before + [kind]
  }

  lemma MarkUncertainExact(p: Part, kind: Uncertainty)
    ensures MarkUncertain(p, kind).Ok? <==> p.history != [] && p.Last().phase in {DispatchMarked, Uncertain}
    ensures MarkUncertain(p, kind).Ok? ==>
              var q := MarkUncertain(p, kind).value;
              && q.history != [] && NotedOnce(p.Last().uncertainties, q.Last().uncertainties, kind)
              && LastChanged(p, q, p.Last().(phase := Uncertain, uncertainty := Some(kind),
                             uncertainties := q.Last().uncertainties))
  {
  }

  // ---- receipts ----

  /** Every field of the receipt agrees with the attempt and the copy. */
  ghost predicate Names(p: Part, a: Attempt, r: Receipt)
    requires p.index < |p.copy.nativeKeys| && p.index < |p.copy.textHashes|
  {
    && r.identity == a.identity && r.binding == Some(a.binding)
    && r.account == p.copy.account && r.group == p.copy.group
    && r.nativeKey == p.copy.nativeKeys[p.index] && r.textHash == p.copy.textHashes[p.index]
  }

  /** It names one message ID, and every claim to that ID is this attempt's own. */
  ghost predicate OwnsId(p: Part, a: Attempt, r: Receipt, claims: seq<ReceiptClaim>, id: Text) {
    && Hex64(id) && r.messageIds == Ids([Str(id)])
    && forall c :: c in claims && c.messageId == id ==>
                     && c.owner == p.owner && c.copyId == p.copy.copyId && c.part == p.index
                     && c.ordinal == Some(a.identity.ordinal)
  }

  ghost predicate Confirms(p: Part, a: Attempt, r: Receipt, claims: seq<ReceiptClaim>, id: Text)
    requires p.index < |p.copy.nativeKeys| && p.index < |p.copy.textHashes|
  {
    Names(p, a, r) && OwnsId(p, a, r, claims, id)
  }

  ghost predicate NamesSettled(p: Part, r: Receipt, k: nat)
    requires p.index < |p.copy.nativeKeys| && p.index < |p.copy.textHashes|
  {
    k < |p.history| && p.history[k].phase in {Confirmed, ProvenUnissued} && Names(p, p.history[k], r)
  }

  lemma MatchConfirms(p: Part, a: Attempt, r: Receipt, claims: seq<ReceiptClaim>)
    requires p.index < |p.copy.nativeKeys| && p.index < |p.copy.textHashes|
    ensures ReceiptMatches(p, a, r, claims) <==> exists id :: Confirms(p, a, r, claims, id)
    ensures forall id :: Confirms(p, a, r, claims, id) ==> id == r.messageIds.values[0].text
  {
    if ReceiptMatches(p, a, r, claims) {
      var id := r.messageIds.values[0].text;
      assert r.messageIds == Ids([Str(id)]);
      assert Confirms(p, a, r, claims, id);
    }
  }

  /** The bounded list of IDs seen so far, and those of this receipt if it names the attempt. */
  ghost predicate IdsRetained(p: Part, a: Attempt, b: Attempt, r: Receipt)
    requires p.index < |p.copy.nativeKeys| && p.index < |p.copy.textHashes|
  {
    b.rawIds == if Names(p, a, r) then Bounded(Ids(Texts(a.rawIds) + Texts(Bounded(r.messageIds)))) else a.rawIds
  }

  /** The attempt confirmed by this receipt with this identifier. */
  predicate ConfirmedAs(a: Attempt, b: Attempt, r: Receipt, id: Text) {
    b == a.(phase := Confirmed, messageId := Some(id), accepted := Some(r), uncertainty := None, rawIds := b.rawIds)
  }

  /**
    * A receipt that names no settled attempt confirms the current one exactly when it names it and owns its one ID;
    * otherwise the attempt is uncertain, with the receipt noted as invalid.
    */
  lemma ReceiptConfirms(p: Part, r: Receipt, claims: seq<ReceiptClaim>) returns (b: Attempt)
    requires ValidPart(p) && p.history != [] && p.Last().phase in {DispatchMarked, Uncertain}
    requires forall k :: !NamesSettled(p, r, k)
    ensures AcceptReceipt(p, Some(r), claims).Ok? && LastChanged(p, AcceptReceipt(p, Some(r), claims).value, b)
    ensures var a := p.Last();
            && (b.phase == Confirmed <==> exists id :: Confirms(p, a, r, claims, id))
            && (forall id :: Confirms(p, a, r, claims, id) ==> ConfirmedAs(a, b, r, id))
            && (b.phase != Confirmed ==>
                  && NotedOnce(a.uncertainties, b.uncertainties, InvalidReceipt)
                  && b == a.(phase := Uncertain, uncertainty := Some(InvalidReceipt), uncertainties := b.uncertainties,
                          rawIds := b.rawIds))
            && IdsRetained(p, a, b, r)
  {
    var a := p.Last();
    LastValid(p);
    NoneSettled(p, r, 0);
    MatchConfirms(p, a, r, claims);
    b := Deliveries.Settled(p, a, r, claims);
    UpdateChanges(p, b);
  }

  lemma {:induction false} NoneSettled(p: Part, r: Receipt, i: nat)
    requires p.index < |p.copy.nativeKeys| && p.index < |p.copy.textHashes| && i <= |p.history|
    requires forall k :: i <= k ==> !NamesSettled(p, r, k)
    ensures SettledMatch(p, r, i) == |p.history|
    decreases |p.history| - i
  {
    if i < |p.history| {
      assert !NamesSettled(p, r, i);
      NoneSettled(p, r, i + 1);
    }
  }

  lemma {:induction false} FirstSettled(p: Part, r: Receipt, i: nat, k: nat)
    requires p.index < |p.copy.nativeKeys| && p.index < |p.copy.textHashes| && i <= k
    requires NamesSettled(p, r, k) && forall j :: i <= j < k ==> !NamesSettled(p, r, j)
    ensures SettledMatch(p, r, i) == k
    decreases k - i
  {
    if i < k {
      assert !NamesSettled(p, r, i);
      FirstSettled(p, r, i + 1, k);
    }
  }

  /**
    * A receipt for a settled attempt: an exact repeat of the accepted one, its ID still unclaimed by others, changes
    * nothing; any other contradicts that attempt and leaves everything else alone.
    */
  lemma ReceiptContradicts(p: Part, r: Receipt, claims: seq<ReceiptClaim>, k: nat)
    requires ValidPart(p) && NamesSettled(p, r, k) && forall j :: 0 <= j < k ==> !NamesSettled(p, r, j)
    ensures AcceptReceipt(p, Some(r), claims).Ok?
    ensures var q, a := AcceptReceipt(p, Some(r), claims).value, p.history[k];
            if a.phase == Confirmed && a.accepted == Some(r) && exists id :: Confirms(p, a, r, claims, id) then q == p
            else
              && |q.history| == |p.history| && q == p.(history := p.history[k := q.history[k]])
              && NotedOnce(a.uncertainties, q.history[k].uncertainties, InvalidReceipt)
              && IdsRetained(p, a, q.history[k], r)
              && q.history[k] == a.(contradicted := true, uncertainties := q.history[k].uncertainties,
                                 rawIds := q.history[k].rawIds)
  {
    FirstSettled(p, r, 0, k);
    MatchConfirms(p, p.history[k], r, claims);
  }

  /** What is not a receipt at all is only noted, and nothing is accepted without a mark or a settled attempt named. */
  lemma ReceiptRefused(p: Part, receipt: Option<Receipt>, claims: seq<ReceiptClaim>)
    requires ValidPart(p)
    ensures AcceptReceipt(p, receipt, claims).Refused? <==>
            || p.history == []
            || (p.Last().phase !in {DispatchMarked, Uncertain}
                && (receipt.Some? ==> forall k :: !NamesSettled(p, receipt.value, k)))
    ensures receipt.None? && AcceptReceipt(p, receipt, claims).Ok? ==>
              AcceptReceipt(p, receipt, claims) == MarkUncertain(p, InvalidReceipt)
  {
    if receipt.Some? && p.history != [] {
      if k: nat :| NamesSettled(p, receipt.value, k) {
        SettledFound(p, receipt.value, k);
      } else {
        NoneSettled(p, receipt.value, 0);
      }
    }
  }

  lemma SettledFound(p: Part, r: Receipt, k: nat)
    requires p.index < |p.copy.nativeKeys| && p.index < |p.copy.textHashes| && NamesSettled(p, r, k)
    ensures SettledMatch(p, r, 0) <= k
  {
  }

  // ---- closing ----

  lemma CancelExact(p: Part)
    requires ValidPart(p)
    ensures Cancel(p).Ok? <==>
            && (forall i :: 0 <= i < |p.history| ==> !p.history[i].contradicted)
            && (forall i :: 0 <= i < |p.history| ==> p.history[i].phase == ProvenUnissued)
    ensures Cancel(p).Ok? ==> Cancel(p).value == p.(cancelled := true)
  {
    EarlierUnissued(p);
  }

  // ---- the status of a copy ----

  /** A part was written and its end is not known, or what is known about it is contradictory. */
  ghost predicate Open(p: Part) {
    || (p.history != [] && p.Last().phase in {DispatchMarked, Uncertain})
    || exists i :: 0 <= i < |p.history| && p.history[i].contradicted
  }

  /** Confirmed, but not in answer to a standing part 0. */
  ghost predicate Astray(ps: seq<Part>, i: nat)
    requires i < |ps|
  {
    i > 0 && ConfirmedPart(ps[i]) && !AnswersFirst(ps[i], Some(ps[0]))
  }

  ghost predicate SameMessage(ps: seq<Part>, i: nat, j: nat)
    requires i < j < |ps|
  {
    ConfirmedPart(ps[i]) && ConfirmedPart(ps[j]) && ps[i].Last().messageId == ps[j].Last().messageId
  }

  ghost predicate Doubtful(ps: seq<Part>) {
    || (exists i :: 0 <= i < |ps| && Open(ps[i]))
    || (exists i :: 0 <= i < |ps| && Astray(ps, i))
    || (exists i, j :: 0 <= i < j < |ps| && SameMessage(ps, i, j))
  }

  /** Three attempts, all positively not dispatched. */
  ghost predicate Exhausted(p: Part) {
    |p.history| == 3 && !p.cancelled && forall i :: 0 <= i < 3 ==> p.history[i].phase == ProvenUnissued
  }

  ghost predicate SomeSuperseded(ps: seq<Part>) {
    exists p :: p in ps && p.superseded
  }

  ghost predicate NoneKept(ps: seq<Part>) {
    forall p :: p in ps ==> p.cancelled
  }

  ghost predicate SomeExhausted(ps: seq<Part>) {
    exists p :: p in ps && Exhausted(p)
  }

  ghost predicate Delivered(ps: seq<Part>) {
    forall p :: p in ps ==> p.history != [] && p.Last().phase == Confirmed
  }

  /** What each status means for the parts of one copy. */
  ghost function Meaning(ps: seq<Part>): string {
    Word(SomeSuperseded(ps), Doubtful(ps), NoneKept(ps), SomeExhausted(ps), Delivered(ps))
  }

  function Word(superseded: bool, doubtful: bool, cancelled: bool, exhausted: bool, confirmed: bool): string {
    if superseded then if doubtful then "superseded-uncertain-held" else "superseded"
    else if doubtful then "uncertain-held"
    else if cancelled then "cancelled"
    else if exhausted then "exhausted-held"
    else if confirmed then "complete"
    else "partial-held"
  }

  lemma {:induction false} IdListed(ps: seq<Part>, id: Option<Text>)
    ensures id in ConfirmedIds(ps) <==>
            exists i :: 0 <= i < |ps| && ConfirmedPart(ps[i]) && ps[i].Last().messageId == id
    decreases |ps|
  {
    if ps != [] {
      var tail := ps[1..];
      IdListed(tail, id);
      assert forall i :: 0 <= i < |tail| ==> tail[i] == ps[i + 1];
      if i :| 0 <= i < |ps| && ConfirmedPart(ps[i]) && ps[i].Last().messageId == id {
        assert i > 0 ==> tail[i - 1] == ps[i];
      }
    }
  }

  lemma {:induction false} RepeatedId(ps: seq<Part>)
    ensures NoDuplicates(ConfirmedIds(ps)) <==> forall i, j :: 0 <= i < j < |ps| ==> !SameMessage(ps, i, j)
    decreases |ps|
  {
    if ps != [] {
      RepeatedId(ps[1..]);
      TailRepeats(ps);
      HeadRepeats(ps);
      if ConfirmedPart(ps[0]) {
        OneMoreId(ps[0].Last().messageId, ConfirmedIds(ps[1..]));
      } else {
        assert ConfirmedIds(ps) == ConfirmedIds(ps[1..]);
      }
    }
  }

  lemma TailRepeats(ps: seq<Part>)
    requires ps != []
    ensures (forall i, j :: 0 <= i < j < |ps[1..]| ==> !SameMessage(ps[1..], i, j)) <==>
            (forall i, j :: 1 <= i < j < |ps| ==> !SameMessage(ps, i, j))
  {
    var tail := ps[1..];
    forall i, j | 0 <= i < j < |tail| ensures SameMessage(tail, i, j) <==> SameMessage(ps, i + 1, j + 1) {
    }
    forall i, j | 1 <= i < j < |ps| ensures SameMessage(ps, i, j) <==> SameMessage(tail, i - 1, j - 1) {
    }
  }

  lemma HeadRepeats(ps: seq<Part>)
    requires ps != []
    ensures (forall j :: 1 <= j < |ps| ==> !SameMessage(ps, 0, j)) <==>
            (ConfirmedPart(ps[0]) ==> ps[0].Last().messageId !in ConfirmedIds(ps[1..]))
  {
    var tail := ps[1..];
    if ConfirmedPart(ps[0]) {
      var id := ps[0].Last().messageId;
      IdListed(tail, id);
      if id in ConfirmedIds(tail) {
        var i :| 0 <= i < |tail| && ConfirmedPart(tail[i]) && tail[i].Last().messageId == id;
        assert tail[i] == ps[i + 1];
        assert SameMessage(ps, 0, i + 1);
      } else {
        forall j | 1 <= j < |ps| ensures !SameMessage(ps, 0, j) {
          assert tail[j - 1] == ps[j];
        }
      }
    }
  }

  lemma OneMoreId(id: Option<Text>, rest: seq<Option<Text>>)
    ensures NoDuplicates([id] + rest) <==> id !in rest && NoDuplicates(rest)
  {
    var all := [id] + rest;
    assert forall i :: 0 <= i < |rest| ==> all[i + 1] == rest[i];
    if NoDuplicates(all) {
      assert forall i :: 0 <= i < |rest| ==> rest[i] == all[i + 1] != all[0];
    }
  }

  lemma UnresolvedExact(ps: seq<Part>)
    requires ps != []
    ensures Unresolved(ps) <==> Doubtful(ps)
  {
    RepeatedId(ps);
    forall i | 1 <= i < |ps| ensures Astray(ps, i) <==> ConfirmedPart(ps[i]) && !ParentMatches(ps[i], Some(ps[0])) {
      ParentExact(ps[i], Some(ps[0]));
    }
    assert forall i :: 0 <= i < |ps| ==> (Contradicted(ps[i]) ==> Open(ps[i]));
  }

  lemma ExhaustedExact(p: Part)
    requires ValidPart(p) && !p.superseded && !Open(p)
    ensures PartStatus(p) == "exhausted-held" <==> Exhausted(p)
  {
    EarlierUnissued(p);
  }

  /** The status of all the parts of one copy is what those parts mean together; anything else has none. */
  lemma StatusExact(ps: seq<Part>)
    requires AllValid(ps)
    ensures CopyStatus(ps).Ok? <==> OneCopy(ps)
    ensures OneCopy(ps) ==> CopyStatus(ps) == Ok(Meaning(ps))
  {
    if OneCopy(ps) {
      FlagsExact(ps);
      UnresolvedExact(ps);
      ExhaustedParts(ps);
      DeliveredExact(ps);
      CopyWord(ps);
    }
  }

  lemma CopyWord(ps: seq<Part>)
    requires OneCopy(ps)
    ensures CopyStatus(ps) ==
            Ok(Word(AnySuperseded(ps), Unresolved(ps), AllCancelled(ps), AnyExhausted(ps), AllDelivered(ps)))
  {
  }

  lemma FlagsExact(ps: seq<Part>)
    ensures AnySuperseded(ps) <==> SomeSuperseded(ps)
    ensures AllCancelled(ps) <==> NoneKept(ps)
  {
  }

  lemma DeliveredExact(ps: seq<Part>)
    requires AllValid(ps)
    ensures AllDelivered(ps) <==> Delivered(ps)
  {
    IdsOfParts(ps);
    forall i | 0 <= i < |ps| && ConfirmedPart(ps[i]) ensures !ps[i].cancelled {
      ConfirmedStands(ps[i]);
    }
    assert forall i :: 0 <= i < |ps| ==> ps[i] in ps;
  }

  /** Where nothing is in doubt and nothing superseded, the exhausted parts are those that used up three attempts. */
  lemma ExhaustedParts(ps: seq<Part>)
    requires AllValid(ps)
    ensures !Doubtful(ps) && !SomeSuperseded(ps) ==> (AnyExhausted(ps) <==> SomeExhausted(ps))
  {
    if !Doubtful(ps) && !SomeSuperseded(ps) {
      forall i | 0 <= i < |ps| ensures PartStatus(ps[i]) == "exhausted-held" <==> Exhausted(ps[i]) {
        assert ps[i] in ps;
        ExhaustedExact(ps[i]);
      }
    }
  }
}
