/** When a whole copy counts as complete, and what can still change that. */
module DeliveryStatus {
  import opened Outcomes
  import opened Utf8
  import opened ReceiptIds
  import opened Deliveries
  import opened DeliveryRuns

  ghost predicate AllConfirmed(ps: seq<Part>) {
    forall i :: 0 <= i < |ps| ==> ConfirmedPart(ps[i])
  }

  /** As many IDs as parts exactly when every part is confirmed, and then they are the parts' IDs in order. */
  lemma {:induction false} IdsOfParts(ps: seq<Part>)
    ensures |ConfirmedIds(ps)| <= |ps|
    ensures |ConfirmedIds(ps)| == |ps| <==> AllConfirmed(ps)
    ensures AllConfirmed(ps) ==> forall i :: 0 <= i < |ps| ==> ConfirmedIds(ps)[i] == ps[i].Last().messageId
    decreases |ps|
  {
    if ps != [] {
      var tail := ps[1..];
      IdsOfParts(tail);
      if AllConfirmed(ps) {
        assert forall i :: 0 <= i < |tail| ==> tail[i] == ps[i + 1];
        assert ConfirmedIds(ps) == [ps[0].Last().messageId] + ConfirmedIds(tail);
      } else if AllConfirmed(tail) {
        assert forall i :: 1 <= i < |ps| ==> ps[i] == tail[i - 1];
      }
    }
  }

  /** Part `i` is confirmed without contradiction, is still wanted, and answers part 0. */
  ghost predicate Settled(ps: seq<Part>, i: nat)
    requires i < |ps|
  {
    && ConfirmedPart(ps[i]) && !Contradicted(ps[i]) && !ps[i].superseded
    && (i > 0 && ConfirmedPart(ps[0]) ==> ps[i].replyTarget == ps[0].Last().messageId)
  }

  ghost predicate DistinctMessages(ps: seq<Part>)
    requires AllConfirmed(ps)
  {
    forall i, j :: 0 <= i < j < |ps| ==> ps[i].Last().messageId != ps[j].Last().messageId
  }

  ghost predicate Complete(ps: seq<Part>) {
    && OneCopy(ps) && (forall i :: 0 <= i < |ps| ==> Settled(ps, i))
    && AllConfirmed(ps) && DistinctMessages(ps)
  }

  ghost predicate AllValid(ps: seq<Part>) {
    forall i :: 0 <= i < |ps| ==> ValidPart(ps[i])
  }

  /** A confirmed valid part is not cancelled. */
  lemma ConfirmedStands(p: Part)
    requires ValidPart(p) && ConfirmedPart(p)
    ensures !p.cancelled && PartStatus(p) != "exhausted-held"
  {
  }

  lemma CompleteResolved(ps: seq<Part>)
    requires AllValid(ps) && Complete(ps)
    ensures !Unresolved(ps)
  {
    IdsOfParts(ps);
    assert Settled(ps, 0);
    ConfirmedStands(ps[0]);
    forall i | 1 <= i < |ps| ensures ParentMatches(ps[i], Some(ps[0])) {
      assert Settled(ps, i);
    }
    forall i | 0 <= i < |ps| ensures !Contradicted(ps[i]) {
      assert Settled(ps, i);
    }
  }

  lemma CompleteReports(ps: seq<Part>)
    requires AllValid(ps) && Complete(ps)
    ensures CopyStatus(ps) == Ok("complete")
  {
    CompleteResolved(ps);
    IdsOfParts(ps);
    forall i | 0 <= i < |ps| ensures !ps[i].superseded && !ps[i].cancelled && PartStatus(ps[i]) != "exhausted-held" {
      assert Settled(ps, i);
      ConfirmedStands(ps[i]);
    }
    assert !ps[0].cancelled;
  }

  lemma ReportsComplete(ps: seq<Part>)
    requires AllValid(ps) && CopyStatus(ps) == Ok("complete")
    ensures Complete(ps)
  {
    IdsOfParts(ps);
    assert !Unresolved(ps) && AllConfirmed(ps);
    forall i | 0 <= i < |ps| ensures Settled(ps, i) {
      if i > 0 {
        assert ParentMatches(ps[i], Some(ps[0]));
      }
    }
    forall i, j | 0 <= i < j < |ps| ensures ps[i].Last().messageId != ps[j].Last().messageId {
      assert ConfirmedIds(ps)[i] != ConfirmedIds(ps)[j];
    }
  }

  /**
    * "complete" holds exactly when all parts are confirmed, uncontradicted, unsuperseded, distinct and answer part
    * 0.
    */
  lemma CompleteExact(ps: seq<Part>)
    requires AllValid(ps)
    ensures CopyStatus(ps) == Ok("complete") <==> Complete(ps)
  {
    if Complete(ps) {
      CompleteReports(ps);
    }
    if CopyStatus(ps) == Ok("complete") {
      ReportsComplete(ps);
    }
  }

  // ---- what can follow a confirmation ----

  lemma ConfirmedAccepts(p: Part, receipt: Option<Receipt>, claims: seq<ReceiptClaim>)
    requires ValidPart(p) && ConfirmedPart(p) && AcceptReceipt(p, receipt, claims).Ok?
    ensures var q := AcceptReceipt(p, receipt, claims).value; q == p || Contradicted(q)
  {
    assert receipt.Some?;
    var k := SettledMatch(p, receipt.value, 0);
    assert k < |p.history|;
    var q := Retained(p, receipt.value, claims, k);
    if q != p {
      assert q.history[k].contradicted;
    }
  }

  /** On a confirmed part every reducer refuses, changes nothing, contradicts it or supersedes it. */
  lemma ConfirmedChanges(p: Part, op: Op)
    requires ValidPart(p) && ConfirmedPart(p) && Apply(p, op).Ok?
    ensures var q := Apply(p, op).value; q == p || Contradicted(q) || q == Supersede(p)
  {
    match op
    case DoAcceptReceipt(receipt, claims) => ConfirmedAccepts(p, receipt, claims);
    case _ =>
  }

  lemma SupersededIncomplete(ps: seq<Part>, i: nat)
    requires i < |ps| && (ps[i].superseded || Contradicted(ps[i])) && AllValid(ps)
    ensures CopyStatus(ps) != Ok("complete")
  {
    CompleteExact(ps);
    assert !Settled(ps, i);
  }

  /** A complete copy stays complete until a part is superseded or contradicted, and no longer. */
  lemma CompleteStable(ps: seq<Part>, i: nat, op: Op)
    requires AllValid(ps) && CopyStatus(ps) == Ok("complete") && i < |ps| && Apply(ps[i], op).Ok?
    ensures var q := Apply(ps[i], op).value;
            CopyStatus(ps[i := q]) == Ok("complete") <==> !q.superseded && !Contradicted(q)
  {
    CompleteExact(ps);
    assert Settled(ps, i);
    var q := Apply(ps[i], op).value;
    ConfirmedChanges(ps[i], op);
    ApplyKeeps(ps[i], op);
    var next := ps[i := q];
    if q == ps[i] {
      assert next == ps;
    } else {
      assert AllValid(next);
      SupersededIncomplete(next, i);
    }
  }
}
