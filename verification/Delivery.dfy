/**
  * One part of a frozen copy, its bounded attempt history, and the reducers that extend it
  * (src/heterodyne/delivery.py).
  */
module Deliveries {
  import opened Outcomes
  import opened Utf8
  import opened ReceiptIds

  // ---- records ----

  datatype Phase = Reserved | DispatchMarked | Confirmed | ProvenUnissued | Uncertain
  datatype ProofKind = PrewriteRefusal | ReservedNoDispatch
  datatype Uncertainty = WriteStarted | ResponseLost | InvalidReceipt | RecoveredDispatchMark

  datatype Identity = Identity(owner: string, copyId: string, part: nat, ordinal: nat)
  datatype Binding = Binding(replyTarget: Option<Text>, sourceToken: string, epoch: string, copyDigest: string)
  datatype NonDispatchProof = NonDispatchProof(identity: Identity, kind: ProofKind, writeNotInvoked: bool,
                                               binding: Option<Binding>)
  datatype Receipt = Receipt(
    identity: Identity, account: string, group: string, nativeKey: string, textHash: string, messageIds: RawIds,
    binding: Option<Binding>)
  datatype ReceiptClaim = ReceiptClaim(messageId: Text, owner: string, copyId: string, part: nat, ordinal: Option<nat>)

  datatype Attempt = Attempt(
    identity: Identity, phase: Phase, messageId: Option<Text>, proof: Option<ProofKind>,
    uncertainty: Option<Uncertainty>,
    rawIds: seq<Text>, binding: Binding, uncertainties: seq<Uncertainty>, proofFact: Option<NonDispatchProof>,
    accepted: Option<Receipt>, marked: bool, contradicted: bool)

  /** The immutable copy: what its parts are called and hash to, and where it goes. */
  datatype Copy = Copy(
    copyId: string, nativeKeys: seq<string>, textHashes: seq<string>, reminder: bool, sourceToken: string,
    epoch: string,
    digest: string, account: string, group: string)

  datatype Part = Part(
    copy: Copy, owner: string, index: nat, eligibleAt: real, history: seq<Attempt>, cancelled: bool,
    superseded: bool, replyTarget: Option<Text>)
  {
    function OwnBinding(): Binding {
      Binding(replyTarget, copy.sourceToken, copy.epoch, copy.digest)
    }

    function Last(): Attempt
      requires history != []
    {
      history[|history| - 1]
    }

    function OwnIdentity(ordinal: nat): Identity {
      Identity(owner, copy.copyId, index, ordinal)
    }
  }

  /** Owner facts for this copy; a missing binding or parent is `None`. */
  datatype Gates = Gates(sourceCurrent: bool, trustCurrent: bool, parentConfirmed: bool, binding: Option<Binding>,
                         parent: Option<Part>)

  // ---- the constructor checks ----

  /** 64 lower-case hexadecimal digits. */
  predicate Hex64(s: Text) {
    |s| == 64 && forall i :: 0 <= i < |s| ==> 0x30 <= s[i] <= 0x39 || 0x61 <= s[i] <= 0x66
  }

  predicate ValidBinding(b: Binding) {
    b.replyTarget.Some? ==> Hex64(b.replyTarget.value)
  }

  predicate MarkSound(a: Attempt) {
    && (a.phase.DispatchMarked? || a.phase.Confirmed? || a.phase.Uncertain? ==> a.marked)
    && (a.phase.Reserved? ==> !a.marked)
  }

  /**
    * The retained non-dispatch fact names this very attempt, and a marked attempt needs the explicit prewrite
    * refusal.
    */
  predicate ExactFact(a: Attempt, fact: NonDispatchProof) {
    && fact.identity == a.identity && Some(fact.kind) == a.proof
    && (fact.binding.Some? ==> fact.binding.value == a.binding)
    && (a.marked ==> fact.kind.PrewriteRefusal? && fact.writeNotInvoked && fact.binding == Some(a.binding))
  }

  predicate ExactReceipt(a: Attempt, receipt: Receipt) {
    && receipt.identity == a.identity && receipt.binding == Some(a.binding)
    && a.messageId.Some? && receipt.messageIds == Ids([Str(a.messageId.value)])
  }

  predicate SettlementSound(a: Attempt) {
    && (a.proof.Some? ==> a.proofFact.Some? && ExactFact(a, a.proofFact.value))
    && (a.proof.None? ==> a.proofFact.None?)
    && (a.phase.Confirmed? ==> a.accepted.Some? && ExactReceipt(a, a.accepted.value))
    && (!a.phase.Confirmed? ==> a.accepted.None?)
  }

  ghost predicate DiagnosisSound(a: Attempt) {
    && |a.uncertainties| <= 4 && NoDuplicates(a.uncertainties)
    && (a.phase.Uncertain? ==> a.uncertainty.Some? && a.uncertainty.value in a.uncertainties)
    && (a.contradicted ==> InvalidReceipt in a.uncertainties)
    && ((a.phase.Reserved? || a.phase.DispatchMarked? || a.phase.ProvenUnissued?) && a.uncertainties != [] ==>
          a.contradicted)
    && Bounded(Ids(Texts(a.rawIds))) == a.rawIds
  }

  ghost predicate ValidAttempt(a: Attempt) {
    && MarkSound(a)
    && (a.phase.Confirmed? ==> a.messageId.Some? && Hex64(a.messageId.value))
    && (!a.phase.Confirmed? ==> a.messageId.None?)
    && (a.proof.Some? <==> a.phase.ProvenUnissued?)
    && SettlementSound(a)
    && (a.uncertainty.Some? <==> a.phase.Uncertain?)
    && DiagnosisSound(a)
  }

  predicate ValidCopy(c: Copy) {
    1 <= |c.nativeKeys| <= 1024 && |c.textHashes| == |c.nativeKeys|
  }

  /** Attempt `i` of the history: its own identity and binding, and positively not dispatched unless it is the last. */
  ghost predicate ValidAt(p: Part, i: nat)
    requires i < |p.history|
  {
    var a := p.history[i];
    && a.identity == p.OwnIdentity(i + 1) && a.binding == p.OwnBinding()
    && (i + 1 < |p.history| ==> a.phase.ProvenUnissued?)
    && ValidAttempt(a)
  }

  ghost predicate ValidPart(p: Part) {
    && ValidCopy(p.copy) && p.index < |p.copy.nativeKeys| && |p.history| <= 3
    && (p.history != [] ==> ValidBinding(p.OwnBinding()))
    && (forall i :: 0 <= i < |p.history| ==> ValidAt(p, i))
    && (p.cancelled && p.history != [] ==> p.Last().phase.ProvenUnissued?)
  }

  // ---- the reducers ----

  predicate Contradicted(p: Part) {
    exists i :: 0 <= i < |p.history| && p.history[i].contradicted
  }

  function EffectPolicy(p: Part): Check {
    if p.copy.reminder then Fail("unsupported-policy")
    else if Contradicted(p) then Fail("recovery-required")
    else Pass
  }

  /** Part 0 of the same copy, confirmed and in good standing, and answered to by this part. */
  predicate ParentMatches(p: Part, parent: Option<Part>) {
    && parent.Some? && parent.value.index == 0 && parent.value.copy == p.copy && parent.value.owner == p.owner
    && !parent.value.cancelled && !parent.value.superseded
    && parent.value.history != [] && parent.value.Last().phase.Confirmed? && !Contradicted(parent.value)
    && p.replyTarget == parent.value.Last().messageId
  }

  function GateBinding(p: Part, binding: Option<Binding>): Check {
    if binding.None? then Fail("source-unavailable")
    else if !ValidBinding(p.OwnBinding()) then Fail("invalid-shape")
    else if binding.value.sourceToken != p.OwnBinding().sourceToken then Fail("source-changed")
    else if binding.value.epoch != p.OwnBinding().epoch then Fail("trust-denied")
    else if binding.value.replyTarget != p.replyTarget then Fail("parent-incomplete")
    else if binding.value.copyDigest != p.OwnBinding().copyDigest then Fail("binding-conflict")
    else Pass
  }

  /** Seconds after the part became eligible that each attempt is due. */
  function Delay(ordinal: nat): real {
    if ordinal == 1 then 0.0 else if ordinal == 2 then 5.0 else 30.0
  }

  function NewAttempt(p: Part): Attempt {
    Attempt(p.OwnIdentity(|p.history| + 1), Reserved, None, None, None, [], p.OwnBinding(), [], None, None, false,
            false)
  }

  /** `now` is `None` when the clock gives no finite number. */
  function Reserve(p: Part, now: Option<real>, g: Gates): Result<Part> {
    if now.None? then Refused("clock-unready") else
    :- EffectPolicy(p);
    :- Need(!p.cancelled && !p.superseded, "source-closed");
    :- Need(g.sourceCurrent, "source-changed");
    :- Need(g.trustCurrent, "trust-denied");
    :- Need(g.parentConfirmed && (p.index > 0 ==> ParentMatches(p, g.parent)), "parent-incomplete");
    :- Need(p.history != [] ==> p.Last().phase.ProvenUnissued?, "contention");
    :- Need(|p.history| < 3, "exhausted");
    :- Need(now.value >= p.eligibleAt + Delay(|p.history| + 1), "contention");
    :- GateBinding(p, g.binding);
    Ok(p.(history := p.history + [NewAttempt(p)]))
  }

  function Update(p: Part, a: Attempt): Part
    requires p.history != []
  {
    p.(history := p.history[..|p.history| - 1] + [a])
  }

  function MarkDispatch(p: Part): Result<Part> {
    if EffectPolicy(p).Fail? then Refused(EffectPolicy(p).code) else
    :- Need(!p.cancelled && !p.superseded && p.history != [] && p.Last().phase.Reserved?, "contention");
    Ok(Update(p, p.Last().(phase := DispatchMarked, marked := true)))
  }

  function ProveUnissued(p: Part, proof: NonDispatchProof): Result<Part> {
    if p.history == [] then Refused("contention") else
    var a := p.Last();
    var prewrite := a.phase.DispatchMarked? && proof.kind.PrewriteRefusal? && proof.writeNotInvoked
                    && proof.binding == Some(a.binding);
    :- Need(proof.identity == a.identity && (a.phase.Reserved? || prewrite), "binding-conflict");
    // The constructor refuses a fact bound to another attempt.
    :- Need(proof.binding.Some? ==> proof.binding.value == a.binding, "integrity");
    Ok(Update(p, a.(phase := ProvenUnissued, proof := Some(proof.kind), proofFact := Some(proof))))
  }

  /** `dict.fromkeys((*kinds, kind))`: keep the first occurrence. */
  function Noted(kinds: seq<Uncertainty>, kind: Uncertainty): seq<Uncertainty> {
    if kind in kinds then kinds else kinds + [kind]
  }

  function MarkUncertain(p: Part, kind: Uncertainty): Result<Part> {
    if p.history == [] || !(p.Last().phase.DispatchMarked? || p.Last().phase.Uncertain?) then Refused("contention") else
    var a := p.Last();
    Ok(Update(p, a.(phase := Uncertain, uncertainty := Some(kind), uncertainties := Noted(a.uncertainties, kind))))
  }

  predicate Correlated(p: Part, a: Attempt, r: Receipt)
    requires p.index < |p.copy.nativeKeys| && p.index < |p.copy.textHashes|
  {
    && r.identity == a.identity && r.account == p.copy.account && r.group == p.copy.group
    && r.nativeKey == p.copy.nativeKeys[p.index] && r.textHash == p.copy.textHashes[p.index]
    && r.binding == Some(a.binding)
  }

  /** Correlated, with one well-formed message ID that nobody else claims. */
  predicate ReceiptMatches(p: Part, a: Attempt, r: Receipt, claims: seq<ReceiptClaim>)
    requires p.index < |p.copy.nativeKeys| && p.index < |p.copy.textHashes|
  {
    && Correlated(p, a, r)
    && r.messageIds.Ids? && |r.messageIds.values| == 1 && r.messageIds.values[0].Str?
    && Hex64(r.messageIds.values[0].text)
    && var own := ReceiptClaim(r.messageIds.values[0].text, p.owner, p.copy.copyId, p.index, Some(a.identity.ordinal));
    forall i :: 0 <= i < |claims| && claims[i].messageId == own.messageId ==> claims[i] == own
  }

  function MoreIds(a: Attempt, r: Receipt): seq<Text> {
    Bounded(Ids(Texts(a.rawIds) + Texts(Bounded(r.messageIds))))
  }

  function Diagnose(a: Attempt, r: Receipt): Attempt {
    a.(rawIds := MoreIds(a, r), uncertainties := Noted(a.uncertainties, InvalidReceipt), contradicted := true)
  }

  /** The first settled attempt, from `i` on, that the receipt names exactly. */
  function SettledMatch(p: Part, r: Receipt, i: nat): (k: nat)
    requires p.index < |p.copy.nativeKeys| && p.index < |p.copy.textHashes| && i <= |p.history|
    ensures i <= k <= |p.history|
    ensures k < |p.history| ==>
              Correlated(p, p.history[k], r) && (p.history[k].phase.Confirmed? || p.history[k].phase.ProvenUnissued?)
    ensures forall j :: i <= j < k ==>
                          !(Correlated(p, p.history[j], r)
                            && (p.history[j].phase.Confirmed? || p.history[j].phase.ProvenUnissued?))
    decreases |p.history| - i
  {
    if i == |p.history| then i
    else if Correlated(p, p.history[i], r) && (p.history[i].phase.Confirmed? || p.history[i].phase.ProvenUnissued?) then
      i
    else SettledMatch(p, r, i + 1)
  }

  /** The loop of `_retained_receipt`: the settled attempt this receipt names, if any. */
  method FindSettled(p: Part, r: Receipt) returns (k: nat)
    requires p.index < |p.copy.nativeKeys| && p.index < |p.copy.textHashes|
    ensures k == SettledMatch(p, r, 0)
  {
    k := 0;
    while k < |p.history|
      invariant k <= |p.history| && SettledMatch(p, r, 0) == SettledMatch(p, r, k)
    {
      var a := p.history[k];
      if Correlated(p, a, r) && (a.phase.Confirmed? || a.phase.ProvenUnissued?) {
        return;
      }
      k := k + 1;
    }
  }

  /** `_retained_receipt`: an exact repeat changes nothing, any other receipt for a settled attempt contradicts it. */
  function Retained(p: Part, r: Receipt, claims: seq<ReceiptClaim>, k: nat): Part
    requires p.index < |p.copy.nativeKeys| && p.index < |p.copy.textHashes| && k < |p.history|
  {
    var a := p.history[k];
    if a.phase.Confirmed? && Some(r) == a.accepted && ReceiptMatches(p, a, r, claims) then p
    else p.(history := p.history[k := Diagnose(a, r)])
  }

  /** The current attempt after a receipt: confirmed by a match, uncertain otherwise. */
  function Settled(p: Part, a: Attempt, r: Receipt, claims: seq<ReceiptClaim>): Attempt
    requires p.index < |p.copy.nativeKeys| && p.index < |p.copy.textHashes|
  {
    var raw := if Correlated(p, a, r) then MoreIds(a, r) else a.rawIds;
    if ReceiptMatches(p, a, r, claims) then
      a.(phase := Confirmed, messageId := Some(r.messageIds.values[0].text), uncertainty := None, rawIds :=
      raw, accepted := Some(r))
    else
      a.(phase := Uncertain, messageId := None, uncertainty := Some(InvalidReceipt), rawIds := raw,
      uncertainties := Noted(a.uncertainties, InvalidReceipt), accepted := None)
  }

  /** `receipt` is `None` when what arrived is not a receipt at all. */
  function AcceptReceipt(p: Part, receipt: Option<Receipt>, claims: seq<ReceiptClaim>): Result<Part>
    requires p.index < |p.copy.nativeKeys| && p.index < |p.copy.textHashes|
  {
    if p.history == [] then Refused("contention") else
    var k := if receipt.Some? then SettledMatch(p, receipt.value, 0) else |p.history|;
    if k < |p.history| then Ok(Retained(p, receipt.value, claims, k)) else
    :- Need(p.Last().phase.DispatchMarked? || p.Last().phase.Uncertain?, "contention");
    if receipt.None? then MarkUncertain(p, InvalidReceipt)
    else Ok(Update(p, Settled(p, p.Last(), receipt.value, claims)))
  }

  function Cancel(p: Part): Result<Part> {
    if Contradicted(p) then Refused("recovery-required") else
    :- Need(p.history != [] ==> p.Last().phase.ProvenUnissued?, "recovery-required");
    Ok(p.(cancelled := true))
  }

  function Supersede(p: Part): Part {
    p.(superseded := true)
  }

  // ---- status ----

  function PartStatus(p: Part): string {
    if Contradicted(p) then "uncertain-held"
    else if p.cancelled then "cancelled"
    else if p.superseded then
      if p.history != [] && (p.Last().phase.DispatchMarked? || p.Last().phase.Uncertain?) then
        "superseded-uncertain-held" else "superseded"
    else if p.history == [] then "prepared"
    else match p.Last().phase
         case DispatchMarked => "uncertain-held"
         case Uncertain => "uncertain-held"
         case ProvenUnissued => if |p.history| == 3 then "exhausted-held" else "proven_unissued"
         case Reserved => "reserved"
         case Confirmed => "confirmed"
  }

  predicate ConfirmedPart(p: Part) {
    p.history != [] && p.Last().phase.Confirmed?
  }

  /** The message IDs of the confirmed parts, in order. */
  function ConfirmedIds(ps: seq<Part>): seq<Option<Text>> {
    if ps == [] then []
    else (if ConfirmedPart(ps[0]) then [ps[0].Last().messageId] else []) + ConfirmedIds(ps[1..])
  }

  /** Exactly the parts of one copy, in order. */
  predicate OneCopy(ps: seq<Part>) {
    && ps != [] && |ps| == |ps[0].copy.nativeKeys|
    && forall i :: 0 <= i < |ps| ==> ps[i].index == i && ps[i].copy == ps[0].copy && ps[i].owner == ps[0].owner
  }

  predicate Unresolved(ps: seq<Part>)
    requires ps != []
  {
    || (exists i :: 1 <= i < |ps| && ConfirmedPart(ps[i]) && !ParentMatches(ps[i], Some(ps[0])))
    || (exists i :: 0 <= i < |ps| && Contradicted(ps[i]))
    || (exists i, j :: 0 <= i < j < |ConfirmedIds(ps)| && ConfirmedIds(ps)[i] == ConfirmedIds(ps)[j])
    || (exists i :: 0 <= i < |ps| && ps[i].history != []
                    && (ps[i].Last().phase.DispatchMarked? || ps[i].Last().phase.Uncertain?))
  }

  predicate AnySuperseded(ps: seq<Part>) {
    exists i :: 0 <= i < |ps| && ps[i].superseded
  }

  predicate AllCancelled(ps: seq<Part>) {
    forall i :: 0 <= i < |ps| ==> ps[i].cancelled
  }

  predicate AnyExhausted(ps: seq<Part>) {
    exists i :: 0 <= i < |ps| && PartStatus(ps[i]) == "exhausted-held"
  }

  predicate AllDelivered(ps: seq<Part>) {
    |ConfirmedIds(ps)| == |ps| && forall i :: 0 <= i < |ps| ==> !ps[i].cancelled
  }

  function CopyStatus(ps: seq<Part>): Result<string> {
    if ps == [] then Refused("invalid-shape") else
    :- Need(OneCopy(ps), "binding-conflict");
    Ok(
      if AnySuperseded(ps) then if Unresolved(ps) then "superseded-uncertain-held" else "superseded"
      else if Unresolved(ps) then "uncertain-held"
      else if AllCancelled(ps) then "cancelled"
      else if AnyExhausted(ps) then "exhausted-held"
      else if AllDelivered(ps) then "complete"
      else "partial-held")
  }
}
