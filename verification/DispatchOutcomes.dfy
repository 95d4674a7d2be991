/** What each dispatch operation needs and leaves, said of the two records and the observation alone. */
module DispatchOutcomes {
  import opened Outcomes
  import opened Clocks
  import opened Syntax
  import opened Dispatches
  import opened Transitions
  import opened TransitionFacts

  // ---- time ----

  /** One boot, neither axis running back, the two within a second of each other, and at least so long. */
  predicate Passed(started: Clock, now: Clock, least: int) {
    && ValidClock(started) && ValidClock(now) && now.bootId == started.bootId
    && started.mono <= now.mono && started.utc <= now.utc && now.mono - started.mono >= least
    && -1_000_000_000 <= (now.utc - started.utc) - (now.mono - started.mono) <= 1_000_000_000
  }

  /** The clock was read, inside the minute the dispatch was given. */
  predicate OnTime(d: Dispatch, o: Observation) {
    o.now.Some? && Passed(d.started, o.now.value, 0) && o.now.value.mono < d.deadline
  }

  predicate Earlier(a: int, b: int, least: int) {
    least <= a && least <= b && (least == a || least == b)
  }

  // ---- steps up to the consumption of the claim ----

  /** A digest the dispatch has not presented or retired as either kind of nonce. */
  predicate Unused(d: Dispatch, n: string) {
    DigestSyntax(n) && n != d.startupHash && n !in d.retiredStartups && n !in d.retiredNonces
  }

  /** Ready: a new claim nonce, good for five seconds and not past the deadline. */
  predicate Readies(d: Dispatch, e: Dispatch, o: Observation) {
    && d.kind == Initial && d.state == Preparing && !d.claimConsumed
    && OnTime(d, o) && o.now.value.mono < d.preparationDeadline
    && e.claimHash.Some? && Unused(d, e.claimHash.value)
    && e.claimDeadline.Some? && Earlier(o.now.value.mono + 5_000_000_000, d.deadline, e.claimDeadline.value)
    && e == d.(version := d.version + 1, state := Ready, claimHash := e.claimHash, claimDeadline := e.claimDeadline)
  }

  /** Consumed: once, by the nonce of the readiness, before both deadlines. */
  predicate Consumes(d: Dispatch, e: Dispatch, o: Observation) {
    && d.kind == Initial && d.state == Ready && !d.claimConsumed
    && OnTime(d, o) && d.claimDeadline.Some? && o.now.value.mono < d.claimDeadline.value
    && d.claimHash.Some? && d.claimHash.value !in d.retiredNonces
    && e == d.(version := d.version + 1, state := Executing, claimConsumed := true)
  }

  /** Restarted: at most three launches, each with a new startup nonce and a new half minute within the deadline. */
  predicate Restarts(d: Dispatch, e: Dispatch, o: Observation) {
    && d.kind == Initial && d.state == Held && !d.claimConsumed && d.launchAttempts < 3
    && OnTime(d, o) && Unused(d, e.startupHash)
    && Earlier(o.now.value.mono + 30_000_000_000, d.deadline, e.preparationDeadline)
    && e == d.(version := d.version + 1, state := Preparing, startupHash := e.startupHash, retiredStartups :=
            d.retiredStartups + [d.startupHash], preparationDeadline := e.preparationDeadline,
            launchAttempts := d.launchAttempts + 1)
  }

  /** The launcher of exactly this attempt and nonce is gone, and left no child process. */
  predicate LauncherGone(d: Dispatch, o: Observation) {
    && o.launcherReadback.Some?
    && var r := o.launcherReadback.value;
    && r.approvalId == d.approvalId && r.attemptId == d.attemptId && r.startupHash == d.startupHash
    && r.expectedVersion == d.version && r.launcherExited && r.noChildren
  }

  predicate Fails(d: Dispatch, e: Dispatch, o: Observation) {
    && d.state == Preparing && !d.claimConsumed && LauncherGone(d, o)
    && e == d.(version := d.version + 1, state := Held, cleanupProven := true)
  }

  predicate Retires(d: Dispatch, e: Dispatch, o: Observation) {
    && d.state == Ready && !d.claimConsumed && d.claimHash.Some? && LauncherGone(d, o)
    && e == d.(version := d.version + 1, state := Held, claimHash := None, claimDeadline := None,
            retiredNonces := d.retiredNonces + [d.claimHash.value])
  }

  predicate Doubts(d: Dispatch, e: Dispatch) {
    (d.state == Ready || d.state == Executing) && !d.settled && e == d.(version := d.version + 1, state := Uncertain)
  }

  // ---- outcomes ----

  /**
    * An outcome read with its evidence: success and absence count only when proved, and only success settles.
    */
  predicate Reads(e: Dispatch, effect: Effect, proved: bool) {
    && e.state in {Succeeded, Failed, Uncertain}
    && (e.state == Succeeded <==> effect == EffectSucceeded && proved)
    && (e.state == Failed <==> effect == EffectAbsent && proved)
    && (e.settled <==> e.state == Succeeded)
  }

  /** The worker's own report, bound to the claim it consumed. */
  predicate Reports(d: Dispatch, e: Dispatch, o: Observation) {
    && o.dispatchReadback.Some?
    && var r := o.dispatchReadback.value;
    && r.approvalId == d.approvalId && r.revision == d.revision && r.digest == d.digest && r.target == d.target
    && r.attemptId == d.attemptId && d.claimHash == Some(r.claimHash) && r.expectedVersion == d.version
    && d.claimConsumed && (d.state == Executing || d.state == Uncertain) && !d.settled
    && (r.evidence.Some? ==> DigestSyntax(r.evidence.value)) && (d.evidence.Some? ==> r.evidence == d.evidence)
    && Reads(e, r.effect, r.evidence.Some? && r.cleanupProven)
    && e == d.(version := d.version + 1, state := e.state, settled := e.settled, evidence := r.evidence,
            cleanupProven := r.cleanupProven)
  }

  /** A settled, clean reconciliation child of exactly this dispatch, not read before. */
  predicate Unread(d: Dispatch, c: Dispatch) {
    && c.kind == Reconcile && c.settled && c.cleanupProven && c.reconciliationEffect.Some?
    && c.parentAttemptId == Some(d.attemptId) && c.attemptId !in d.reconciliationAttempts
    && c.approvalId == d.approvalId && c.revision == d.revision && c.digest == d.digest && c.target == d.target
    && c.resource == d.resource
  }

  /** The reading of an unclaimed effect, or of a dispatch already known to have failed, counts but decides nothing. */
  predicate Undecided(d: Dispatch, effect: Effect) {
    d.state == Failed || (effect == EffectSucceeded && !d.claimConsumed)
  }

  /** What a due reading of a child leaves. */
  predicate Read(d: Dispatch, e: Dispatch, c: Dispatch)
    requires c.reconciliationEffect.Some?
  {
    var effect := c.reconciliationEffect.value;
    && !(d.state == Failed && effect == EffectSucceeded && d.claimConsumed)
    && (if Undecided(d, effect) then
          e.state == d.state && !e.settled && e.evidence == d.evidence && e.cleanupProven == d.cleanupProven
        else
          && Reads(e, effect, c.reconciliationCleanupProven && c.evidence.Some? && DigestSyntax(c.evidence.value))
          && e.evidence == c.evidence && e.cleanupProven == c.reconciliationCleanupProven)
  }

  /** The child is counted and listed, and nothing but the outcome's fields may change. */
  predicate Appended(d: Dispatch, e: Dispatch, c: Dispatch) {
    e == d.(version := d.version + 1, reconciliationLookups := d.reconciliationLookups + 1,
    reconciliationAttempts := d.reconciliationAttempts + [c.attemptId], state := e.state,
    settled := e.settled, evidence := e.evidence, cleanupProven := e.cleanupProven)
  }

  /** What a reconciliation child found, at the first, second or third lookup, each after its wait. */
  predicate LooksUp(d: Dispatch, e: Dispatch, o: Observation, child: Option<Dispatch>) {
    && child.Some? && o.now.Some? && o.reconciliationStarted.Some?
    && var c := child.value;
    && Unread(d, c)
    && d.kind == Initial && (d.state == Uncertain || d.state == Failed) && !d.settled
    && d.reconciliationLookups < 3
    && Passed(o.reconciliationStarted.value, o.now.value,
              if d.reconciliationLookups == 0 then 1_000_000_000
              else if d.reconciliationLookups == 1 then 5_000_000_000 else 30_000_000_000)
    && Read(d, e, c) && Appended(d, e, c)
  }

  /** A read-only child ends with what it found. */
  predicate Ends(d: Dispatch, e: Dispatch, o: Observation) {
    && o.reconciliationReadback.Some?
    && var r := o.reconciliationReadback.value;
    && d.kind == Reconcile && d.state == Preparing && !d.settled && !d.claimConsumed && d.claimHash == None
    && r.approvalId == d.approvalId && r.revision == d.revision && r.digest == d.digest && r.target == d.target
    && r.attemptId == d.attemptId && d.parentAttemptId == Some(r.parentAttemptId) && r.expectedVersion == d.version
    && r.readOnly && r.invocationFinished && r.cleanupProven && DigestSyntax(r.evidence)
    && e == d.(version := d.version + 1, state := Failed, settled := true, cleanupProven := true,
            evidence := Some(r.evidence), reconciliationEffect := Some(r.effect),
            reconciliationCleanupProven := r.effectCleanupProven)
  }

  /** One to three settled and clean readings of different children of an initial dispatch. */
  predicate ReadingsListed(d: Dispatch, facts: seq<ReconciliationDisposition>) {
    && d.kind == Initial && 1 <= |facts| <= 3
    && (forall i, j :: 0 <= i < j < |facts| ==> facts[i].attemptId != facts[j].attemptId)
    && (forall i :: 0 <= i < |facts| ==> facts[i].settled && facts[i].cleanupProven)
  }

  /** Each of the three listed readings is among the three completed attempts. */
  predicate AllCompleted(facts: seq<ReconciliationDisposition>, completed: seq<string>) {
    && |facts| == 3 && |completed| == 3
    && (forall i :: 0 <= i < 3 ==> facts[i].attemptId in completed)
  }

  predicate SuccessListed(facts: seq<ReconciliationDisposition>) {
    exists i :: 0 <= i < |facts| && facts[i].effect == Some(EffectSucceeded)
  }

  /** A reading of success that could not be applied: the dispatch had failed, or had consumed no claim. */
  predicate Contradicted(d: Dispatch, facts: seq<ReconciliationDisposition>) {
    && (d.state == Failed || !d.claimConsumed)
    && exists i :: 0 <= i < |facts| && facts[i].effect == Some(EffectSucceeded) && !facts[i].applied
  }

  /** The clock jumped since its anchor, or since the start when none is named. */
  predicate ClockBroken(d: Dispatch, r: DispatchRecovery) {
    && r.clockDiscontinuity && r.observedNow.Some?
    && !Passed(if r.clockAnchor.Some? then r.clockAnchor.value else d.started, r.observedNow.value, 0)
  }

  /** An operator may settle a held dispatch, after three lookups, on contradicting readings, or on a broken clock. */
  predicate MaySettle(d: Dispatch, r: DispatchRecovery) {
    || (d.state == Held && !d.claimConsumed)
    || d.reconciliationLookups == 3
    || (ReadingsListed(d, r.observedReconciliations)
        && AllCompleted(r.observedReconciliations, r.completedReconciliationAttempts))
    || (ReadingsListed(d, r.observedReconciliations) && Contradicted(d, r.observedReconciliations))
    || ClockBroken(d, r)
  }

  /** The operator's attested outcome: succeeded or definitively absent, never both, with its evidence and event. */
  predicate Settles(d: Dispatch, e: Dispatch, o: Observation) {
    && o.dispatchRecovery.Some?
    && var r := o.dispatchRecovery.value;
    && (d.state == Held || d.state == Uncertain || d.state == Failed) && !d.settled && MaySettle(d, r)
    && (r.clockDiscontinuity && r.observedNow.Some? ==> ValidClock(r.observedNow.value))
    && r.approvalId == d.approvalId && r.revision == d.revision && r.digest == d.digest && r.target == d.target
    && r.attemptId == d.attemptId && r.expectedVersion == d.version
    && r.authenticatedCurrent && r.exactRepairScope && r.nativeReadback && r.cleanupProven
    && (r.effectAttestedSucceeded <==> !r.effectDefinitivelyAbsent)
    && (r.effectAttestedSucceeded ==> d.claimConsumed)
    && (r.effectDefinitivelyAbsent ==> !SuccessListed(r.observedReconciliations))
    && DigestSyntax(r.evidence) && SafeLabel(r.operatorEvent)
    && (e.state == Succeeded <==> r.effectAttestedSucceeded) && (e.state == Failed <==> r.effectDefinitivelyAbsent)
    && e == d.(version := d.version + 1, state := e.state, settled := true, cleanupProven := true,
            evidence := Some(r.evidence), recoveryOperatorEvent := Some(r.operatorEvent))
  }

  /** The next version of a dispatch and what admits it. */
  predicate Justified(d: Dispatch, e: Dispatch, o: Observation, child: Option<Dispatch>) {
    && o.dispatchOperation.Some?
    && match o.dispatchOperation.value
       case OpReady => Readies(d, e, o)
       case OpConsumeClaim => Consumes(d, e, o)
       case OpRestartPreparation => Restarts(d, e, o)
       case OpPreparationFailed => Fails(d, e, o)
       case OpRetireUnconsumed => Retires(d, e, o)
       case OpUncertain => Doubts(d, e)
       case OpReport => Reports(d, e, o)
       case OpLookup => LooksUp(d, e, o, child)
       case OpFinishReconciliation => Ends(d, e, o)
       case OpSettle => Settles(d, e, o)
  }

  // ---- each operation, both ways ----

  lemma ElapsedExact(started: Clock, now: Clock, seconds: nat)
    ensures ClockElapsed(started, now).Ok? <==> Passed(started, now, 0)
    ensures ClockElapsed(started, now).Ok? ==>
              (ClockElapsed(started, now).value >= seconds <==> Passed(started, now, seconds * 1_000_000_000))
  {
  }

  lemma ReadyExact(d: Dispatch, e: Dispatch, o: Observation, child: Option<Dispatch>)
    requires o.dispatchOperation == Some(OpReady)
    ensures DispatchCandidate(d, e, o, child) == Ok(e) <==> Readies(d, e, o)
  {
    if o.now.Some? {
      ElapsedExact(d.started, o.now.value, 0);
    }
  }

  lemma ConsumeExact(d: Dispatch, e: Dispatch, o: Observation, child: Option<Dispatch>)
    requires o.dispatchOperation == Some(OpConsumeClaim)
    ensures DispatchCandidate(d, e, o, child) == Ok(e) <==> Consumes(d, e, o)
  {
    if o.now.Some? {
      ElapsedExact(d.started, o.now.value, 0);
    }
  }

  lemma RestartExact(d: Dispatch, e: Dispatch, o: Observation, child: Option<Dispatch>)
    requires o.dispatchOperation == Some(OpRestartPreparation)
    ensures DispatchCandidate(d, e, o, child) == Ok(e) <==> Restarts(d, e, o)
  {
    if o.now.Some? {
      ElapsedExact(d.started, o.now.value, 0);
    }
  }

  lemma FailExact(d: Dispatch, e: Dispatch, o: Observation, child: Option<Dispatch>)
    requires o.dispatchOperation == Some(OpPreparationFailed)
    ensures DispatchCandidate(d, e, o, child) == Ok(e) <==> Fails(d, e, o)
  {
  }

  lemma RetireExact(d: Dispatch, e: Dispatch, o: Observation, child: Option<Dispatch>)
    requires o.dispatchOperation == Some(OpRetireUnconsumed)
    ensures DispatchCandidate(d, e, o, child) == Ok(e) <==> Retires(d, e, o)
  {
  }

  lemma UncertainExact(d: Dispatch, e: Dispatch, o: Observation, child: Option<Dispatch>)
    requires o.dispatchOperation == Some(OpUncertain)
    ensures DispatchCandidate(d, e, o, child) == Ok(e) && e != d <==> Doubts(d, e)
  {
  }

  lemma ReportExact(d: Dispatch, e: Dispatch, o: Observation, child: Option<Dispatch>)
    requires o.dispatchOperation == Some(OpReport)
    ensures DispatchCandidate(d, e, o, child) == Ok(e) && e != d <==> Reports(d, e, o)
  {
  }

  lemma FinishExact(d: Dispatch, e: Dispatch, o: Observation, child: Option<Dispatch>)
    requires o.dispatchOperation == Some(OpFinishReconciliation)
    ensures DispatchCandidate(d, e, o, child) == Ok(e) <==> Ends(d, e, o)
  {
  }

  predicate Counted(d: Dispatch, e: Dispatch) {
    e == d.(version := d.version + 1, reconciliationLookups := d.reconciliationLookups + 1, state := e.state,
    settled := e.settled, evidence := e.evidence, cleanupProven := e.cleanupProven)
  }

  /** What a due reading of a child leaves, before the journal lists the child. */
  lemma ReadExact(d: Dispatch, e: Dispatch, c: Dispatch, elapsed: int)
    requires c.reconciliationEffect.Some? && d.kind == Initial && (d.state == Uncertain || d.state == Failed)
    requires !d.settled && d.reconciliationLookups < 3 && elapsed >= Backoff(d.reconciliationLookups)
    ensures var r := ReconcileLookup(d, elapsed, c.reconciliationEffect.value, c.reconciliationCleanupProven,
                                     c.evidence);
            r == Ok(e) <==> Read(d, e, c) && Counted(d, e)
  {
  }

  /** Everything a lookup needs before its reading counts. */
  predicate LookupDue(d: Dispatch, o: Observation, child: Option<Dispatch>) {
    && child.Some? && o.now.Some? && o.reconciliationStarted.Some? && Unread(d, child.value)
    && d.kind == Initial && (d.state == Uncertain || d.state == Failed) && !d.settled
    && d.reconciliationLookups < 3
    && ClockElapsed(o.reconciliationStarted.value, o.now.value).Ok?
    && ClockElapsed(o.reconciliationStarted.value, o.now.value).value >= Backoff(d.reconciliationLookups)
  }

  lemma DueExact(d: Dispatch, e: Dispatch, o: Observation, child: Option<Dispatch>)
    ensures LooksUp(d, e, o, child) <==>
            LookupDue(d, o, child) && Read(d, e, child.value) && Appended(d, e, child.value)
  {
    if o.now.Some? && o.reconciliationStarted.Some? && d.reconciliationLookups < 3 {
      ElapsedExact(o.reconciliationStarted.value, o.now.value, Backoff(d.reconciliationLookups));
    }
  }

  lemma AppendedExact(d: Dispatch, e: Dispatch, c: Dispatch)
    requires c.reconciliationEffect.Some? && e.reconciliationAttempts == d.reconciliationAttempts
    ensures var f := WithLookup(d, e, Some(c));
            Read(d, f, c) && Appended(d, f, c) <==> Read(d, e, c) && Counted(d, e)
  {
  }

  lemma LookupNeedsDue(d: Dispatch, e: Dispatch, o: Observation, child: Option<Dispatch>)
    requires o.dispatchOperation == Some(OpLookup)
    ensures DispatchCandidate(d, e, o, child).Ok? ==> LookupDue(d, o, child)
    ensures LookupDue(d, o, child) ==>
              DispatchCandidate(d, e, o, child) ==
              ReconcileLookup(d, ClockElapsed(o.reconciliationStarted.value, o.now.value).value,
                              child.value.reconciliationEffect.value, child.value.reconciliationCleanupProven,
                              child.value.evidence)
  {
  }

  lemma LookupExact(d: Dispatch, e: Dispatch, o: Observation, child: Option<Dispatch>)
    requires o.dispatchOperation == Some(OpLookup) && e.reconciliationAttempts == d.reconciliationAttempts
    ensures DispatchCandidate(d, e, o, child) == Ok(e) <==> LooksUp(d, WithLookup(d, e, child), o, child)
  {
    LookupNeedsDue(d, e, o, child);
    DueExact(d, WithLookup(d, e, child), o, child);
    if LookupDue(d, o, child) {
      ReadExact(d, e, child.value, ClockElapsed(o.reconciliationStarted.value, o.now.value).value);
      AppendedExact(d, e, child.value);
    }
  }

  // ---- the operator's settlement ----

  lemma ListedExact(d: Dispatch, facts: seq<ReconciliationDisposition>)
    ensures FactsBound(d, facts) <==> ReadingsListed(d, facts)
  {
    assert forall i :: 0 <= i < |facts| ==> facts[i] in facts;
  }

  /** Three different identifiers, all among three, are those three. */
  lemma ThreeAreThree(ids: seq<string>, completed: seq<string>)
    requires |ids| == 3 && ids[0] != ids[1] && ids[0] != ids[2] && ids[1] != ids[2]
    ensures multiset(ids) == multiset(completed) <==>
            |completed| == 3 && ids[0] in completed && ids[1] in completed && ids[2] in completed
  {
    assert ids == [ids[0], ids[1], ids[2]];
    if multiset(ids) == multiset(completed) {
      assert |multiset(completed)| == |multiset(ids)| == 3;
      assert ids[0] in multiset(completed) && ids[1] in multiset(completed) && ids[2] in multiset(completed);
    }
    if |completed| == 3 && ids[0] in completed && ids[1] in completed && ids[2] in completed {
      assert completed == [completed[0], completed[1], completed[2]];
    }
  }

  lemma CompletedExact(d: Dispatch, facts: seq<ReconciliationDisposition>, completed: seq<string>)
    requires ReadingsListed(d, facts)
    ensures |facts| == 3 && multiset(AttemptIds(facts)) == multiset(completed) <==> AllCompleted(facts, completed)
  {
    if |facts| == 3 {
      ThreeAreThree(AttemptIds(facts), completed);
    }
  }

  lemma SuccessExact(facts: seq<ReconciliationDisposition>)
    ensures (exists f :: f in facts && f.effect == Some(EffectSucceeded)) <==> SuccessListed(facts)
  {
    if f :| f in facts && f.effect == Some(EffectSucceeded) {
      var i :| 0 <= i < |facts| && facts[i] == f;
    }
    assert forall i :: 0 <= i < |facts| ==> facts[i] in facts;
  }

  lemma ContradictedExact(d: Dispatch, facts: seq<ReconciliationDisposition>)
    ensures (exists f :: f in facts && !f.applied && f.effect == Some(EffectSucceeded)
                         && (d.state == Failed || !d.claimConsumed)) <==> Contradicted(d, facts)
  {
    if f :| f in facts && !f.applied && f.effect == Some(EffectSucceeded) && (d.state == Failed || !d.claimConsumed) {
      var i :| 0 <= i < |facts| && facts[i] == f;
    }
    assert forall i :: 0 <= i < |facts| ==> facts[i] in facts;
  }

  lemma BrokenExact(d: Dispatch, r: DispatchRecovery)
    ensures (r.clockDiscontinuity && r.observedNow.Some?
             && !Continuous(if r.clockAnchor.Some? then r.clockAnchor.value else d.started, r.observedNow.value)) <==>
            ClockBroken(d, r)
  {
    if r.observedNow.Some? {
      ElapsedExact(if r.clockAnchor.Some? then r.clockAnchor.value else d.started, r.observedNow.value, 0);
    }
  }

  lemma GroundExact(d: Dispatch, r: DispatchRecovery)
    ensures !((d.claimConsumed || d.state != Held) && d.reconciliationLookups != 3 && !RecoveryGround(d, r)) <==>
            MaySettle(d, r)
  {
    var facts := r.observedReconciliations;
    ListedExact(d, facts);
    if ReadingsListed(d, facts) {
      CompletedExact(d, facts, r.completedReconciliationAttempts);
    }
    ContradictedExact(d, facts);
    BrokenExact(d, r);
  }

  lemma SettleExact(d: Dispatch, e: Dispatch, o: Observation, child: Option<Dispatch>)
    requires o.dispatchOperation == Some(OpSettle)
    ensures DispatchCandidate(d, e, o, child) == Ok(e) <==> Settles(d, e, o)
  {
    if o.dispatchRecovery.Some? {
      GroundExact(d, o.dispatchRecovery.value);
      SuccessExact(o.dispatchRecovery.value.observedReconciliations);
    }
  }

  lemma ReadyJustified(d: Dispatch, e: Dispatch, o: Observation, child: Option<Dispatch>)
    requires o.dispatchOperation == Some(OpReady)
    requires e.reconciliationAttempts == d.reconciliationAttempts
    ensures DispatchCandidate(d, e, o, child) == Ok(e) && e != d <==> Justified(d, WithLookup(d, e, child), o, child)
  {
    ReadyExact(d, e, o, child);
  }

  lemma ConsumeJustified(d: Dispatch, e: Dispatch, o: Observation, child: Option<Dispatch>)
    requires o.dispatchOperation == Some(OpConsumeClaim)
    requires e.reconciliationAttempts == d.reconciliationAttempts
    ensures DispatchCandidate(d, e, o, child) == Ok(e) && e != d <==> Justified(d, WithLookup(d, e, child), o, child)
  {
    ConsumeExact(d, e, o, child);
  }

  lemma RestartJustified(d: Dispatch, e: Dispatch, o: Observation, child: Option<Dispatch>)
    requires o.dispatchOperation == Some(OpRestartPreparation)
    requires e.reconciliationAttempts == d.reconciliationAttempts
    ensures DispatchCandidate(d, e, o, child) == Ok(e) && e != d <==> Justified(d, WithLookup(d, e, child), o, child)
  {
    RestartExact(d, e, o, child);
  }

  lemma UncertainJustified(d: Dispatch, e: Dispatch, o: Observation, child: Option<Dispatch>)
    requires o.dispatchOperation == Some(OpUncertain)
    requires e.reconciliationAttempts == d.reconciliationAttempts
    ensures DispatchCandidate(d, e, o, child) == Ok(e) && e != d <==> Justified(d, WithLookup(d, e, child), o, child)
  {
    UncertainExact(d, e, o, child);
  }

  lemma ReportJustified(d: Dispatch, e: Dispatch, o: Observation, child: Option<Dispatch>)
    requires o.dispatchOperation == Some(OpReport)
    requires e.reconciliationAttempts == d.reconciliationAttempts
    ensures DispatchCandidate(d, e, o, child) == Ok(e) && e != d <==> Justified(d, WithLookup(d, e, child), o, child)
  {
    ReportExact(d, e, o, child);
  }

  lemma FinishJustified(d: Dispatch, e: Dispatch, o: Observation, child: Option<Dispatch>)
    requires o.dispatchOperation == Some(OpFinishReconciliation)
    requires e.reconciliationAttempts == d.reconciliationAttempts
    ensures DispatchCandidate(d, e, o, child) == Ok(e) && e != d <==> Justified(d, WithLookup(d, e, child), o, child)
  {
    FinishExact(d, e, o, child);
  }

  lemma LookupJustified(d: Dispatch, e: Dispatch, o: Observation, child: Option<Dispatch>)
    requires o.dispatchOperation == Some(OpLookup)
    requires e.reconciliationAttempts == d.reconciliationAttempts
    ensures DispatchCandidate(d, e, o, child) == Ok(e) && e != d <==> Justified(d, WithLookup(d, e, child), o, child)
  {
    LookupExact(d, e, o, child);
  }

  lemma SettleJustified(d: Dispatch, e: Dispatch, o: Observation, child: Option<Dispatch>)
    requires o.dispatchOperation == Some(OpSettle)
    requires e.reconciliationAttempts == d.reconciliationAttempts
    ensures DispatchCandidate(d, e, o, child) == Ok(e) && e != d <==> Justified(d, WithLookup(d, e, child), o, child)
  {
    SettleExact(d, e, o, child);
  }

  lemma FailJustified(d: Dispatch, e: Dispatch, o: Observation, child: Option<Dispatch>)
    requires o.dispatchOperation == Some(OpPreparationFailed)
    requires e.reconciliationAttempts == d.reconciliationAttempts
    ensures DispatchCandidate(d, e, o, child) == Ok(e) && e != d <==> Justified(d, WithLookup(d, e, child), o, child)
  {
    FailExact(d, e, o, child);
  }

  lemma RetireJustified(d: Dispatch, e: Dispatch, o: Observation, child: Option<Dispatch>)
    requires o.dispatchOperation == Some(OpRetireUnconsumed)
    requires e.reconciliationAttempts == d.reconciliationAttempts
    ensures DispatchCandidate(d, e, o, child) == Ok(e) && e != d <==> Justified(d, WithLookup(d, e, child), o, child)
  {
    RetireExact(d, e, o, child);
  }

  /**
    * A proposed next version is accepted exactly when the operation named in its observation justifies it. A lookup's
    * version also lists the child it read.
    */
  lemma CandidateExact(d: Dispatch, e: Dispatch, o: Observation, child: Option<Dispatch>)
    requires e.reconciliationAttempts == d.reconciliationAttempts
    ensures DispatchCandidate(d, e, o, child) == Ok(e) && e != d <==> Justified(d, WithLookup(d, e, child), o, child)
  {
    if o.dispatchOperation.Some? {
      match o.dispatchOperation.value
      case OpReady => ReadyJustified(d, e, o, child);
      case OpConsumeClaim => ConsumeJustified(d, e, o, child);
      case OpRestartPreparation => RestartJustified(d, e, o, child);
      case OpPreparationFailed => FailJustified(d, e, o, child);
      case OpRetireUnconsumed => RetireJustified(d, e, o, child);
      case OpUncertain => UncertainJustified(d, e, o, child);
      case OpReport => ReportJustified(d, e, o, child);
      case OpLookup => LookupJustified(d, e, o, child);
      case OpFinishReconciliation => FinishJustified(d, e, o, child);
      case OpSettle => SettleJustified(d, e, o, child);
    }
  }
}
