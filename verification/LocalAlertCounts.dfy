/**
  * What the alert directory counts: every intent that becomes pending and every retirement, over any sequence of
  * saved operations, and what `publish` and `settle` answer.
  */
module LocalAlertCounts {
  import opened Outcomes
  import opened LocalAlerts

  datatype Act = Publishing(intent: Intent) | Settling(intent: Intent, disposition: Disposition)

  function Capped(n: nat): nat {
    Min(n, 0xFFFF_FFFF_FFFF_FFFF)
  }

  predicate Aggregated(meta: Metadata) {
    D6c in meta.aggregates && P8 in meta.aggregates
  }

  // ---- what one saved operation does ----

  /** The intent was not pending and now is. */
  predicate BecomesPending(before: Metadata, act: Act, after: Metadata) {
    act.Publishing? && FileName(act.intent) !in before.pending && FileName(act.intent) in after.pending
  }

  /** The intent had no disposition and now has one: its entry is settled, or it is pending no more. */
  predicate BecomesSettled(before: Metadata, act: Act, after: Metadata) {
    var name := FileName(act.intent);
    && act.Settling?
    && (|| (name in before.entries && name in after.entries && before.entries[name].settled.None?
            && after.entries[name].settled == Some(act.disposition))
        || (name in before.pending && name !in after.pending))
  }

  predicate Retires(before: Metadata, act: Act, after: Metadata) {
    BecomesSettled(before, act, after) && act.disposition == Retired
  }

  /** One more when the intent is of this namespace and became pending, or was retired; the oldest time is the first. */
  predicate Accounted(before: Metadata, act: Act, after: Metadata, ns: Namespace) {
    && ns in before.aggregates && ns in after.aggregates
    && var a, b, own := before.aggregates[ns], after.aggregates[ns], act.intent.namespace == ns;
    && (b.coalesced == if own && BecomesPending(before, act, after) then Capped(a.coalesced + 1) else a.coalesced)
    && (b.retired == if own && Retires(before, act, after) then Capped(a.retired + 1) else a.retired)
    && (b.oldest == if own && BecomesPending(before, act, after) && a.oldest.None? then Some(act.intent.createdAt)
                    else a.oldest)
  }

  /** A saved operation touches only its own intent, or drops settled entries, and is accounted for. */
  ghost predicate Does(before: Metadata, act: Act, after: Metadata) {
    && Aggregated(before) && Aggregated(after)
    && Accounted(before, act, after, D6c) && Accounted(before, act, after, P8)
    && (forall n :: n in after.pending && n != FileName(act.intent) ==>
                      n in before.pending && after.pending[n] == before.pending[n])
    && (forall n :: n in before.pending && n != FileName(act.intent) ==> n in after.pending)
    && (forall n :: n in after.entries && n != FileName(act.intent) ==>
                      n in before.entries && after.entries[n] == before.entries[n])
    && (forall n :: n in before.entries && n != FileName(act.intent) && n !in after.entries ==>
                      act.Publishing? && before.entries[n].settled.Some?)
  }

  // ---- over a history of saved operations ----

  const Fresh := Metadata(map[], map[], map[D6c := Aggregate(0, 0, None), P8 := Aggregate(0, 0, None)])

  ghost predicate DoesAt(states: seq<Metadata>, acts: seq<Act>, k: nat)
    requires |states| == |acts| + 1 && k < |acts|
  {
    Does(states[k], acts[k], states[k + 1])
  }

  /** The saved states of a directory, one more after each act. */
  ghost predicate IsHistory(states: seq<Metadata>, acts: seq<Act>) {
    && |states| == |acts| + 1 && states[0] == Fresh
    && forall k :: 0 <= k < |acts| ==> DoesAt(states, acts, k)
  }

  predicate PendingAt(states: seq<Metadata>, acts: seq<Act>, k: nat, ns: Namespace)
    requires |states| == |acts| + 1 && k < |acts|
  {
    acts[k].intent.namespace == ns && BecomesPending(states[k], acts[k], states[k + 1])
  }

  predicate RetiredAt(states: seq<Metadata>, acts: seq<Act>, k: nat, ns: Namespace)
    requires |states| == |acts| + 1 && k < |acts|
  {
    acts[k].intent.namespace == ns && Retires(states[k], acts[k], states[k + 1])
  }

  /** How often an intent of the namespace became pending in the first `n` acts. */
  function TimesPending(states: seq<Metadata>, acts: seq<Act>, n: nat, ns: Namespace): nat
    requires |states| == |acts| + 1 && n <= |acts|
  {
    if n == 0 then 0
    else TimesPending(states, acts, n - 1, ns) + (if PendingAt(states, acts, n - 1, ns) then 1 else 0)
  }

  function TimesRetired(states: seq<Metadata>, acts: seq<Act>, n: nat, ns: Namespace): nat
    requires |states| == |acts| + 1 && n <= |acts|
  {
    if n == 0 then 0
    else TimesRetired(states, acts, n - 1, ns) + (if RetiredAt(states, acts, n - 1, ns) then 1 else 0)
  }

  /** When the first intent of the namespace to become pending was created. */
  function FirstPending(states: seq<Metadata>, acts: seq<Act>, n: nat, ns: Namespace): Option<int>
    requires |states| == |acts| + 1 && n <= |acts|
  {
    if n == 0 then None
    else
      var earlier := FirstPending(states, acts, n - 1, ns);
      if earlier.None? && PendingAt(states, acts, n - 1, ns) then Some(acts[n - 1].intent.createdAt) else earlier
  }

  /** Every count is the number of its occurrences, up to the largest number that can be stored. */
  lemma {:induction false} CountsOverHistory(states: seq<Metadata>, acts: seq<Act>, n: nat, ns: Namespace)
    requires IsHistory(states, acts) && n <= |acts|
    ensures ns in states[n].aggregates
    ensures states[n].aggregates[ns].coalesced == Capped(TimesPending(states, acts, n, ns))
    ensures states[n].aggregates[ns].retired == Capped(TimesRetired(states, acts, n, ns))
    ensures states[n].aggregates[ns].oldest == FirstPending(states, acts, n, ns)
  {
    if n > 0 {
      CountsOverHistory(states, acts, n - 1, ns);
      assert DoesAt(states, acts, n - 1);
      assert Accounted(states[n - 1], acts[n - 1], states[n], ns);
    }
  }

  lemma HistoryGrows(states: seq<Metadata>, acts: seq<Act>, act: Act, after: Metadata)
    requires IsHistory(states, acts) && Does(states[|acts|], act, after)
    ensures IsHistory(states + [after], acts + [act])
  {
    var longer, more := states + [after], acts + [act];
    forall k | 0 <= k < |more| ensures DoesAt(longer, more, k) {
      if k < |acts| {
        assert DoesAt(states, acts, k);
      }
    }
  }

  // ---- what `publish` and `settle` answer ----

  /** A settled notice is visible with other bytes than those recorded. */
  predicate Tampered(meta: Metadata, files: map<string, Payload>) {
    exists n :: n in meta.entries && meta.entries[n].settled.Some? && n in files && files[n] != meta.entries[n].hash
  }

  /** There is room for one more, as it is or without the settled notices. */
  predicate RoomFor(files: set<string>, entries: set<string>) {
    |files| < 255 && |entries| < 255
  }

  /** The answer to a published intent, from the directory as it was found. */
  function PublishAnswer(
    meta: Metadata, files: map<string, Payload>, overflow: bool, i: Intent, admissible: bool): Outcome {
    var name, bytes := FileName(i), PayloadOf(i);
    if !admissible || (name in meta.pending && meta.pending[name] != bytes) then Held
    else if name in meta.entries then
      if meta.entries[name].hash != bytes then Held
      else if meta.entries[name].settled.Some? then Existing
      else if name !in files then Written
      else if files[name] == bytes then Existing else Held
    else NewAnswer(meta, files, overflow, name)
  }

  /** The answer to an alert that has no entry: written where there is room, else counted. */
  function NewAnswer(meta: Metadata, files: map<string, Payload>, overflow: bool, name: string): Outcome {
    if RoomFor(files.Keys, meta.entries.Keys) then Written
    else if Tampered(meta, files) then Held
    else if RoomFor(files.Keys - Settled(meta), meta.entries.Keys - Settled(meta)) then Written
    else if |files| >= 256 && !overflow then Held
    else if name in meta.pending || |meta.pending| < 255 then Coalesced
    else Held
  }

  /** The disposition is one this intent can get, or already has. */
  predicate Settleable(
    meta: Metadata, files: map<string, Payload>, i: Intent, admissible: bool, expected: Payload, d: Disposition) {
    var name := FileName(i);
    && admissible && PayloadOf(i) == expected
    && if name in meta.entries then
         var entry := meta.entries[name];
         && entry.hash == expected && entry.kind == i.kind && (entry.settled.Some? ==> entry.settled.value == d)
         && (d == Published ==> i.kind != Failure && name in files && files[name] == expected)
       else d != Published && name in meta.pending && meta.pending[name] == expected
  }
}
