# Heterodyne: proofs about its journals, ledger and delivery protocol

This project models seven state machines of the repository in Dafny and proves what holds over every run of them:

- the **action journal** (requests, decisions, dispatches, locks, denials, and an append-only event log of 16,384 events in
  which every outstanding request owns a 96-event reserve), with the closed reducers that rebuild each proposal;
- the **acceptance ledger**, a crash-recoverable fenced commit over immutable files;
- the **delivery reducers** of one part of a frozen copy, and the bounded list of receipt identifiers they retain;
- the **acceptance evaluator**, which turns local checks into a 72-hour continuity claim;
- the **outage journal**, which walks four approved steps;
- the **local alert directory**, with its eviction of settled notices;
- the **DNS query parser** of one of the spikes.

Code that changes state step by step is a class: `FixtureJournal`, `Ledger`, `OutageJournal`, `AlertDirectory`. Each of
their methods is proved against a function of the old state, and the theorems are proved about those functions and lifted
to runs. In `Ledger` and `AlertDirectory` a field `power` counts the writes left before a crash, so every contract speaks
about every crash point. Code made of expressions stays functions: the journal's reducers, `delivery.py`,
the packet and checkpoint checks. Digests are injective: a digest *is* its content. `dafny verify dfyconfig.toml` checks
everything.

Beside each operation stands an independent reading of when it is accepted and what it leaves, said of the records
alone and in both directions: `DispatchOutcomes`, `DecisionOutcomes`, `RequestOutcomes`, `JournalPreparation`,
`DeliveryExact`, `LedgerExact`, `EvaluatorMeaning`, `OutageExact`, `LocalAlertCounts`. `JournalTheorems` carries these
readings through every run: what the log holds as evidence is what admitted each version.

Results that are not what one would first expect, each with its exact condition:

- `LedgerRelease.ReleaseExact`: a release that has written its program can finish if and only if `release-retry.json` is
  absent or names this fence, and a heartbeat, if there is one, was attached before the program was written. Both ways to
  fail are reachable (`LedgerHeld.StaleRetryReachable`, `LedgerHeld.LateHeartbeatReachable`). A heartbeat of another run
  holds the fence against everything (`LedgerHeld.ForeignHeartbeatHolds`). `LedgerRelease.ReleaseStartsExact` gives the
  condition for a release that has no program yet.
- `LedgerRecovery.RecoverExact`: `recover` stops working once release events follow the manifest's events; such a state
  is reachable (`LedgerHeld.RecoverHeldReachable`).
- `JournalCapacity.SettledBudgetRefusalExact`: when the paying request has become terminal inside its own transaction, an
  event can be refused by the second capacity test alone, as `SettledPayerWitness` shows; for an outstanding payer it
  cannot (`BudgetRefusalExact`).

## Model

| member | source | states |
|---|---|---|
| JournalRuns.CapacityOverRuns | src/heterodyne/actions/journal.py:193-257 | After every transaction of every run, the log length plus the unspent reserves of all outstanding requests is at most 16,384, and no request has used more than 96 |
| JournalCapacity.BudgetRefusalExact | src/heterodyne/actions/journal.py:235-254 | While the payer is outstanding, a budgeted event that is not a duplicate is refused exactly when the payer's own reserve cannot cover what is spent, this event and the usage event |
| JournalCapacity.SettledBudgetRefusalExact | src/heterodyne/actions/journal.py:235-254 | For a payer that has just become terminal, it is refused exactly when its own reserve is short or two more events do not fit beside the other reserves |
| JournalCapacity.SettledPayerRefusedBySecondTest | src/heterodyne/actions/journal.py:243-254 | A full log and a settled payer with two reserve events left: the own-reserve test passes and the event is still refused |
| JournalCapacity.SettledPayerWitness | src/heterodyne/actions/journal.py:243-254 | A concrete transaction that satisfies the capacity law and in which exactly that happens |
| JournalCapacity.OrdinaryRefusalExact | src/heterodyne/actions/journal.py:235-241 | Without a payer, an event is refused exactly when it would reach into someone's reserve |
| JournalCapacity.EmitSound | src/heterodyne/actions/journal.py:235-257 | Every admitted event keeps the transaction's capacity law and is counted as spent exactly when it is budgeted |
| JournalCapacity.CommitSound | src/heterodyne/actions/journal.py:194-209 | Once its events are admitted, a transaction always commits: the usage event fits, and the capacity law holds again |
| JournalRuns.LogRebuildsTables | src/heterodyne/actions/journal.py:289-336 | In every run, replaying the log rebuilds the three tables, and every record's logged versions are 0..v without gaps |
| JournalRuns.OneEffectPerApproval | src/heterodyne/actions/dispatch.py:137-236 | In every run a dispatch consumes its claim at most once, stays consumed and is never preparing, ready or held again; it was consumed on the start boot, within 60 s of the start and 5 s of readiness, after at most 3 launches |
| JournalRuns.ChildrenNeverAct | src/heterodyne/actions/dispatch.py:488-519 | In every run a reconciliation child has neither a claim nor a consumption |
| JournalRuns.EveryDispatchApproved | src/heterodyne/actions/journal.py:420-473 | In every run each dispatch row has a committed approving execution decision with the same approval, digest and revision, and a request admitted under it that is filed or completed |
| JournalRuns.ChainOverRuns | src/heterodyne/actions/journal.py:420-487 | From any state with a dispatch to every later one: the decision is unchanged but for its version and heart flag, the request stays filed until completed by the settled initial dispatch with its outcome, and a completed request row never changes |
| JournalTheorems.StepsJustifiedOverRuns | src/heterodyne/actions/journal.py:547-675 | In every run, each observation logged for a dispatch version is what admits that version after the one before it, at the clock logged with it; the child a lookup read is a settled row for good |
| JournalTheorems.StepsObservedOverRuns | src/heterodyne/actions/journal.py:547-675 | In every run each version of a dispatch after the first has its observation in the log |
| JournalTheorems.OutcomesOverRuns | src/heterodyne/actions/dispatch.py:239-454 | In every run a settled initial dispatch has the logged evidence of its outcome: an operator's attestation of exactly that outcome with its evidence and event, or the worker's or a child's proved success; a failure is settled only by an operator |
| JournalTheorems.CompletionsOverRuns | src/heterodyne/actions/requests.py:325-455 | In every run a completed request's dispatch is settled under the same digest and revision, and its effect reads succeeded exactly if the dispatch succeeded, absent exactly if it failed |
| JournalTheorems.AbsenceOverRuns | src/heterodyne/actions/journal.py:721-797 | In every run, when an operator settled a dispatch as definitively absent, no earlier report of its worker and no reading of any child, then or since, found success |
| JournalTheorems.LookupsSpacedOverRuns | src/heterodyne/actions/journal.py:798-820 | In every run the first, second and third lookups come 1, 5 and 30 s after the start, the first and the second lookup, by the clocks logged with those versions |
| JournalTheorems.ChildrenSpacedOverRuns | src/heterodyne/actions/journal.py:497-544 | In every run the first, second and third reconciliation children start 1, 5 and 30 s after the parent, the first and the second child |
| JournalTheorems.StagesOverRuns | src/heterodyne/actions/decisions.py:171-250 | In every run a decision that becomes committed was natively written, closed and pinned in the three versions before, for one event; the write was issued from a pending decision, or found standing in place of an invalid one |
| JournalTheorems.FilingsOverRuns | src/heterodyne/actions/requests.py:174-275 | In every run a filed request's last versions are blocker, parked, landed, pinned, sufficient, filed, at one revision and with the ask that was pinned |
| JournalTheorems.CreationIssuedOnce | src/heterodyne/actions/requests.py:126-131 | In every run the creation of a request's shell is issued at its second version and never again |
| JournalTheorems.DeniedStaysDenied | src/heterodyne/actions/journal.py:861-922 | In every run no request is admitted or filed after a logged denial of the same session, effect and target |
| JournalTheorems.BoundsOverRuns | src/heterodyne/actions/journal.py:289-336 | In every run there are at most 4,096 requests and dispatches, 128 outstanding requests and two outstanding of one bead |
| JournalTheorems.AdmissionOverRuns | src/heterodyne/actions/journal.py:420-544 | In every state of every run a dispatch is admitted, as the row `x`, exactly when the approval is committed and its request filed for that digest and revision, and either its three locks are free or it is the next due child whose elders are settled and read and whose nonces are new |
| JournalPreparation.AdmissionExact | src/heterodyne/actions/journal.py:420-544 | The same for one admission: exactly when it goes through and the row it writes, read from the tables, the proposal and the clock |
| JournalChanges.WriteExact | src/heterodyne/actions/journal.py:359-418 | A decision is written exactly if its request still asks for it and it is new, or overtakes an invalid one: then it starts pending, or as natively written under its own event identifier if the native record holds that event |
| JournalSafety.AdmittedRequestOnlyCompletes | src/heterodyne/actions/requests.py:325-455 | A filed request behind a dispatch cannot be denied, cancelled or abandoned: any lawful step completes it with the same approval, digest and revision |
| JournalRuns.LocksOverRuns | src/heterodyne/actions/journal.py:660-664 | In every state of every run the lock rows are exactly those of the unsettled initial dispatches: settlement leaves none behind |
| JournalRuns.ExclusionOverRuns | src/heterodyne/actions/journal.py:479-487 | In every run no two unsettled initial dispatches share a resource, target or approval |
| JournalRuns.FamiliesOverRuns | src/heterodyne/actions/journal.py:497-544 | In every run an approval has at most three children, and the parent's applied lookups are the length of its duplicate-free list of settled children |
| JournalRuns.OneOpenChildOverRuns | src/heterodyne/actions/journal.py:636-664 | In every run an approval has at most one unsettled child, and only while its parent is unsettled |
| JournalRuns.ParentNoncesOverRuns | src/heterodyne/actions/journal.py:514-533 | In every run a dispatch's startup and claim nonces are distinct, and no child of it presents one of them |
| JournalRuns.SiblingNoncesOverRuns | src/heterodyne/actions/journal.py:514-533 | In every run two children of one approval present different nonces |
| JournalRuns.StepKeeps | src/heterodyne/actions/journal.py:168-215 | Every operation, committed or refused, keeps the whole invariant, only appends to the log and keeps every approval chain |
| FixtureJournals.FixtureJournal.UsedBy | src/heterodyne/actions/journal.py:217-223 | The loop over usage events returns the reserve the owner has used |
| FixtureJournals.FixtureJournal.ReservedNow | src/heterodyne/actions/journal.py:225-229 | The loop over outstanding requests returns the sum of their unspent reserves |
| FixtureJournals.FixtureJournal.EmitEvent | src/heterodyne/actions/journal.py:235-257 | Appends, or refuses and leaves the transaction alone, exactly as the event rule says |
| FixtureJournals.FixtureJournal.EndTransaction | src/heterodyne/actions/journal.py:194-215 | Commits with the usage event, or restores the saved tables, and closes the transaction |
| FixtureJournals.FixtureJournal.CheckReconciliation | src/heterodyne/actions/journal.py:497-541 | The loop over the parent and its earlier children decides exactly whether a child may be added |
| FixtureJournals.FixtureJournal.AddDispatch | src/heterodyne/actions/journal.py:420-487 | The new tables are those of the operation's specification, or the old ones if it is refused |
| FixtureJournals.FixtureJournal.AddDecision | src/heterodyne/actions/journal.py:359-418 | The same for a decision, new or replacing an invalid one, with its inbox event |
| FixtureJournals.FixtureJournal.Execute | src/heterodyne/actions/journal.py:168-215 | Any operation on a valid journal leaves a valid journal that equals the specified one and only grew |
| TransitionFacts.RequestCandidateEvolves | src/heterodyne/actions/transitions.py:126-217 | Every accepted request transition keeps the key and session, adds one version, leaves no terminal phase, ends only with confirmed cleanup, completes only a filed request with the outcome of its settled initial dispatch, denies only under a committed denial, and cancels only without a live decision |
| RequestOutcomes.RequestExact | src/heterodyne/actions/transitions.py:126-217 | A proposed next version of a request is accepted exactly when its stage, evidence and waits allow it, and it changes exactly those fields: issue, lookup, repair, stages, ask, grooming and the four ends |
| TransitionFacts.DecisionCandidateEvolves | src/heterodyne/actions/transitions.py:227-288 | Every accepted decision transition keeps approval, purpose, digest, event and revision and adds one version; a committed decision only clears its heart flag, and only a pending or issued one becomes invalid |
| DecisionOutcomes.DecisionExact | src/heterodyne/actions/transitions.py:227-288 | A proposed next version of a decision is accepted exactly when the readback of this version and the request admit the next stage in order, or one of three grounds invalidates it; no field beyond the stage's own changes |
| TransitionFacts.DispatchCandidateEvolves | src/heterodyne/actions/transitions.py:291-433 | Every accepted dispatch transition keeps the record well formed and is a lawful step at the sampled clock: identity and presented nonces kept, one version on, consumption never undone and only from readiness in time, no way back from an uncertain or failed effect; a new lookup needs a settled readable child |
| DispatchOutcomes.CandidateExact | src/heterodyne/actions/transitions.py:291-433 | A proposed next version of a dispatch is accepted exactly when the operation named in its observation justifies it: what each of the ten operations needs of the record, the clock and the evidence, and every field it leaves |
| DispatchOutcomes.SettleExact | src/heterodyne/actions/dispatch.py:377-454 | A settlement is accepted exactly when a held, thrice looked-up, contradicted or clock-broken dispatch has an operator's attestation of one outcome: succeeded exactly if attested succeeded, failed exactly if attested absent, with that evidence and event |
| DispatchOutcomes.ReportExact | src/heterodyne/actions/dispatch.py:239-279 | A worker's report is accepted exactly under the claim consumed; it succeeds or fails only when proved, and only success settles |
| DispatchOutcomes.LookupExact | src/heterodyne/actions/dispatch.py:282-324 | A lookup is accepted exactly when it is due and reads a settled, clean, unread child; what the child found decides the outcome only when proved, and never undoes a failure |
| TransitionFacts.ReadyLawful | src/heterodyne/actions/dispatch.py:137-159 | Readiness is a lawful step: its claim nonce is new and its claim deadline is 5 s away, within the original deadline |
| TransitionFacts.RestartLawful | src/heterodyne/actions/dispatch.py:162-183 | A restart is a lawful step: the old startup nonce stays on record and the new one is distinct from all presented before |
| TransitionFacts.ConsumeLawful | src/heterodyne/actions/dispatch.py:192-206 | Consuming the claim is a lawful step: from readiness, on the start boot, before the original deadline and the claim deadline |
| TransitionFacts.LookupLawful | src/heterodyne/actions/dispatch.py:282-324 | Applying a lookup is a lawful step that adds the child's attempt to the applied ones and leaves the rest of the history alone |
| TransitionFacts.SettleLawful | src/heterodyne/actions/dispatch.py:377-454 | A settlement is a lawful step, and settles as succeeded exactly if success was attested, as failed exactly if absence was, with the operator's evidence and event |
| LedgerSafety.MoveKeeps | src/heterodyne/acceptance/ledger.py:143-172 | Every atomic write of the protocol keeps the ledger invariant and loses nothing written before |
| LedgerSafety.LogOverRuns | src/heterodyne/acceptance/ledger.py:210-252 | Over every run of writes, wherever it stops: the log is an append-only hash chain; a standing fence added only its heartbeat, its manifest's events, then its program's events; no fence is both aborted and committed; no segment gets a second manifest |
| LedgerSafety.SpoolOverRuns | src/heterodyne/acceptance/ledger.py:349-368 | Over every run no envelope is lost, and a retired one is named by exactly the one receipt that retired it |
| LedgerSafety.TailBeforeProgram | src/heterodyne/acceptance/ledger.py:690-708 | When a release program is written, the log after the fence is exactly the fence's own events |
| LedgerRecovery.CommitIsAtomic | src/heterodyne/acceptance/ledger.py:411-603 | From any crash point before a release program, if the heartbeat can take its place, `recover` answers: no manifest, no completion, no terminal event; or the log ends with exactly the heartbeat and the manifest's events, completed, with everything named stored before |
| LedgerRecovery.RecoverTwice | src/heterodyne/acceptance/ledger.py:587-603 | A second `recover` changes nothing |
| LedgerRecovery.RecoverExact | src/heterodyne/acceptance/ledger.py:571-603 | As long as the manifest's event numbers fit the log, `recover` succeeds exactly when nothing follows a committed manifest's events, or, uncommitted, when the heartbeat can take its place |
| LedgerRecovery.AppendsRest | src/heterodyne/acceptance/ledger.py:231-244 | Appending a list of which some first part is already in place completes it |
| LedgerRelease.ReleaseExact | src/heterodyne/acceptance/ledger.py:663-737 | With the program's own events and accepting adapters, a release that has its program finishes exactly when the retry pointer is absent or its own and any heartbeat preceded the program, and then in the one final state |
| LedgerRelease.ReleaseStartsExact | src/heterodyne/acceptance/ledger.py:663-737 | Without a program, `release` succeeds exactly when the heartbeat can take its place, the fence is terminal, the checks of a new program pass, the event numbers fit, and the retry pointer is absent or its own; and then it ends in the final state of the program it writes |
| LedgerRelease.ReleaseRestarts | src/heterodyne/acceptance/ledger.py:709-737 | After any writes of a release and any late arrivals, it is still heading for the same log, receipt, retirements and unfenced state |
| LedgerRelease.RerunReachesTarget | src/heterodyne/acceptance/ledger.py:663-737 | With no stale pointer and a timely heartbeat: from any crash point after the program was written, before or after the fence is gone, running `release` again reaches that state |
| LedgerRelease.ReleaseAgain | src/heterodyne/acceptance/ledger.py:678-681 | Unfenced, a repeated `release` succeeds exactly while its events end the log, and changes nothing |
| LedgerRelease.LateArrivalsStayLive | src/heterodyne/acceptance/ledger.py:254-266 | Envelopes that arrive after the snapshot are still live in the final state |
| LedgerHeld.StaleRetryReachable | src/heterodyne/acceptance/ledger.py:294-299 | A run that stops in `begin` after the fence and before the old pointer is removed leaves a fence whose release is refused |
| LedgerHeld.RecoverHeldReachable | src/heterodyne/acceptance/ledger.py:579-585 | Commit, complete, and release as far as one event: a reachable state in which `recover` is refused |
| LedgerHeld.LateHeartbeatReachable | src/heterodyne/acceptance/ledger.py:301-319 | Abort, write the program, then `heartbeat`: accepted, and the release is refused |
| LedgerHeld.LateHeartbeatHolds | src/heterodyne/acceptance/ledger.py:712-727 | From then on no accepted release of that fence finishes, whatever else is written |
| LedgerHeld.ForeignHeartbeatHolds | src/heterodyne/acceptance/ledger.py:321-329 | A heartbeat file of another run holds `recover` and every `release`, whatever else is written |
| LedgerHeld.ForeignHeartbeatReachable | src/heterodyne/acceptance/ledger.py:301-319 | `heartbeat` writes such a file before it checks the run |
| LedgerCommit.CommitChains | src/heterodyne/acceptance/ledger.py:477-542 | A bundle that passes the checks of `commit` is numbered and chained right after the heartbeat, where the log ends |
| LedgerCommit.CommitSeals | src/heterodyne/acceptance/ledger.py:503-519 | A sealed bundle that passes has this fence's segment, and some evidence drawn from the retained checkpoints qualifies it over the log for the stated duration |
| LedgerSeals.SealedIsContinuous | src/heterodyne/acceptance/ledger.py:503-519 | In every reachable ledger a sealed segment rests on a log, up to its heartbeat, with at least 433 retained checkpoints of one boot, at most 600 s apart, over at least 72 hours and exactly the stated duration, whose audit intervals tile that time; from its start no event is an intervention, source change, gap, drill, hold, another segment's, or an operator's but an approval |
| LedgerSeals.OutcomesOverRuns | src/heterodyne/acceptance/ledger.py:477-545 | In every reachable ledger a committed manifest says "qualified_pending_archive" exactly if its intent seals, which is exactly for reason "none", with nothing unresolved and a qualification event; else "not_qualified", with the stop event alone; the records are bound to each other |
| LedgerCommit.BundleStored | src/heterodyne/acceptance/ledger.py:556-567 | What `commit` stores before the manifest is everything the manifest names |
| LedgerExact.ReadyChecked | src/heterodyne/acceptance/ledger.py:477-545 | A bundle that belongs to the fence, spans its retained endpoints, stops after the heartbeat, and interrupts or earns its seal, passes all checks of `commit` |
| LedgerExact.CheckedReady | src/heterodyne/acceptance/ledger.py:477-545 | And only such a bundle passes them |
| Ledgers.ReadyExact | src/heterodyne/acceptance/ledger.py:411-569 | With the heartbeat in its place: the checks, the retained references and the files on disk let `commit` through exactly when the bundle's own fields, the log and the files are ready |
| LedgerExact.AbortExact | src/heterodyne/acceptance/ledger.py:605-661 | The checks of `abort` pass exactly when the fence has no manifest, the intent fits the heartbeat, entry and a logged start, and no other abort is on file |
| Ledgers.Ledger.AppendEvent | src/heterodyne/acceptance/ledger.py:231-244 | Accepts an event already in place, appends the next one, or refuses and changes nothing |
| Ledgers.Ledger.Begin | src/heterodyne/acceptance/ledger.py:268-299 | Fences first, then removes the old pointer; refused exactly when a fence stands or the segment has a manifest; a crash leaves nothing or the fence with the old pointer |
| Ledgers.Ledger.AddHeartbeat | src/heterodyne/acceptance/ledger.py:301-319 | Stores the object, the file, then the event; not cut short, it is done exactly when `HeartbeatReady` holds of the event, the fence and the log; if it is refused after the file, the fence cannot be read any more |
| Ledgers.Ledger.Commit | src/heterodyne/acceptance/ledger.py:411-569 | Not cut short, it is done exactly when the bundle is ready (`CommitReady`, on its own fields, the log and the files): an interruption needs a reason other than "none" and "not_qualified", a seal an interval that earns it. Wherever it stops, either no manifest, completion or terminal event was added, or exactly this bundle's manifest with its intent retained; done means completed with the bundle's events |
| Ledgers.Ledger.CommitThenRecover | src/heterodyne/acceptance/ledger.py:411-603 | `commit` cut short after any number of writes, then `recover`: never refused, and all or nothing |
| Ledgers.Ledger.Recover | src/heterodyne/acceptance/ledger.py:587-603 | Leaves exactly the recovered state, or is refused exactly when the specification refuses |
| Ledgers.Ledger.AbortFence | src/heterodyne/acceptance/ledger.py:605-661 | Not cut short, it is done exactly when `AbortReady` holds of some intent: no manifest, a place for any heartbeat, a fitting intent, no other abort. Then the abort is on file and names the retained intent; the log gains the heartbeat at most |
| Ledgers.Ledger.Release | src/heterodyne/acceptance/ledger.py:663-737 | Leaves exactly the released state; cut short or refused, an existing program is still heading for the same final state |
| Ledgers.Ledger.RetireAll | src/heterodyne/acceptance/ledger.py:729-734 | The loop retires exactly the snapshot, or stops having retired part of it |
| Ledgers.Ledger.Spool | src/heterodyne/acceptance/ledger.py:254-266 | Keeps the envelope, or refuses exactly when 1,024 are live or the retention bound is reached |
| DeliveryRuns.ApplyKeeps | src/heterodyne/delivery.py:577-785 | Each reducer on a valid part refuses or returns a part that passes every constructor check and has only more evidence |
| DeliveryExact.ReserveExact | src/heterodyne/delivery.py:577-598 | A reservation goes through exactly when the part stands, the gates allow it, all earlier attempts are proven undispatched and it is due (at once, then 5 and 30 s after eligibility); it appends one blank attempt |
| DeliveryExact.ReceiptConfirms | src/heterodyne/delivery.py:741-769 | A receipt that names no settled attempt confirms the marked or uncertain one, with its ID and itself, exactly when all fields agree, it has one 64-hex ID and every claim to that ID is this attempt's; otherwise the attempt is uncertain with InvalidReceipt noted |
| DeliveryExact.ReceiptContradicts | src/heterodyne/delivery.py:715-738 | A receipt that names a settled attempt changes nothing if it repeats the accepted one and still owns its ID; any other contradicts that attempt and nothing else |
| DeliveryExact.ReceiptRefused | src/heterodyne/delivery.py:741-760 | A receipt is refused exactly when there is no attempt, or the last is neither marked nor uncertain and no settled one is named |
| DeliveryExact.ProveUnissuedExact | src/heterodyne/delivery.py:641-652 | Non-dispatch is proven exactly for a reserved attempt, or a marked one by the writer's own refusal bound to it |
| DeliveryExact.CancelExact | src/heterodyne/delivery.py:772-780 | A part is cancelled exactly when nothing is contradicted and every attempt is proven undispatched |
| DeliveryRuns.HistoryOverRuns | src/heterodyne/delivery.py:468-495 | In any reachable history all attempts but the last carry an exact positive non-dispatch fact, at most the last can have been written, and none follows a confirmed or uncertain one |
| DeliveryRuns.EvidenceOverRuns | src/heterodyne/delivery.py:628-769 | Over any run a confirmed attempt keeps its message ID and receipt, and uncertainties and retained IDs only grow |
| DeliveryRuns.ContradictionAbsorbs | src/heterodyne/delivery.py:715-738 | Once an attempt is contradicted it stays so, and no later step adds, marks or cancels anything |
| DeliveryRuns.ContradictionBlocks | src/heterodyne/delivery.py:568-574 | A contradicted part refuses reservation, dispatch and cancellation |
| DeliveryStatus.CompleteExact | src/heterodyne/delivery.py:808-843 | A copy is "complete" exactly when all parts are confirmed, uncontradicted, unsuperseded, have distinct IDs and answer part 0 |
| DeliveryExact.StatusExact | src/heterodyne/delivery.py:788-843 | All parts of one copy have exactly the status that their supersession, doubts, cancellations, exhausted attempts and confirmations mean together; anything else has none |
| DeliveryStatus.CompleteStable | src/heterodyne/delivery.py:741-785 | After any step on a part, a complete copy is still complete exactly when that part is neither superseded nor contradicted |
| Deliveries.FindSettled | src/heterodyne/delivery.py:721-738 | The loop finds the first settled attempt that the receipt names exactly |
| ReceiptIds.BoundedIds | src/heterodyne/delivery.py:698-712 | The loop returns the bounded list |
| ReceiptIds.BoundedExact | src/heterodyne/delivery.py:698-712 | Exactly the lists of at most 64 encodable texts and 16,384 bytes, with nothing after the bytes are used up, come back unchanged |
| ReceiptIds.BoundedIdempotent | src/heterodyne/delivery.py:464-465 | Any input gives at most 64 texts and 16,384 bytes, and bounding again changes nothing |
| ReceiptIds.BoundedKeepsPrefix | src/heterodyne/delivery.py:715-718 | Appending to a bounded list keeps it as an exact prefix |
| Utf8.DecodeTruncated | src/heterodyne/delivery.py:707-708 | Decoding bytes cut anywhere gives exactly the characters that fit whole, surrogates replaced |
| Evaluators.Interval | src/heterodyne/acceptance/evaluator.py:344-430 | Qualified exactly when the entry holds, nothing is unresolved, and the event chain, the one start, the additions, the walk, the duration and the coverage rows all pass; the duration is that from first to last checkpoint |
| EvaluatorMeaning.IntervalExact | src/heterodyne/acceptance/evaluator.py:344-430 | What that means of the events, checkpoints and rows themselves, both ways: no intervention, source change, gap, drill or hold, no operator's event but an approval, no other segment's, every checkpoint passing and continuing the last within 600 s, seven covered paths, 72 hours |
| EvaluatorMeaning.QualifiedUndisturbed | src/heterodyne/acceptance/evaluator.py:458-468 | In a qualified interval every event from the start on is undisturbed, and every checkpoint it names is retained, passing and no later than it |
| EvaluatorMeaning.RunExact | src/heterodyne/acceptance/evaluator.py:386-415 | The walk accepts a run exactly when each event is undisturbed and each checkpoint passes and continues the one before |
| EvaluatorMeaning.EvaluationExact | src/heterodyne/acceptance/evaluator.py:344-430 | The evaluator's answer is "qualified for this duration" exactly when such an interval of that duration exists |
| Evaluators.CheckCoverage | src/heterodyne/acceptance/evaluator.py:238-265 | The loop accepts exactly the seven required rows, each passed, by distinct members of the corpus, on the entry's release, with a sorted projection onto its components and evidence |
| Evaluators.CoveredOnce | src/heterodyne/acceptance/evaluator.py:247-248 | Each required path is covered by exactly one row |
| Evaluators.Walk | src/heterodyne/acceptance/evaluator.py:386-415 | The loop over the segment accepts exactly the runs whose every event passes with the last checkpoint before it |
| Evaluators.ValidateEvents | src/heterodyne/acceptance/evaluator.py:436-456 | The loop accepts exactly the chained, well-shaped, chronological and proven event lists |
| Evaluators.CheckAdditions | src/heterodyne/acceptance/evaluator.py:366-385 | The loops accept exactly the announced additions whose rows are prepared reserve rows with distinct targets |
| EvaluatorContinuity.QualifiedIsContinuous | src/heterodyne/acceptance/evaluator.py:315-342 | A qualified interval is one boot, at least 433 strictly rising checkpoints at most 600 s apart over at least 259,200 s, drift at most 1 s, and every audit source's intervals chain by cursor, add up to the whole time and cover every moment |
| OutageModel.ValidatePacket | src/heterodyne/actions/deployment_outage.py:75-102 | The check with its loop accepts exactly the bound packets whose four transitions change the state and connect |
| OutageExact.PacketExact | src/heterodyne/actions/deployment_outage.py:75-102 | A packet passes exactly when its capsule is its release's, inside its window, and its four steps are named in order, change the state and connect |
| OutageJournals.OutageJournal.IssueStep | src/heterodyne/actions/deployment_outage_journal.py:167-186 | Hands out the step at the ordinal after recording it, or changes nothing |
| OutageJournals.OutageJournal.CompleteStep | src/heterodyne/actions/deployment_outage_journal.py:188-211 | Completes the issued step on its approved outcome, or changes nothing |
| OutageRuns.AtMostOnce | src/heterodyne/actions/deployment_outage_journal.py:167-186 | Over every run each step of each job is handed out at most once |
| OutageExact.RecordExact | src/heterodyne/actions/deployment_outage_journal.py:149-165 | A capsule is recorded exactly in its window, once: a new job takes its approval and nonce for good and its target while it runs |
| OutageExact.IssueExact | src/heterodyne/actions/deployment_outage_journal.py:167-186 | A step is issued exactly when the job is ready, in the forward window, in exactly the state before it and never before |
| OutageExact.CompleteExact | src/heterodyne/actions/deployment_outage_journal.py:188-211 | A step is completed exactly when issued, not completed, and found in exactly the state after it |
| OutageExact.RecoveryExact | src/heterodyne/actions/deployment_outage_journal.py:213-234 | A recovery command holds the job exactly when it is bound to the packet, in its own window and on the state observed, new, and the job has not ended |
| OutageExact.FailExact | src/heterodyne/actions/deployment_outage_journal.py:236-270 | A job fails without effect exactly when nothing was ever issued for it and every recovery asked of it, one at least if it is held, was a cancellation |
| OutageRuns.ProgressAlongChain | src/heterodyne/actions/deployment_outage_journal.py:188-211 | In every reachable state a job's ordinal is the number of its completed steps, what it observed is a first part of the approved chain, and no other open job holds its target |
| OutageRuns.ConnectedSteps | src/heterodyne/actions/deployment_outage.py:97-102 | Each issued step starts from the state the one before it was completed with |
| OutageRuns.RecoveryStops | src/heterodyne/actions/deployment_outage_journal.py:213-234 | After a recovery request no further step of that job is handed out |
| OutageRuns.NoEffectMeansNone | src/heterodyne/actions/deployment_outage_journal.py:236-270 | "failed-no-effect" means that no step of the job was ever handed out |
| LocalAlertDirectories.AlertDirectory.Publish | src/heterodyne/local_alerts.py:200-291 | Not cut short, it answers written, existing, coalesced or held exactly as the directory it found says. Wherever it stops: capacity and disjointness hold, what was deleted is settled with its recorded bytes, the shortest run oldest first, any deletion gives the new alert its room, and a saved change is accounted for |
| LocalAlertDirectories.AlertDirectory.Evict | src/heterodyne/local_alerts.py:247-254 | The loop removes settled names oldest first and stops as soon as there is room |
| LocalAlertDirectories.AlertDirectory.ScanSettled | src/heterodyne/local_alerts.py:229-243 | The loop returns all settled names, or finds one whose visible bytes are not the recorded ones |
| LocalAlertDirectories.AlertDirectory.Coalesce | src/heterodyne/local_alerts.py:255-281 | Counts an intent once, within 255 pending ones: when it newly becomes pending its namespace's count is one more, capped at 2^64-1, and its oldest time is set if it had none; the other namespace and the retired count stay |
| LocalAlertCounts.CountsOverHistory | src/heterodyne/local_alerts.py:200-340 | Over any sequence of publications and settlements, cut short or not, each count is the number of times an intent of its namespace newly became pending, or was retired, up to the cap, and the oldest time is that of the first |
| LocalAlertDirectories.AlertDirectory.Settle | src/heterodyne/local_alerts.py:294-340 | Answers exactly whether the disposition is one this intent can get or already has; records one disposition for good, or releases a counted intent, and counts each retirement once; "published" needs the visible recorded bytes |
| LocalAlertDirectories.RoomMade | src/heterodyne/local_alerts.py:244-246 | If the count can fall below 255 and something is settled, the evictions make room |
| DnsQueryProofs.QueryName | docs/spikes/s9-10/analyze.py:79-109 | The loops read only within bounds and return the name of the parsed query |
| DnsQueryProofs.NameExact | docs/spikes/s9-10/analyze.py:79-109 | A name is returned exactly for the encodings of well-formed queries, and is the name asked for |
| DnsQueryProofs.JoinInjective | docs/spikes/s9-10/analyze.py:97-97 | A dotted name determines its labels |

## Left out

- SQLite, JSON and msgspec codecs, SHA-256, file locks and modes: transactions are atomic, records are typed, digests are injective.
- Row columns that repeat the record (`version`, keys) are folded into the record; a request's `outstanding` column is kept.
- The query for reconciliation children uses SQL `LIKE`; the model matches the approval exactly, so wildcard characters in an approval identifier are not modelled.
- Unicode rules for denial reasons (`decisions.py`) and the legacy denial-session domain: a denial reason is either acceptable or not.
- `repin_enriched_ask`: no journal transition reaches it.
- Journal schema creation and upgrade, and the record-size limits of stored payloads.
- A request's prior denials and shell identifiers are sets.
- Whether 96 events always suffice to finish a request: dispatch admission is an ordinary event.
- The ledger's 100,000-object bound, its prepared-file bound and the 8 MB file bound: storing an object never holds in the model.
- The ledger's UUID of a fence is a parameter that must be unused.
- The proof adapters are inputs (`Answers`, `Oracle`, `Evidence`), one answer per request; an adapter's answer includes that the artifacts named in the record are retained.
- Evaluators.Interval: the entry receipt's own checks (gates, governing chain, drills, migration) are one answer, because they compare fields of one record that nothing later depends on.
- The archive receipt and current release of an assessment, which `commit` requires to be absent.
- The ledger's fence file holds no heartbeat digest in practice; that always-empty field is dropped.
- `DropRetry` may happen while any fence stands in runs of writes; only `Begin` makes that write.
- The archive and final-release evaluation in `evaluator.py`.
- Frozen-copy construction, routes and reminders in `delivery.py`: a copy is its identifiers, hashes and counts; clocks are exact reals or missing.
- `validate(release, targets)` and the source authorities of the outage packet: one boolean per call.
- The alert metadata's 262,144-byte bound, private-file checks and text screening: `admissible` says whether an intent passes; a file name stands for its identity.
- The other helpers of `analyze.py`.
