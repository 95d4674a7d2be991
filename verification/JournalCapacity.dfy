/** Every outstanding request keeps its unspent terminal reserve inside the 16,384-event log, over every run. */
module JournalCapacity {
  import opened Outcomes
  import opened Clocks
  import opened Requests
  import opened Decisions
  import opened Dispatches
  import opened Transitions
  import opened JournalTables
  import opened JournalSpec

  /** Rows agree with the records they hold. */
  ghost predicate RowsAgree(db: Database) {
    forall k :: k in db.requests ==>
                  && db.requests[k].value.key == k
                  && db.requests[k].outstanding == Outstanding(db.requests[k].value)
                  && db.requests[k].workstream == db.requests[k].value.origin.workstream
                  && db.requests[k].bead == db.requests[k].value.origin.bead
  }

  ghost predicate UsageBounded(db: Database) {
    forall k :: ReserveUsed(db.events, k) <= TERMINAL_RESERVE && (ReserveUsed(db.events, k) > 0 ==> k in db.requests)
  }

  /** The capacity law: the log plus every unspent reserve fits. */
  ghost predicate CapacityHolds(db: Database) {
    && UsageBounded(db)
    && |db.events| + Reserved(db) <= MAX_EVENTS
  }

  ghost predicate Holds(db: Database, o: CreationKey) {
    o in db.requests && db.requests[o].outstanding
  }

  /** The same law inside a transaction. A paying owner's spent events are borrowed from its own reserve. */
  ghost predicate TxSound(tx: Tx) {
    && UsageBounded(tx.db)
    && (tx.owner.Some? ==> tx.owner.value in tx.db.requests)
    && (tx.spent > 0 ==> tx.owner.Some? && tx.spent + 1 <= TERMINAL_RESERVE - ReserveUsed(tx.db.events, tx.owner.value))
    && if tx.owner.None? || Holds(tx.db, tx.owner.value)
       then |tx.db.events| + Reserved(tx.db) <= MAX_EVENTS + tx.spent
       else |tx.db.events| + Reserved(tx.db) + One(tx.spent > 0) <= MAX_EVENTS
  }

  // ---- arithmetic of the reserve sum ----

  lemma {:induction false} UnspentSumRemove(db: Database, keys: set<CreationKey>, k: CreationKey)
    requires k in keys
    ensures UnspentSum(db, keys) == Unspent(db, k) + UnspentSum(db, keys - {k})
    decreases |keys|
  {
    var j :| j in keys && UnspentSum(db, keys) == Unspent(db, j) + UnspentSum(db, keys - {j});
    if j != k {
      UnspentSumRemove(db, keys - {j}, k);
      UnspentSumRemove(db, keys - {k}, j);
      assert keys - {j} - {k} == keys - {k} - {j};
    }
  }

  lemma {:induction false} UnspentSumSame(db: Database, after: Database, keys: set<CreationKey>)
    requires forall j :: j in keys ==> Unspent(after, j) == Unspent(db, j)
    ensures UnspentSum(after, keys) == UnspentSum(db, keys)
    decreases |keys|
  {
    if keys != {} {
      var k :| k in keys;
      UnspentSumRemove(db, keys, k);
      UnspentSumRemove(after, keys, k);
      UnspentSumSame(db, after, keys - {k});
    }
  }

  /** Changing one request's reserve changes the sum by exactly that much. */
  lemma ReservedDelta(db: Database, after: Database, k: CreationKey)
    requires after.requests.Keys == db.requests.Keys + {k}
    requires forall j :: j in db.requests && j != k ==> Unspent(after, j) == Unspent(db, j)
    ensures Reserved(after) - Unspent(after, k) == Reserved(db) - (if k in db.requests then Unspent(db, k) else 0)
  {
    UnspentSumRemove(after, after.requests.Keys, k);
    UnspentSumSame(db, after, after.requests.Keys - {k});
    if k in db.requests {
      UnspentSumRemove(db, db.requests.Keys, k);
      assert after.requests.Keys - {k} == db.requests.Keys - {k};
    } else {
      assert after.requests.Keys - {k} == db.requests.Keys;
    }
  }

  lemma ReserveUsedAppend(events: seq<Event>, e: Event, k: CreationKey)
    ensures ReserveUsed(events + [e], k) == ReserveUsed(events, k)
                                            + (if e.UsageEvent? && e.owner == k then e.amount else 0)
  {
    assert (events + [e])[..|events|] == events;
  }

  /** An event that is not a usage event leaves every reserve alone. */
  lemma ReservedAppend(db: Database, e: Event)
    requires !e.UsageEvent?
    ensures Reserved(db.(events := db.events + [e])) == Reserved(db)
    ensures UsageBounded(db) ==> UsageBounded(db.(events := db.events + [e]))
  {
    var after := db.(events := db.events + [e]);
    forall k ensures ReserveUsed(after.events, k) == ReserveUsed(db.events, k) {
      ReserveUsedAppend(db.events, e, k);
    }
    UnspentSumSame(db, after, db.requests.Keys);
  }

  lemma UsageAdded(db: Database, e: Event)
    requires e.UsageEvent? && e.owner in db.requests && UsageBounded(db)
    requires e.amount <= TERMINAL_RESERVE - ReserveUsed(db.events, e.owner)
    ensures forall k :: ReserveUsed(db.events + [e], k) ==
                        ReserveUsed(db.events, k) + (if k == e.owner then e.amount else 0)
    ensures UsageBounded(db.(events := db.events + [e]))
  {
    forall k ensures ReserveUsed(db.events + [e], k) ==
                     ReserveUsed(db.events, k) + (if k == e.owner then e.amount else 0) {
      ReserveUsedAppend(db.events, e, k);
    }
  }

  /** A usage event returns exactly its amount from an outstanding owner's reserve. */
  lemma ReservedUsage(db: Database, o: CreationKey, version: nat, amount: nat)
    requires o in db.requests && UsageBounded(db)
    requires amount <= TERMINAL_RESERVE - ReserveUsed(db.events, o)
    ensures var after := db.(events := db.events + [UsageEvent(o, version, amount)]);
            && UsageBounded(after)
            && Reserved(after) == Reserved(db) - (if Holds(db, o) then amount else 0)
  {
    var e := UsageEvent(o, version, amount);
    var after := db.(events := db.events + [e]);
    UsageAdded(db, e);
    assert db.requests.Keys + {o} == db.requests.Keys;
    ReservedDelta(db, after, o);
  }

  lemma UnspentWithin(db: Database, o: CreationKey)
    requires o in db.requests
    ensures Unspent(db, o) <= Reserved(db)
  {
    UnspentSumRemove(db, db.requests.Keys, o);
  }

  // ---- events and commit ----

  /** Every admitted record event keeps the transaction sound. */
  lemma EmitSound(tx: Tx, e: Event)
    requires TxSound(tx) && !e.UsageEvent? && Emit(tx, e).Ok?
    ensures TxSound(Emit(tx, e).value)
    ensures Emit(tx, e).value ==
            Tx(tx.db.(events := tx.db.events + [e]), tx.owner, if Budgeted(tx) then tx.spent + 1 else tx.spent)
  {
    ReservedAppend(tx.db, e);
    if tx.owner.Some? {
      ReserveUsedAppend(tx.db.events, e, tx.owner.value);
    }
  }

  lemma {:induction false} EmitAllSound(tx: Tx, es: seq<Event>)
    requires TxSound(tx) && EmitAll(tx, es).Ok?
    requires forall e :: e in es ==> !e.UsageEvent?
    ensures TxSound(EmitAll(tx, es).value)
    ensures EmitAll(tx, es).value.db == tx.db.(events := tx.db.events + es)
    ensures EmitAll(tx, es).value.owner == tx.owner
    decreases |es|
  {
    if es == [] {
      assert tx.db.events + es == tx.db.events;
    } else {
      EmitSound(tx, es[0]);
      EmitAllSound(Emit(tx, es[0]).value, es[1..]);
      assert tx.db.events + [es[0]] + es[1..] == tx.db.events + es;
    }
  }

  /** Refusal is exact while the payer is outstanding: only its own remaining reserve can refuse it. */
  lemma BudgetRefusalExact(tx: Tx, e: Event)
    requires TxSound(tx) && !e.UsageEvent? && Budgeted(tx)
    requires tx.owner.Some? && Holds(tx.db, tx.owner.value)
    requires !SlotTaken(tx.db.events, SlotOf(e))
    ensures Emit(tx, e).Refused? <==> tx.spent + 2 > TERMINAL_RESERVE - ReserveUsed(tx.db.events, tx.owner.value)
  {
    UnspentWithin(tx.db, tx.owner.value);
  }

  /**
    * For a payer that has become terminal the second test counts too: an event is refused exactly when its own reserve
    * is spent or when two more events would not fit beside the reserves of the others.
    */
  lemma SettledBudgetRefusalExact(tx: Tx, e: Event)
    requires TxSound(tx) && !e.UsageEvent? && Budgeted(tx)
    requires tx.owner.Some? && !Holds(tx.db, tx.owner.value)
    requires !SlotTaken(tx.db.events, SlotOf(e))
    ensures Emit(tx, e).Refused? <==>
            || tx.spent + 2 > TERMINAL_RESERVE - ReserveUsed(tx.db.events, tx.owner.value)
            || |tx.db.events| + 2 + Reserved(tx.db) > MAX_EVENTS
  {
  }

  /** Without a payer an event is refused exactly when it would touch someone's reserve. */
  lemma OrdinaryRefusalExact(tx: Tx, e: Event)
    requires TxSound(tx) && tx.owner.None? && !SlotTaken(tx.db.events, SlotOf(e))
    ensures Emit(tx, e).Refused? <==> |tx.db.events| + 1 + Reserved(tx.db) > MAX_EVENTS
  {
  }

  /**
    * The restriction to an outstanding payer is needed. In a full log a payer that has just become terminal,
    * with two events of reserve left, pays for two more events as ordinary ones; the third is within its own
    * reserve and is still refused, by the second test alone.
    */
  lemma SettledPayerRefusedBySecondTest(tx: Tx, e: Event)
    requires TxSound(tx) && !e.UsageEvent? && tx.spent == 0
    requires tx.owner.Some? && !Holds(tx.db, tx.owner.value)
    requires ReserveUsed(tx.db.events, tx.owner.value) == TERMINAL_RESERVE - 2
    requires |tx.db.events| + Reserved(tx.db) == MAX_EVENTS
    ensures tx.spent + 2 <= TERMINAL_RESERVE - ReserveUsed(tx.db.events, tx.owner.value)
    ensures Emit(tx, e) == Refused("fixture-terminal-capacity-budget-exhausted")
  {
  }

  // ---- such a transaction ----

  /** A log of `n + 1` events in which one owner has recorded the use of 94 events of its reserve. */
  ghost function WornLog(o: CreationKey, n: nat): seq<Event> {
    if n == 0 then [UsageEvent(o, 1, TERMINAL_RESERVE - 2)]
    else WornLog(o, n - 1) + [ClockEvent(RequestRow(o), n, Clock("boot", n, n))]
  }

  lemma {:induction false} WornLogUsage(o: CreationKey, n: nat, k: CreationKey)
    ensures |WornLog(o, n)| == n + 1
    ensures ReserveUsed(WornLog(o, n), k) == if k == o then TERMINAL_RESERVE - 2 else 0
    decreases n
  {
    if n == 0 {
      assert ReserveUsed([], k) == 0;
      assert WornLog(o, 0)[..0] == [];
    } else {
      WornLogUsage(o, n - 1, k);
      assert WornLog(o, n)[..n] == WornLog(o, n - 1);
    }
  }

  lemma NoReserves(db: Database, o: CreationKey)
    requires db.requests.Keys == {o} && !db.requests[o].outstanding
    ensures Reserved(db) == 0
  {
    UnspentSumRemove(db, db.requests.Keys, o);
    assert db.requests.Keys - {o} == {};
  }

  /**
    * A sound transaction in which the second test alone refuses: the log is full, and its payer has just become
    * terminal with two events of its reserve left.
    */
  lemma SettledPayerWitness(row: Row, e: Event) returns (tx: Tx)
    requires !row.outstanding && !e.UsageEvent?
    ensures TxSound(tx) && Budgeted(tx) && tx.owner == Some(row.value.key) && !Holds(tx.db, row.value.key)
    ensures tx.spent + 2 <= TERMINAL_RESERVE - ReserveUsed(tx.db.events, row.value.key)
    ensures Emit(tx, e) == Refused("fixture-terminal-capacity-budget-exhausted")
  {
    var o := row.value.key;
    var db := EMPTY_DATABASE.(requests := map[o := row], events := WornLog(o, MAX_EVENTS - 1));
    tx := Tx(db, Some(o), 0);
    forall k ensures ReserveUsed(db.events, k) == if k == o then TERMINAL_RESERVE - 2 else 0 {
      WornLogUsage(o, MAX_EVENTS - 1, k);
    }
    WornLogUsage(o, MAX_EVENTS - 1, o);
    NoReserves(db, o);
    SettledPayerRefusedBySecondTest(tx, e);
  }

  lemma {:induction false} UsageVersionsBelow(events: seq<Event>, k: CreationKey, i: nat)
    requires i < |events| && events[i].UsageEvent? && events[i].owner == k
    ensures events[i].version < NextUsageVersion(events, k)
  {
    if i < |events| - 1 {
      UsageVersionsBelow(events[..|events| - 1], k, i);
    }
  }

  /** Once its events are admitted, a sound transaction always commits, and the law holds afterwards. */
  lemma CommitSound(tx: Tx)
    requires TxSound(tx)
    ensures Commit(tx).Ok?
    ensures UsageBounded(Commit(tx).value)
    ensures |Commit(tx).value.events| + Reserved(Commit(tx).value) <= MAX_EVENTS
    ensures tx.spent == 0 ==> Commit(tx).value == tx.db
    ensures tx.spent > 0 ==>
              Commit(tx).value ==
              tx.db.(events := tx.db.events
              + [UsageEvent(tx.owner.value, NextUsageVersion(tx.db.events, tx.owner.value), tx.spent + 1)])
  {
    if tx.spent > 0 {
      var o := tx.owner.value;
      var e := UsageEvent(o, NextUsageVersion(tx.db.events, o), tx.spent + 1);
      if SlotTaken(tx.db.events, SlotOf(e)) {
        var i :| 0 <= i < |tx.db.events| && SlotOf(tx.db.events[i]) == SlotOf(e);
        UsageVersionsBelow(tx.db.events, o, i);
        assert false;
      }
      UnspentWithin(tx.db, o);
      ReservedUsage(tx.db, o, e.version, e.amount);
    }
  }

  /** Settling the payer inside its own transaction keeps the transaction sound. */
  lemma StoreSound(tx: Tx, k: CreationKey, r: Request)
    requires TxSound(tx) && k in tx.db.requests
    requires Outstanding(r) ==> tx.db.requests[k].outstanding
    ensures TxSound(tx.(db := StoreRequest(tx.db, k, r)))
  {
    var after := StoreRequest(tx.db, k, r);
    assert tx.db.requests.Keys + {k} == after.requests.Keys;
    ReservedDelta(tx.db, after, k);
  }

  lemma BeginSound(db: Database, owner: Option<CreationKey>)
    requires CapacityHolds(db) && (owner.Some? ==> Holds(db, owner.value))
    ensures TxSound(Begin(db, owner))
  {
  }

  /** Tables the allocator never reads may change freely. */
  lemma SameLogSound(tx: Tx, after: Database)
    requires TxSound(tx) && after.requests == tx.db.requests && after.events == tx.db.events
    ensures TxSound(tx.(db := after))
  {
    UnspentSumSame(tx.db, after, tx.db.requests.Keys);
  }
}
