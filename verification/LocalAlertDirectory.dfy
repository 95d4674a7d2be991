/** The alert directory as publishers change it: any write may be the last one before a crash. */
module LocalAlertDirectories {
  import opened Outcomes
  import opened LocalAlerts
  import opened LocalAlertCounts

  lemma GoesNext(ages: map<string, Payload>, gone: set<string>, todo: set<string>, x: string)
    requires OldestGone(ages, gone, todo) && Oldest(ages, todo, x)
    ensures OldestGone(ages, gone + {x}, todo - {x})
    ensures forall y :: y in gone ==> Older(ages, y, x)
  {
  }

  lemma StillNeeded(meta: Metadata, ages: map<string, Payload>, gone: set<string>, x: string)
    requires x !in gone && (forall y :: y in gone ==> Older(ages, y, x)) && !FitsWithout(meta, ages, gone)
    ensures NewestNeeded(meta, ages, gone + {x}, x)
  {
    assert gone + {x} - {x} == gone;
  }

  lemma FilesWithout(ages: map<string, Payload>, gone: set<string>, x: string)
    ensures ages - gone - {x} == ages - (gone + {x}) && (x !in ages - gone ==> ages - gone == ages - (gone + {x}))
  {
  }

  lemma EvictsNext(meta: Metadata, ages: map<string, Payload>, names: set<string>, gone: set<string>, x: string)
    requires gone <= names && OldestGone(ages, gone, names - gone) && Oldest(ages, names - gone, x)
    requires !FitsWithout(meta, ages, gone)
    ensures Evicting(meta, ages, names, gone + {x}) && |names - (gone + {x})| < |names - gone|
  {
    GoesNext(ages, gone, names - gone, x);
    assert names - gone - {x} == names - (gone + {x});
    StillNeeded(meta, ages, gone, x);
  }

  lemma KeysOf(ages: map<string, Payload>, gone: set<string>)
    ensures |ages - gone| == |ages.Keys - gone|
  {
    assert (ages - gone).Keys == ages.Keys - gone;
  }

  // ---- the metadata each operation saves ----

  function Counted(meta: Metadata, i: Intent): Metadata {
    var a := if i.namespace in meta.aggregates then meta.aggregates[i.namespace] else Aggregate(0, 0, None);
    meta.(pending := meta.pending[FileName(i) := PayloadOf(i)],
    aggregates :=
    meta.aggregates[i.namespace :=
    a.(coalesced := Bump(a.coalesced), oldest := if a.oldest.Some? then a.oldest else Some(i.createdAt))])
  }

  function Admitted(meta: Metadata, i: Intent, gone: set<string>): Metadata {
    meta.(entries := (meta.entries - gone)[FileName(i) := Entry(PayloadOf(i), i.kind, None)], pending :=
    meta.pending - {FileName(i)})
  }

  function CountRetired(
    aggregates: map<Namespace, Aggregate>, ns: Namespace, d: Disposition): map<Namespace, Aggregate> {
    if d.Retired? && ns in aggregates then
      aggregates[ns := aggregates[ns].(retired := Bump(aggregates[ns].retired))] else aggregates
  }

  /** A counted intent is let go: it never had a file. */
  function Released(meta: Metadata, i: Intent, d: Disposition): Metadata {
    meta.(pending := meta.pending - {FileName(i)}, aggregates := CountRetired(meta.aggregates, i.namespace, d))
  }

  function Disposed(meta: Metadata, i: Intent, d: Disposition): Metadata {
    if FileName(i) !in meta.entries then meta else
    meta.(entries := meta.entries[FileName(i) := meta.entries[FileName(i)].(settled := Some(d))],
    aggregates := CountRetired(meta.aggregates, i.namespace, d))
  }

  lemma AdmittedDoes(meta: Metadata, i: Intent, gone: set<string>)
    requires Aggregated(meta) && gone <= Settled(meta) && FileName(i) !in meta.entries
    ensures Does(meta, Publishing(i), Admitted(meta, i, gone))
  {
  }

  lemma CountedDoes(meta: Metadata, i: Intent)
    requires Aggregated(meta) && FileName(i) !in meta.pending && FileName(i) !in meta.entries
    ensures Does(meta, Publishing(i), Counted(meta, i))
  {
  }

  lemma ReleasedDoes(meta: Metadata, i: Intent, d: Disposition)
    requires Aggregated(meta) && FileName(i) in meta.pending && FileName(i) !in meta.entries
    ensures Does(meta, Settling(i, d), Released(meta, i, d))
  {
  }

  lemma DisposedDoes(meta: Metadata, i: Intent, d: Disposition)
    requires Aggregated(meta) && FileName(i) in meta.entries && meta.entries[FileName(i)].settled.None?
    requires FileName(i) !in meta.pending
    ensures Does(meta, Settling(i, d), Disposed(meta, i, d))
  {
  }

  lemma OwnName(i: Intent)
    ensures Own(FileName(i))
  {
  }

  lemma OneMoreEntry(entries: map<string, Entry>, gone: set<string>, name: string, e: Entry)
    requires |entries.Keys - gone| < MaxExact
    ensures var next := (entries - gone)[name := e]; |next| <= MaxExact && next.Keys == (entries.Keys - gone) + {name}
  {
    var next := (entries - gone)[name := e];
    assert next.Keys == (entries.Keys - gone) + {name};
  }

  lemma OneFewerPending(pending: map<string, Payload>, name: string)
    ensures |pending - {name}| <= |pending| && (pending - {name}).Keys == pending.Keys - {name}
  {
    assert (pending - {name}).Keys == pending.Keys - {name};
    SubsetSize((pending - {name}).Keys, pending.Keys);
  }

  lemma AdmittedSound(meta: Metadata, files: map<string, Payload>, i: Intent, gone: set<string>)
    requires Inv(meta, files) && |meta.entries.Keys - gone| < MaxExact && gone !! files.Keys
    ensures Inv(Admitted(meta, i, gone), files)
  {
    var name, e := FileName(i), Entry(PayloadOf(i), i.kind, None);
    OneMoreEntry(meta.entries, gone, name, e);
    OneFewerPending(meta.pending, name);
    var next := Admitted(meta, i, gone);
    assert next.entries == (meta.entries - gone)[name := e] && next.pending == meta.pending - {name};
    forall n | n in files && Own(n) ensures n in next.entries {
      assert n in meta.entries && n !in gone;
    }
  }

  lemma CountedSound(meta: Metadata, files: map<string, Payload>, i: Intent)
    requires Inv(meta, files) && FileName(i) !in meta.entries && |meta.pending| < MaxExact
    ensures Inv(Counted(meta, i), files)
  {
    assert Counted(meta, i).pending.Keys == meta.pending.Keys + {FileName(i)};
  }

  lemma ReleasedSound(meta: Metadata, files: map<string, Payload>, i: Intent, d: Disposition)
    requires Inv(meta, files)
    ensures Inv(Released(meta, i, d), files)
  {
    var next := Released(meta, i, d);
    assert next.pending.Keys == meta.pending.Keys - {FileName(i)};
    SubsetSize(next.pending.Keys, meta.pending.Keys);
  }

  lemma DisposedSound(meta: Metadata, files: map<string, Payload>, i: Intent, d: Disposition)
    requires Inv(meta, files)
    ensures Inv(Disposed(meta, i, d), files)
  {
    assert Disposed(meta, i, d).entries.Keys == meta.entries.Keys;
  }

  /** Removing every settled notice makes room if the count says it can. */
  lemma AllGoneFits(meta: Metadata, ages: map<string, Payload>, names: set<string>)
    requires |meta.entries| <= MaxExact && names != {} && names <= meta.entries.Keys
    requires |ages| - |names * ages.Keys| < MaxExact
    ensures FitsWithout(meta, ages, names)
  {
    assert ages.Keys == (ages.Keys - names) + (names * ages.Keys);
    var x :| x in names;
    SubsetSize(meta.entries.Keys - names, meta.entries.Keys - {x});
  }

  lemma RoomMade(meta: Metadata, ages: map<string, Payload>, names: set<string>, gone: set<string>)
    requires |meta.entries| <= MaxExact && names <= meta.entries.Keys && |ages| - |names * ages.Keys| < MaxExact
    requires gone <= names && gone != {} && (FitsWithout(meta, ages, gone) || names - gone == {})
    ensures FitsWithout(meta, ages, gone)
  {
    if names - gone == {} {
      assert forall x :: x in names ==> x in gone || x in names - gone;
      assert gone == names;
      AllGoneFits(meta, ages, names);
    }
  }

  lemma OneMoreFile(files: map<string, Payload>, name: string, bytes: Payload)
    ensures |files[name := bytes]| <= |files| + 1
  {
    assert files[name := bytes].Keys == files.Keys + {name};
  }

  lemma FewerFiles(meta: Metadata, files: map<string, Payload>, gone: set<string>)
    requires Inv(meta, files)
    ensures Inv(meta, files - gone)
  {
  }

  /** After the evictions, room is what was computed from the old files. */
  lemma RoomLeft(meta: Metadata, files: map<string, Payload>, ages: map<string, Payload>, gone: set<string>)
    requires files == ages - gone && (gone != {} ==> ShortestPrefix(meta, ages, gone))
    ensures gone != {} ==> Fits(|files|, |meta.entries.Keys - gone|)
    ensures gone !! files.Keys
  {
    KeysOf(ages, gone);
  }

  /** Once the evictions are over there is room exactly if there was, or would be without the settled notices. */
  predicate RoomJudged(meta: Metadata, ages: map<string, Payload>, files: map<string, Payload>, gone: set<string>) {
    var settled := Settled(meta);
    && (RoomFor(ages.Keys, meta.entries.Keys) || !Tampered(meta, ages))
    && (Fits(|files|, |meta.entries.Keys - gone|) <==>
        || RoomFor(ages.Keys, meta.entries.Keys)
        || RoomFor(ages.Keys - settled, meta.entries.Keys - settled))
  }

  lemma RoomDecided(meta: Metadata, ages: map<string, Payload>, files: map<string, Payload>, gone: set<string>)
    requires Inv(meta, ages) && !Fits(|ages|, |meta.entries|) && SettledIntact(meta, ages)
    requires |ages| - |Settled(meta) * ages.Keys| < MaxExact
    requires files == ages - gone && gone <= Settled(meta)
    requires if gone == {} then Settled(meta) == {} else FitsWithout(meta, ages, gone)
    ensures RoomJudged(meta, ages, files, gone)
  {
    var settled := Settled(meta);
    KeysOf(ages, gone);
    if gone != {} {
      SubsetSize(ages.Keys - settled, ages.Keys - gone);
      SubsetSize(meta.entries.Keys - settled, meta.entries.Keys - gone);
    } else {
      assert ages.Keys - settled == ages.Keys && meta.entries.Keys - settled == meta.entries.Keys;
      assert meta.entries.Keys - gone == meta.entries.Keys;
    }
  }

  /** The evictions over all settled names end with room, or there was nothing to evict. */
  lemma Evicted(meta: Metadata, ages: map<string, Payload>, files: map<string, Payload>, gone: set<string>)
    requires Inv(meta, ages) && !Fits(|ages|, |meta.entries|) && SettledIntact(meta, ages)
    requires |ages| - |Settled(meta) * ages.Keys| < MaxExact
    requires files == ages - gone && gone <= Settled(meta)
    requires FitsWithout(meta, ages, gone) || Settled(meta) - gone == {}
    ensures RoomJudged(meta, ages, files, gone)
    ensures gone != {} ==> FitsWithout(meta, ages, gone)
  {
    if gone != {} {
      RoomMade(meta, ages, Settled(meta), gone);
    } else {
      assert ages.Keys - gone == ages.Keys && meta.entries.Keys - gone == meta.entries.Keys;
      assert Settled(meta) - gone == Settled(meta);
    }
    RoomDecided(meta, ages, files, gone);
  }

  lemma RoomAlready(meta: Metadata, files: map<string, Payload>)
    requires Fits(|files|, |meta.entries|)
    ensures RoomJudged(meta, files, files, {})
  {
    assert meta.entries.Keys - {} == meta.entries.Keys;
  }

  lemma NoRoom(meta: Metadata, files: map<string, Payload>)
    requires Inv(meta, files) && !Fits(|files|, |meta.entries|) && SettledIntact(meta, files)
    requires |files| - |Settled(meta) * files.Keys| >= MaxExact
    ensures RoomJudged(meta, files, files, {})
  {
    var settled := Settled(meta);
    assert files.Keys == (files.Keys - settled) + (settled * files.Keys);
    assert meta.entries.Keys - {} == meta.entries.Keys;
  }

  /**
    * What a publish leaves. Whatever it deletes is a settled notice with its recorded bytes, the shortest run of them
    * oldest first; and if it deletes anything the new alert gets the room.
    */
  ghost predicate PublishLeaves(
    was: Metadata, ages: map<string, Payload>, meta: Metadata, files: map<string, Payload>, i: Intent, r: Outcome,
    gone: set<string>) {
    var name, bytes := FileName(i), PayloadOf(i);
    && gone <= Settled(was) && (gone != {} ==> SettledIntact(was, ages))
    && (files == ages - gone || (r.Written? && files == (ages - gone)[name := bytes]))
    && (gone != {} ==> r.Written? || r.Crashed?)
    && (gone != {} && r.Written? ==> ShortestPrefix(was, ages, gone) && |files| <= MaxExact)
    && (meta == was || meta == Admitted(was, i, gone) || meta == Counted(was, i))
    && (r.Written? ==> name in meta.entries && meta.entries[name].hash == bytes && name in files)
    && (r.Coalesced? ==> gone == {} && name in meta.pending && meta.pending[name] == bytes)
    && (name in was.pending && r.Coalesced? ==> meta == was)
    && (r.Held? ==> meta == was && files == ages)
  }

  /** With room the answer is that it is written; without, nothing was evicted, and it is counted or held. */
  lemma RoomAnswers(
    meta: Metadata, ages: map<string, Payload>, files: map<string, Payload>, gone: set<string>, overflow: bool,
    name: string)
    requires RoomJudged(meta, ages, files, gone)
    requires files == ages - gone && (gone != {} ==> ShortestPrefix(meta, ages, gone))
    ensures gone !! files.Keys
    ensures Fits(|files|, |meta.entries.Keys - gone|) ==> NewAnswer(meta, ages, overflow, name) == Written
    ensures !Fits(|files|, |meta.entries.Keys - gone|) ==>
              && gone == {} && files == ages
              && NewAnswer(meta, ages, overflow, name) == CountAnswer(meta, files, overflow, name)
  {
    RoomLeft(meta, files, ages, gone);
    if gone == {} {
      NothingGone(ages, gone);
    }
    AnswerByRoom(meta, ages, Fits(|files|, |meta.entries.Keys - gone|), overflow, name);
  }

  lemma NothingGone(ages: map<string, Payload>, gone: set<string>)
    requires gone == {}
    ensures ages - gone == ages
  {
  }

  lemma AnswerByRoom(meta: Metadata, files: map<string, Payload>, room: bool, overflow: bool, name: string)
    requires RoomFor(files.Keys, meta.entries.Keys) || !Tampered(meta, files)
    requires room <==> || RoomFor(files.Keys, meta.entries.Keys)
                       || RoomFor(files.Keys - Settled(meta), meta.entries.Keys - Settled(meta))
    ensures NewAnswer(meta, files, overflow, name) ==
            if room then Written else CountAnswer(meta, files, overflow, name)
  {
  }

  /** Without room. */
  function CountAnswer(meta: Metadata, files: map<string, Payload>, overflow: bool, name: string): Outcome {
    if (|files| >= 256 && !overflow) || (name !in meta.pending && |meta.pending| >= 255) then Held else Coalesced
  }

  /** Stopped while making room: something may be gone already, but only in a crash. */
  lemma StopLeaves(
    meta: Metadata, ages: map<string, Payload>, files: map<string, Payload>, overflow: bool, i: Intent, r: Outcome,
    gone: set<string>)
    requires files == ages - gone && gone <= Settled(meta) && (gone != {} ==> SettledIntact(meta, ages))
    requires r == Held || r == Crashed
    requires r == Held ==> gone == {} && !Fits(|ages|, |meta.entries|) && Tampered(meta, ages)
    ensures PublishLeaves(meta, ages, meta, files, i, r, gone)
    ensures r == Held ==> NewAnswer(meta, ages, overflow, FileName(i)) == Held
  {
    assert ages - {} == ages;
  }

  class AlertDirectory {
    var meta: Metadata
    /** Visible `.json` files other than the overflow notice. */
    var files: map<string, Payload>
    var overflow: bool
    /** Writes left before this publisher crashes. */
    var power: nat
    /** The saved metadata so far, and what each save was for. */
    ghost var states: seq<Metadata>
    ghost var acts: seq<Act>

    ghost predicate Valid()
      reads this
    {
      Inv(meta, files) && Recorded()
    }

    ghost predicate Recorded()
      reads this
    {
      IsHistory(states, acts) && states[|acts|] == meta
    }

    constructor (power: nat)
      ensures Valid() && meta.entries == map[] && meta.pending == map[] && files == map[] && !overflow
      ensures this.power == power
    {
      meta := Fresh;
      files, overflow := map[], false;
      states, acts := [Fresh], [];
      this.power := power;
    }

    // ---- the environment ----

    /** Another producer's file appears; it only takes up room. */
    method ForeignFile(name: string, bytes: Payload)
      requires Valid() && !Own(name)
      modifies this`files
      ensures Valid() && files == old(files)[name := bytes]
    {
      files := files[name := bytes];
    }

    /** A visible file is taken away from outside. */
    method Vanish(name: string)
      requires Valid()
      modifies this`files
      ensures Valid() && files == old(files) - {name}
    {
      files := files - {name};
    }

    method Restart(power: nat)
      requires Valid()
      modifies this`power
      ensures Valid() && this.power == power
    {
      this.power := power;
    }

    // ---- single writes ----

    method Unlink(name: string) returns (ok: bool)
      modifies this`files, this`power
      ensures files == if ok then old(files) - {name} else old(files)
      ensures !ok ==> power == 0
    {
      ok := power > 0;
      if ok {
        power := power - 1;
        files := files - {name};
      }
    }

    method Save(m: Metadata, ghost act: Act) returns (ok: bool)
      requires Recorded() && Does(meta, act, m)
      modifies this`meta, this`power, this`states, this`acts
      ensures Recorded() && meta == if ok then m else old(meta)
      ensures if ok then states == old(states) + [m] && acts == old(acts) + [act]
              else states == old(states) && acts == old(acts) && power == 0
    {
      ok := power > 0;
      if ok {
        power := power - 1;
        meta := m;
        HistoryGrows(states, acts, act, m);
        states, acts := states + [m], acts + [act];
      }
    }

    /** The recorded alert becomes visible, unless it already is. */
    method WriteAlert(name: string, bytes: Payload) returns (r: Outcome)
      requires Valid() && name in meta.entries
      modifies this`files, this`power
      ensures Valid() && (r.Written? || r.Existing? || r.Held? || r.Crashed?)
      ensures r.Written? <==> name !in old(files) && files == old(files)[name := bytes]
      ensures !r.Written? ==> files == old(files)
      ensures r.Existing? <==> name in old(files) && old(files)[name] == bytes
      ensures r.Crashed? ==> name !in files && power == 0
      ensures r.Held? ==> name in files && files[name] != bytes
    {
      if name in files {
        return if files[name] == bytes then Existing else Held;
      }
      if power == 0 {
        return Crashed;
      }
      power := power - 1;
      files := files[name := bytes];
      r := Written;
    }

    // ---- eviction ----

    /** Collect the settled names, unless a visible one no longer has its recorded bytes. */
    method ScanSettled() returns (intact: bool, names: set<string>)
      ensures intact <==> SettledIntact(meta, files)
      ensures intact ==> names == Settled(meta)
    {
      names := {};
      var todo := meta.entries.Keys;
      while todo != {}
        invariant todo <= meta.entries.Keys
        invariant names == set n | n in meta.entries && n !in todo && meta.entries[n].settled.Some?
        invariant forall n :: n in meta.entries && n !in todo && meta.entries[n].settled.Some? && n in files ==>
                                files[n] == meta.entries[n].hash
        decreases |todo|
      {
        var n :| n in todo;
        if meta.entries[n].settled.Some? {
          if n in files && files[n] != meta.entries[n].hash {
            return false, {};
          }
          names := names + {n};
        }
        todo := todo - {n};
      }
      intact := true;
    }

    /** Remove the oldest name left; a name without a visible file costs no write. */
    method EvictOne(
      ages: map<string, Payload>, names: set<string>, gone: set<string>) returns (ok: bool, next: set<string>)
      requires files == ages - gone && Evicting(meta, ages, names, gone) && names - gone != {}
      requires !FitsWithout(meta, ages, gone)
      modifies this`files, this`power
      ensures files == ages - next && Evicting(meta, ages, names, next)
      ensures if ok then |names - next| < |names - gone| else next == gone && power == 0
    {
      var left := names - gone;
      ghost var some := OldestExists(ages, left);
      var x :| x in left && Oldest(ages, left, x);
      ok, next := true, gone;
      if x in files {
        ok := Unlink(x);
      }
      if ok {
        next := gone + {x};
        FilesWithout(ages, gone, x);
        EvictsNext(meta, ages, names, gone, x);
      }
    }

    /** Remove settled notices, oldest first, until there is room. */
    method Evict(names: set<string>) returns (ok: bool, gone: set<string>)
      modifies this`files, this`power
      ensures files == old(files) - gone && Evicting(meta, old(files), names, gone)
      ensures if ok then FitsWithout(meta, old(files), gone) || names - gone == {} else power == 0
    {
      var ages := files;
      gone, ok := {}, true;
      assert ages - gone == ages;
      KeysOf(ages, gone);
      while names - gone != {} && !Fits(|files|, |meta.entries.Keys - gone|)
        invariant files == ages - gone && |files| == |ages.Keys - gone| && Evicting(meta, ages, names, gone)
        decreases |names - gone|
      {
        ok, gone := EvictOne(ages, names, gone);
        KeysOf(ages, gone);
        if !ok {
          return;
        }
      }
    }

    /** Evict only if that can make room; a crash may come between two removals. */
    method MakeRoom() returns (stop: Option<Outcome>, gone: set<string>)
      requires Valid()
      modifies this`files, this`power
      ensures Valid() && files == old(files) - gone && gone <= Settled(meta)
      ensures gone != {} ==> SettledIntact(meta, old(files))
      ensures stop.None? && gone != {} ==> ShortestPrefix(meta, old(files), gone)
      ensures stop.Some? ==> stop == Some(Held) || (stop == Some(Crashed) && power == 0)
      ensures stop == Some(Held) ==> gone == {} && !Fits(|old(files)|, |meta.entries|) && Tampered(meta, old(files))
      ensures stop.None? ==> RoomJudged(meta, old(files), files, gone)
    {
      gone, stop := {}, None;
      assert files - gone == files;
      if Fits(|files|, |meta.entries|) {
        RoomAlready(meta, files);
        return;
      }
      var intact, names := ScanSettled();
      if !intact {
        return Some(Held), gone;
      }
      if |files| - |names * files.Keys| < MaxExact {
        stop, gone := EvictSettled(names);
      } else {
        NoRoom(meta, files);
      }
    }

    method EvictSettled(names: set<string>) returns (stop: Option<Outcome>, gone: set<string>)
      requires Valid() && names == Settled(meta) && SettledIntact(meta, files) && !Fits(|files|, |meta.entries|)
      requires |files| - |names * files.Keys| < MaxExact
      modifies this`files, this`power
      ensures Valid() && files == old(files) - gone && gone <= names
      ensures stop.None? && gone != {} ==> ShortestPrefix(meta, old(files), gone)
      ensures stop.Some? ==> stop == Some(Crashed) && power == 0
      ensures stop.None? ==> RoomJudged(meta, old(files), files, gone)
    {
      ghost var ages := files;
      var ok;
      ok, gone := Evict(names);
      FewerFiles(meta, ages, gone);
      stop := if ok then None else Some(Crashed);
      if ok {
        Evicted(meta, ages, files, gone);
      }
    }

    /** No room: count this intent once, and refresh the overflow notice. */
    method Coalesce(i: Intent) returns (r: Outcome)
      requires Valid() && FileName(i) !in meta.entries
      requires (FileName(i) in meta.pending ==> meta.pending[FileName(i)] == PayloadOf(i))
      modifies this`meta, this`overflow, this`power, this`states, this`acts
      ensures Valid() && (r.Coalesced? || r.Held? || (r.Crashed? && power == 0))
      ensures !r.Crashed? ==> r == CountAnswer(old(meta), files, old(overflow), FileName(i))
      ensures FileName(i) in old(meta).pending ==> meta == old(meta)
      ensures meta == old(meta) || meta == Counted(old(meta), i)
      ensures r.Coalesced? ==> FileName(i) in meta.pending && meta.pending[FileName(i)] == PayloadOf(i)
      ensures r.Coalesced? && FileName(i) !in old(meta).pending ==> meta == Counted(old(meta), i) && overflow
      ensures r.Held? ==> meta == old(meta) && overflow == old(overflow)
    {
      if |files| >= 256 && !overflow {
        return Held;
      }
      if FileName(i) in meta.pending {
        return Coalesced;
      }
      if |meta.pending| >= MaxExact {
        return Held;
      }
      CountedSound(meta, files, i);
      CountedDoes(meta, i);
      var ok := Save(Counted(meta, i), Publishing(i));
      if !ok || power == 0 {
        return Crashed;
      }
      power := power - 1;
      overflow := true;
      r := Coalesced;
    }

    /** Record the alert durably, then make it visible. */
    method Admit(i: Intent, gone: set<string>) returns (r: Outcome)
      requires Valid() && FileName(i) !in meta.entries && Fits(|files|, |meta.entries.Keys - gone|)
      requires gone !! files.Keys && gone <= Settled(meta)
      modifies this`meta, this`files, this`power, this`states, this`acts
      ensures Valid() && (r.Written? || (r.Crashed? && power == 0))
      ensures meta == old(meta) || meta == Admitted(old(meta), i, gone)
      ensures r.Written? ==>
                meta == Admitted(old(meta), i, gone) && files == old(files)[FileName(i) := PayloadOf(i)]
                && |files| <= MaxExact
      ensures r.Crashed? ==> files == old(files)
    {
      OwnName(i);
      AdmittedSound(meta, files, i, gone);
      assert FileName(i) !in files;
      AdmittedDoes(meta, i, gone);
      var ok := Save(Admitted(meta, i, gone), Publishing(i));
      if !ok {
        return Crashed;
      }
      OneMoreFile(files, FileName(i), PayloadOf(i));
      r := WriteAlert(FileName(i), PayloadOf(i));
    }

    /** `publish`. */
    method Publish(i: Intent, admissible: bool) returns (r: Outcome, ghost gone: set<string>)
      requires Valid()
      modifies this
      ensures Valid()
      ensures r == PublishAnswer(old(meta), old(files), old(overflow), i, admissible) || (r.Crashed? && power == 0)
      ensures PublishLeaves(old(meta), old(files), meta, files, i, r, gone)
    {
      var name, bytes := FileName(i), PayloadOf(i);
      gone := {};
      assert files - gone == files;
      if !admissible || (name in meta.pending && meta.pending[name] != bytes) {
        return Held, gone;
      }
      if name in meta.entries {
        if meta.entries[name].hash != bytes {
          return Held, gone;
        }
        if meta.entries[name].settled.Some? {
          return Existing, gone;
        }
        r := WriteAlert(name, bytes);
        return;
      }
      r, gone := PublishNew(i);
    }

    /** An alert without an entry: written where there is room or evictions make it, else counted. */
    method PublishNew(i: Intent) returns (r: Outcome, ghost gone: set<string>)
      requires Valid() && FileName(i) !in meta.entries
      requires FileName(i) in meta.pending ==> meta.pending[FileName(i)] == PayloadOf(i)
      modifies this
      ensures Valid()
      ensures r == NewAnswer(old(meta), old(files), old(overflow), FileName(i)) || (r.Crashed? && power == 0)
      ensures PublishLeaves(old(meta), old(files), meta, files, i, r, gone)
    {
      var stop, evicted := MakeRoom();
      gone := evicted;
      if stop.Some? {
        StopLeaves(meta, old(files), files, overflow, i, stop.value, gone);
        return stop.value, gone;
      }
      r := PlaceNew(i, evicted, old(files));
    }

    /** Once room was made, or could not be. */
    method PlaceNew(i: Intent, gone: set<string>, ghost ages: map<string, Payload>) returns (r: Outcome)
      requires Valid() && FileName(i) !in meta.entries
      requires FileName(i) in meta.pending ==> meta.pending[FileName(i)] == PayloadOf(i)
      requires gone <= Settled(meta) && files == ages - gone && RoomJudged(meta, ages, files, gone)
      requires gone != {} ==> SettledIntact(meta, ages) && ShortestPrefix(meta, ages, gone)
      modifies this
      ensures Valid() && PublishLeaves(old(meta), ages, meta, files, i, r, gone)
      ensures r == NewAnswer(old(meta), ages, old(overflow), FileName(i)) || (r.Crashed? && power == 0)
    {
      RoomAnswers(meta, ages, files, gone, overflow, FileName(i));
      if Fits(|files|, |meta.entries.Keys - gone|) {
        r := AdmitNew(i, gone, ages);
      } else {
        r := CountNew(i, gone);
      }
    }

    /** There is room, possibly after evictions. */
    method AdmitNew(i: Intent, gone: set<string>, ghost ages: map<string, Payload>) returns (r: Outcome)
      requires Valid() && FileName(i) !in meta.entries && Fits(|files|, |meta.entries.Keys - gone|)
      requires gone !! files.Keys && gone <= Settled(meta) && files == ages - gone
      requires gone != {} ==> SettledIntact(meta, ages) && ShortestPrefix(meta, ages, gone)
      modifies this`meta, this`files, this`power, this`states, this`acts
      ensures Valid() && (r.Written? || (r.Crashed? && power == 0))
      ensures PublishLeaves(old(meta), ages, meta, files, i, r, gone)
    {
      r := Admit(i, gone);
    }

    /** Nothing was evicted and there is no room. */
    method CountNew(i: Intent, ghost gone: set<string>) returns (r: Outcome)
      requires Valid() && FileName(i) !in meta.entries && gone == {}
      requires FileName(i) in meta.pending ==> meta.pending[FileName(i)] == PayloadOf(i)
      modifies this`meta, this`overflow, this`power, this`states, this`acts
      ensures Valid() && PublishLeaves(old(meta), files, meta, files, i, r, gone) && (r.Crashed? ==> power == 0)
      ensures r.Crashed? || r == CountAnswer(old(meta), files, old(overflow), FileName(i))
    {
      assert files - {} == files;
      r := Coalesce(i);
    }

    /** `settle`: the owner's disposition of an alert, or of an intent that was only counted. */
    method Settle(i: Intent, admissible: bool, expected: Payload, disposition: Disposition) returns (ok: bool)
      requires Valid()
      modifies this`meta, this`power, this`states, this`acts
      ensures Valid()
      ensures ok ==> Settleable(old(meta), files, i, admissible, expected, disposition)
      ensures Settleable(old(meta), files, i, admissible, expected, disposition) && !ok ==> power == 0
      ensures !ok ==> meta == old(meta)
      ensures meta == old(meta) || meta == Released(old(meta), i, disposition)
              || meta == Disposed(old(meta), i, disposition)
      ensures ok && disposition.Published? ==>
                FileName(i) in files && files[FileName(i)] == PayloadOf(i) && FileName(i) in meta.entries
      ensures ok && FileName(i) in old(meta).entries ==> meta.entries[FileName(i)].settled == Some(disposition)
      ensures ok && FileName(i) !in old(meta).entries ==> FileName(i) !in meta.pending && !disposition.Published?
    {
      var name := FileName(i);
      if !admissible || PayloadOf(i) != expected || (disposition.Published? && i.kind.Failure?) {
        return false;
      }
      if name !in meta.entries {
        if disposition.Published? || name !in meta.pending || meta.pending[name] != expected {
          return false;
        }
        ReleasedSound(meta, files, i, disposition);
        ReleasedDoes(meta, i, disposition);
        ok := Save(Released(meta, i, disposition), Settling(i, disposition));
        return;
      }
      var entry := meta.entries[name];
      if entry.hash != expected || entry.kind != i.kind
         || (disposition.Published? && !(name in files && files[name] == expected)) {
        return false;
      }
      if entry.settled.Some? {
        return entry.settled.value == disposition;
      }
      DisposedSound(meta, files, i, disposition);
      DisposedDoes(meta, i, disposition);
      ok := Save(Disposed(meta, i, disposition), Settling(i, disposition));
    }
  }
}
