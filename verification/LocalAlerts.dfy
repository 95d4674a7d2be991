/**
  * Bounded local alert files: publishing, eviction of settled notices, coalescing and settling
  * (src/heterodyne/local_alerts.py).
  */
module LocalAlerts {
  import opened Outcomes

  const MaxExact := 255
  const MaxCount := 0xFFFF_FFFF_FFFF_FFFF

  datatype Namespace = D6c | P8
  datatype Kind = Failure | Recovery | Retirement
  datatype Disposition = Cleared | Retired | Published

  /** A producer's notice; `key` is the digest of its identity, which is never shared by two identities. */
  datatype Intent = Intent(namespace: Namespace, key: string, kind: Kind, createdAt: int, text: string)

  /** The bytes of a file, which also stand for their digest. */
  datatype Payload = Alert(name: string, createdAt: int, text: string) | Raw(bytes: string)

  function Prefix(ns: Namespace): string {
    if ns.D6c? then "d6c_" else "p8_"
  }

  function FileName(i: Intent): string {
    Prefix(i.namespace) + i.key + ".json"
  }

  function PayloadOf(i: Intent): Payload {
    Alert(FileName(i), i.createdAt, i.text)
  }

  /** File names of this protocol; other producers' files have other names. */
  predicate Own(name: string) {
    Prefix(D6c) <= name || Prefix(P8) <= name
  }

  datatype Entry = Entry(hash: Payload, kind: Kind, settled: Option<Disposition>)
  datatype Aggregate = Aggregate(coalesced: nat, retired: nat, oldest: Option<int>)
  datatype Metadata = Metadata(
    entries: map<string, Entry>, pending: map<string, Payload>, aggregates: map<Namespace, Aggregate>)

  function Bump(n: nat): nat {
    if n + 1 < MaxCount then n + 1 else MaxCount
  }

  // ---- oldest first ----

  /** A missing file is older than any visible one; ties go by name. */
  function Age(files: map<string, Payload>, name: string): Option<int> {
    if name in files && files[name].Alert? then Some(files[name].createdAt) else None
  }

  predicate Older(files: map<string, Payload>, a: string, b: string) {
    var x, y := Age(files, a), Age(files, b);
    if x == y then Less(a, b) else x.None? || (y.Some? && x.value < y.value)
  }

  lemma OlderTotal(files: map<string, Payload>, a: string, b: string)
    ensures Older(files, a, b) || a == b || Older(files, b, a)
    ensures !(Older(files, a, b) && Older(files, b, a))
  {
    LessTotal(a, b);
  }

  lemma OlderTrans(files: map<string, Payload>, a: string, b: string, c: string)
    requires Older(files, a, b) && Older(files, b, c)
    ensures Older(files, a, c)
  {
    if Age(files, a) == Age(files, b) == Age(files, c) {
      LessTrans(a, b, c);
    }
  }

  predicate Oldest(files: map<string, Payload>, names: set<string>, x: string) {
    x in names && forall y :: y in names && y != x ==> Older(files, x, y)
  }

  lemma {:induction false} OldestExists(files: map<string, Payload>, names: set<string>) returns (x: string)
    requires names != {}
    ensures Oldest(files, names, x)
    decreases names
  {
    var first :| first in names;
    if names == {first} {
      return first;
    }
    var next := OldestExists(files, names - {first});
    OlderTotal(files, first, next);
    if Older(files, next, first) {
      return next;
    }
    forall y | y in names && y != first ensures Older(files, first, y) {
      if y != next {
        assert Older(files, next, y);
        OlderTrans(files, first, next, y);
      }
    }
    return first;
  }

  // ---- what always holds ----

  ghost predicate Inv(meta: Metadata, files: map<string, Payload>) {
    && |meta.entries| <= MaxExact && |meta.pending| <= MaxExact && meta.entries.Keys !! meta.pending.Keys
    && D6c in meta.aggregates && P8 in meta.aggregates
    && (forall n :: n in meta.entries ==> meta.entries[n].hash.Alert?)
    && (forall n :: n in files && Own(n) ==> n in meta.entries)
  }

  function Settled(meta: Metadata): set<string> {
    set n | n in meta.entries && meta.entries[n].settled.Some?
  }

  /** Every settled entry that is still visible has the exact bytes recorded for it. */
  predicate SettledIntact(meta: Metadata, files: map<string, Payload>) {
    forall n :: n in meta.entries && meta.entries[n].settled.Some? && n in files ==> files[n] == meta.entries[n].hash
  }

  predicate Fits(count: int, entries: int) {
    count < MaxExact && entries < MaxExact
  }

  /** What is left of the files and the entries without some settled names. */
  predicate FitsWithout(meta: Metadata, files: map<string, Payload>, gone: set<string>) {
    Fits(|files.Keys - gone|, |meta.entries.Keys - gone|)
  }

  ghost predicate NewestNeeded(meta: Metadata, files: map<string, Payload>, gone: set<string>, x: string) {
    && (forall y :: y in gone && y != x ==> Older(files, y, x))
    && !FitsWithout(meta, files, gone - {x})
  }

  /** Names evicted so far, and those still to go: each is older than every name left. */
  ghost predicate OldestGone(ages: map<string, Payload>, gone: set<string>, todo: set<string>) {
    forall x, y :: x in gone && y in todo ==> Older(ages, x, y)
  }

  /** What has been evicted: some settled names, oldest first, the last of them still needed for room. */
  ghost predicate Evicting(meta: Metadata, ages: map<string, Payload>, names: set<string>, gone: set<string>) {
    && gone <= names && OldestGone(ages, gone, names - gone)
    && (gone != {} ==> exists x :: x in gone && NewestNeeded(meta, ages, gone, x))
  }

  /** `gone` is the shortest run of settled names, oldest first, that makes room. */
  ghost predicate ShortestPrefix(meta: Metadata, files: map<string, Payload>, gone: set<string>) {
    Evicting(meta, files, Settled(meta), gone) && FitsWithout(meta, files, gone)
  }

  datatype Outcome = Written | Existing | Coalesced | Held | Crashed
}
