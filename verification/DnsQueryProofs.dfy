/** `query_name` is the exact inverse of the encoder. */
module DnsQueryProofs {
  import opened Outcomes
  import opened DnsQueries

  lemma {:induction false} LabelsRoundTrip(ls: seq<Bytes>, rest: Bytes)
    requires ValidLabels(ls) && rest != [] && rest[0] == 0
    ensures ParseLabels(EncodeLabels(ls) + rest) == Some((ls, rest))
    decreases |ls|
  {
    var p := EncodeLabels(ls) + rest;
    if ls == [] {
      assert p == rest;
    } else {
      var n := |ls[0]|;
      assert p[0] == n && p[1..1 + n] == ls[0];
      assert p[1 + n..] == EncodeLabels(ls[1..]) + rest;
      LabelsRoundTrip(ls[1..], rest);
      assert [ls[0]] + ls[1..] == ls;
    }
  }

  lemma {:induction false} LabelsInverse(p: Bytes)
    requires ParseLabels(p).Some?
    ensures var (ls, rest) := ParseLabels(p).value;
            ValidLabels(ls) && rest != [] && rest[0] == 0 && p == EncodeLabels(ls) + rest
    decreases |p|
  {
    if p[0] != 0 {
      var n: int := p[0];
      LabelsInverse(p[1 + n..]);
      var (ls, rest) := ParseLabels(p[1 + n..]).value;
      OneMoreLabel(p, n, ls, rest);
    }
  }

  lemma OneMoreLabel(p: Bytes, n: nat, ls: seq<Bytes>, rest: Bytes)
    requires p != [] && p[0] == n && 1 + n <= |p| && ValidLabel(p[1..1 + n]) && ValidLabels(ls)
    requires p[1 + n..] == EncodeLabels(ls) + rest
    ensures var all := [p[1..1 + n]] + ls; ValidLabels(all) && p == EncodeLabels(all) + rest
  {
    var all := [p[1..1 + n]] + ls;
    assert all[1..] == ls;
    assert p == [p[0]] + p[1..1 + n] + p[1 + n..];
  }

  lemma FirstSetting(s: Setting, rest: Bytes)
    requires ValidSetting(s)
    ensures var d, n := s.code + U16(|s.data|) + s.data + rest, |s.data|;
            && 4 + n <= |d| && N16(d[2], d[3]) == n && d[..2] == s.code
            && d[4..4 + n] == s.data && d[4 + n..] == rest
  {
    var d, n := s.code + U16(|s.data|) + s.data + rest, |s.data|;
    assert d[2] == n / 256 && d[3] == n % 256;
  }

  lemma {:induction false} SettingsRoundTrip(ss: seq<Setting>)
    requires ValidSettings(ss)
    ensures ParseSettings(EncodeSettings(ss)) == Some(ss)
    decreases |ss|
  {
    if ss != [] {
      FirstSetting(ss[0], EncodeSettings(ss[1..]));
      SettingsRoundTrip(ss[1..]);
      assert [ss[0]] + ss[1..] == ss;
    }
  }

  lemma {:induction false} SettingsInverse(d: Bytes)
    requires ParseSettings(d).Some?
    ensures ValidSettings(ParseSettings(d).value) && EncodeSettings(ParseSettings(d).value) == d
    decreases |d|
  {
    if d != [] {
      var n := N16(d[2], d[3]);
      SettingsInverse(d[4 + n..]);
      OneMoreSetting(d, n, ParseSettings(d[4 + n..]).value);
    }
  }

  lemma OneMoreSetting(d: Bytes, n: nat, rest: seq<Setting>)
    requires 4 + n <= |d| && n == N16(d[2], d[3]) && ValidSettings(rest) && EncodeSettings(rest) == d[4 + n..]
    ensures var all := [Setting(d[..2], d[4..4 + n])] + rest; ValidSettings(all) && EncodeSettings(all) == d
  {
    var all := [Setting(d[..2], d[4..4 + n])] + rest;
    assert all[1..] == rest;
    assert d == d[..2] + [d[2], d[3]] + d[4..4 + n] + d[4 + n..];
  }

  lemma HeadFields(class_: Bytes, ttl: Bytes, n: nat, b: Bytes)
    requires |class_| == 2 && |ttl| == 4 && n < 65536 && |b| == 11 + n && b[..11] == OptHead(class_, ttl, n)
    ensures OptHeadSound(b) && b[3..5] == class_ && b[5..9] == ttl
  {
    var h := OptHead(class_, ttl, n);
    assert forall i :: 0 <= i < 11 ==> b[i] == h[i];
    assert b[3..5] == h[3..5] && b[5..9] == h[5..9];
  }

  lemma OptRoundTrip(o: Opt)
    requires ValidOpt(o)
    ensures ParseOpt(EncodeOpt(o)) == Some(o)
  {
    var b, data := EncodeOpt(o), EncodeSettings(o.settings);
    assert b[..11] == OptHead(o.class_, o.ttl, |data|) && b[11..] == data;
    HeadFields(o.class_, o.ttl, |data|, b);
    SettingsRoundTrip(o.settings);
  }

  lemma HeadInverse(b: Bytes)
    requires OptHeadSound(b)
    ensures OptHead(b[3..5], b[5..9], |b| - 11) == b[..11]
  {
    assert U16(41) == [b[1], b[2]] && U16(|b| - 11) == [b[9], b[10]];
    assert b[..11] == [b[0]] + [b[1], b[2]] + b[3..5] + b[5..9] + [b[9], b[10]];
  }

  lemma OptInverse(b: Bytes)
    requires ParseOpt(b).Some?
    ensures ValidOpt(ParseOpt(b).value) && EncodeOpt(ParseOpt(b).value) == b
  {
    SettingsInverse(b[11..]);
    HeadInverse(b);
    assert b == b[..11] + b[11..];
  }

  lemma HeaderRoundTrip(q: Query, p: Bytes)
    requires ValidQuery(q) && |p| >= 12 && p[..12] == Header(q)
    ensures HeaderSound(p) && p[..2] == q.id && N16(p[2], p[3]) == q.flags
    ensures N16(p[10], p[11]) == if q.opt.Some? then 1 else 0
  {
    var h := Header(q);
    assert forall i :: 0 <= i < 12 ==> p[..12][i] == p[i];
    assert p[..2] == h[..2];
  }

  lemma TailRoundTrip(q: Query)
    requires ValidQuery(q)
    ensures var tail := Tail(q); |tail| >= 5 && tail[0] == 0 && tail[1..5] == q.question
    ensures ParseExtra(if q.opt.Some? then 1 else 0, Tail(q)[5..]) == Some(q.opt)
  {
    var tail := Tail(q);
    if q.opt.Some? {
      assert tail[5..] == EncodeOpt(q.opt.value);
      OptRoundTrip(q.opt.value);
    } else {
      assert tail[5..] == [];
    }
  }

  lemma RestRoundTrip(q: Query, p: Bytes)
    requires ValidQuery(q) && |p| == 12 + |EncodeLabels(q.labels)| + |Tail(q)|
    requires HeaderSound(p) && p[..2] == q.id && N16(p[2], p[3]) == q.flags
    requires N16(p[10], p[11]) == if q.opt.Some? then 1 else 0
    ensures ParseRest(p, q.labels, Tail(q)) == Some(q)
  {
    TailRoundTrip(q);
  }

  /** Every well-formed query is parsed back, in full. */
  lemma ParseEncoded(q: Query)
    requires ValidQuery(q)
    ensures Parse(EncodeQuery(q)) == Some(q)
  {
    var p, head, rest := EncodeQuery(q), Header(q), EncodeLabels(q.labels) + Tail(q);
    assert p == head + rest;
    assert p[..12] == head && p[12..] == rest;
    HeaderRoundTrip(q, p);
    RestRoundTrip(q, p);
    LabelsRoundTrip(q.labels, Tail(q));
  }

  lemma HeaderInverse(p: Bytes, q: Query)
    requires HeaderSound(p) && ValidQuery(q) && q.id == p[..2] && q.flags == N16(p[2], p[3])
    requires N16(p[10], p[11]) == if q.opt.Some? then 1 else 0
    ensures Header(q) == p[..12]
  {
    assert p[..12] == p[..2] + [p[2], p[3]] + [p[4], p[5]] + [p[6], p[7]] + [p[8], p[9]] + [p[10], p[11]];
  }

  lemma ExtraInverse(records: nat, o: Bytes)
    requires records <= 1 && ParseExtra(records, o).Some?
    ensures var opt := ParseExtra(records, o).value;
            && (records == 1 <==> opt.Some?)
            && (opt.Some? ==> ValidOpt(opt.value) && EncodeOpt(opt.value) == o) && (opt.None? ==> o == [])
  {
    if records == 1 {
      OptInverse(o);
    }
  }

  lemma RestInverse(p: Bytes, labels: seq<Bytes>, rest: Bytes)
    requires HeaderSound(p) && ParseRest(p, labels, rest).Some? && ValidLabels(labels)
    requires rest[0] == 0 && |p| == 12 + |EncodeLabels(labels)| + |rest|
    ensures var q := ParseRest(p, labels, rest).value;
            ValidQuery(q) && q.labels == labels && Header(q) == p[..12] && Tail(q) == rest
  {
    var q := ParseRest(p, labels, rest).value;
    ExtraInverse(N16(p[10], p[11]), rest[5..]);
    HeaderInverse(p, q);
    assert rest == [0] + rest[1..5] + rest[5..];
  }

  /** Whatever parses is the encoding of the query found. */
  lemma EncodeParsed(p: Bytes)
    requires Parse(p).Some?
    ensures ValidQuery(Parse(p).value) && EncodeQuery(Parse(p).value) == p
  {
    LabelsInverse(p[12..]);
    var (labels, rest) := ParseLabels(p[12..]).value;
    RestInverse(p, labels, rest);
    assert p == p[..12] + (EncodeLabels(labels) + rest);
  }

  /** A name comes out exactly for the encodings of well-formed queries, and is the name asked for. */
  lemma NameExact(p: Bytes, name: Bytes)
    ensures NameOf(Parse(p)) == Some(name) <==>
            exists q :: ValidQuery(q) && EncodeQuery(q) == p && Join(q.labels) == name
  {
    if NameOf(Parse(p)) == Some(name) {
      EncodeParsed(p);
    }
    forall q | ValidQuery(q) && EncodeQuery(q) == p && Join(q.labels) == name ensures NameOf(Parse(p)) == Some(name) {
      ParseEncoded(q);
    }
  }

  // ---- names determine their labels ----

  /** The length of the part before the first dot. */
  function FirstDot(s: Bytes): (n: nat)
    ensures n <= |s| && (forall i :: 0 <= i < n ==> s[i] != 0x2E) && (n < |s| ==> s[n] == 0x2E)
  {
    if s == [] || s[0] == 0x2E then 0 else 1 + FirstDot(s[1..])
  }

  lemma FirstDotIs(s: Bytes, n: nat)
    requires n <= |s| && (forall i :: 0 <= i < n ==> s[i] != 0x2E) && (n < |s| ==> s[n] == 0x2E)
    ensures FirstDot(s) == n
  {
  }

  lemma JoinFirst(ls: seq<Bytes>)
    requires ls != [] && ValidLabels(ls)
    ensures FirstDot(Join(ls)) == |ls[0]| && Join(ls)[..|ls[0]|] == ls[0]
    ensures |ls| == 1 <==> |Join(ls)| == |ls[0]|
    ensures |ls| > 1 ==> Join(ls)[|ls[0]| + 1..] == Join(ls[1..])
  {
    var n := |ls[0]|;
    assert ValidLabel(ls[0]);
    assert forall i :: 0 <= i < n ==> Join(ls)[i] == ls[0][i];
    FirstDotIs(Join(ls), n);
  }

  /** Dot-joining is injective on label lists. */
  lemma {:induction false} JoinInjective(a: seq<Bytes>, b: seq<Bytes>)
    requires a != [] && b != [] && ValidLabels(a) && ValidLabels(b) && Join(a) == Join(b)
    ensures a == b
    decreases |a|
  {
    JoinFirst(a);
    JoinFirst(b);
    assert a[0] == b[0];
    if |a| > 1 {
      JoinInjective(a[1..], b[1..]);
      assert a == [a[0]] + a[1..] && b == [b[0]] + b[1..];
    }
  }

  // ---- the loops ----

  /** Labels already read, put before the outcome of reading the rest. */
  function After(labels: seq<Bytes>, rest: Option<(seq<Bytes>, Bytes)>): Option<(seq<Bytes>, Bytes)> {
    if rest.None? then None else Some((labels + rest.value.0, rest.value.1))
  }

  /** What the walk has read and what is left of the parse from position `i`. */
  function Reading(p: Bytes, i: nat, labels: seq<Bytes>): Option<(seq<Bytes>, Bytes)>
    requires i <= |p|
  {
    After(labels, ParseLabels(p[i..]))
  }

  lemma ReadingStarts(p: Bytes, start: nat)
    requires start <= |p|
    ensures Reading(p, start, []) == ParseLabels(p[start..])
  {
    var rest := ParseLabels(p[start..]);
    if rest.Some? {
      assert [] + rest.value.0 == rest.value.0;
    }
  }

  lemma ReadsOne(p: Bytes, i: nat, labels: seq<Bytes>)
    requires i < |p| && 0 < p[i] <= 63 && i + 1 + p[i] <= |p| && ValidLabel(p[i + 1..i + 1 + p[i]])
    ensures Reading(p, i, labels) == Reading(p, i + 1 + p[i], labels + [p[i + 1..i + 1 + p[i]]])
  {
    var n: int := p[i];
    var one, left := p[i + 1..i + 1 + n], p[i..];
    assert left[0] == p[i] && left[1..1 + n] == one && left[1 + n..] == p[i + 1 + n..];
    var rest := ParseLabels(p[i + 1 + n..]);
    if rest.Some? {
      assert labels + ([one] + rest.value.0) == labels + [one] + rest.value.0;
    }
  }

  lemma ReadsNone(p: Bytes, i: nat, labels: seq<Bytes>)
    requires i <= |p|
    requires i < |p| ==> p[i] > 0 && (p[i] > 63 || i + 1 + p[i] > |p| || !ValidLabel(p[i + 1..i + 1 + p[i]]))
    ensures Reading(p, i, labels) == None
  {
    var left := p[i..];
    if i < |p| {
      var n: int := p[i];
      assert left[0] == n;
      if i + 1 + n <= |p| {
        assert left[1..1 + n] == p[i + 1..i + 1 + n];
      }
    }
  }

  lemma ReadsRoot(p: Bytes, i: nat, labels: seq<Bytes>)
    requires i < |p| && p[i] == 0
    ensures Reading(p, i, labels) == Some((labels, p[i..]))
  {
    assert p[i..][0] == 0 && labels + [] == labels;
  }

  /** The walk over the labels: the position of the root byte, if the labels are all well formed. */
  method WalkLabels(p: Bytes, start: nat) returns (r: Option<(seq<Bytes>, nat)>)
    requires start <= |p|
    ensures r.Some? <==> ParseLabels(p[start..]).Some?
    ensures r.Some? ==> start <= r.value.1 < |p| && ParseLabels(p[start..]).value == (r.value.0, p[r.value.1..])
  {
    ReadingStarts(p, start);
    var i, labels := start, [];
    while i < |p| && p[i] != 0
      invariant start <= i <= |p|
      invariant Reading(p, i, labels) == Reading(p, start, [])
    {
      var n: int := p[i];
      if n > 63 || i + 1 + n > |p| || !ValidLabel(p[i + 1..i + 1 + n]) {
        ReadsNone(p, i, labels);
        return None;
      }
      ReadsOne(p, i, labels);
      labels := labels + [p[i + 1..i + 1 + n]];
      i := i + 1 + n;
    }
    if i >= |p| {
      ReadsNone(p, i, labels);
      return None;
    }
    ReadsRoot(p, i, labels);
    r := Some((labels, i));
  }

  /** The walk over the options: whether they exactly fill the data. */
  method WalkSettings(p: Bytes, start: nat) returns (ok: bool)
    requires start <= |p|
    ensures ok <==> ParseSettings(p[start..]).Some?
  {
    var i := start;
    while i + 4 <= |p|
      invariant start <= i
      invariant ParseSettings(p[start..]).Some? <==> i <= |p| && ParseSettings(p[i..]).Some?
    {
      var n := N16(p[i + 2], p[i + 3]);
      assert p[i..][2] == p[i + 2] && p[i..][3] == p[i + 3];
      if i + 4 + n <= |p| {
        assert p[i..][4 + n..] == p[i + 4 + n..];
      }
      i := i + 4 + n;
    }
    ok := i == |p|;
  }

  /** `query_name`: in-bounds reads only, and the name of exactly the encoded queries (`NameExact`). */
  method QueryName(p: Bytes) returns (r: Option<Bytes>)
    ensures r == NameOf(Parse(p))
  {
    if !HeaderSound(p) {
      return None;
    }
    var walked := WalkLabels(p, 12);
    if walked.None? {
      return None;
    }
    r := FinishName(p, walked.value.0, walked.value.1);
  }

  /** The length checks, the name, and the record the header announced. */
  method FinishName(p: Bytes, labels: seq<Bytes>, i: nat) returns (r: Option<Bytes>)
    requires HeaderSound(p) && 12 <= i < |p|
    ensures r == NameOf(ParseRest(p, labels, p[i..]))
  {
    var end := i + 1 + 4;
    if labels == [] || i + 1 - 12 > 255 || end > |p| {
      return None;
    }
    assert p[i..][5..] == p[end..];
    var name := Join(labels);
    if N16(p[10], p[11]) == 0 {
      return if end == |p| then Some(name) else None;
    }
    var ok := ChecksOpt(p, end);
    return if ok then Some(name) else None;
  }

  /** One OPT record from `end` to the end of the packet. */
  method ChecksOpt(p: Bytes, end: nat) returns (ok: bool)
    requires end <= |p|
    ensures ok <==> ParseOpt(p[end..]).Some?
  {
    if |p| < end + 11 || p[end] != 0 {
      return false;
    }
    var rdlength := N16(p[end + 9], p[end + 10]);
    if N16(p[end + 1], p[end + 2]) != 41 || end + 11 + rdlength != |p| {
      return false;
    }
    assert p[end..][11..] == p[end + 11..];
    ok := WalkSettings(p, end + 11);
  }
}
