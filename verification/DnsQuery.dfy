/**
  * The DNS query parser of docs/spikes/s9-10/analyze.py, and the encoder it inverts: a header, one question and at
  * most one
  * OPT record (sections 4.1.1 and 4.1.2 of RFC 1035, section 6.1.2 of RFC 6891).
  */
module DnsQueries {
  import opened Outcomes
  import opened Utf8

  type Bytes = seq<Byte>

  datatype Setting = Setting(code: Bytes, data: Bytes)
  datatype Opt = Opt(class_: Bytes, ttl: Bytes, settings: seq<Setting>)
  datatype Query = Query(id: Bytes, flags: nat, labels: seq<Bytes>, question: Bytes, opt: Option<Opt>)

  // ---- well-formed queries and their bytes ----

  predicate LabelByte(b: Byte) {
    0x41 <= b <= 0x5A || 0x61 <= b <= 0x7A || 0x30 <= b <= 0x39 || b == 0x5F || b == 0x2D
  }

  /** Letters, digits, `_` and `-`, at most 63 of them (section 2.3.4 of RFC 1035). */
  predicate ValidLabel(l: Bytes) {
    1 <= |l| <= 63 && forall i :: 0 <= i < |l| ==> LabelByte(l[i])
  }

  predicate ValidLabels(ls: seq<Bytes>) {
    forall i :: 0 <= i < |ls| ==> ValidLabel(ls[i])
  }

  predicate ValidSetting(s: Setting) {
    |s.code| == 2 && |s.data| < 65536
  }

  predicate ValidSettings(ss: seq<Setting>) {
    forall i :: 0 <= i < |ss| ==> ValidSetting(ss[i])
  }

  predicate ValidOpt(o: Opt) {
    |o.class_| == 2 && |o.ttl| == 4 && ValidSettings(o.settings) && |EncodeSettings(o.settings)| < 65536
  }

  /** Query and opcode bits clear, a name of at most 255 bytes, and at most one OPT record. */
  predicate ValidQuery(q: Query) {
    && |q.id| == 2 && q.flags < 0x800 && |q.question| == 4
    && q.labels != [] && ValidLabels(q.labels) && |EncodeLabels(q.labels)| + 1 <= 255
    && (q.opt.Some? ==> ValidOpt(q.opt.value))
  }

  function U16(n: nat): (r: Bytes)
    requires n < 65536
    ensures |r| == 2
  {
    [n / 256, n % 256]
  }

  function N16(hi: Byte, lo: Byte): (n: nat)
    ensures n < 65536 && U16(n) == [hi, lo]
  {
    hi * 256 + lo
  }

  function EncodeLabels(ls: seq<Bytes>): Bytes
    requires ValidLabels(ls)
  {
    if ls == [] then [] else [|ls[0]|] + ls[0] + EncodeLabels(ls[1..])
  }

  function EncodeSettings(ss: seq<Setting>): Bytes
    requires ValidSettings(ss)
  {
    if ss == [] then [] else ss[0].code + U16(|ss[0].data|) + ss[0].data + EncodeSettings(ss[1..])
  }

  /** The fixed part of an OPT record: root name, type 41, class, TTL and the length of its data. */
  function OptHead(class_: Bytes, ttl: Bytes, n: nat): (r: Bytes)
    requires |class_| == 2 && |ttl| == 4 && n < 65536
    ensures |r| == 11
  {
    [0] + U16(41) + class_ + ttl + U16(n)
  }

  function EncodeOpt(o: Opt): Bytes
    requires ValidOpt(o)
  {
    OptHead(o.class_, o.ttl, |EncodeSettings(o.settings)|) + EncodeSettings(o.settings)
  }

  function Header(q: Query): (r: Bytes)
    requires ValidQuery(q)
    ensures |r| == 12
  {
    q.id + U16(q.flags) + U16(1) + U16(0) + U16(0) + U16(if q.opt.Some? then 1 else 0)
  }

  function Tail(q: Query): Bytes
    requires ValidQuery(q)
  {
    [0] + q.question + if q.opt.Some? then EncodeOpt(q.opt.value) else []
  }

  function EncodeQuery(q: Query): Bytes
    requires ValidQuery(q)
  {
    Header(q) + EncodeLabels(q.labels) + Tail(q)
  }

  // ---- the parser, piece by piece ----

  /** The labels at the front, and what follows them starting at the root byte. */
  function ParseLabels(p: Bytes): Option<(seq<Bytes>, Bytes)>
    decreases |p|
  {
    if p == [] then None
    else if p[0] == 0 then Some(([], p))
    else if p[0] > 63 || 1 + p[0] > |p| || !ValidLabel(p[1..1 + p[0]]) then None
    else
      var rest := ParseLabels(p[1 + p[0]..]);
      if rest.None? then None else Some(([p[1..1 + p[0]]] + rest.value.0, rest.value.1))
  }

  /** Options that exactly fill the record's data. */
  function ParseSettings(d: Bytes): Option<seq<Setting>>
    decreases |d|
  {
    if d == [] then Some([])
    else if |d| < 4 then None
    else
      var n := N16(d[2], d[3]);
      if 4 + n > |d| then None else
      var rest := ParseSettings(d[4 + n..]);
      if rest.None? then None else Some([Setting(d[..2], d[4..4 + n])] + rest.value)
  }

  predicate OptHeadSound(o: Bytes) {
    |o| >= 11 && o[0] == 0 && N16(o[1], o[2]) == 41 && N16(o[9], o[10]) == |o| - 11
  }

  function ParseOpt(o: Bytes): Option<Opt> {
    if !OptHeadSound(o) then None else
    var settings := ParseSettings(o[11..]);
    if settings.None? then None else Some(Opt(o[3..5], o[5..9], settings.value))
  }

  /** The record after the question, as the header announced it. */
  function ParseExtra(records: nat, o: Bytes): Option<Option<Opt>> {
    if records == 0 then (if o == [] then Some(None) else None) else
    var opt := ParseOpt(o);
    if opt.None? then None else Some(opt)
  }

  predicate HeaderSound(p: Bytes) {
    && |p| >= 12 && N16(p[2], p[3]) < 0x800 && N16(p[4], p[5]) == 1 && N16(p[6], p[7]) == 0 && N16(p[8], p[9]) == 0
    && N16(p[10], p[11]) <= 1
  }

  function Parse(p: Bytes): Option<Query> {
    if !HeaderSound(p) then None else
    var named := ParseLabels(p[12..]);
    if named.None? then None else ParseRest(p, named.value.0, named.value.1)
  }

  /** What follows the labels: the root byte, type and class, and the announced record. */
  function ParseRest(p: Bytes, labels: seq<Bytes>, rest: Bytes): Option<Query>
    requires HeaderSound(p)
  {
    if labels == [] || |p| - 12 - |rest| + 1 > 255 || |rest| < 5 then None else
    var extra := ParseExtra(N16(p[10], p[11]), rest[5..]);
    if extra.None? then None else Some(Query(p[..2], N16(p[2], p[3]), labels, rest[1..5], extra.value))
  }

  // ---- names ----

  function Join(ls: seq<Bytes>): Bytes {
    if |ls| == 0 then [] else if |ls| == 1 then ls[0] else ls[0] + [0x2E] + Join(ls[1..])
  }

  function NameOf(q: Option<Query>): Option<Bytes> {
    if q.None? then None else Some(Join(q.value.labels))
  }
}
