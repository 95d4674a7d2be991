/** Strings as code points, their UTF-8 bytes (section 3 of RFC 3629), and what survives cutting those bytes short. */
module Utf8 {
  import opened Outcomes

  /** Python strings may hold lone surrogates, which UTF-8 cannot encode. */
  type CodePoint = c: int | 0 <= c < 0x110000
  type Byte = b: int | 0 <= b < 256
  type Text = seq<CodePoint>

  predicate Surrogate(c: CodePoint) {
    0xD800 <= c < 0xE000
  }

  /** `errors="replace"` writes a question mark for what cannot be encoded. */
  function Cleaned(c: CodePoint): CodePoint {
    if Surrogate(c) then 0x3F else c
  }

  function Clean(s: Text): (r: Text)
    ensures |r| == |s| && forall i :: 0 <= i < |s| ==> r[i] == Cleaned(s[i])
  {
    seq(|s|, i requires 0 <= i < |s| => Cleaned(s[i]))
  }

  predicate IsClean(s: Text) {
    forall i :: 0 <= i < |s| ==> !Surrogate(s[i])
  }

  function EncodeChar(c: CodePoint): (r: seq<Byte>)
    ensures 1 <= |r| <= 4
  {
    var d := Cleaned(c);
    if d < 0x80 then [d]
    else if d < 0x800 then [0xC0 + d / 64, 0x80 + d % 64]
    else if d < 0x10000 then [0xE0 + d / 4096, 0x80 + d / 64 % 64, 0x80 + d % 64]
    else [0xF0 + d / 262144, 0x80 + d / 4096 % 64, 0x80 + d / 64 % 64, 0x80 + d % 64]
  }

  function Encode(s: Text): seq<Byte> {
    if s == [] then [] else EncodeChar(s[0]) + Encode(s[1..])
  }

  /** The length its first byte announces, or 0 where no character starts. */
  function Announced(b: Byte): nat {
    if b < 0x80 then 1 else if 0xC0 <= b < 0xE0 then 2 else if 0xE0 <= b < 0xF0 then 3 else if 0xF0 <= b < 0xF8 then
      4 else 0
  }

  /** The value the bits of a sequence of this length spell. */
  function Spelled(b: seq<Byte>, n: nat): int
    requires 1 <= n <= 4 && n <= |b|
  {
    var x: int := b[0];
    if n == 1 then x else
    var y: int := b[1] as int - 0x80;
    if n == 2 then (x - 0xC0) * 64 + y else
    var z: int := b[2] as int - 0x80;
    if n == 3 then (x - 0xE0) * 4096 + y * 64 + z else
    var w: int := b[3] as int - 0x80;
    (x - 0xF0) * 262144 + y * 4096 + z * 64 + w
  }

  /** The character at the front of the bytes, if they start with the encoding of one. */
  function FirstChar(b: seq<Byte>): Option<CodePoint>
    requires b != []
  {
    var n := Announced(b[0]);
    if n == 0 || |b| < n then None else
    var c := Spelled(b, n);
    if 0 <= c < 0x110000 && !Surrogate(c) && EncodeChar(c) == b[..n] then Some(c) else None
  }

  /** `errors="ignore"`: bytes that start no character are dropped. */
  function Decode(b: seq<Byte>): Text
    decreases |b|
  {
    if b == [] then []
    else if FirstChar(b).Some? then [FirstChar(b).value] + Decode(b[Announced(b[0])..])
    else Decode(b[1..])
  }

  /** How many whole characters fit in `k` bytes. */
  function Whole(s: Text, k: nat): (r: nat)
    ensures r <= |s|
  {
    if s == [] || |EncodeChar(s[0])| > k then 0 else 1 + Whole(s[1..], k - |EncodeChar(s[0])|)
  }

  lemma Spells(c: CodePoint)
    ensures var b := EncodeChar(c); Announced(b[0]) == |b| && Spelled(b, |b|) == Cleaned(c)
  {
    var d := Cleaned(c);
    var high := d / 64;
    assert high / 64 == d / 4096 && high / 64 / 64 == d / 262144;
  }

  lemma FirstOfEncoded(c: CodePoint, rest: seq<Byte>)
    ensures var b := EncodeChar(c) + rest; Announced(b[0]) == |EncodeChar(c)| && FirstChar(b) == Some(Cleaned(c))
  {
    var head := EncodeChar(c);
    var b := head + rest;
    Spells(c);
    assert b[..|head|] == head;
    assert Spelled(b, |head|) == Spelled(head, |head|);
    assert EncodeChar(Cleaned(c)) == head;
  }

  /** A character cut short leaves nothing. */
  lemma DecodeCut(c: CodePoint, k: nat)
    requires k < |EncodeChar(c)|
    ensures Decode(EncodeChar(c)[..k]) == []
  {
    var b := EncodeChar(c)[..k];
    if k > 0 {
      assert Announced(b[0]) > |b|;
      assert forall i :: 1 <= i < |b| ==> Announced(b[i]) == 0;
      DecodeStray(b[1..]);
    }
  }

  lemma {:induction false} DecodeStray(b: seq<Byte>)
    requires forall i :: 0 <= i < |b| ==> Announced(b[i]) == 0
    ensures Decode(b) == []
    decreases |b|
  {
    if b != [] {
      DecodeStray(b[1..]);
    }
  }

  /** Decoding bytes cut anywhere gives exactly the whole characters, with surrogates replaced. */
  lemma {:induction false} DecodeTruncated(s: Text, k: nat)
    requires k <= |Encode(s)|
    ensures Decode(Encode(s)[..k]) == Clean(s)[..Whole(s, k)]
    decreases |s|
  {
    if s != [] {
      var head, tail := EncodeChar(s[0]), Encode(s[1..]);
      if k < |head| {
        assert Encode(s)[..k] == head[..k];
        DecodeCut(s[0], k);
      } else {
        var j := k - |head|;
        assert Encode(s)[..k] == head + tail[..j];
        FirstOfEncoded(s[0], tail[..j]);
        assert (head + tail[..j])[|head|..] == tail[..j];
        DecodeTruncated(s[1..], j);
        assert Clean(s)[..Whole(s, k)] == [Cleaned(s[0])] + Clean(s[1..])[..Whole(s[1..], j)];
      }
    }
  }

  /** What fits encodes within the bound, and all of it fits when the whole does. */
  lemma {:induction false} WholeFits(s: Text, k: nat)
    ensures |Encode(Clean(s)[..Whole(s, k)])| <= k
    ensures |Encode(s)| <= k ==> Whole(s, k) == |s|
    decreases |s|
  {
    if s != [] && |EncodeChar(s[0])| <= k {
      var j := k - |EncodeChar(s[0])|;
      WholeFits(s[1..], j);
      var kept := Clean(s)[..Whole(s, k)];
      assert kept[1..] == Clean(s[1..])[..Whole(s[1..], j)];
      assert EncodeChar(kept[0]) == EncodeChar(s[0]);
    }
  }

  /** The first `k` code points encode to the first bytes, at least `k` of them unless that is all. */
  lemma {:induction false} CutCodePoints(s: Text, k: nat)
    ensures var cut := s[..Min(k, |s|)]; Encode(cut) <= Encode(s) && (|Encode(cut)| >= k || cut == s)
    decreases |s|
  {
    var cut := s[..Min(k, |s|)];
    if s != [] && k > 0 {
      assert cut[0] == s[0] && cut[1..] == s[1..][..Min(k - 1, |s[1..]|)];
      CutCodePoints(s[1..], k - 1);
      var head := EncodeChar(s[0]);
      assert Encode(cut) == head + Encode(cut[1..]) && Encode(s) == head + Encode(s[1..]);
      assert cut[1..] == s[1..] ==> cut == [s[0]] + s[1..] == s;
    }
  }

  /** Cutting to `k` code points first does not change the first `k` bytes. */
  lemma CutFirst(s: Text, k: nat)
    ensures var cut := s[..Min(k, |s|)]; Encode(cut)[..Min(k, |Encode(cut)|)] == Encode(s)[..Min(k, |Encode(s)|)]
  {
    CutCodePoints(s, k);
  }

  lemma {:induction false} CleanStays(s: Text)
    requires IsClean(s)
    ensures Clean(s) == s
  {
  }

  lemma {:induction false} CleanEncodes(s: Text)
    ensures Encode(Clean(s)) == Encode(s) && IsClean(Clean(s))
    decreases |s|
  {
    if s != [] {
      CleanEncodes(s[1..]);
      assert Clean(s)[1..] == Clean(s[1..]);
    }
  }
}
