/** The bounded, UTF-8-safe list of receipt identifiers that a delivery attempt retains (`_bounded_ids`). */
module ReceiptIds {
  import opened Outcomes
  import opened Utf8

  const MaxIds := 64
  const MaxBytes := 16384

  /** An untrusted value where a message identifier was expected. */
  datatype RawId = Str(text: Text) | NotText
  datatype RawIds = Ids(values: seq<RawId>) | NotTuple

  function Texts(ids: seq<Text>): (r: seq<RawId>)
    ensures |r| == |ids| && forall i :: 0 <= i < |ids| ==> r[i] == Str(ids[i])
  {
    seq(|ids|, i requires 0 <= i < |ids| => Str(ids[i]))
  }

  /** The bytes a value uses up of what remains, and the text kept of it. */
  function Used(s: Text, remaining: nat): nat {
    Min(remaining, |Encode(s)|)
  }

  function Kept(s: Text, remaining: nat): Text {
    Decode(Encode(s)[..Used(s, remaining)])
  }

  function BoundedFrom(ids: seq<RawId>, remaining: nat): seq<Text>
    decreases |ids|
  {
    if ids == [] || remaining == 0 || ids[0].NotText? then []
    else [Kept(ids[0].text, remaining)] + BoundedFrom(ids[1..], remaining - Used(ids[0].text, remaining))
  }

  function Bounded(raw: RawIds): seq<Text> {
    if raw.NotTuple? then [] else BoundedFrom(raw.values[..Min(MaxIds, |raw.values|)], MaxBytes)
  }

  lemma Stops(ids: seq<RawId>, i: nat, remaining: nat)
    requires i <= |ids| && (i == |ids| || remaining == 0 || ids[i].NotText?)
    ensures BoundedFrom(ids[i..], remaining) == []
  {
    assert i < |ids| ==> ids[i..][0] == ids[i];
  }

  /** What the loop has kept, followed by what it will keep of the rest. */
  ghost function Whole(ids: seq<RawId>, i: nat, remaining: nat, kept: seq<Text>): seq<Text>
    requires i <= |ids|
  {
    kept + BoundedFrom(ids[i..], remaining)
  }

  lemma WholeAtStart(ids: seq<RawId>, cap: nat)
    ensures Whole(ids, 0, cap, []) == BoundedFrom(ids, cap)
  {
    assert ids[0..] == ids;
  }

  lemma WholeAtEnd(ids: seq<RawId>, i: nat, remaining: nat, kept: seq<Text>)
    requires i <= |ids| && (i == |ids| || remaining == 0 || ids[i].NotText?)
    ensures Whole(ids, i, remaining, kept) == kept
  {
    Stops(ids, i, remaining);
  }

  lemma WholeStays(ids: seq<RawId>, i: nat, remaining: nat, kept: seq<Text>, text: Text, used: nat)
    requires i < |ids| && used <= remaining
    requires BoundedFrom(ids[i..], remaining) == [text] + BoundedFrom(ids[i + 1..], remaining - used)
    ensures Whole(ids, i + 1, remaining - used, kept + [text]) == Whole(ids, i, remaining, kept)
  {
    var rest := BoundedFrom(ids[i + 1..], remaining - used);
    assert kept + ([text] + rest) == kept + [text] + rest;
  }

  lemma KeptFirst(ids: seq<RawId>, i: nat, remaining: nat)
    requires i < |ids| && 0 < remaining && ids[i].Str?
    ensures var s := ids[i].text;
            && Used(s, remaining) <= remaining
            && BoundedFrom(ids[i..], remaining)
               == [Kept(s, remaining)] + BoundedFrom(ids[i + 1..], remaining - Used(s, remaining))
  {
    assert ids[i..][0] == ids[i] && ids[i..][1..] == ids[i + 1..];
  }

  /** One value of the loop: cut to what remains, encoded with replacement, cut again, decoded again. */
  method KeepNext(
    ids: seq<RawId>, i: nat, remaining: nat, ghost kept: seq<Text>) returns (text: Text, used: nat)
    requires i < |ids| && 0 < remaining && ids[i].Str?
    ensures used <= remaining
    ensures Whole(ids, i + 1, remaining - used, kept + [text]) == Whole(ids, i, remaining, kept)
  {
    var value := ids[i].text;
    var cut := value[..Min(remaining, |value|)];
    var bytes := Encode(cut);
    bytes := bytes[..Min(remaining, |bytes|)];
    CutFirst(value, remaining);
    text, used := Decode(bytes), |bytes|;
    KeptFirst(ids, i, remaining);
    WholeStays(ids, i, remaining, kept, text, used);
  }

  method BoundedIds(raw: RawIds) returns (kept: seq<Text>)
    ensures kept == Bounded(raw)
  {
    if raw.NotTuple? {
      return [];
    }
    kept := KeepTexts(raw.values[..Min(MaxIds, |raw.values|)], MaxBytes);
  }

  /** The loop of `_bounded_ids`. */
  method KeepTexts(ids: seq<RawId>, cap: nat) returns (kept: seq<Text>)
    ensures kept == BoundedFrom(ids, cap)
  {
    kept := [];
    var remaining, i := cap, 0;
    while i < |ids| && remaining > 0 && ids[i].Str?
      invariant 0 <= i <= |ids|
      invariant Whole(ids, i, remaining, kept) == Whole(ids, 0, cap, [])
    {
      var text, used := KeepNext(ids, i, remaining, kept);
      kept := kept + [text];
      remaining := remaining - used;
      i := i + 1;
    }
    WholeAtEnd(ids, i, remaining, kept);
    WholeAtStart(ids, cap);
  }

  // ---- what a bounded list is ----

  /** UTF-8 bytes of all the texts. */
  function Total(ids: seq<Text>): nat {
    if ids == [] then 0 else |Encode(ids[0])| + Total(ids[1..])
  }

  /** At most `cap` bytes of encodable text, with nothing after the bytes are used up. */
  ghost predicate Fits(ids: seq<Text>, cap: nat) {
    && Total(ids) <= cap
    && forall i :: 0 <= i < |ids| ==> IsClean(ids[i]) && Total(ids[..i]) < cap
  }

  lemma FitsTail(ids: seq<Text>, cap: nat)
    requires ids != [] && Fits(ids, cap)
    ensures IsClean(ids[0]) && 0 < cap && |Encode(ids[0])| <= cap && Fits(ids[1..], cap - |Encode(ids[0])|)
  {
    var tail := ids[1..];
    assert Total(ids[..0]) == 0;
    forall i | 0 <= i < |tail| ensures IsClean(tail[i]) && Total(tail[..i]) < cap - |Encode(ids[0])| {
      assert tail[i] == ids[i + 1] && ids[..i + 1][1..] == tail[..i];
      assert Total(ids[..i + 1]) < cap;
    }
  }

  lemma FitsCons(s: Text, tail: seq<Text>, cap: nat)
    requires IsClean(s) && 0 < cap && |Encode(s)| <= cap && Fits(tail, cap - |Encode(s)|)
    ensures Fits([s] + tail, cap)
  {
    var ids := [s] + tail;
    assert ids[1..] == tail;
    forall i | 0 <= i < |ids| ensures IsClean(ids[i]) && Total(ids[..i]) < cap {
      if i > 0 {
        assert ids[..i][1..] == tail[..i - 1];
        assert Total(tail[..i - 1]) < cap - |Encode(s)|;
      }
    }
  }

  /** What is kept of a text is clean, fits, and is the text itself when that is clean and fits. */
  lemma KeptFits(s: Text, remaining: nat)
    ensures IsClean(Kept(s, remaining)) && |Encode(Kept(s, remaining))| <= remaining
    ensures |Encode(s)| <= remaining ==>
              Kept(s, remaining) == Clean(s) && |Encode(Kept(s, remaining))| == Used(s, remaining)
  {
    DecodeTruncated(s, Used(s, remaining));
    WholeFits(s, Used(s, remaining));
    CleanEncodes(s);
    if |Encode(s)| <= remaining {
      assert Clean(s)[..|s|] == Clean(s);
    }
  }

  lemma {:induction false} FromFits(ids: seq<RawId>, remaining: nat)
    ensures Fits(BoundedFrom(ids, remaining), remaining) && |BoundedFrom(ids, remaining)| <= |ids|
    decreases |ids|
  {
    if !(ids == [] || remaining == 0 || ids[0].NotText?) {
      var s := ids[0].text;
      KeptFits(s, remaining);
      FromFits(ids[1..], remaining - Used(s, remaining));
      var tail := BoundedFrom(ids[1..], remaining - Used(s, remaining));
      if |Encode(s)| > remaining {
        assert tail == [];
      }
      FitsCons(Kept(s, remaining), tail, remaining);
    }
  }

  /** The same, text by text. */
  ghost predicate FitsInTurn(ids: seq<Text>, cap: nat) {
    ids == [] || (IsClean(ids[0]) && 0 < cap && |Encode(ids[0])| <= cap && FitsInTurn(ids[1..], cap - |Encode(ids[0])|))
  }

  lemma {:induction false} InTurn(ids: seq<Text>, cap: nat)
    requires Fits(ids, cap)
    ensures FitsInTurn(ids, cap)
    decreases |ids|
  {
    if ids != [] {
      FitsTail(ids, cap);
      InTurn(ids[1..], cap - |Encode(ids[0])|);
    }
  }

  /** A list that fits is kept whole, whatever follows it. */
  lemma {:induction false} FitsKept(ids: seq<Text>, more: seq<RawId>, cap: nat) returns (rest: seq<Text>)
    requires FitsInTurn(ids, cap)
    ensures BoundedFrom(Texts(ids) + more, cap) == ids + rest
    ensures more == [] ==> rest == []
    decreases |ids|
  {
    if ids == [] {
      assert Texts(ids) + more == more;
      rest := BoundedFrom(more, cap);
      assert ids + rest == rest;
    } else {
      FirstKept(ids, more, cap);
      rest := FitsKept(ids[1..], more, cap - |Encode(ids[0])|);
      HeadAndRest(ids, rest);
    }
  }

  lemma HeadAndRest(ids: seq<Text>, rest: seq<Text>)
    requires ids != []
    ensures [ids[0]] + (ids[1..] + rest) == ids + rest
  {
  }

  lemma FirstKept(ids: seq<Text>, more: seq<RawId>, cap: nat)
    requires ids != [] && IsClean(ids[0]) && 0 < cap && |Encode(ids[0])| <= cap
    ensures BoundedFrom(Texts(ids) + more, cap) == [ids[0]]
                                                   + BoundedFrom(Texts(ids[1..]) + more, cap - |Encode(ids[0])|)
  {
    var all := Texts(ids) + more;
    KeptFits(ids[0], cap);
    CleanStays(ids[0]);
    assert all[0] == Str(ids[0]);
    assert all[1..] == Texts(ids[1..]) + more;
  }

  /** Exactly the lists that `_bounded_ids` leaves alone. */
  lemma BoundedExact(ids: seq<Text>)
    ensures Bounded(Ids(Texts(ids))) == ids <==> |ids| <= MaxIds && Fits(ids, MaxBytes)
  {
    var raw := Texts(ids);
    var cut := raw[..Min(MaxIds, |raw|)];
    FromFits(cut, MaxBytes);
    if |ids| <= MaxIds && Fits(ids, MaxBytes) {
      assert cut == raw && raw + [] == raw;
      InTurn(ids, MaxBytes);
      var rest := FitsKept(ids, [], MaxBytes);
    }
  }

  /** At most 64 texts and 16,384 bytes come out, and doing it again changes nothing. */
  lemma BoundedIdempotent(raw: RawIds)
    ensures |Bounded(raw)| <= MaxIds && Total(Bounded(raw)) <= MaxBytes
    ensures Bounded(Ids(Texts(Bounded(raw)))) == Bounded(raw)
  {
    if raw.Ids? {
      FromFits(raw.values[..Min(MaxIds, |raw.values|)], MaxBytes);
    }
    BoundedExact(Bounded(raw));
  }

  /** Appending to an already bounded list keeps it as an exact prefix. */
  lemma BoundedKeepsPrefix(ids: seq<Text>, more: seq<RawId>)
    requires Bounded(Ids(Texts(ids))) == ids
    ensures ids <= Bounded(Ids(Texts(ids) + more))
  {
    BoundedExact(ids);
    var all := Texts(ids) + more;
    var cut := all[..Min(MaxIds, |all|)];
    assert cut == Texts(ids) + cut[|ids|..];
    InTurn(ids, MaxBytes);
    var rest := FitsKept(ids, cut[|ids|..], MaxBytes);
  }
}
