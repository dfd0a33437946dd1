/** The buffers of buf.c and the list commands of ncl.c, with their loops. */
module ListBuf {
  import opened Bytes
  import L = ListCodec
  import opened ListCodec

  class Buf {
    var s: seq<Byte>

    constructor ()
      ensures s == []
    {
      s := [];
    }

    constructor Take(text: seq<Byte>)
      ensures s == text
    {
      s := text;
    }

    method AppC(c: Byte)
      modifies this
      ensures s == old(s) + [c]
    {
      s := s + [c];
    }

    method AppElemC(c: Byte, signed: bool)
      modifies this
      ensures s == old(s) + EscapeChar(c, signed)
    {
      if Val(c, signed) <= SPACE || Val(c, signed) > 'z' as int || c == BACKSLASH {
        s := s + [BACKSLASH];
        s := s + [c];
      } else {
        s := s + [c];
      }
    }

    method AppElemS(t: seq<Byte>, signed: bool)
      modifies this
      ensures s == L.Append(old(s), t, signed)
    {
      if s != [] { AppC(SPACE); }
      AppEncoded(t, signed);
    }

    method AppEncoded(t: seq<Byte>, signed: bool)
      modifies this
      ensures s == old(s) + Encode(t, signed)
    {
      var clean := IsClean(t, signed);
      if clean {
        AppPlain(t);
      } else {
        Regroup(s, [OPEN], Escape(t, signed), [CLOSE]);
        AppC(OPEN);
        AppEscaped(t, signed);
        AppC(CLOSE);
      }
    }

    method AppPlain(t: seq<Byte>)
      modifies this
      ensures s == old(s) + t
    {
      ghost var start := s;
      for k := 0 to |t|
        invariant s == start + t[..k]
      {
        AppC(t[k]);
        assert t[..k + 1] == t[..k] + [t[k]];
      }
      assert t[..|t|] == t;
    }

    method AppEscaped(t: seq<Byte>, signed: bool)
      modifies this
      ensures s == old(s) + Escape(t, signed)
    {
      ghost var start := s;
      for k := 0 to |t|
        invariant s == start + Escape(t[..k], signed)
      {
        AppElemC(t[k], signed);
        assert t[..k + 1] == t[..k] + [t[k]];
        EscapeSnoc(t[..k], t[k], signed);
      }
      assert t[..|t|] == t;
    }
  }

  /** Whether an element can be written bare: no dirty character, and not empty. */
  method IsClean(t: seq<Byte>, signed: bool) returns (clean: bool)
    ensures clean <==> Clean(t, signed)
  {
    for i := 0 to |t|
      invariant forall k | 0 <= k < i :: !Dirty(t[k], signed)
    {
      if Dirty(t[i], signed) { return false; }
    }
    clean := t != [];
  }

  lemma {:induction false} EscapeSnoc(s: seq<Byte>, c: Byte, signed: bool)
    ensures Escape(s + [c], signed) == Escape(s, signed) + EscapeChar(c, signed)
    decreases |s|
  {
    if s == [] {
      assert s + [c] == [c];
      assert Escape([c][1..], signed) == [];
    } else {
      assert (s + [c])[1..] == s[1..] + [c];
      EscapeSnoc(s[1..], c, signed);
    }
  }

  /** FormList. */
  method FormList(items: seq<seq<Byte>>, signed: bool) returns (text: seq<Byte>)
    ensures text == L.FormList(items, signed)
    ensures L.SplitList(text, signed) == Items(items)
  {
    text := AppendTo([], items, signed);
    RoundTrip(items, signed);
  }

  /** The loop shared by FormList and picolCommandListAppend. */
  method AppendTo(text: seq<Byte>, items: seq<seq<Byte>>, signed: bool) returns (r: seq<Byte>)
    ensures r == AppendAll(text, items, signed)
  {
    var buf := new Buf.Take(text);
    for i := 0 to |items|
      invariant buf.s == AppendAll(text, items[..i], signed)
    {
      buf.AppElemS(items[i], signed);
      assert items[..i + 1][..i] == items[..i];
    }
    assert items[..|items|] == items;
    r := buf.s;
  }

  /** ElemDecode on the text from position i. */
  method ElemDecode(s: seq<Byte>, i: nat, signed: bool) returns (d: Decoded)
    requires i <= |s|
    ensures d == DecodeElem(s[i..], signed)
  {
    DecodeElemAt(s, i, signed);
    if i < |s| && s[i] == OPEN {
      d := BracedDecode(s, i + 1, signed);
    } else {
      var t := BareEnd(s, i, signed);
      d := Elem(s[i..t], s[t..]);
    }
  }

  lemma DecodeElemAt(s: seq<Byte>, i: nat, signed: bool)
    requires i <= |s|
    ensures i < |s| && s[i] == OPEN ==> DecodeElem(s[i..], signed) == DecodeBraced(s[i + 1..], signed)
    ensures !(i < |s| && s[i] == OPEN) ==>
              var n := BareLength(s[i..], signed); DecodeElem(s[i..], signed) == Elem(s[i..i + n], s[i + n..])
  {
    if i < |s| && s[i] == OPEN {
      assert s[i..][1..] == s[i + 1..];
    } else {
      var n := BareLength(s[i..], signed);
      assert s[i..][..n] == s[i..i + n] && s[i..][n..] == s[i + n..];
    }
  }

  method BracedDecode(s: seq<Byte>, i: nat, signed: bool) returns (d: Decoded)
    requires i <= |s|
    ensures d == DecodeBraced(s[i..], signed)
  {
    var j, buf := i, [];
    while j < |s|
      invariant i <= j <= |s|
      invariant DecodeBraced(s[i..], signed) == Onto(buf, DecodeBraced(s[j..], signed))
    {
      BracedOnto(buf, s, j, signed);
      if s[j] == CLOSE { return Elem(buf, s[j + 1..]); }
      if s[j] == BACKSLASH {
        j := j + 1;                    // extra to jump over the backslash
        if j == |s| { return PastEnd; }
      }
      buf := buf + [s[j]];
      j := j + 1;
    }
    assert s[j..] == [];
    d := Elem(buf, []);
  }

  /** How DecodeBraced unfolds at position j. */
  lemma BracedAt(s: seq<Byte>, j: nat, signed: bool)
    requires j < |s|
    ensures s[j] == CLOSE ==> DecodeBraced(s[j..], signed) == Elem([], s[j + 1..])
    ensures s[j] == BACKSLASH && j + 1 == |s| ==> DecodeBraced(s[j..], signed) == PastEnd
    ensures s[j] == BACKSLASH && j + 1 < |s| ==>
              DecodeBraced(s[j..], signed) == Onto([s[j + 1]], DecodeBraced(s[j + 2..], signed))
    ensures s[j] != CLOSE && s[j] != BACKSLASH ==>
              DecodeBraced(s[j..], signed) == Onto([s[j]], DecodeBraced(s[j + 1..], signed))
  {
    assert s[j..][0] == s[j] && s[j..][1..] == s[j + 1..];
    if j + 1 < |s| { assert s[j..][1] == s[j + 1] && s[j..][2..] == s[j + 2..]; }
  }

  lemma BracedOnto(buf: seq<Byte>, s: seq<Byte>, j: nat, signed: bool)
    requires j < |s|
    ensures var d := Onto(buf, DecodeBraced(s[j..], signed));
            if s[j] == CLOSE then d == Elem(buf, s[j + 1..])
            else if s[j] != BACKSLASH then d == Onto(buf + [s[j]], DecodeBraced(s[j + 1..], signed))
            else if j + 1 == |s| then d == PastEnd
            else d == Onto(buf + [s[j + 1]], DecodeBraced(s[j + 2..], signed))
  {
    BracedAt(s, j, signed);
    var k := if s[j] == BACKSLASH then j + 1 else j;
    if k < |s| { OntoMore(buf, s[k], DecodeBraced(s[k + 1..], signed)); }
  }

  method BareEnd(s: seq<Byte>, i: nat, signed: bool) returns (t: nat)
    requires i <= |s|
    ensures t == i + BareLength(s[i..], signed)
  {
    t := i;
    while t < |s| && Val(s[t], signed) > SPACE
      invariant i <= t <= |s|
      invariant BareLength(s[i..], signed) == (t - i) + BareLength(s[t..], signed)
    {
      assert s[t..][0] == s[t] && s[t..][1..] == s[t + 1..];
      t := t + 1;
    }
  }

  /** ElemLen: the length of the element as it is written, and where it ends. */
  method ElemLen(s: seq<Byte>, i: nat, signed: bool) returns (ok: bool, n: nat, end: nat)
    requires i <= |s|
    ensures ok <==> DecodeElem(s[i..], signed).Elem?
    ensures ok ==> n == ElemLength(s[i..], signed) && end == |s| - |DecodeElem(s[i..], signed).rest|
  {
    DecodeElemAt(s, i, signed);
    if i < |s| { assert s[i..][1..] == s[i + 1..]; }
    if i < |s| && s[i] == OPEN {
      ok, n, end := BracedLen(s, i + 1, signed);
    } else {
      end := BareEnd(s, i, signed);
      ok, n := true, end - i;
    }
  }

  method BracedLen(s: seq<Byte>, i: nat, signed: bool) returns (ok: bool, n: nat, end: nat)
    requires i <= |s|
    ensures ok <==> DecodeBraced(s[i..], signed).Elem?
    ensures ok ==> n == ContentsLength(s[i..]) && end == |s| - |DecodeBraced(s[i..], signed).rest|
  {
    n, end := 0, i;
    while end < |s|
      invariant i <= end <= |s| && Scanned(s, i, n, end, signed)
    {
      ScannedOn(s, i, n, end, signed);
      if s[end] == CLOSE { return true, n, end + 1; }
      if s[end] == BACKSLASH {
        end, n := end + 1, n + 1;      // extra to jump over the backslash
        if end == |s| { return false, 0, 0; }
      }
      end, n := end + 1, n + 1;
    }
    ok := true;
    assert s[end..] == [];
  }

  /** The element from i reaches as far as what is left of it from `end`, n further on. */
  predicate Scanned(s: seq<Byte>, i: nat, n: nat, end: nat, signed: bool)
    requires i <= end <= |s|
  {
    var part, whole := DecodeBraced(s[end..], signed), DecodeBraced(s[i..], signed);
    && (part.Elem? <==> whole.Elem?) && (part.Elem? ==> whole.rest == part.rest)
    && ContentsLength(s[i..]) == n + ContentsLength(s[end..])
  }

  lemma ScannedOn(s: seq<Byte>, i: nat, n: nat, end: nat, signed: bool)
    requires i <= end < |s| && Scanned(s, i, n, end, signed)
    ensures var whole := DecodeBraced(s[i..], signed);
            if s[end] == CLOSE then whole.Elem? && n == ContentsLength(s[i..]) && whole.rest == s[end + 1..]
            else if s[end] != BACKSLASH then Scanned(s, i, n + 1, end + 1, signed)
            else if end + 1 == |s| then whole.PastEnd?
            else Scanned(s, i, n + 2, end + 2, signed)
  {
    BracedAt(s, end, signed);
    ContentsAt(s, end);
  }

  lemma ContentsAt(s: seq<Byte>, j: nat)
    requires j < |s|
    ensures s[j] == CLOSE ==> ContentsLength(s[j..]) == 0
    ensures s[j] == BACKSLASH && j + 1 < |s| ==> ContentsLength(s[j..]) == 2 + ContentsLength(s[j + 2..])
    ensures s[j] != CLOSE && s[j] != BACKSLASH ==> ContentsLength(s[j..]) == 1 + ContentsLength(s[j + 1..])
  {
    assert s[j..][0] == s[j] && s[j..][1..] == s[j + 1..];
    if j + 1 < |s| { assert s[j..][1] == s[j + 1] && s[j..][2..] == s[j + 2..]; }
  }

  function Onto(done: seq<Byte>, d: Decoded): Decoded {
    match d case Elem(e, rest) => Elem(done + e, rest) case PastEnd => PastEnd
  }

  lemma OntoMore(done: seq<Byte>, c: Byte, d: Decoded)
    ensures Onto(done + [c], d) == Onto(done, Onto([c], d))
  {
    if d.Elem? { assert done + [c] + d.elem == done + ([c] + d.elem); }
  }

  /** SplitList. */
  method SplitList(s: seq<Byte>, signed: bool) returns (r: Split)
    ensures r == L.SplitList(s, signed)
  {
    var i, dope := 0, [];
    assert s[0..] == s;
    while i < |s|
      invariant 0 <= i <= |s|
      invariant L.SplitList(s, signed) == Prefixed(dope, L.SplitList(s[i..], signed))
      decreases |s| - i
    {
      ghost var rest := s[i..];
      i := Skip(s, i, signed);
      var d := ElemDecode(s, i, signed);
      if d.PastEnd? { return ReadPastEnd; }
      DecodeSuffix(s, i, signed);
      PrefixedMore(dope, d.elem, L.SplitList(d.rest, signed));
      dope := dope + [d.elem];
      i := |s| - |d.rest|;
    }
    assert s[i..] == [];
    r := Items(dope);
  }

  method Skip(s: seq<Byte>, from: nat, signed: bool) returns (i: nat)
    requires from <= |s|
    ensures from <= i <= |s| && s[i..] == SkipWhite(s[from..], signed)
  {
    i := from;
    while i < |s| && Val(s[i], signed) <= SPACE
      invariant from <= i <= |s| && SkipWhite(s[from..], signed) == SkipWhite(s[i..], signed)
    {
      assert s[i..][0] == s[i] && s[i..][1..] == s[i + 1..];
      i := i + 1;
    }
  }

  lemma PrefixedMore(done: seq<seq<Byte>>, e: seq<Byte>, s: Split)
    ensures Prefixed(done + [e], s) == Prefixed(done, Prefixed([e], s))
  {
    if s.Items? { assert done + [e] + s.items == done + ([e] + s.items); }
  }

  /** Decoding consumes at least one character of a text that is neither empty nor blank, and
      what is left is a suffix. */
  lemma DecodeSuffix(s: seq<Byte>, i: nat, signed: bool)
    requires i <= |s| && (i < |s| ==> !White(s[i], signed)) && DecodeElem(s[i..], signed).Elem?
    ensures var rest := DecodeElem(s[i..], signed).rest;
            |rest| <= |s| - i && s[|s| - |rest|..] == rest && (i < |s| ==> |rest| < |s| - i)
  {
    if i < |s| && s[i] == OPEN {
      assert s[i..][1..] == s[i + 1..];
      BracedSuffix(s[i + 1..], signed);
      var rest := DecodeBraced(s[i + 1..], signed).rest;
      assert s[|s| - |rest|..] == s[i + 1..][|s| - i - 1 - |rest|..];
    } else {
      var n := BareLength(s[i..], signed);
      assert s[i..][n..] == s[i + n..];
    }
  }

  lemma {:induction false} BracedSuffix(s: seq<Byte>, signed: bool)
    requires DecodeBraced(s, signed).Elem?
    ensures var rest := DecodeBraced(s, signed).rest; |rest| <= |s| && s[|s| - |rest|..] == rest
    decreases |s|
  {
    if s == [] || s[0] == CLOSE {
    } else {
      var n := if s[0] == BACKSLASH then 2 else 1;
      BracedSuffix(s[n..], signed);
    }
  }
}
