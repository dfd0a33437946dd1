/** Where list elements end, and which texts are read past their end. */
module ListEnds {
  import opened Bytes
  import opened Sequences
  import opened ListCodec

  // ----- The length that ElemLen reports -----

  /** The backslashes that escape something before the closing brace. */
  function Escapes(s: seq<Byte>): nat {
    if s == [] || s[0] == CLOSE then 0
    else if s[0] == BACKSLASH && |s| > 1 then 1 + Escapes(s[2..])
    else Escapes(s[1..])
  }

  lemma {:induction false} ContentsAndEscapes(s: seq<Byte>, signed: bool)
    requires DecodeBraced(s, signed).Elem?
    ensures ContentsLength(s) == |DecodeBraced(s, signed).elem| + Escapes(s)
    ensures Escapes(s) == 0 <==> BACKSLASH !in s[..ContentsLength(s)]
    decreases |s|
  {
    if s != [] && s[0] != CLOSE {
      var k := if s[0] == BACKSLASH then 2 else 1;
      ContentsAndEscapes(s[k..], signed);
      var contents, rest := s[..ContentsLength(s)], s[k..][..ContentsLength(s[k..])];
      assert contents == s[..k] + rest;
      if k == 2 { assert contents[0] == BACKSLASH; } else { assert s[..1] == [s[0]]; }
    }
  }

  /** ElemLen reports the decoded length, and the escapes as well: so too much exactly when a
      braced element holds a backslash before its closing brace. */
  lemma LengthExactly(s: seq<Byte>, signed: bool)
    requires DecodeElem(s, signed).Elem?
    ensures ElemLength(s, signed) >= |DecodeElem(s, signed).elem|
    ensures ElemLength(s, signed) == |DecodeElem(s, signed).elem| <==>
              s == [] || s[0] != OPEN || BACKSLASH !in s[1..1 + ElemLength(s, signed)]
  {
    if s != [] && s[0] == OPEN {
      ContentsAndEscapes(s[1..], signed);
      assert s[1..][..ContentsLength(s[1..])] == s[1..1 + ElemLength(s, signed)];
    }
  }

  lemma {:induction false} EscapedContents(s: seq<Byte>, tail: seq<Byte>, signed: bool)
    ensures ContentsLength(Escape(s, signed) + [CLOSE] + tail) == |Escape(s, signed)|
    ensures |Escape(s, signed)| >= |s|
    ensures |Escape(s, signed)| == |s| <==> forall i | 0 <= i < |s| :: !Dirty(s[i], signed)
    decreases |s|
  {
    var text := Escape(s, signed) + [CLOSE] + tail;
    if s != [] {
      var rest := Escape(s[1..], signed) + [CLOSE] + tail;
      assert text == EscapeChar(s[0], signed) + rest;
      EscapedContents(s[1..], tail, signed);
      if Dirty(s[0], signed) { assert text[2..] == rest; } else { assert text[1..] == rest; }
      assert forall i | 0 < i < |s| :: s[i] == s[1..][i - 1];
    }
  }

  /** Of an encoded item it is right exactly when the item is written bare or is empty. */
  lemma EncodedLength(x: seq<Byte>, tail: seq<Byte>, signed: bool)
    requires tail == [] || White(tail[0], signed)
    ensures ElemLength(Encode(x, signed) + tail, signed) == |x| <==> Clean(x, signed) || x == []
  {
    var text := Encode(x, signed) + tail;
    if Clean(x, signed) {
      BareRoundTrip(x, tail, signed);
      assert text[0] == x[0] && !Dirty(x[0], signed);
    } else {
      EscapedContents(x, tail, signed);
      assert text[1..] == Escape(x, signed) + [CLOSE] + tail;
    }
  }

  // ----- Reading past the end -----

  /** The braces stay open to a last backslash that nothing escapes. */
  predicate OpenToBackslash(s: seq<Byte>) {
    Odd(FinalRun(s, BACKSLASH)) && ContentsLength(s[..|s| - 1]) == |s| - 1
  }

  /** The contents up to the last character, from the next element of them on. */
  lemma FrontContents(s: seq<Byte>, j: nat)
    requires |s| > 1 && s[0] != CLOSE && j == if s[0] == BACKSLASH then 2 else 1
    ensures ContentsLength(s[..|s| - 1]) == if |s| > j then j + ContentsLength(s[j..][..|s| - j - 1]) else 1
  {
    var front := s[..|s| - 1];
    if |s| > j {
      assert front[j..] == s[j..][..|s| - j - 1];
    } else {
      assert front == [s[0]] && front[1..] == [];
    }
  }

  /** A braced element is read past its end exactly then. */
  lemma {:induction false} BracedOverruns(s: seq<Byte>, signed: bool)
    ensures DecodeBraced(s, signed).PastEnd? <==> OpenToBackslash(s)
    decreases |s|
  {
    if |s| == 1 {
      assert s == [s[0]] && s[1..] == [] && s[..0] == [];
      assert Odd(FinalRun(s, BACKSLASH)) == (s[0] == BACKSLASH) by { assert Odd(1); }
    } else if |s| > 1 && s[0] == CLOSE {
      assert s[..|s| - 1][0] == CLOSE;
    } else if |s| > 1 {
      var j := if s[0] == BACKSLASH then 2 else 1;
      BracedOverruns(s[j..], signed);
      FrontContents(s, j);
      if j == 2 { EscapeKeepsParity(s, BACKSLASH); }
    }
  }

  /** Otherwise, it is open to the end of the text, or closed there, or closed before. */
  lemma {:induction false} BracedEnds(s: seq<Byte>, signed: bool)
    requires s != []
    ensures var k := ContentsLength(s[..|s| - 1]);
            if k == |s| - 1 then DecodeBraced(s, signed).Elem? ==> DecodeBraced(s, signed).rest == []
            else s[k] == CLOSE && DecodeBraced(s, signed).Elem? && DecodeBraced(s, signed).rest == s[k + 1..]
    decreases |s|
  {
    if |s| == 1 {
      assert s[1..] == [];
    } else if s[0] != CLOSE {
      var j := if s[0] == BACKSLASH then 2 else 1;
      FrontContents(s, j);
      if |s| > j { BracedEnds(s[j..], signed); }
    }
  }

  /** The list ends inside braces. */
  predicate LeavesOpen(s: seq<Byte>, signed: bool)
    decreases |s|
  {
    var t := SkipWhite(s, signed);
    t != [] &&
    if t[0] == OPEN then
      var k := ContentsLength(t[1..]);
      k == |t| - 1 || LeavesOpen(t[k + 2..], signed)
    else LeavesOpen(t[BareLength(t, signed)..], signed)
  }

  lemma {:induction false} SkipFront(s: seq<Byte>, signed: bool)
    requires s != []
    ensures var t := SkipWhite(s, signed);
            && FinalRun(s, BACKSLASH) == FinalRun(t, BACKSLASH)
            && SkipWhite(s[..|s| - 1], signed) == if t == [] then [] else t[..|t| - 1]
    decreases |s|
  {
    if White(s[0], signed) {
      if |s| > 1 {
        SkipFront(s[1..], signed);
        assert s[..|s| - 1][1..] == s[1..][..|s| - 2];
      } else {
        assert s[..0] == [] && s[1..] == [];
      }
    }
  }

  lemma {:induction false} BareFront(t: seq<Byte>, signed: bool)
    requires t != []
    ensures var n := BareLength(t, signed);
            && BareLength(t[..|t| - 1], signed) == (if n < |t| then n else n - 1)
            && (n < |t| ==> White(t[n], signed) && FinalRun(t, BACKSLASH) == FinalRun(t[n..], BACKSLASH) && t[..|t| - 1][n..] == t[n..][..|t| - n - 1])
    decreases |t|
  {
    var n := BareLength(t, signed);
    if |t| == 1 {
      assert t[..0] == [] && t[1..] == [];
    } else if n > 0 {
      BareFront(t[1..], signed);
      assert t[..|t| - 1][1..] == t[1..][..|t| - 2];
    }
    if n < |t| {
      BareStops(t, signed);
      RunBehind(t, n, BACKSLASH);
    }
  }

  lemma {:induction false} BareStops(t: seq<Byte>, signed: bool)
    requires BareLength(t, signed) < |t|
    ensures White(t[BareLength(t, signed)], signed)
    decreases |t|
  {
    if !White(t[0], signed) { BareStops(t[1..], signed); }
  }

  /** An odd run of backslashes ends the text, and without the last of them the list would end
      inside braces. */
  predicate Overruns(s: seq<Byte>, signed: bool) {
    s != [] && Odd(FinalRun(s, BACKSLASH)) && LeavesOpen(s[..|s| - 1], signed)
  }

  /** White space before an element makes no difference. */
  lemma Unblanked(s: seq<Byte>, signed: bool)
    requires s != []
    ensures var t := SkipWhite(s, signed);
            && (SplitList(s, signed) == ReadPastEnd <==> SplitList(t, signed) == ReadPastEnd)
            && (Overruns(s, signed) <==> Overruns(t, signed))
  {
    SkipFront(s, signed);
    var t := SkipWhite(s, signed);
    if t == [] { assert DecodeElem(t, signed) == Elem([], []); } else { UnblankedFront(s[..|s| - 1], t[..|t| - 1], signed); }
  }

  lemma UnblankedFront(s: seq<Byte>, t: seq<Byte>, signed: bool)
    requires t == SkipWhite(s, signed)
    ensures LeavesOpen(s, signed) <==> LeavesOpen(t, signed)
  {
    assert SkipWhite(t, signed) == t;
  }

  /** SplitList reads past the end of its text exactly then. */
  lemma {:induction false} SplitOverruns(s: seq<Byte>, signed: bool)
    ensures SplitList(s, signed) == ReadPastEnd <==> Overruns(s, signed)
    decreases |s|
  {
    if s != [] {
      Unblanked(s, signed);
      if SkipWhite(s, signed) != s {
        SplitOverruns(SkipWhite(s, signed), signed);
      } else {
        var rest := NextElement(s, signed);
        SplitOverruns(rest, signed);
      }
    }
  }

  /** A text that begins with an element: either that is read past its end, or the rest decides. */
  lemma NextElement(t: seq<Byte>, signed: bool) returns (rest: seq<Byte>)
    requires t != [] && SkipWhite(t, signed) == t
    ensures |rest| < |t|
    ensures (SplitList(t, signed) == ReadPastEnd <==> Overruns(t, signed)) <==>
            (SplitList(rest, signed) == ReadPastEnd <==> Overruns(rest, signed))
  {
    var d := DecodeElem(t, signed);
    if t[0] != OPEN {
      rest := t[BareLength(t, signed)..];
      BareRest(t, signed);
    } else if |t| > 1 {
      BracedRest(t, signed);
      rest := if d.Elem? then d.rest else [];
    } else {
      assert t == [OPEN] && t[1..] == [] && t[..0] == [];
      rest := [];
    }
    SplitStep(t, d, signed);
  }

  lemma SplitStep(t: seq<Byte>, d: Decoded, signed: bool)
    requires t != [] && SkipWhite(t, signed) == t && d == DecodeElem(t, signed) && (d.Elem? ==> |d.rest| < |t|)
    ensures SplitList(t, signed) == ReadPastEnd <==> d.PastEnd? || SplitList(d.rest, signed) == ReadPastEnd
  {}

  /** The case of a bare element. */
  lemma BareRest(t: seq<Byte>, signed: bool)
    requires t != [] && t[0] != OPEN && !White(t[0], signed)
    ensures var n := BareLength(t, signed);
            && n > 0 && DecodeElem(t, signed) == Elem(t[..n], t[n..])
            && (Overruns(t, signed) <==> Overruns(t[n..], signed))
  {
    BareFront(t, signed);
    var n, front := BareLength(t, signed), t[..|t| - 1];
    if front != [] {
      BareOpens(front, signed);
      if n == |t| { assert front[|front|..] == []; }
    } else {
      assert n == |t| && t[n..] == [] && !LeavesOpen(front, signed);
    }
  }

  lemma BareOpens(t: seq<Byte>, signed: bool)
    requires t != [] && t[0] != OPEN && !White(t[0], signed)
    ensures LeavesOpen(t, signed) <==> LeavesOpen(t[BareLength(t, signed)..], signed)
  {
    assert SkipWhite(t, signed) == t;
  }

  /** The case of a braced element. */
  lemma BracedRest(t: seq<Byte>, signed: bool)
    requires |t| > 1 && t[0] == OPEN
    ensures var k := ContentsLength(t[1..][..|t| - 2]);
            if k < |t| - 2 then
              && DecodeElem(t, signed).Elem? && DecodeElem(t, signed).rest == t[k + 2..]
              && (Overruns(t, signed) <==> Overruns(t[k + 2..], signed))
            else
              && (DecodeElem(t, signed).PastEnd? <==> Overruns(t, signed))
              && (DecodeElem(t, signed).Elem? ==> DecodeElem(t, signed).rest == [])
  {
    var u, front := t[1..], t[..|t| - 1];
    var k := ContentsLength(u[..|u| - 1]);
    BracedOverruns(u, signed);
    BracedEnds(u, signed);
    assert front[1..] == u[..|u| - 1] && front[0] == OPEN && !White(OPEN, signed);
    if k < |u| - 1 {
      RunBehind(t, k + 1, BACKSLASH);
      assert t[k + 1..][1..] == t[k + 2..] && u[k + 1..] == t[k + 2..];
      assert front[k + 2..] == t[k + 2..][..|t| - k - 3];
    }
  }
}
