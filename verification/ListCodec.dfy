/**
  The Tcl-style list encoding of buf.c and ncl.c.  Strings hold no NUL.  The source uses
  plain `char`, whose sign is the compiler's choice: `signed` stands for it, and every
  result holds for both.
 */
module ListCodec {
  import opened Bytes
  import opened Sequences

  const NUL: Byte := 0
  const SPACE: Byte := 32
  const BACKSLASH: Byte := '\\' as int
  const OPEN: Byte := '{' as int
  const CLOSE: Byte := '}' as int

  predicate NulFree(s: seq<Byte>) { NUL !in s }

  /** The value of a plain char in a comparison. */
  function Val(c: Byte, signed: bool): int { if signed && c >= 128 then c - 256 else c }

  predicate White(c: Byte, signed: bool) { Val(c, signed) <= SPACE }

  /** Characters that BufAppElemC escapes and that make BufAppElemS use braces. */
  predicate Dirty(c: Byte, signed: bool) { White(c, signed) || Val(c, signed) > 'z' as int || c == BACKSLASH }

  // ----- Encoding -----

  function EscapeChar(c: Byte, signed: bool): seq<Byte> { if Dirty(c, signed) then [BACKSLASH, c] else [c] }

  function Escape(s: seq<Byte>, signed: bool): seq<Byte> {
    if s == [] then [] else EscapeChar(s[0], signed) + Escape(s[1..], signed)
  }

  predicate Clean(s: seq<Byte>, signed: bool) { s != [] && forall i | 0 <= i < |s| :: !Dirty(s[i], signed) }

  function Encode(s: seq<Byte>, signed: bool): (r: seq<Byte>)
    ensures r != []
  {
    if Clean(s, signed) then s else [OPEN] + Escape(s, signed) + [CLOSE]
  }

  /** BufAppElemS on a buffer holding buf. */
  function Append(buf: seq<Byte>, s: seq<Byte>, signed: bool): seq<Byte> {
    buf + (if buf == [] then [] else [SPACE]) + Encode(s, signed)
  }

  /** FormList, and lappend onto buf. */
  function AppendAll(buf: seq<Byte>, items: seq<seq<Byte>>, signed: bool): seq<Byte>
    decreases |items|
  {
    if items == [] then buf else Append(AppendAll(buf, items[..|items| - 1], signed), items[|items| - 1], signed)
  }

  function FormList(items: seq<seq<Byte>>, signed: bool): seq<Byte> { AppendAll([], items, signed) }

  // ----- Decoding, from the head of the remaining text -----

  /** An element and the text after it; or a read past the terminating NUL, which a backslash
      just before it causes inside braces. */
  datatype Decoded = Elem(elem: seq<Byte>, rest: seq<Byte>) | PastEnd

  function DecodeBraced(s: seq<Byte>, signed: bool): (d: Decoded)
    ensures d.Elem? ==> |d.rest| <= |s|
  {
    if s == [] then Elem([], [])
    else if s[0] == CLOSE then Elem([], s[1..])
    else if s[0] == BACKSLASH then
      if |s| == 1 then PastEnd
      else match DecodeBraced(s[2..], signed)
           case Elem(e, rest) => Elem([s[1]] + e, rest)
           case PastEnd => PastEnd
    else match DecodeBraced(s[1..], signed)
         case Elem(e, rest) => Elem([s[0]] + e, rest)
         case PastEnd => PastEnd
  }

  function BareLength(s: seq<Byte>, signed: bool): (n: nat)
    ensures n <= |s|
  {
    if s == [] || White(s[0], signed) then 0 else 1 + BareLength(s[1..], signed)
  }

  /** How much of s stands before the closing brace, or all of it. */
  function ContentsLength(s: seq<Byte>): (n: nat)
    ensures n <= |s|
    ensures n < |s| ==> s[n] == CLOSE
  {
    if s == [] || s[0] == CLOSE then 0
    else if s[0] == BACKSLASH && |s| > 1 then 2 + ContentsLength(s[2..])
    else 1 + ContentsLength(s[1..])
  }

  /** The length that ElemLen reports: inside braces it counts the backslashes, too. */
  function ElemLength(s: seq<Byte>, signed: bool): nat {
    if s != [] && s[0] == OPEN then ContentsLength(s[1..]) else BareLength(s, signed)
  }

  /** What ElemDecode makes of an element and where it ends. */
  function DecodeElem(s: seq<Byte>, signed: bool): Decoded {
    if s != [] && s[0] == OPEN then DecodeBraced(s[1..], signed)
    else var n := BareLength(s, signed); Elem(s[..n], s[n..])
  }

  function SkipWhite(s: seq<Byte>, signed: bool): (r: seq<Byte>)
    ensures |r| <= |s| && (r == [] || !White(r[0], signed))
  {
    if s == [] || !White(s[0], signed) then s else SkipWhite(s[1..], signed)
  }

  datatype Split = Items(items: seq<seq<Byte>>) | ReadPastEnd

  function SplitList(s: seq<Byte>, signed: bool): Split
    decreases |s|
  {
    if s == [] then Items([])
    else
      var t := SkipWhite(s, signed);
      match DecodeElem(t, signed)
      case PastEnd => ReadPastEnd
      case Elem(e, rest) =>
        match SplitList(rest, signed)
        case Items(more) => Items([e] + more)
        case ReadPastEnd => ReadPastEnd
  }

  // ----- One element -----

  lemma {:induction false} BracedRoundTrip(s: seq<Byte>, tail: seq<Byte>, signed: bool)
    ensures DecodeBraced(Escape(s, signed) + [CLOSE] + tail, signed) == Elem(s, tail)
    decreases |s|
  {
    var text := Escape(s, signed) + [CLOSE] + tail;
    if s == [] {
      assert text[1..] == tail;
    } else {
      var rest := Escape(s[1..], signed) + [CLOSE] + tail;
      assert text == EscapeChar(s[0], signed) + rest;
      BracedRoundTrip(s[1..], tail, signed);
      if Dirty(s[0], signed) { assert text[2..] == rest; } else { assert text[1..] == rest; }
      assert [s[0]] + s[1..] == s;
    }
  }

  lemma {:induction false} BareRoundTrip(s: seq<Byte>, tail: seq<Byte>, signed: bool)
    requires forall i | 0 <= i < |s| :: !Dirty(s[i], signed)
    requires tail == [] || White(tail[0], signed)
    ensures BareLength(s + tail, signed) == |s|
    decreases |s|
  {
    if s == [] {
      assert s + tail == tail;
    } else {
      assert (s + tail)[1..] == s[1..] + tail;
      BareRoundTrip(s[1..], tail, signed);
    }
  }

  /** Decoding an encoded element gives it back and stops right after it. */
  lemma ElemRoundTrip(s: seq<Byte>, tail: seq<Byte>, signed: bool)
    requires tail == [] || White(tail[0], signed)
    ensures DecodeElem(Encode(s, signed) + tail, signed) == Elem(s, tail)
    ensures !White(Encode(s, signed)[0], signed)
  {
    if Clean(s, signed) { CleanRoundTrip(s, tail, signed); } else { DirtyRoundTrip(s, tail, signed); }
  }

  lemma CleanRoundTrip(s: seq<Byte>, tail: seq<Byte>, signed: bool)
    requires Clean(s, signed) && (tail == [] || White(tail[0], signed))
    ensures DecodeElem(s + tail, signed) == Elem(s, tail)
  {
    BareRoundTrip(s, tail, signed);
    var text := s + tail;
    assert text[0] == s[0] && !Dirty(s[0], signed);
    assert text[..|s|] == s && text[|s|..] == tail;
  }

  lemma DirtyRoundTrip(s: seq<Byte>, tail: seq<Byte>, signed: bool)
    ensures DecodeElem([OPEN] + Escape(s, signed) + [CLOSE] + tail, signed) == Elem(s, tail)
  {
    var text := [OPEN] + Escape(s, signed) + [CLOSE] + tail;
    assert text[1..] == Escape(s, signed) + [CLOSE] + tail;
    BracedRoundTrip(s, tail, signed);
  }

  // ----- Whole lists -----

  /** The text of items when something stands before them. */
  function Following(items: seq<seq<Byte>>, signed: bool): seq<Byte> {
    if items == [] then [] else [SPACE] + Encode(items[0], signed) + Following(items[1..], signed)
  }

  lemma {:induction false} AppendAllAppend(buf: seq<Byte>, xs: seq<seq<Byte>>, ys: seq<seq<Byte>>, signed: bool)
    ensures AppendAll(buf, xs + ys, signed) == AppendAll(AppendAll(buf, xs, signed), ys, signed)
    decreases |ys|
  {
    if ys == [] {
      assert xs + ys == xs;
    } else {
      var front := ys[..|ys| - 1];
      assert (xs + ys)[..|xs + ys| - 1] == xs + front;
      AppendAllAppend(buf, xs, front, signed);
    }
  }

  lemma AppendOne(buf: seq<Byte>, x: seq<Byte>, signed: bool)
    ensures AppendAll(buf, [x], signed) == Append(buf, x, signed)
  {
    var one := [x];
    assert one[..0] == [] && AppendAll(buf, [], signed) == buf;
  }

  /** The first of the items is appended to the buffer, and the others to that. */
  lemma AppendFirst(buf: seq<Byte>, items: seq<seq<Byte>>, signed: bool, next: seq<Byte>)
    requires items != [] && next == Append(buf, items[0], signed)
    ensures AppendAll(buf, items, signed) == AppendAll(next, items[1..], signed)
  {
    AppendOne(buf, items[0], signed);
    AppendAllAppend(buf, [items[0]], items[1..], signed);
    assert items == [items[0]] + items[1..];
  }

  /** Appending to a nonempty buffer adds exactly the following text. */
  lemma {:induction false} AppendAllFollows(buf: seq<Byte>, items: seq<seq<Byte>>, signed: bool, r: seq<Byte>)
    requires buf != [] && r == AppendAll(buf, items, signed)
    ensures r == buf + Following(items, signed)
    decreases |items|
  {
    if items != [] {
      var one, more := [SPACE] + Encode(items[0], signed), Following(items[1..], signed);
      Reassociate(buf, [SPACE], Encode(items[0], signed));
      AppendFirst(buf, items, signed, buf + one);
      AppendAllFollows(buf + one, items[1..], signed, r);
      Reassociate(buf, one, more);
    } else {
      assert buf + Following(items, signed) == buf;
    }
  }

  lemma {:induction false} SplitFollowing(items: seq<seq<Byte>>, tail: seq<Byte>, signed: bool, text: seq<Byte>, r: Split)
    requires tail == [] || White(tail[0], signed)
    requires text == Following(items, signed) + tail && r == SplitList(text, signed)
    ensures r == Prefixed(items, SplitList(tail, signed))
    decreases |items|
  {
    if items == [] {
      assert text == tail;
    } else {
      var rest := Following(items[1..], signed) + tail;
      var s := SplitList(rest, signed);
      SplitFollowing(items[1..], tail, signed, rest, s);
      FollowingCons(items, tail, signed);
      FollowingStartsWhite(items[1..], tail, signed);
      SplitOne(items[0], rest, text, signed, r, s);
      PrefixedCons(items, SplitList(tail, signed));
    }
  }

  lemma FollowingCons(items: seq<seq<Byte>>, tail: seq<Byte>, signed: bool)
    requires items != []
    ensures Following(items, signed) + tail == [SPACE] + (Encode(items[0], signed) + (Following(items[1..], signed) + tail))
  {
    Regroup([SPACE], Encode(items[0], signed), Following(items[1..], signed), tail);
  }

  lemma Regroup(a: seq<Byte>, b: seq<Byte>, c: seq<Byte>, d: seq<Byte>)
    ensures a + b + c + d == a + (b + (c + d))
  {}

  lemma FollowingStartsWhite(items: seq<seq<Byte>>, tail: seq<Byte>, signed: bool)
    requires tail == [] || White(tail[0], signed)
    ensures var rest := Following(items, signed) + tail; rest == [] || White(rest[0], signed)
  {}

  function Prefixed(items: seq<seq<Byte>>, s: Split): Split {
    match s case Items(more) => Items(items + more) case ReadPastEnd => ReadPastEnd
  }

  lemma PrefixedCons(items: seq<seq<Byte>>, s: Split)
    requires items != []
    ensures Prefixed([items[0]], Prefixed(items[1..], s)) == Prefixed(items, s)
  {
    if s.Items? { assert [items[0]] + (items[1..] + s.items) == items + s.items; }
  }

  /** Splitting takes an encoded element off the front, with or without a blank before it. */
  lemma SplitOne(x: seq<Byte>, rest: seq<Byte>, text: seq<Byte>, signed: bool, r: Split, s: Split)
    requires rest == [] || White(rest[0], signed)
    requires text == Encode(x, signed) + rest || text == [SPACE] + (Encode(x, signed) + rest)
    requires r == SplitList(text, signed) && s == SplitList(rest, signed)
    ensures r == Prefixed([x], s)
  {
    ElemRoundTrip(x, rest, signed);
    var t := Encode(x, signed) + rest;
    assert t[0] == Encode(x, signed)[0];
    if text != t { assert text[1..] == t; }
    assert SkipWhite(text, signed) == t;
  }

  /** SplitList of an encoded list followed by `tail`. */
  lemma SplitFormThen(items: seq<seq<Byte>>, tail: seq<Byte>, signed: bool)
    requires tail == [] || White(tail[0], signed)
    ensures SplitList(FormList(items, signed) + tail, signed) == Prefixed(items, SplitList(tail, signed))
  {
    if items == [] {
      assert FormList(items, signed) + tail == tail;
    } else {
      var first := Encode(items[0], signed);
      assert items == [items[0]] + items[1..];
      AppendAllAppend([], [items[0]], items[1..], signed);
      assert AppendAll([], [items[0]], signed) == first;
      AppendAllFollows(first, items[1..], signed, AppendAll(first, items[1..], signed));
      var rest := Following(items[1..], signed) + tail;
      assert FormList(items, signed) + tail == first + rest;
      var s := SplitList(rest, signed);
      SplitFollowing(items[1..], tail, signed, rest, s);
      FollowingStartsWhite(items[1..], tail, signed);
      SplitOne(items[0], rest, first + rest, signed, SplitList(first + rest, signed), s);
      PrefixedCons(items, SplitList(tail, signed));
    }
  }

  /** The round trip, for every list of strings. */
  lemma RoundTrip(items: seq<seq<Byte>>, signed: bool)
    ensures SplitList(FormList(items, signed), signed) == Items(items)
  {
    SplitFormThen(items, [], signed);
    assert FormList(items, signed) + [] == FormList(items, signed);
  }

  /** lappend onto an encoded list decodes to the concatenation. */
  lemma ListAppend(xs: seq<seq<Byte>>, ys: seq<seq<Byte>>, signed: bool)
    ensures SplitList(AppendAll(FormList(xs, signed), ys, signed), signed) == Items(xs + ys)
  {
    AppendAllAppend([], xs, ys, signed);
    RoundTrip(xs + ys, signed);
  }

  predicate AllWhite(s: seq<Byte>, signed: bool) { forall i :: 0 <= i < |s| ==> White(s[i], signed) }

  lemma {:induction false} WhiteIsSkipped(s: seq<Byte>, signed: bool)
    requires AllWhite(s, signed)
    ensures SkipWhite(s, signed) == []
    decreases |s|
  {
    if s != [] { WhiteIsSkipped(s[1..], signed); }
  }

  /** Beyond encoder output: whitespace after a list, however much, adds one empty element, so the
      list is read back exactly when there is none. */
  lemma TrailingBlank(items: seq<seq<Byte>>, tail: seq<Byte>, signed: bool)
    requires AllWhite(tail, signed)
    ensures SplitList(FormList(items, signed) + tail, signed) == Items(if tail == [] then items else items + [[]])
    ensures SplitList(FormList(items, signed) + tail, signed) == Items(items) <==> tail == []
  {
    SplitFormThen(items, tail, signed);
    WhiteIsSkipped(tail, signed);
    if tail != [] {
      assert SplitList(tail, signed) == Items([[]]);
      assert |items + [[]]| != |items|;
    } else {
      assert items + [] == items;
    }
  }

  /** What FormList writes holds no NUL when the strings hold none. */
  lemma {:induction false} EncodedIsNulFree(items: seq<seq<Byte>>, signed: bool)
    requires forall k | 0 <= k < |items| :: NulFree(items[k])
    ensures NulFree(FormList(items, signed))
    decreases |items|
  {
    if items != [] {
      var last := items[|items| - 1];
      EncodedIsNulFree(items[..|items| - 1], signed);
      EscapedIsNulFree(last, signed);
    }
  }

  lemma {:induction false} EscapedIsNulFree(s: seq<Byte>, signed: bool)
    requires NulFree(s)
    ensures NulFree(Escape(s, signed))
    decreases |s|
  {
    if s != [] {
      assert s[0] != NUL;
      EscapedIsNulFree(s[1..], signed);
    }
  }

  // ----- Lists written by hand -----

  /** A word that is written as it is: visible characters, and no brace in front. */
  predicate PlainWord(w: seq<Byte>) { w != [] && w[0] != '{' as int && forall i | 0 <= i < |w| :: 32 < w[i] < 128 }

  /** What separates words: blanks, tabs and line ends. */
  predicate Gap(g: seq<Byte>) { g != [] && forall i | 0 <= i < |g| :: g[i] == 32 || 9 <= g[i] <= 13 }

  /** Each word behind its gap. */
  function Spread(gaps: seq<seq<Byte>>, words: seq<seq<Byte>>): seq<Byte>
    requires |gaps| == |words|
  {
    if words == [] then [] else gaps[0] + (words[0] + Spread(gaps[1..], words[1..]))
  }

  lemma {:induction false} GapIsSkipped(g: seq<Byte>, rest: seq<Byte>, signed: bool)
    requires forall i | 0 <= i < |g| :: g[i] == 32 || 9 <= g[i] <= 13
    requires rest != [] && !White(rest[0], signed)
    ensures SkipWhite(g + rest, signed) == rest
    decreases |g|
  {
    if g == [] {
      assert g + rest == rest;
    } else {
      assert (g + rest)[1..] == g[1..] + rest;
      GapIsSkipped(g[1..], rest, signed);
    }
  }

  lemma {:induction false} PlainLength(w: seq<Byte>, rest: seq<Byte>, signed: bool)
    requires (forall i | 0 <= i < |w| :: 32 < w[i] < 128) && (rest == [] || White(rest[0], signed))
    ensures BareLength(w + rest, signed) == |w|
    decreases |w|
  {
    if w == [] {
      assert w + rest == rest;
    } else {
      assert (w + rest)[1..] == w[1..] + rest;
      PlainLength(w[1..], rest, signed);
    }
  }

  lemma SplitWord(g: seq<Byte>, w: seq<Byte>, rest: seq<Byte>, signed: bool)
    requires (g == [] || Gap(g)) && PlainWord(w) && (rest == [] || White(rest[0], signed))
    ensures SplitList(g + (w + rest), signed) == Prefixed([w], SplitList(rest, signed))
  {
    var text := w + rest;
    PlainLength(w, rest, signed);
    GapIsSkipped(g, text, signed);
    assert text[0] == w[0] && text[..|w|] == w && text[|w|..] == rest;
    assert DecodeElem(text, signed) == Elem(w, rest);
  }

  /** Words with any white space between them, and before the first or not, are the list of them. */
  lemma {:induction false} WordsSplit(gaps: seq<seq<Byte>>, words: seq<seq<Byte>>, signed: bool)
    requires |gaps| == |words| && (forall k | 0 <= k < |words| :: PlainWord(words[k]))
    requires forall k | 0 <= k < |gaps| :: Gap(gaps[k]) || (k == 0 && gaps[k] == [])
    ensures SplitList(Spread(gaps, words), signed) == Items(words)
    decreases |words|
  {
    if words != [] {
      var rest := Spread(gaps[1..], words[1..]);
      if |words| > 1 { assert gaps[1..][0] == gaps[1] && rest[0] == gaps[1][0]; }
      forall k | 0 <= k < |gaps[1..]| ensures Gap(gaps[1..][k]) { assert gaps[1..][k] == gaps[k + 1]; }
      SplitWord(gaps[0], words[0], rest, signed);
      WordsSplit(gaps[1..], words[1..], signed);
      assert [words[0]] + words[1..] == words;
    }
  }
}
