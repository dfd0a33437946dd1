/**
  The backtracking matcher of regexp.c, with its loops, proved against the language a
  pattern stands for; and the search of re_matchp.
 */
module RegexMatch {
  import opened Regex

  /** matchpattern from token j of the compiled pattern and character t of the text. */
  method MatchPattern(re: seq<Token>, j: nat, text: seq<Ch>, t: nat, ghost elems: seq<Elem>, ghost anchored: bool)
    returns (r: bool)
    requires j <= |re| && re[j..] == Tokens(elems, anchored) && t <= |text|
    ensures r <==> Accepts(elems, anchored, text[t..])
    decreases |re| - j, 1
  {
    var p, q := j, t;
    ghost var es := elems;
    while true
      invariant j <= p <= |re| && t <= q <= |text| && re[p..] == Tokens(es, anchored)
      invariant Accepts(elems, anchored, text[t..]) <==> Accepts(es, anchored, text[q..])
      decreases |re| - p
    {
      TokensAt(re, p, es, anchored);
      AcceptsNil(anchored, text[q..]);
      if Tok(re, p).Unused? || Tok(re, p + 1).QuestionMark? {
        if es != [] {
          AcceptsOpt(es, anchored, text[q..]);
          assert q < |text| ==> text[q..][1..] == text[q + 1..];
        }
        r := MatchQuestion(Tok(re, p), re, p + 2, text, q, if es == [] then es else es[1..], anchored);
        return;
      } else if Tok(re, p + 1).Star? {
        AcceptsRepeat(es, anchored, text[q..]);
        r := MatchStar(Tok(re, p), re, p + 2, text, q, es[1..], anchored);
        return;
      } else if Tok(re, p + 1).Plus? {
        AcceptsRepeat(es, anchored, text[q..]);
        r := MatchPlus(Tok(re, p), re, p + 2, text, q, es[1..], anchored);
        return;
      } else if Tok(re, p).End? && Tok(re, p + 1).Unused? {
        return q == |text|;
      }
      AcceptsOne(es, anchored, text[q..]);
      if q == |text| { return false; }
      var matched := MatchOne(Tok(re, p), text[q]);
      assert text[q..][1..] == text[q + 1..];
      p, q := p + 1, q + 1;
      if !matched { return false; }
      es := es[1..];
    }
  }

  /** What two tokens of a compiled pattern tell about the items from there on. */
  lemma TokensAt(re: seq<Token>, p: nat, es: seq<Elem>, anchored: bool)
    requires p <= |re| && re[p..] == Tokens(es, anchored)
    ensures es == [] ==> Tok(re, p) == (if anchored then End else Unused) && Tok(re, p + 1).Unused?
    ensures es != [] ==>
              && Tok(re, p) == es[0].atom
              && (Tok(re, p + 1).QuestionMark? <==> es[0].Opt?)
              && (Tok(re, p + 1).Star? <==> es[0].Many?)
              && (Tok(re, p + 1).Plus? <==> es[0].Some?)
              && var n := if es[0].One? then 1 else 2; p + n <= |re| && re[p + n..] == Tokens(es[1..], anchored)
  {
    TokensHead(es, anchored);
    assert Tok(re, p) == Tok(re[p..], 0) && Tok(re, p + 1) == Tok(re[p..], 1);
    if es != [] {
      var n := 1 + |Quantifier(es[0])|;
      assert re[p..][n..] == re[p + n..];
    }
  }

  method MatchQuestion(atom: Token, re: seq<Token>, j: nat, text: seq<Ch>, t: nat, ghost rest: seq<Elem>, ghost anchored: bool)
    returns (r: bool)
    requires t <= |text| && (!atom.Unused? ==> j <= |re| && re[j..] == Tokens(rest, anchored))
    ensures atom.Unused? ==> r
    ensures !atom.Unused? ==>
              (r <==> Accepts(rest, anchored, text[t..]) ||
                      (t < |text| && MatchOne(atom, text[t]) && Accepts(rest, anchored, text[t + 1..])))
    decreases |re| - j, 2
  {
    if atom.Unused? { return true; }
    r := MatchPattern(re, j, text, t, rest, anchored);
    if r { return; }
    if t < |text| && MatchOne(atom, text[t]) {
      r := MatchPattern(re, j, text, t + 1, rest, anchored);
      return;
    }
    r := false;
  }

  method MatchStar(atom: Token, re: seq<Token>, j: nat, text: seq<Ch>, t: nat, ghost rest: seq<Elem>, ghost anchored: bool)
    returns (r: bool)
    requires j <= |re| && re[j..] == Tokens(rest, anchored) && t <= |text|
    ensures r <==> Repeats(atom, rest, anchored, text[t..], 0)
    decreases |re| - j, 2
  {
    var q := t;
    while true
      invariant t <= q <= |text| && AllMatch(atom, text[t..q])
      invariant forall i: int | i < q - t :: !RepeatsTo(atom, rest, anchored, text[t..], 0, i)
      decreases |text| - q
    {
      Shift(text, t, q);
      r := MatchPattern(re, j, text, q, rest, anchored);
      if r {
        assert RepeatsTo(atom, rest, anchored, text[t..], 0, q - t);
        return;
      }
      if q == |text| || !MatchOne(atom, text[q]) {
        NoneBeyond(atom, rest, anchored, text, t, q, 0);
        return false;
      }
      Extend(atom, text, t, q);
      q := q + 1;
    }
  }

  method MatchPlus(atom: Token, re: seq<Token>, j: nat, text: seq<Ch>, t: nat, ghost rest: seq<Elem>, ghost anchored: bool)
    returns (r: bool)
    requires j <= |re| && re[j..] == Tokens(rest, anchored) && t <= |text|
    ensures r <==> Repeats(atom, rest, anchored, text[t..], 1)
    decreases |re| - j, 2
  {
    var q := t;
    while q < |text| && MatchOne(atom, text[q])
      invariant t <= q <= |text| && AllMatch(atom, text[t..q])
      invariant forall i: int | i <= q - t :: !RepeatsTo(atom, rest, anchored, text[t..], 1, i)
    {
      Extend(atom, text, t, q);
      q := q + 1;
      Shift(text, t, q);
      r := MatchPattern(re, j, text, q, rest, anchored);
      if r {
        assert RepeatsTo(atom, rest, anchored, text[t..], 1, q - t);
        return;
      }
    }
    NoneBeyond(atom, rest, anchored, text, t, q, 1);
    r := false;
  }

  lemma Shift(text: seq<Ch>, t: nat, q: nat)
    requires t <= q <= |text|
    ensures text[t..][..q - t] == text[t..q] && text[t..][q - t..] == text[q..]
  {}

  lemma Extend(atom: Token, text: seq<Ch>, t: nat, q: nat)
    requires t <= q < |text| && AllMatch(atom, text[t..q]) && MatchOne(atom, text[q])
    ensures AllMatch(atom, text[t..q + 1])
  {
    assert text[t..q + 1] == text[t..q] + [text[q]];
  }

  /** Where the atom stops matching, no longer repetition exists. */
  lemma NoneBeyond(atom: Token, rest: seq<Elem>, anchored: bool, text: seq<Ch>, t: nat, q: nat, least: nat)
    requires t <= q <= |text| && (q == |text| || !MatchOne(atom, text[q]))
    requires forall i: int | i <= q - t :: !RepeatsTo(atom, rest, anchored, text[t..], least, i)
    ensures !Repeats(atom, rest, anchored, text[t..], least)
  {
    forall i: int | i > q - t ensures !RepeatsTo(atom, rest, anchored, text[t..], least, i) {
      if i <= |text| - t { assert text[t..][..i][q - t] == text[q]; }
    }
  }

  // ----- re_matchp -----

  /** A compiled well-formed pattern: anchors only at its ends. */
  function Compiled(fromStart: bool, elems: seq<Elem>, anchored: bool): seq<Token> {
    if fromStart then [Begin] + Tokens(elems, anchored) else Tokens(elems, anchored)
  }

  /** The least start at which the pattern is accepted. */
  ghost predicate LeastStart(elems: seq<Elem>, anchored: bool, text: seq<Ch>, k: nat) {
    && k <= |text| && Accepts(elems, anchored, text[k..])
    && forall i: nat | i < k :: !Accepts(elems, anchored, text[i..])
  }

  /** re_matchp: with `^`, 0 or -1; without, the least start, or -1 when there is none or when
      the least one is only the empty end of the text. */
  method Search(re: seq<Token>, text: seq<Ch>, ghost fromStart: bool, ghost elems: seq<Elem>, ghost anchored: bool)
    returns (r: int)
    requires re == Compiled(fromStart, elems, anchored)
    ensures fromStart ==> r == if Accepts(elems, anchored, text) then 0 else -1
    ensures !fromStart ==>
              (r >= 0 ==> r < |text| && LeastStart(elems, anchored, text, r)) &&
              (r < 0 ==> r == -1 && forall k: nat | k < |text| :: !LeastStart(elems, anchored, text, k))
  {
    TokensHead(elems, anchored);
    if Tok(re, 0).Begin? {
      assert re[1..] == Tokens(elems, anchored);
      assert text[0..] == text;
      var m := MatchPattern(re, 1, text, 0, elems, anchored);
      return if m then 0 else -1;
    }
    assert re[0..] == Tokens(elems, anchored);
    var idx := 0;
    while true
      invariant 0 <= idx <= |text| && !fromStart
      invariant forall i: nat | i < idx :: !Accepts(elems, anchored, text[i..])
      decreases |text| - idx
    {
      var m := MatchPattern(re, 0, text, idx, elems, anchored);
      if m {
        if idx == |text| { return -1; }
        return idx;
      }
      if idx == |text| { return -1; }
      idx := idx + 1;
    }
  }

  /** So a pattern without `^` is reported as missing exactly when it is accepted nowhere
      before the end of the text. */
  lemma MissingMeans(elems: seq<Elem>, anchored: bool, text: seq<Ch>)
    ensures (forall k: nat | k < |text| :: !LeastStart(elems, anchored, text, k)) <==>
            (forall k: nat | k < |text| :: !Accepts(elems, anchored, text[k..]))
  {
    if exists k: nat :: k < |text| && Accepts(elems, anchored, text[k..]) {
      var k: nat :| k < |text| && Accepts(elems, anchored, text[k..]);
      LeastExists(elems, anchored, text, k);
    }
  }

  lemma {:induction false} LeastExists(elems: seq<Elem>, anchored: bool, text: seq<Ch>, k: nat)
    requires k <= |text| && Accepts(elems, anchored, text[k..])
    ensures exists i: nat :: i <= k && LeastStart(elems, anchored, text, i)
    decreases k
  {
    if i: nat :| i < k && Accepts(elems, anchored, text[i..]) {
      LeastExists(elems, anchored, text, i);
    } else {
      assert LeastStart(elems, anchored, text, k);
    }
  }
}
