/**
  The regular expressions of regexp.c: what a pattern means as a language, independently
  of the matcher, and the single-character tests.
 */
module Regex {
  type Ch = n: nat | n < 256

  const NUL: Ch := 0
  const MAX_REGEXP_OBJECTS: nat := 30
  const MAX_CHAR_CLASS_LEN: nat := 40

  /** regex_t; a class carries the characters that ccl points at, up to its NUL. */
  datatype Token =
    | Unused | Dot | Begin | End | QuestionMark | Star | Plus
    | Char(ch: Ch) | CharClass(ccl: seq<Ch>) | InvCharClass(ccl: seq<Ch>)
    | Digit | NotDigit | Alpha | NotAlpha | Whitespace | NotWhitespace

  // ----- Character tests -----

  predicate IsDigit(c: Ch) { '0' as int <= c <= '9' as int }
  predicate IsAlpha(c: Ch) { 'a' as int <= c <= 'z' as int || 'A' as int <= c <= 'Z' as int }
  predicate IsWhitespace(c: Ch) { c == 32 || 9 <= c <= 13 }
  predicate IsAlphanum(c: Ch) { c == '_' as int || IsAlpha(c) || IsDigit(c) }

  const DASH: Ch := '-' as int
  const BACKSLASH: Ch := '\\' as int

  /** str[i] of a NUL-terminated string. */
  function At(s: seq<Ch>, i: nat): Ch { if i < |s| then s[i] else NUL }

  predicate MatchRange(c: Ch, s: seq<Ch>, i: nat) {
    && c != DASH && At(s, i) != NUL && At(s, i) != DASH && At(s, i + 1) == DASH
    && At(s, i + 2) != NUL && At(s, i) <= c <= At(s, i + 2)
  }

  predicate IsMetaChar(c: Ch) {
    c == 's' as int || c == 'S' as int || c == 'w' as int || c == 'W' as int || c == 'd' as int || c == 'D' as int
  }

  predicate MatchMetaChar(c: Ch, m: Ch) {
    if m == 'd' as int then IsDigit(c)
    else if m == 'D' as int then !IsDigit(c)
    else if m == 'w' as int then IsAlphanum(c)
    else if m == 'W' as int then !IsAlphanum(c)
    else if m == 's' as int then IsWhitespace(c)
    else if m == 'S' as int then !IsWhitespace(c)
    else c == m
  }

  /** matchcharclass from position i on; str[-1] of the first position is the NUL before it in
      ccl_buf. */
  predicate MatchCharClass(c: Ch, s: seq<Ch>, i: nat)
    decreases |s| + 2 - i
  {
    if i > |s| then false
    else if MatchRange(c, s, i) then true
    else if At(s, i) == BACKSLASH then
      if MatchMetaChar(c, At(s, i + 1)) || (c == At(s, i + 1) && !IsMetaChar(c)) then true
      else if At(s, i + 1) == NUL then false
      else MatchCharClass(c, s, i + 2)
    else if c == At(s, i) then
      c == DASH ==> i == 0 || At(s, i + 1) == NUL
    else if At(s, i) == NUL then false
    else MatchCharClass(c, s, i + 1)
  }

  predicate MatchOne(p: Token, c: Ch) {
    match p
    case Dot => true
    case CharClass(ccl) => MatchCharClass(c, ccl, 0)
    case InvCharClass(ccl) => !MatchCharClass(c, ccl, 0)
    case Digit => IsDigit(c)
    case NotDigit => !IsDigit(c)
    case Alpha => IsAlphanum(c)
    case NotAlpha => !IsAlphanum(c)
    case Whitespace => IsWhitespace(c)
    case NotWhitespace => !IsWhitespace(c)
    case Char(ch) => ch == c
    case _ => false
  }

  // ----- Patterns and their languages -----

  predicate IsAtom(t: Token) {
    !(t.Unused? || t.Begin? || t.End? || t.QuestionMark? || t.Star? || t.Plus?)
  }

  type Atom = t: Token | IsAtom(t) witness Dot

  /** One item of a well-formed pattern: an atom, alone or with its quantifier. */
  datatype Elem = One(atom: Atom) | Opt(atom: Atom) | Many(atom: Atom) | Some(atom: Atom)

  predicate AllMatch(atom: Token, s: seq<Ch>) { forall i | 0 <= i < |s| :: MatchOne(atom, s[i]) }

  /** The strings one item stands for. */
  predicate ElemMatches(e: Elem, s: seq<Ch>) {
    match e
    case One(a) => |s| == 1 && AllMatch(a, s)
    case Opt(a) => |s| <= 1 && AllMatch(a, s)
    case Many(a) => AllMatch(a, s)
    case Some(a) => |s| >= 1 && AllMatch(a, s)
  }

  /** The language of a sequence of items: concatenations of one string per item. */
  ghost predicate InLanguage(elems: seq<Elem>, s: seq<Ch>)
    decreases |elems|
  {
    if elems == [] then s == []
    else exists i :: 0 <= i <= |s| && ElemMatches(elems[0], s[..i]) && InLanguage(elems[1..], s[i..])
  }

  /** Some prefix of the text is in the language; the whole text, if the pattern ends in `$`. */
  ghost predicate Accepts(elems: seq<Elem>, anchored: bool, s: seq<Ch>) {
    exists k :: 0 <= k <= |s| && InLanguage(elems, s[..k]) && (anchored ==> k == |s|)
  }

  // ----- How acceptance unfolds along a pattern -----

  lemma AcceptsNil(anchored: bool, s: seq<Ch>)
    ensures Accepts([], anchored, s) <==> (anchored ==> s == [])
  {
    assert InLanguage([], s[..0]);
  }

  lemma AcceptsCons(elems: seq<Elem>, anchored: bool, s: seq<Ch>)
    requires elems != []
    ensures Accepts(elems, anchored, s) <==>
            exists i :: 0 <= i <= |s| && ElemMatches(elems[0], s[..i]) && Accepts(elems[1..], anchored, s[i..])
  {
    if Accepts(elems, anchored, s) {
      var k :| 0 <= k <= |s| && InLanguage(elems, s[..k]) && (anchored ==> k == |s|);
      var i :| 0 <= i <= k && ElemMatches(elems[0], s[..k][..i]) && InLanguage(elems[1..], s[..k][i..]);
      assert s[..k][..i] == s[..i];
      assert s[..k][i..] == s[i..][..k - i];
    }
    if exists i :: 0 <= i <= |s| && ElemMatches(elems[0], s[..i]) && Accepts(elems[1..], anchored, s[i..]) {
      var i :| 0 <= i <= |s| && ElemMatches(elems[0], s[..i]) && Accepts(elems[1..], anchored, s[i..]);
      var k :| 0 <= k <= |s[i..]| && InLanguage(elems[1..], s[i..][..k]) && (anchored ==> k == |s[i..]|);
      assert s[..i + k][..i] == s[..i];
      assert s[..i + k][i..] == s[i..][..k];
      assert InLanguage(elems, s[..i + k]);
    }
  }

  lemma AcceptsOne(elems: seq<Elem>, anchored: bool, s: seq<Ch>)
    requires elems != [] && elems[0].One?
    ensures Accepts(elems, anchored, s) <==>
            s != [] && MatchOne(elems[0].atom, s[0]) && Accepts(elems[1..], anchored, s[1..])
  {
    AcceptsCons(elems, anchored, s);
    if s != [] && MatchOne(elems[0].atom, s[0]) { assert ElemMatches(elems[0], s[..1]); }
    if exists i :: 0 <= i <= |s| && ElemMatches(elems[0], s[..i]) && Accepts(elems[1..], anchored, s[i..]) {
      var i :| 0 <= i <= |s| && ElemMatches(elems[0], s[..i]) && Accepts(elems[1..], anchored, s[i..]);
      assert i == 1 && s[..1][0] == s[0];
    }
  }

  lemma AcceptsOpt(elems: seq<Elem>, anchored: bool, s: seq<Ch>)
    requires elems != [] && elems[0].Opt?
    ensures Accepts(elems, anchored, s) <==>
            Accepts(elems[1..], anchored, s) ||
            (s != [] && MatchOne(elems[0].atom, s[0]) && Accepts(elems[1..], anchored, s[1..]))
  {
    AcceptsCons(elems, anchored, s);
    assert s[..0] == [] && s[0..] == s && ElemMatches(elems[0], s[..0]);
    if s != [] && MatchOne(elems[0].atom, s[0]) { assert ElemMatches(elems[0], s[..1]); }
    if exists i :: 0 <= i <= |s| && ElemMatches(elems[0], s[..i]) && Accepts(elems[1..], anchored, s[i..]) {
      var i :| 0 <= i <= |s| && ElemMatches(elems[0], s[..i]) && Accepts(elems[1..], anchored, s[i..]);
      if i == 1 { assert s[..1][0] == s[0]; } else { assert s[i..] == s; }
    }
  }

  /** At least `least` characters of s match the atom, up to i, and the rest is accepted. */
  ghost predicate Repeats(atom: Token, rest: seq<Elem>, anchored: bool, s: seq<Ch>, least: nat) {
    exists i :: RepeatsTo(atom, rest, anchored, s, least, i)
  }

  ghost predicate RepeatsTo(atom: Token, rest: seq<Elem>, anchored: bool, s: seq<Ch>, least: nat, i: int) {
    least <= i <= |s| && AllMatch(atom, s[..i]) && Accepts(rest, anchored, s[i..])
  }

  lemma AcceptsRepeat(elems: seq<Elem>, anchored: bool, s: seq<Ch>)
    requires elems != [] && (elems[0].Many? || elems[0].Some?)
    ensures Accepts(elems, anchored, s) <==>
            Repeats(elems[0].atom, elems[1..], anchored, s, if elems[0].Many? then 0 else 1)
  {
    AcceptsCons(elems, anchored, s);
    var least := if elems[0].Many? then 0 else 1;
    if exists i :: 0 <= i <= |s| && ElemMatches(elems[0], s[..i]) && Accepts(elems[1..], anchored, s[i..]) {
      var i :| 0 <= i <= |s| && ElemMatches(elems[0], s[..i]) && Accepts(elems[1..], anchored, s[i..]);
      assert RepeatsTo(elems[0].atom, elems[1..], anchored, s, least, i);
    }
    if Repeats(elems[0].atom, elems[1..], anchored, s, least) {
      var i :| RepeatsTo(elems[0].atom, elems[1..], anchored, s, least, i);
      assert ElemMatches(elems[0], s[..i]);
    }
  }

  // ----- Compiled form -----

  function Quantifier(e: Elem): seq<Token> {
    match e
    case One(_) => []
    case Opt(_) => [QuestionMark]
    case Many(_) => [Star]
    case Some(_) => [Plus]
  }

  function Tokens(elems: seq<Elem>, anchored: bool): seq<Token> {
    if elems == [] then if anchored then [End] else []
    else [elems[0].atom] + Quantifier(elems[0]) + Tokens(elems[1..], anchored)
  }

  /** pattern[j], with the UNUSED sentinel after the last token. */
  function Tok(re: seq<Token>, j: nat): Token { if j < |re| then re[j] else Unused }

  /** What the first two tokens tell about a well-formed pattern. */
  lemma TokensHead(elems: seq<Elem>, anchored: bool)
    ensures var re := Tokens(elems, anchored);
            if elems == [] then re == if anchored then [End] else []
            else
              && Tok(re, 0) == elems[0].atom
              && (Tok(re, 1).QuestionMark? <==> elems[0].Opt?)
              && (Tok(re, 1).Star? <==> elems[0].Many?)
              && (Tok(re, 1).Plus? <==> elems[0].Some?)
              && |re| >= |Quantifier(elems[0])| + 1
              && re[1 + |Quantifier(elems[0])|..] == Tokens(elems[1..], anchored)
  {
    if elems != [] {
      var re, tail := Tokens(elems, anchored), Tokens(elems[1..], anchored);
      var head := [elems[0].atom] + Quantifier(elems[0]);
      assert re == head + tail;
      if elems[0].One? {
        assert Tok(re, 1) == Tok(tail, 0);
        if elems[1..] != [] { assert tail[0] == elems[1].atom; }
      } else {
        assert re[1] == Quantifier(elems[0])[0];
      }
    }
  }
}
