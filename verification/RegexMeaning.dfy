/**
  What a pattern without quantifiers finds, in the characters of the pattern and the text alone:
  letters, `.` and the escapes, under `^` and `$` or not.
 */
module RegexMeaning {
  import opened Regex
  import opened RegexMatch
  import opened RegexCompile
  import RegexClass

  /** What stands for one character: itself, `.`, or an escape. */
  datatype Unit = Letter(c: Ch) | AnyOne | Escape(m: Ch)

  const SPECIALS: seq<Ch> := ['^' as int, '$' as int, '.' as int, '*' as int, '+' as int, '?' as int, '\\' as int, '[' as int]
  const CLASSES: seq<Ch> := ['d' as int, 'D' as int, 'w' as int, 'W' as int, 's' as int, 'S' as int]

  predicate Ordinary(c: Ch) { c != 0 && c !in SPECIALS }

  predicate Good(u: Unit) {
    match u
    case Letter(c) => Ordinary(c)
    case AnyOne => true
    case Escape(m) => m in CLASSES || m in SPECIALS
  }

  predicate AllGood(us: seq<Unit>) { forall k {:trigger us[k]} | 0 <= k < |us| :: Good(us[k]) }

  function Text(u: Unit): seq<Ch> {
    match u
    case Letter(c) => [c]
    case AnyOne => [46]
    case Escape(m) => [92, m]
  }

  function Texts(us: seq<Unit>): seq<Ch> { if us == [] then [] else Text(us[0]) + Texts(us[1..]) }

  /** The text of the pattern, with `^` in front or not, and `$` behind or not. */
  function Pattern(us: seq<Unit>, front: bool, back: bool): seq<Ch> { Between(Texts(us), front, back) }

  function Between(word: seq<Ch>, front: bool, back: bool): seq<Ch> {
    (if front then [94] else []) + (word + if back then [36] else [])
  }

  /** The digits; the digits, letters and `_`; tab to carriage return, and space. */
  predicate Stands(m: Ch, c: Ch) {
    if m == 'd' as int then 48 <= c <= 57
    else if m == 'D' as int then c < 48 || 57 < c
    else if m == 'w' as int then 48 <= c <= 57 || 65 <= c <= 90 || c == 95 || 97 <= c <= 122
    else if m == 'W' as int then c < 48 || 57 < c < 65 || 90 < c < 95 || c == 96 || 122 < c
    else if m == 's' as int then c in [9, 10, 11, 12, 13, 32]
    else if m == 'S' as int then c !in [9, 10, 11, 12, 13, 32]
    else c == m
  }

  predicate Takes(u: Unit, c: Ch) {
    match u
    case Letter(x) => c == x
    case AnyOne => true
    case Escape(m) => Stands(m, c)
  }

  /** The pattern stands in the text at i; behind `$`, up to the end. */
  predicate Here(us: seq<Unit>, back: bool, text: seq<Ch>, i: nat) {
    && i + |us| <= |text|
    && (forall j {:trigger us[j]} | 0 <= j < |us| :: Takes(us[j], text[i + j]))
    && (back ==> i + |us| == |text|)
  }

  /** What a search that answers r says of where the pattern stands. */
  predicate Finds(us: seq<Unit>, front: bool, back: bool, text: seq<Ch>, r: int) {
    if front then r == if Here(us, back, text, 0) then 0 else -1
    else if r == -1 then forall i: nat | i < |text| :: !Here(us, back, text, i)
    else 0 <= r < |text| && Here(us, back, text, r) && forall i: nat | i < r :: !Here(us, back, text, i)
  }

  // ----- The items that the pattern compiles to -----

  function AtomOf(u: Unit): (t: Atom)
    requires Good(u)
  {
    match u
    case Letter(c) => Char(c)
    case AnyOne => Dot
    case Escape(m) =>
      if m == 'd' as int then Digit
      else if m == 'D' as int then NotDigit
      else if m == 'w' as int then Alpha
      else if m == 'W' as int then NotAlpha
      else if m == 's' as int then Whitespace
      else if m == 'S' as int then NotWhitespace
      else Char(m)
  }

  function Elems(us: seq<Unit>): (es: seq<Elem>)
    requires AllGood(us)
    ensures |es| == |us|
  {
    if us == [] then [] else [One(AtomOf(us[0]))] + Elems(us[1..])
  }

  /** One character, by its atom and by the characters themselves. */
  lemma AtomTakes(u: Unit, c: Ch)
    requires Good(u)
    ensures MatchOne(AtomOf(u), c) <==> Takes(u, c)
  {
  }

  /** An escape in a class stands for the same characters. */
  lemma EscapeCovers(m: Ch, c: Ch)
    ensures RegexClass.Covers(RegexClass.Escape(m), c) <==> Stands(m, c)
  {
  }

  /** A class takes what its items accept, and an inverted one all the rest. */
  lemma ClassTakes(lead: bool, items: seq<RegexClass.Item>, dash: bool, c: Ch)
    requires c != NUL && RegexClass.AllWellFormed(items)
    ensures var ccl := RegexClass.ClassOf(lead, items, dash);
            && (MatchOne(CharClass(ccl), c) <==> !MatchOne(InvCharClass(ccl), c))
            && (c != 45 ==> (MatchOne(CharClass(ccl), c) <==> RegexClass.SomeAccepts(items, dash, c)))
  {
    RegexClass.ClassExactly(c, lead, items, dash);
  }

  lemma {:induction false} UnitsAccepted(us: seq<Unit>, back: bool, s: seq<Ch>)
    requires AllGood(us)
    ensures Accepts(Elems(us), back, s) <==> Here(us, back, s, 0)
    decreases |us|
  {
    if us == [] {
      AcceptsNil(back, s);
    } else {
      AcceptsOne(Elems(us), back, s);
      assert Elems(us)[1..] == Elems(us[1..]);
      if s != [] {
        AtomTakes(us[0], s[0]);
        UnitsAccepted(us[1..], back, s[1..]);
        HereStep(us, back, s);
      }
    }
  }

  lemma HereStep(us: seq<Unit>, back: bool, s: seq<Ch>)
    requires us != [] && s != []
    ensures Here(us, back, s, 0) <==> Takes(us[0], s[0]) && Here(us[1..], back, s[1..], 0)
  {
    if Takes(us[0], s[0]) && Here(us[1..], back, s[1..], 0) {
      forall j | 0 <= j < |us| ensures Takes(us[j], s[j]) {
        if j > 0 { assert us[1..][j - 1] == us[j] && s[1..][j - 1] == s[j]; }
      }
    }
    if Here(us, back, s, 0) {
      forall j | 0 <= j < |us[1..]| ensures Takes(us[1..][j], s[1..][j]) {
        assert us[1..][j] == us[j + 1] && s[1..][j] == s[j + 1];
      }
    }
  }

  lemma HereShift(us: seq<Unit>, back: bool, text: seq<Ch>, i: nat)
    requires i <= |text|
    ensures Here(us, back, text[i..], 0) <==> Here(us, back, text, i)
  {
  }

  /** The tokens are written as the text, and hold no class. */
  predicate Spells(ts: seq<Token>, text: seq<Ch>) {
    WriteAll(ts) == text && ClassCosts(ts) == 0 && forall k | 0 <= k < |ts| :: Writable(ts[k])
  }

  lemma {:induction false} TokensOf(us: seq<Unit>, back: bool)
    requires AllGood(us)
    ensures var ts := Regex.Tokens(Elems(us), back);
            Spells(ts, Texts(us) + if back then [36] else []) && |ts| == |us| + if back then 1 else 0
    decreases |us|
  {
    var tail: seq<Ch> := if back then [36] else [];
    if us == [] {
      assert Spells([End], [36]) by { SpellsMore(End, [], [36], []); }
      assert [] + tail == tail;
    } else {
      TokensOf(us[1..], back);
      UnitWritten(us[0]);
      assert Elems(us)[1..] == Elems(us[1..]);
      SpellsMore(AtomOf(us[0]), Regex.Tokens(Elems(us[1..]), back), Text(us[0]), Texts(us[1..]) + tail);
      assert Text(us[0]) + (Texts(us[1..]) + tail) == Texts(us) + tail;
    }
  }

  lemma SpellsMore(t: Token, rest: seq<Token>, w: seq<Ch>, text: seq<Ch>)
    requires Writable(t) && Write(t) == w && ClassCost(t) == 0 && Spells(rest, text)
    ensures Spells([t] + rest, w + text)
  {
    assert ([t] + rest)[1..] == rest;
  }

  lemma UnitWritten(u: Unit)
    requires Good(u)
    ensures Writable(AtomOf(u)) && Write(AtomOf(u)) == Text(u) && ClassCost(AtomOf(u)) == 0
  {
  }

  /** The pattern is the text of its items, within the limits of re_compile. */
  lemma PatternIsWritten(us: seq<Unit>, front: bool, back: bool)
    requires AllGood(us)
    ensures var ts := Compiled(front, Elems(us), back);
            && WriteAll(ts) == Pattern(us, front, back) && |ts| <= |us| + 2
            && ClassCosts(ts) == 0 && forall k | 0 <= k < |ts| :: Writable(ts[k])
  {
    TokensOf(us, back);
    var ts := Regex.Tokens(Elems(us), back);
    if front { SpellsMore(Begin, ts, [94], Texts(us) + if back then [36] else []); }
  }

  // ----- One text, one pattern -----

  lemma {:induction false} TokensAreOne(es: seq<Elem>, a: bool, fs: seq<Elem>, b: bool)
    requires Regex.Tokens(es, a) == Regex.Tokens(fs, b)
    ensures es == fs && a == b
    decreases |es|
  {
    TokensHead(es, a);
    TokensHead(fs, b);
    if es != [] && fs != [] {
      assert es[0] == fs[0];
      TokensAreOne(es[1..], a, fs[1..], b);
      assert es == [es[0]] + es[1..] && fs == [fs[0]] + fs[1..];
    }
  }

  lemma BeginsExactly(front: bool, es: seq<Elem>, a: bool)
    ensures Tok(Compiled(front, es, a), 0).Begin? <==> front
  {
    TokensHead(es, a);
  }

  lemma CompiledAreOne(front: bool, es: seq<Elem>, a: bool, start: bool, fs: seq<Elem>, b: bool)
    requires Compiled(front, es, a) == Compiled(start, fs, b)
    ensures front == start && es == fs && a == b
  {
    BeginsExactly(front, es, a);
    BeginsExactly(start, fs, b);
    var ts, us := Regex.Tokens(es, a), Regex.Tokens(fs, b);
    if front { assert ([Begin] + ts)[1..] == ([Begin] + us)[1..]; }
    TokensAreOne(es, a, fs, b);
  }

  /** Two patterns within the limits that are written alike are the same. */
  lemma OnePattern(front: bool, es: seq<Elem>, a: bool, start: bool, fs: seq<Elem>, b: bool)
    requires var (ts, us) := (Compiled(front, es, a), Compiled(start, fs, b));
             && WriteAll(ts) == WriteAll(us) && |ts| < MAX_REGEXP_OBJECTS && |us| < MAX_REGEXP_OBJECTS
             && ClassCosts(ts) + 1 <= MAX_CHAR_CLASS_LEN && ClassCosts(us) + 1 <= MAX_CHAR_CLASS_LEN
             && (forall k | 0 <= k < |ts| :: Writable(ts[k])) && forall k | 0 <= k < |us| :: Writable(us[k])
    ensures front == start && es == fs && a == b
  {
    var stale := seq(MAX_REGEXP_OBJECTS, _ => Unused);
    RoundTrip(Compiled(front, es, a), stale);
    RoundTrip(Compiled(start, fs, b), stale);
    CompiledAreOne(front, es, a, start, fs, b);
  }

  // ----- What the search finds -----

  /** What re_match promises, for the items of the pattern. */
  ghost predicate Answers(fromStart: bool, elems: seq<Elem>, anchored: bool, text: seq<Ch>, r: int) {
    && (fromStart ==> r == if Accepts(elems, anchored, text) then 0 else -1)
    && (!fromStart && r >= 0 ==> r < |text| && LeastStart(elems, anchored, text, r))
    && (!fromStart && r < 0 ==> r == -1 && forall k: nat | k < |text| :: !Accepts(elems, anchored, text[k..]))
  }

  lemma AnswersFind(us: seq<Unit>, front: bool, back: bool, text: seq<Ch>, r: int)
    requires AllGood(us) && Answers(front, Elems(us), back, text, r)
    ensures Finds(us, front, back, text, r)
  {
    forall i: nat | i <= |text| ensures Accepts(Elems(us), back, text[i..]) <==> Here(us, back, text, i) {
      UnitsAccepted(us, back, text[i..]);
      HereShift(us, back, text, i);
    }
    assert text[0..] == text;
  }

  // ----- Words -----

  predicate IsWord(word: seq<Ch>) { forall k | 0 <= k < |word| :: Ordinary(word[k]) }

  function Letters(word: seq<Ch>): seq<Unit> { seq(|word|, i requires 0 <= i < |word| => Letter(word[i])) }

  /** The word stands in the text at i. */
  predicate WordAt(word: seq<Ch>, text: seq<Ch>, i: nat) { i + |word| <= |text| && text[i..i + |word|] == word }

  lemma {:induction false} WordTexts(word: seq<Ch>)
    ensures Texts(Letters(word)) == word
  {
    if word != [] {
      WordTexts(word[1..]);
      assert Letters(word)[1..] == Letters(word[1..]);
    }
  }

  lemma WordHere(word: seq<Ch>, back: bool, text: seq<Ch>, i: nat)
    ensures Here(Letters(word), back, text, i) <==> WordAt(word, text, i) && (back ==> i + |word| == |text|)
  {
    var us := Letters(word);
    if Here(us, back, text, i) {
      forall j | 0 <= j < |word| ensures text[i..i + |word|][j] == word[j] { assert Takes(us[j], text[i + j]); }
    }
    if WordAt(word, text, i) && (back ==> i + |word| == |text|) {
      forall j | 0 <= j < |us| ensures Takes(us[j], text[i + j]) { assert text[i..i + |word|][j] == word[j]; }
    }
  }

  /** A word of ordinary characters is found where it first stands before the end of the text;
      with `^`, at the start or not at all; with `$`, where it ends the text. */
  predicate FindsWord(word: seq<Ch>, front: bool, back: bool, text: seq<Ch>, r: int) {
    if front && back then r == if text == word then 0 else -1
    else if front then r == if word <= text then 0 else -1
    else if back then r == if |word| <= |text| && 0 < |word| && text[|text| - |word|..] == word then |text| - |word| else -1
    else if r == -1 then forall i: nat | i < |text| :: !WordAt(word, text, i)
    else 0 <= r < |text| && WordAt(word, text, r) && forall i: nat | i < r :: !WordAt(word, text, i)
  }

  lemma WordIsFound(word: seq<Ch>, front: bool, back: bool, text: seq<Ch>, r: int)
    requires Finds(Letters(word), front, back, text, r)
    ensures FindsWord(word, front, back, text, r)
  {
    var us, n := Letters(word), |text| - |word|;
    forall i: nat ensures Here(us, back, text, i) <==> WordAt(word, text, i) && (back ==> i + |word| == |text|) {
      WordHere(word, back, text, i);
    }
    if back && !front && n >= 0 {
      assert text[n..n + |word|] == text[n..];
      assert Here(us, back, text, n) <==> WordAt(word, text, n);
    }
  }
}
