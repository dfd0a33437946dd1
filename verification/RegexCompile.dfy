/** re_compile of regexp.c, and that it inverts writing a pattern out as text. */
module RegexCompile {
  import opened Regex

  /** Compiled tokens; NULL when the class buffer overflows; or a read past the pattern's end,
      which a `[` without its `]` causes. */
  datatype Result = Tokens(tokens: seq<Token>) | Overflow | ReadPastEnd

  /** The inner loop over a class from pattern[i]: where it stops and what it copied. */
  function CopyClass(pat: seq<Ch>, i: nat, copied: seq<Ch>): (r: (nat, seq<Ch>))
    requires i <= |pat|
    ensures i <= r.0
    ensures |copied| <= |r.1|
    decreases |pat| - i
  {
    if i == |pat| || pat[i] == ']' as int then (i, copied)
    else if pat[i] == BACKSLASH then
      if i + 1 == |pat| then (i + 2, copied + [BACKSLASH, NUL])
      else CopyClass(pat, i + 2, copied + [BACKSLASH, pat[i + 1]])
    else CopyClass(pat, i + 1, copied + [pat[i]])
  }

  function Escaped(c: Ch): Token {
    if c == 'd' as int then Digit
    else if c == 'D' as int then NotDigit
    else if c == 'w' as int then Alpha
    else if c == 'W' as int then NotAlpha
    else if c == 's' as int then Whitespace
    else if c == 'S' as int then NotWhitespace
    else Char(c)
  }

  function Plain(c: Ch): Token {
    if c == '^' as int then Begin
    else if c == '$' as int then End
    else if c == '.' as int then Dot
    else if c == '*' as int then Star
    else if c == '+' as int then Plus
    else if c == '?' as int then QuestionMark
    else Char(c)
  }

  /** re_compile from pattern[i] with `done` tokens stored and class characters up to ccl_bufidx
      `used`; `stale` is what re_compiled holds from before, which a final lone backslash leaves
      in place. */
  function CompileFrom(pat: seq<Ch>, i: nat, done: seq<Token>, used: nat, stale: seq<Token>): Result
    requires |stale| == MAX_REGEXP_OBJECTS
    decreases |pat| - i
  {
    if i > |pat| then ReadPastEnd
    else if i == |pat| || |done| + 1 >= MAX_REGEXP_OBJECTS then Tokens(done)
    else if pat[i] == BACKSLASH then
      if i + 1 < |pat| then CompileFrom(pat, i + 2, done + [Escaped(pat[i + 1])], used, stale)
      else CompileFrom(pat, i + 1, done + [stale[|done|]], used, stale)
    else if pat[i] == '[' as int then
      var inverted := i + 1 < |pat| && pat[i + 1] == '^' as int;
      var (end, ccl) := CopyClass(pat, if inverted then i + 2 else i + 1, []);
      if used + |ccl| >= MAX_CHAR_CLASS_LEN then Overflow
      else CompileFrom(pat, end + 1, done + [if inverted then InvCharClass(ccl) else CharClass(ccl)], used + |ccl| + 1, stale)
    else CompileFrom(pat, i + 1, done + [Plain(pat[i])], used, stale)
  }

  class Compiler {
    const compiled: array<Token>   // re_compiled
    var count: nat                 // tokens before the UNUSED sentinel

    constructor ()
      ensures compiled.Length == MAX_REGEXP_OBJECTS && fresh(compiled)
    {
      compiled := new Token[MAX_REGEXP_OBJECTS](_ => Unused);
    }

    /** re_compile. */
    method Compile(pat: seq<Ch>) returns (r: Result)
      requires compiled.Length == MAX_REGEXP_OBJECTS
      modifies this, compiled
      ensures r == CompileFrom(pat, 0, [], 1, old(compiled[..]))
      ensures r.Tokens? ==> count < MAX_REGEXP_OBJECTS && compiled[..count] == r.tokens && compiled[count] == Unused
    {
      ghost var stale := compiled[..];
      var cclBufidx, i, j := 1, 0, 0;
      while i < |pat| && j + 1 < MAX_REGEXP_OBJECTS
        invariant 0 <= j < MAX_REGEXP_OBJECTS && i >= 0 && cclBufidx >= 1
        invariant compiled[j..] == stale[j..]
        invariant CompileFrom(pat, 0, [], 1, stale) == CompileFrom(pat, i, compiled[..j], cclBufidx, stale)
        decreases |pat| - i
      {
        ghost var done := compiled[..j];
        assert compiled[j] == compiled[j..][0] == stale[j];
        if pat[i] == BACKSLASH {
          if i + 1 < |pat| {
            i := i + 1;
            compiled[j] := Escaped(pat[i]);
          }
        } else if pat[i] == '[' as int {
          var inverted := i + 1 < |pat| && pat[i + 1] == '^' as int;
          if inverted { i := i + 1; }
          var end, ccl := ReadClass(pat, i + 1);
          if cclBufidx + |ccl| >= MAX_CHAR_CLASS_LEN { return Overflow; }
          compiled[j] := if inverted then InvCharClass(ccl) else CharClass(ccl);
          i := end;
          cclBufidx := cclBufidx + |ccl| + 1;
        } else {
          compiled[j] := Plain(pat[i]);
        }
        i := i + 1;
        j := j + 1;
        assert compiled[..j] == done + [compiled[j - 1]];
      }
      if i > |pat| { return ReadPastEnd; }
      compiled[j] := Unused;
      count := j;
      r := Tokens(compiled[..j]);
    }

    /** The loop that copies a class into ccl_buf. */
    method ReadClass(pat: seq<Ch>, from: nat) returns (end: nat, ccl: seq<Ch>)
      requires from <= |pat|
      ensures (end, ccl) == CopyClass(pat, from, [])
    {
      end, ccl := from, [];
      while end < |pat| && pat[end] != ']' as int
        invariant from <= end <= |pat| && CopyClass(pat, from, []) == CopyClass(pat, end, ccl)
        decreases |pat| - end
      {
        if pat[end] == BACKSLASH {
          if end + 1 == |pat| { return end + 2, ccl + [BACKSLASH, NUL]; }
          ccl := ccl + [BACKSLASH, pat[end + 1]];
          end := end + 2;
        } else {
          ccl := ccl + [pat[end]];
          end := end + 1;
        }
      }
    }
  }

  // ----- Writing tokens out as a pattern -----

  predicate IsSpecial(c: Ch) { !Plain(c).Char? || c == BACKSLASH || c == '[' as int }

  /** Class text that the copying loop takes whole: an escape is two characters, and no bare `]`. */
  predicate ClassText(ccl: seq<Ch>)
    decreases |ccl|
  {
    ccl == [] ||
    (if ccl[0] == BACKSLASH then |ccl| >= 2 && ClassText(ccl[2..]) else ccl[0] != ']' as int && ClassText(ccl[1..]))
  }

  /** Tokens that some pattern text stands for. */
  predicate Writable(t: Token) {
    match t
    case Unused => false
    case Char(c) => c != NUL && (IsSpecial(c) ==> Escaped(c) == Char(c))
    case CharClass(ccl) => ClassText(ccl) && (ccl != [] ==> ccl[0] != '^' as int)
    case InvCharClass(ccl) => ClassText(ccl)
    case _ => true
  }

  function Write(t: Token): seq<Ch> {
    match t
    case Unused => []
    case Dot => ['.' as int]
    case Begin => ['^' as int]
    case End => ['$' as int]
    case QuestionMark => ['?' as int]
    case Star => ['*' as int]
    case Plus => ['+' as int]
    case Char(c) => if IsSpecial(c) then [BACKSLASH, c] else [c]
    case CharClass(ccl) => ['[' as int] + ccl + [']' as int]
    case InvCharClass(ccl) => ['[' as int, '^' as int] + ccl + [']' as int]
    case Digit => [BACKSLASH, 'd' as int]
    case NotDigit => [BACKSLASH, 'D' as int]
    case Alpha => [BACKSLASH, 'w' as int]
    case NotAlpha => [BACKSLASH, 'W' as int]
    case Whitespace => [BACKSLASH, 's' as int]
    case NotWhitespace => [BACKSLASH, 'S' as int]
  }

  function WriteAll(ts: seq<Token>): seq<Ch> {
    if ts == [] then [] else Write(ts[0]) + WriteAll(ts[1..])
  }

  /** Characters of ccl_buf that a token takes, with its NUL. */
  function ClassCost(t: Token): nat {
    if t.CharClass? || t.InvCharClass? then |t.ccl| + 1 else 0
  }

  function ClassCosts(ts: seq<Token>): nat {
    if ts == [] then 0 else ClassCost(ts[0]) + ClassCosts(ts[1..])
  }

  lemma {:induction false} CopyWhole(pat: seq<Ch>, i: nat, ccl: seq<Ch>, copied: seq<Ch>)
    requires ClassText(ccl) && i + |ccl| < |pat| && pat[i..i + |ccl|] == ccl && pat[i + |ccl|] == ']' as int
    ensures CopyClass(pat, i, copied) == (i + |ccl|, copied + ccl)
    decreases |ccl|
  {
    if ccl == [] {
      assert copied + ccl == copied;
    } else {
      assert pat[i] == ccl[0];
      var n := if ccl[0] == BACKSLASH then 2 else 1;
      if n == 2 { assert pat[i + 1] == ccl[1]; }
      assert pat[i + n..i + |ccl|] == pat[i..i + |ccl|][n..] == ccl[n..];
      CopyWhole(pat, i + n, ccl[n..], copied + ccl[..n]);
      assert ccl[..n] == if n == 2 then [BACKSLASH, ccl[1]] else [ccl[0]];
      assert copied + ccl[..n] + ccl[n..] == copied + ccl;
    }
  }

  lemma SubSlice(s: seq<Ch>, a: nat, b: nat, c: nat, d: nat)
    requires a <= b <= |s| && c <= d <= b - a
    ensures s[a + c..a + d] == s[a..b][c..d]
  {
    forall k | 0 <= k < d - c ensures s[a + c..a + d][k] == s[a..b][c..d][k] {}
    assert |s[a + c..a + d]| == |s[a..b][c..d]|;
  }

  /** One turn of the compiler's loop at a bracket whose class has been copied. */
  lemma BracketStep(pat: seq<Ch>, i: nat, inverted: bool, end: nat, ccl: seq<Ch>, done: seq<Token>, used: nat, stale: seq<Token>,
                    more: seq<Token>, r: Result)
    requires |stale| == MAX_REGEXP_OBJECTS && |done| + 1 < MAX_REGEXP_OBJECTS && i + 1 < |pat| && pat[i] == '[' as int
    requires inverted == (pat[i + 1] == '^' as int) && CopyClass(pat, if inverted then i + 2 else i + 1, []) == (end, ccl)
    requires used + |ccl| < MAX_CHAR_CLASS_LEN && more == done + [if inverted then InvCharClass(ccl) else CharClass(ccl)]
    requires r == CompileFrom(pat, i, done, used, stale)
    ensures r == CompileFrom(pat, end + 1, more, used + |ccl| + 1, stale)
  {
  }

  /** What stands in the pattern where a class has been written. */
  lemma ClassAt(pat: seq<Ch>, i: nat, t: Token, w: seq<Ch>, n: nat)
    requires (t.CharClass? || t.InvCharClass?) && Writable(t) && w == Write(t) && n == |w|
    requires i + n <= |pat| && pat[i..i + n] == w
    ensures n == |t.ccl| + (if t.InvCharClass? then 3 else 2) && i + 1 < |pat| && pat[i] == '[' as int
    ensures t.InvCharClass? == (pat[i + 1] == '^' as int)
    ensures CopyClass(pat, if t.InvCharClass? then i + 2 else i + 1, []) == (i + n - 1, t.ccl)
  {
    var from := if t.InvCharClass? then 2 else 1;
    assert pat[i] == pat[i..i + n][0] && pat[i + 1] == pat[i..i + n][1] && pat[i + n - 1] == pat[i..i + n][n - 1];
    SubSlice(pat, i, i + n, from, n - 1);
    assert w[from..n - 1] == t.ccl;
    CopyWhole(pat, i + from, t.ccl, []);
    assert [] + t.ccl == t.ccl;
  }

  lemma CompileClass(pat: seq<Ch>, i: nat, t: Token, done: seq<Token>, used: nat, stale: seq<Token>,
                     next: nat, more: seq<Token>, cost: nat, r: Result)
    requires (t.CharClass? || t.InvCharClass?) && Writable(t)
    requires |stale| == MAX_REGEXP_OBJECTS && |done| + 1 < MAX_REGEXP_OBJECTS
    requires i + |Write(t)| <= |pat| && pat[i..i + |Write(t)|] == Write(t)
    requires used + ClassCost(t) <= MAX_CHAR_CLASS_LEN
    requires next == i + |Write(t)| && more == done + [t] && cost == used + ClassCost(t)
    requires r == CompileFrom(pat, i, done, used, stale)
    ensures r == CompileFrom(pat, next, more, cost, stale)
  {
    ClassAt(pat, i, t, Write(t), |Write(t)|);
    BracketStep(pat, i, t.InvCharClass?, next - 1, t.ccl, done, used, stale, more, r);
  }

  lemma CompilePlain(pat: seq<Ch>, i: nat, t: Token, done: seq<Token>, used: nat, stale: seq<Token>)
    requires !t.CharClass? && !t.InvCharClass? && Writable(t)
    requires |stale| == MAX_REGEXP_OBJECTS && |done| + 1 < MAX_REGEXP_OBJECTS
    requires i + |Write(t)| <= |pat| && pat[i..i + |Write(t)|] == Write(t)
    ensures CompileFrom(pat, i, done, used, stale) == CompileFrom(pat, i + |Write(t)|, done + [t], used, stale)
  {
    var w, n := Write(t), |Write(t)|;
    assert pat[i] == pat[i..i + n][0] == w[0];
    if n == 2 { assert pat[i + 1] == pat[i..i + n][1] == w[1]; }
  }

  lemma WrittenSplit(pat: seq<Ch>, i: nat, ts: seq<Token>)
    requires i <= |pat| && ts != [] && pat[i..] == WriteAll(ts) && Writable(ts[0])
    ensures var n := |Write(ts[0])|; n > 0 && i + n <= |pat| && pat[i..i + n] == Write(ts[0]) && pat[i + n..] == WriteAll(ts[1..])
  {
    var w, n := Write(ts[0]), |Write(ts[0])|;
    WrittenNotEmpty(ts[0]);
    assert pat[i..][..n] == w && pat[i..][n..] == WriteAll(ts[1..]);
    assert pat[i..i + n] == pat[i..][..n] && pat[i + n..] == pat[i..][n..];
  }

  /** What remains of done + ts in an array with room for 29 tokens and the sentinel. */
  function Kept(done: seq<Token>, ts: seq<Token>): seq<Token> {
    if |done + ts| < MAX_REGEXP_OBJECTS then done + ts else (done + ts)[..MAX_REGEXP_OBJECTS - 1]
  }

  /** Compiling what was written gives the tokens back, the first 29 of them; the rest of a
      longer pattern is silently dropped. */
  lemma {:induction false} CompileWritten(pat: seq<Ch>, i: nat, ts: seq<Token>, done: seq<Token>, used: nat, stale: seq<Token>, r: Result)
    requires forall k | 0 <= k < |ts| :: Writable(ts[k])
    requires |stale| == MAX_REGEXP_OBJECTS && |done| < MAX_REGEXP_OBJECTS
    requires i <= |pat| && pat[i..] == WriteAll(ts)
    requires used + ClassCosts(ts) <= MAX_CHAR_CLASS_LEN
    requires r == CompileFrom(pat, i, done, used, stale)
    ensures r == Tokens(Kept(done, ts))
    decreases |ts|
  {
    if ts == [] || |done| + 1 == MAX_REGEXP_OBJECTS {
      if ts != [] { WrittenSplit(pat, i, ts); }
      CompileStops(pat, i, done, used, stale);
      KeptAll(done, ts);
    } else {
      WrittenSplit(pat, i, ts);
      var next, more, cost := i + |Write(ts[0])|, done + [ts[0]], used + ClassCost(ts[0]);
      CompileStep(pat, i, ts[0], done, used, stale, next, more, cost, r);
      CompileWritten(pat, next, ts[1..], more, cost, stale, r);
      KeptOne(done, ts);
    }
  }

  lemma KeptAll(done: seq<Token>, ts: seq<Token>)
    requires ts == [] || |done| + 1 == MAX_REGEXP_OBJECTS
    requires |done| < MAX_REGEXP_OBJECTS
    ensures Kept(done, ts) == done
  {}

  lemma KeptOne(done: seq<Token>, ts: seq<Token>)
    requires ts != []
    ensures Kept(done + [ts[0]], ts[1..]) == Kept(done, ts)
  {
    assert done + [ts[0]] + ts[1..] == done + ts;
  }

  lemma CompileStops(pat: seq<Ch>, i: nat, done: seq<Token>, used: nat, stale: seq<Token>)
    requires |stale| == MAX_REGEXP_OBJECTS && i <= |pat| && (i == |pat| || |done| + 1 >= MAX_REGEXP_OBJECTS)
    ensures CompileFrom(pat, i, done, used, stale) == Tokens(done)
  {}

  /** One written token is read back, and the compiler stands right after it. */
  lemma CompileStep(pat: seq<Ch>, i: nat, t: Token, done: seq<Token>, used: nat, stale: seq<Token>,
                    next: nat, more: seq<Token>, cost: nat, r: Result)
    requires Writable(t) && |stale| == MAX_REGEXP_OBJECTS && |done| + 1 < MAX_REGEXP_OBJECTS
    requires i + |Write(t)| <= |pat| && pat[i..i + |Write(t)|] == Write(t)
    requires used + ClassCost(t) <= MAX_CHAR_CLASS_LEN
    requires next == i + |Write(t)| && more == done + [t] && cost == used + ClassCost(t)
    requires r == CompileFrom(pat, i, done, used, stale)
    ensures r == CompileFrom(pat, next, more, cost, stale)
  {
    if t.CharClass? || t.InvCharClass? {
      CompileClass(pat, i, t, done, used, stale, next, more, cost, r);
    } else {
      CompilePlain(pat, i, t, done, used, stale);
    }
  }

  lemma WrittenNotEmpty(t: Token)
    requires Writable(t)
    ensures Write(t) != []
  {}

  /** The round trip: a pattern of at most 29 tokens whose classes fit the buffer compiles to
      exactly its tokens, whatever was compiled before. */
  lemma RoundTrip(ts: seq<Token>, stale: seq<Token>)
    requires forall k | 0 <= k < |ts| :: Writable(ts[k])
    requires |stale| == MAX_REGEXP_OBJECTS && ClassCosts(ts) + 1 <= MAX_CHAR_CLASS_LEN
    ensures CompileFrom(WriteAll(ts), 0, [], 1, stale) == Tokens(ts) <==> |ts| < MAX_REGEXP_OBJECTS
  {
    assert WriteAll(ts)[0..] == WriteAll(ts);
    CompileWritten(WriteAll(ts), 0, ts, [], 1, stale, CompileFrom(WriteAll(ts), 0, [], 1, stale));
    assert [] + ts == ts;
    if |ts| >= MAX_REGEXP_OBJECTS { assert |ts[..MAX_REGEXP_OBJECTS - 1]| != |ts|; }
  }

  // ----- What the last pattern leaves behind -----

  /** The place of the token that a final lone backslash stands for, or MAX_REGEXP_OBJECTS if the
      compiler never stands at one with room left. */
  function LoneBackslash(pat: seq<Ch>, i: nat, n: nat, used: nat): (m: nat)
    requires n < MAX_REGEXP_OBJECTS
    ensures n <= m <= MAX_REGEXP_OBJECTS
    decreases |pat| - i
  {
    if i >= |pat| || n + 1 == MAX_REGEXP_OBJECTS then MAX_REGEXP_OBJECTS
    else if pat[i] == BACKSLASH then if i + 1 == |pat| then n else LoneBackslash(pat, i + 2, n + 1, used)
    else if pat[i] == '[' as int then
      var (end, ccl) := CopyClass(pat, if i + 1 < |pat| && pat[i + 1] == '^' as int then i + 2 else i + 1, []);
      if used + |ccl| >= MAX_CHAR_CLASS_LEN then MAX_REGEXP_OBJECTS else LoneBackslash(pat, end + 1, n + 1, used + |ccl| + 1)
    else LoneBackslash(pat, i + 1, n + 1, used)
  }

  /** Two compilations of one pattern over different remains agree exactly when no lone backslash
      ends it within the room there is, or the remains agree at its place. */
  lemma {:induction false} StaleDecides(pat: seq<Ch>, i: nat, done: seq<Token>, used: nat, stale: seq<Token>, other: seq<Token>, m: nat)
    requires |stale| == |other| == MAX_REGEXP_OBJECTS && |done| < MAX_REGEXP_OBJECTS
    requires m == LoneBackslash(pat, i, |done|, used)
    ensures CompileFrom(pat, i, done, used, stale) == CompileFrom(pat, i, done, used, other) <==>
            m == MAX_REGEXP_OBJECTS || stale[m] == other[m]
    decreases |pat| - i, 1
  {
    if i < |pat| && |done| + 1 < MAX_REGEXP_OBJECTS {
      if pat[i] == BACKSLASH {
        if i + 1 < |pat| {
          StaleDecides(pat, i + 2, done + [Escaped(pat[i + 1])], used, stale, other, m);
        } else {
          LoneIsStale(pat, i, done, used, stale);
          LoneIsStale(pat, i, done, used, other);
          assert (done + [stale[m]])[m] == stale[m] && (done + [other[m]])[m] == other[m];
        }
      } else if pat[i] == '[' as int {
        StaleClass(pat, i, done, used, stale, other, m);
      } else {
        StaleDecides(pat, i + 1, done + [Plain(pat[i])], used, stale, other, m);
      }
    }
  }

  lemma LoneIsStale(pat: seq<Ch>, i: nat, done: seq<Token>, used: nat, stale: seq<Token>)
    requires |stale| == MAX_REGEXP_OBJECTS && |done| + 1 < MAX_REGEXP_OBJECTS && i + 1 == |pat| && pat[i] == BACKSLASH
    ensures CompileFrom(pat, i, done, used, stale) == Tokens(done + [stale[|done|]])
  {
    CompileStops(pat, i + 1, done + [stale[|done|]], used, stale);
  }

  lemma StaleClass(pat: seq<Ch>, i: nat, done: seq<Token>, used: nat, stale: seq<Token>, other: seq<Token>, m: nat)
    requires |stale| == |other| == MAX_REGEXP_OBJECTS && |done| + 1 < MAX_REGEXP_OBJECTS
    requires i < |pat| && pat[i] == '[' as int && m == LoneBackslash(pat, i, |done|, used)
    ensures CompileFrom(pat, i, done, used, stale) == CompileFrom(pat, i, done, used, other) <==>
            m == MAX_REGEXP_OBJECTS || stale[m] == other[m]
    decreases |pat| - i, 0
  {
    var inverted := i + 1 < |pat| && pat[i + 1] == '^' as int;
    var (end, ccl) := CopyClass(pat, if inverted then i + 2 else i + 1, []);
    if used + |ccl| < MAX_CHAR_CLASS_LEN {
      StaleDecides(pat, end + 1, done + [if inverted then InvCharClass(ccl) else CharClass(ccl)], used + |ccl| + 1, stale, other, m);
    }
  }
}
