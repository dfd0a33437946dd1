/** re_match: compile, then search. */
module RegexApi {
  import opened Regex
  import opened RegexMatch
  import opened RegexCompile
  import opened RegexMeaning

  /** For the text of any well-formed pattern within the compile limits. */
  method ReMatch(compiler: Compiler, pattern: seq<Ch>, text: seq<Ch>,
                 ghost fromStart: bool, ghost elems: seq<Elem>, ghost anchored: bool) returns (r: int)
    requires compiler.compiled.Length == MAX_REGEXP_OBJECTS
    requires var ts := Compiled(fromStart, elems, anchored);
             && pattern == WriteAll(ts) && |ts| < MAX_REGEXP_OBJECTS && ClassCosts(ts) + 1 <= MAX_CHAR_CLASS_LEN
             && forall k | 0 <= k < |ts| :: Writable(ts[k])
    modifies compiler, compiler.compiled
    ensures fromStart ==> r == if Accepts(elems, anchored, text) then 0 else -1
    ensures !fromStart && r >= 0 ==> r < |text| && LeastStart(elems, anchored, text, r)
    ensures !fromStart && r < 0 ==> r == -1 && forall k: nat | k < |text| :: !Accepts(elems, anchored, text[k..])
    ensures forall us, front, back | AllGood(us) && |us| + 2 < MAX_REGEXP_OBJECTS && pattern == Pattern(us, front, back) ::
              Finds(us, front, back, text, r)
    ensures forall word, front, back | IsWord(word) && |word| + 2 < MAX_REGEXP_OBJECTS && pattern == Between(word, front, back) ::
              FindsWord(word, front, back, text, r)
  {
    RoundTrip(Compiled(fromStart, elems, anchored), compiler.compiled[..]);
    var result := compiler.Compile(pattern);
    r := Search(result.tokens, text, fromStart, elems, anchored);
    MissingMeans(elems, anchored, text);
    forall us, front, back | AllGood(us) && |us| + 2 < MAX_REGEXP_OBJECTS && pattern == Pattern(us, front, back)
      ensures Finds(us, front, back, text, r)
    {
      PatternIsWritten(us, front, back);
      OnePattern(fromStart, elems, anchored, front, Elems(us), back);
      AnswersFind(us, front, back, text, r);
    }
    forall word, front, back | IsWord(word) && |word| + 2 < MAX_REGEXP_OBJECTS && pattern == Between(word, front, back)
      ensures FindsWord(word, front, back, text, r)
    {
      WordTexts(word);
      assert AllGood(Letters(word)) && pattern == Pattern(Letters(word), front, back);
      WordIsFound(word, front, back, text, r);
    }
  }
}
