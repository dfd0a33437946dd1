/**
  What each kind of token is, character by character: bare, quoted and braced words, variables,
  commands in brackets, separators, ends of commands and comments.
 */
module TokenMeaning {
  import opened Sequences
  import opened Tokens

  /** A word may begin here that braces or a quote enclose. */
  predicate NewWord(k: Type) { k.Sep? || k.Eol? || k.Str? }

  /** The token text[a..b], of a parser that goes on at q. */
  function Is(text: string, a: nat, b: nat, q: nat, quoted: bool, kind: Type): Outcome
    requires q <= |text|
  {
    Ok(Parser(q, |text| - q, a, b - 1, quoted, kind))
  }

  // ----- Words -----

  /** The characters that end a word: blanks, line ends and semicolons unless it is quoted, the
      quote if it is, and what begins a substitution. */
  predicate EndsWord(c: char, quoted: bool) {
    c == '$' || c == '[' || (if quoted then c == '"' else c == ' ' || c == '\t' || c == '\n' || c == '\r' || c == ';')
  }

  /** Characters that end nothing, and escaped ones; a lone backslash only at the end of the text. */
  predicate WordText(w: string, quoted: bool, last: bool)
    decreases |w|
  {
    w == "" ||
    if w[0] == '\\' then if |w| == 1 then last else WordText(w[2..], quoted, last)
    else !EndsWord(w[0], quoted) && WordText(w[1..], quoted, last)
  }

  /** What follows a word. */
  predicate Ended(after: string, quoted: bool) { after == "" || EndsWord(after[0], quoted) }

  /** The text from i to k is such a word, and ends there. */
  predicate WordAt(text: string, i: nat, k: nat, quoted: bool) {
    i <= k <= |text| && WordText(text[i..k], quoted, k == |text|) && (k == |text| || EndsWord(text[k], quoted))
  }

  lemma {:induction false} WordStops(text: string, i: nat, k: nat, quoted: bool)
    requires WordAt(text, i, k, quoted)
    ensures StringEnd(text, i, quoted) == k
    decreases k - i
  {
    if i < k {
      var w := text[i..k];
      if w[0] == '\\' && |w| > 1 {
        assert w[2..] == text[i + 2..k];
        WordStops(text, i + 2, k, quoted);
      } else if w[0] != '\\' {
        assert w[1..] == text[i + 1..k];
        WordStops(text, i + 1, k, quoted);
      }
    }
  }

  lemma PlacedWord(text: string, before: string, w: string, after: string, quoted: bool)
    requires text == before + w + after && WordText(w, quoted, after == "") && Ended(after, quoted)
    ensures WordAt(text, |before|, |before| + |w|, quoted)
    ensures w != "" ==> text[|before|] == w[0]
    ensures after != "" ==> text[|before| + |w|] == after[0]
  {
    assert text[|before|..|before| + |w|] == w;
  }

  lemma FirstEndsNothing(text: string, i: nat, k: nat, quoted: bool)
    requires WordAt(text, i, k, quoted) && i < k
    ensures text[i] == '\\' || !EndsWord(text[i], quoted)
  {
  }

  lemma BareAt(s: Parser, text: string, k: nat)
    requires Valid(s, text) && !s.insidequote && s.p < k && WordAt(text, s.p, k, false)
    requires (NewWord(s.kind) ==> text[s.p] != '{' && text[s.p] != '"') && (s.kind.Eol? ==> text[s.p] != '#')
    ensures Token(s, text) == Is(text, s.p, k, k, false, Esc)
  {
    FirstEndsNothing(text, s.p, k, false);
    WordStops(text, s.p, k, false);
  }

  /** A bare word ends at the first blank, line end, semicolon, `$` or `[` that nothing escapes. */
  lemma BareWord(s: Parser, text: string, before: string, w: string, after: string)
    requires text == before + w + after && Valid(s, text) && s.p == |before| && !s.insidequote && w != ""
    requires WordText(w, false, after == "") && Ended(after, false)
    requires (NewWord(s.kind) ==> w[0] != '{' && w[0] != '"') && (s.kind.Eol? ==> w[0] != '#')
    ensures Token(s, text) == Is(text, |before|, |before| + |w|, |before| + |w|, false, Esc)
  {
    PlacedWord(text, before, w, after, false);
    BareAt(s, text, |before| + |w|);
  }

  /** What a quoted stretch from a to b is, as what ends it is a quote or not. */
  function Quoted(text: string, a: nat, b: nat): Outcome
    requires a <= b <= |text|
  {
    if b < |text| && text[b] == '"' then Is(text, a, b, b + 1, false, Esc) else Is(text, a, b, b, true, Esc)
  }

  lemma QuotedAt(s: Parser, text: string, k: nat)
    requires Valid(s, text) && s.len > 0 && text[s.p] == '"' && NewWord(s.kind) && WordAt(text, s.p + 1, k, true)
    ensures Token(s, text) == Quoted(text, s.p + 1, k)
  {
    WordStops(text, s.p + 1, k, true);
  }

  lemma QuotedMoreAt(s: Parser, text: string, k: nat)
    requires Valid(s, text) && s.insidequote && WordAt(text, s.p, k, true) && s.p < |text|
    requires s.p < k || text[k] == '"'
    requires !NewWord(s.kind) || (s.p < k && text[s.p] != '{' && text[s.p] != '"' && (s.kind.Eol? ==> text[s.p] != '#'))
    ensures Token(s, text) == Quoted(text, s.p, k)
  {
    if s.p < k { FirstEndsNothing(text, s.p, k, true); }
    WordStops(text, s.p, k, true);
  }

  /** A quoted word ends at its quote, or at a `$` or `[`, after which the quote is still open.
      Within quotes, too, a quote after a `$` that begins no name opens another such word. */
  lemma QuotedWord(s: Parser, text: string, before: string, w: string, after: string)
    requires text == before + "\"" + w + after && Valid(s, text) && s.p == |before| && NewWord(s.kind)
    requires WordText(w, true, after == "") && Ended(after, true)
    ensures var a, b := |before| + 1, |before| + 1 + |w|;
            Token(s, text) == if after != "" && after[0] == '"' then Is(text, a, b, b + 1, false, Esc) else Is(text, a, b, b, true, Esc)
  {
    QuotePlaced(text, before, w, after);
    PlacedWord(text, before + "\"", w, after, true);
    QuotedAt(s, text, |before| + 1 + |w|);
  }

  lemma QuotePlaced(text: string, before: string, w: string, after: string)
    requires text == before + "\"" + w + after
    ensures text[|before|] == '"' && text == (before + "\"") + w + after
  {
  }

  /** And so does what comes after a variable or a command within quotes. */
  lemma QuotedMore(s: Parser, text: string, before: string, w: string, after: string)
    requires text == before + w + after && Valid(s, text) && s.p == |before| && s.insidequote
    requires WordText(w, true, after == "") && Ended(after, true)
    requires w != "" || (after != "" && after[0] == '"')
    requires !NewWord(s.kind) || (w != "" && w[0] != '{' && w[0] != '"' && (s.kind.Eol? ==> w[0] != '#'))
    ensures var a, b := |before|, |before| + |w|;
            Token(s, text) == if after != "" && after[0] == '"' then Is(text, a, b, b + 1, false, Esc) else Is(text, a, b, b, true, Esc)
  {
    PlacedWord(text, before, w, after, true);
    QuotedMoreAt(s, text, |before| + |w|);
  }

  lemma BracePlaced(text: string, before: string, w: string, after: string)
    requires text == before + "{" + w + "}" + after
    ensures var i := |before|;
            text[i] == '{' && text[i + 1..i + 1 + |w|] == w && text[i + 1 + |w|] == '}'
  {
  }

  lemma BracedAt(s: Parser, text: string, k: nat)
    requires Valid(s, text) && s.len > 0 && text[s.p] == '{' && NewWord(s.kind) && k < |text| && BraceEnd(text, s.p + 1, 1) == k
    ensures Token(s, text) == Is(text, s.p + 1, k, k + 1, s.insidequote, Str)
  {
  }

  /** Braces around matching braces make exactly the word between them. */
  lemma BracedWord(s: Parser, text: string, before: string, w: string, after: string)
    requires text == before + "{" + w + "}" + after && Valid(s, text) && s.p == |before| && NewWord(s.kind) && Depth(w, 1) == Some(1)
    ensures Token(s, text) == Is(text, |before| + 1, |before| + 1 + |w|, |before| + |w| + 2, s.insidequote, Str)
  {
    BracePlaced(text, before, w, after);
    BraceStops(text, s.p + 1, w, 1);
    BracedAt(s, text, |before| + 1 + |w|);
  }

  // ----- Variables -----

  predicate NameChar(c: char) { 'a' <= c <= 'z' || 'A' <= c <= 'Z' || '0' <= c <= '9' || c == '_' }

  lemma {:induction false} NameStops(text: string, i: nat, k: nat)
    requires i <= k <= |text| && (forall j | i <= j < k :: NameChar(text[j])) && (k < |text| ==> !NameChar(text[k]))
    ensures VarEnd(text, i) == k
    decreases k - i
  {
    if i < k { NameStops(text, i + 1, k); }
  }

  /** `$` and a name are a variable, with the whole name and no more; `$` alone is itself. */
  lemma VariableName(s: Parser, text: string, before: string, name: string, after: string)
    requires text == before + "$" + name + after && Valid(s, text) && s.p == |before|
    requires (forall c | c in name :: NameChar(c)) && (after != "" ==> !NameChar(after[0]))
    ensures var a, b := |before| + 1, |before| + 1 + |name|;
            Token(s, text) == if name != "" then Is(text, a, b, b, s.insidequote, Var) else Is(text, a - 1, a, a, s.insidequote, Str)
  {
    assert text[|before|] == '$';
    var k := |before| + 1 + |name|;
    forall j | s.p + 1 <= j < k ensures NameChar(text[j]) { assert text[j] == name[j - s.p - 1]; }
    if after != "" { assert text[k] == after[0]; }
    NameStops(text, s.p + 1, k);
  }

  // ----- Commands -----

  /** How deep in brackets and in braces the text leaves off; brackets within braces do not count.
      None where it closes the first bracket, or ends in a backslash that escapes nothing. */
  function Nesting(body: string, level: nat, braces: nat): Option<(nat, nat)>
    requires level > 0
    decreases |body|
  {
    if body == "" then Some((level, braces))
    else match body[0]
         case '\\' => if |body| == 1 then None else Nesting(body[2..], level, braces)
         case '{' => Nesting(body[1..], level, braces + 1)
         case '}' => Nesting(body[1..], level, if braces == 0 then 0 else braces - 1)
         case '[' => Nesting(body[1..], if braces == 0 then level + 1 else level, braces)
         case ']' =>
           if braces > 0 then Nesting(body[1..], level, braces)
           else if level == 1 then None else Nesting(body[1..], level - 1, braces)
         case _ => Nesting(body[1..], level, braces)
  }

  /** The nesting after one character that escapes nothing. */
  function Passed(c: char, level: nat, braces: nat): (nat, nat)
    requires level > 0
  {
    if c == '[' && braces == 0 then (level + 1, braces)
    else if c == ']' && braces == 0 then (level - 1, braces)
    else if c == '{' then (level, braces + 1)
    else if c == '}' && braces > 0 then (level, braces - 1)
    else (level, braces)
  }

  lemma {:induction false} BracketStops(text: string, i: nat, body: string, level: nat, braces: nat)
    requires level > 0 && i + |body| < |text| && text[i..i + |body|] == body && text[i + |body|] == ']'
    ensures CommandEnd(text, i, level, braces) == Some(i + |body|) <==> Nesting(body, level, braces) == Some((1, 0))
    decreases |body|
  {
    if body != "" {
      assert body[0] == text[i];
      if body[0] == '\\' {
        if |body| > 1 {
          assert text[i + 2..i + 2 + |body[2..]|] == body[2..];
          BracketStops(text, i + 2, body[2..], level, braces);
        }
      } else {
        assert text[i + 1..i + 1 + |body[1..]|] == body[1..];
        var (l, b) := Passed(body[0], level, braces);
        if l > 0 { BracketStops(text, i + 1, body[1..], l, b); }
      }
    }
  }

  /** Brackets around a text make exactly that command, whatever stands before and after, if and
      only if its own brackets and braces match and it leaves no backslash over. */
  lemma BracketedCommand(s: Parser, text: string, before: string, body: string, after: string)
    requires text == before + "[" + body + "]" + after && Valid(s, text) && s.p == |before|
    ensures var a, b := |before| + 1, |before| + 1 + |body|;
            Token(s, text) == Is(text, a, b, b + 1, s.insidequote, Cmd) <==> Nesting(body, 1, 0) == Some((1, 0))
  {
    BracketPlaced(text, before, body, after);
    CommandAt(s, text, body);
  }

  lemma BracketPlaced(text: string, before: string, body: string, after: string)
    requires text == before + "[" + body + "]" + after
    ensures var i := |before|;
            text[i] == '[' && text[i + 1..i + 1 + |body|] == body && text[i + 1 + |body|] == ']'
  {
  }

  lemma CommandAt(s: Parser, text: string, body: string)
    requires Valid(s, text) && s.p + 1 + |body| < |text| && text[s.p] == '[' && text[s.p + 1..s.p + 1 + |body|] == body
    requires text[s.p + 1 + |body|] == ']'
    ensures var a, b := s.p + 1, s.p + 1 + |body|;
            Token(s, text) == Is(text, a, b, b + 1, s.insidequote, Cmd) <==> Nesting(body, 1, 0) == Some((1, 0))
  {
    BracketStops(text, s.p + 1, body, 1, 0);
    CommandToken(s, text, CommandEnd(text, s.p + 1, 1, 0));
  }

  lemma CommandToken(s: Parser, text: string, j: Option<nat>)
    requires Valid(s, text) && s.len > 0 && text[s.p] == '[' && j == CommandEnd(text, s.p + 1, 1, 0)
    ensures if j.None? then Token(s, text) == Overrun
            else Token(s, text) == Is(text, s.p + 1, j.value, if j.value < |text| then j.value + 1 else j.value, s.insidequote, Cmd)
  {
  }

  lemma {:induction false} BracketOpen(text: string, i: nat, level: nat, braces: nat)
    requires i <= |text| && level > 0 && Nesting(text[i..], level, braces).Some?
    ensures CommandEnd(text, i, level, braces) == Some(|text|)
    decreases |text| - i
  {
    if i < |text| {
      var body := text[i..];
      assert body[1..] == text[i + 1..];
      if body[0] == '\\' {
        assert body[2..] == text[i + 2..];
        BracketOpen(text, i + 2, level, braces);
      }
      else if body[0] == '[' && braces == 0 { BracketOpen(text, i + 1, level + 1, braces); }
      else if body[0] == ']' && braces == 0 { BracketOpen(text, i + 1, level - 1, braces); }
      else if body[0] == '{' { BracketOpen(text, i + 1, level, braces + 1); }
      else { BracketOpen(text, i + 1, level, if body[0] == '}' && braces > 0 then braces - 1 else braces); }
    }
  }

  /** A bracket that nothing closes takes the rest of the text. */
  lemma OpenCommand(s: Parser, text: string, before: string, body: string)
    requires text == before + "[" + body && Valid(s, text) && s.p == |before| && Nesting(body, 1, 0).Some?
    ensures Token(s, text) == Is(text, |before| + 1, |text|, |text|, s.insidequote, Cmd)
  {
    assert text[s.p] == '[' && text[s.p + 1..] == body;
    BracketOpen(text, s.p + 1, 1, 0);
  }

  // ----- Between words, and between commands -----

  predicate Blank(c: char) { c == ' ' || c == '\t' }
  predicate LineEnd(c: char) { c == '\n' || c == '\r' }
  predicate White(c: char) { Blank(c) || LineEnd(c) }

  lemma {:induction false} SepStops(text: string, i: nat, k: nat)
    requires i <= k <= |text| && (forall j | i <= j < k :: White(text[j])) && (k < |text| ==> !White(text[k]))
    ensures SepEnd(text, i) == k
    decreases k - i
  {
    if i < k { SepStops(text, i + 1, k); }
  }

  lemma {:induction false} EolStops(text: string, i: nat, k: nat)
    requires i <= k <= |text| && (forall j | i <= j < k :: (White(text[j]) || text[j] == ';')) && (k < |text| ==> !White(text[k]) && text[k] != ';')
    ensures EolEnd(text, i) == k
    decreases k - i
  {
    if i < k { EolStops(text, i + 1, k); }
  }

  /** A run of blanks separates words; a line end after the first blank goes with it, so that it
      does not end the command. */
  lemma Separator(s: Parser, text: string, before: string, run: string, after: string)
    requires text == before + run + after && Valid(s, text) && s.p == |before| && !s.insidequote
    requires run != "" && Blank(run[0]) && (forall c | c in run :: White(c)) && (after != "" ==> !White(after[0]))
    ensures Token(s, text) == Is(text, |before|, |before| + |run|, |before| + |run|, false, Sep)
  {
    forall j | s.p <= j < s.p + |run| ensures White(text[j]) { assert text[j] == run[j - s.p]; }
    if after != "" { assert text[s.p + |run|] == after[0]; }
    SepStops(text, s.p, s.p + |run|);
  }

  /** A line end or a semicolon ends a command, with whatever white space and others follow. */
  lemma CommandEnds(s: Parser, text: string, before: string, run: string, after: string)
    requires text == before + run + after && Valid(s, text) && s.p == |before| && !s.insidequote
    requires run != "" && (LineEnd(run[0]) || run[0] == ';') && (forall c | c in run :: White(c) || c == ';') && (after != "" ==> !White(after[0]) && after[0] != ';')
    ensures Token(s, text) == Is(text, |before|, |before| + |run|, |before| + |run|, false, Eol)
  {
    forall j | s.p <= j < s.p + |run| ensures (White(text[j]) || text[j] == ';') { assert text[j] == run[j - s.p]; }
    if after != "" { assert text[s.p + |run|] == after[0]; }
    EolStops(text, s.p, s.p + |run|);
  }

  lemma {:induction false} CommentRuns(text: string, i: nat, k: nat)
    requires i <= k <= |text| && (forall j | i <= j < k :: !LineEnd(text[j])) && (k < |text| ==> LineEnd(text[k]))
    ensures CommentEnd(text, i) == k
    decreases k - i
  {
    if i < k { CommentRuns(text, i + 1, k); }
  }

  /** A `#` where a command may begin is passed over, to the end of its line and no further. */
  lemma Comment(s: Parser, text: string, before: string, comment: string, after: string)
    requires text == before + "#" + comment + after && Valid(s, text) && s.p == |before| && s.kind.Eol?
    requires (forall c | c in comment :: !LineEnd(c)) && (after != "" ==> LineEnd(after[0]))
    ensures Token(s, text) == Token(s.(p := |text| - |after|, len := |after|), text)
    ensures after == "" ==> Token(s, text).Ok? && Token(s, text).parser.kind.Eof?
  {
    assert text == before + ("#" + comment) + after;
    assert text[|before|] == '#';
    var k := |before| + 1 + |comment|;
    forall j | s.p <= j < k ensures !LineEnd(text[j]) { if j > s.p { assert text[j] == comment[j - s.p - 1]; } }
    if after != "" { assert text[k] == after[0]; }
    CommentRuns(text, s.p, k);
  }

  /** The text's end ends a command, and then itself. */
  lemma TextEnds(s: Parser, text: string)
    requires Valid(s, text) && s.len == 0
    ensures Token(s, text) == Ok(s.(kind := if s.kind.Eol? || s.kind.Eof? then Eof else Eol))
  {
  }

  /** So a blank at the end of a line joins it to the next. */
  lemma BlankJoinsLines(s: Parser, text: string, before: string, after: string)
    requires text == before + " \n" + after && Valid(s, text) && s.p == |before| && !s.insidequote
    requires after != "" && !White(after[0]) && after[0] != ';'
    ensures Token(s, text) == Is(text, |before|, |before| + 2, |before| + 2, false, Sep)
    ensures Token(s.(p := |before| + 1, len := |after| + 1), text) == Is(text, |before| + 1, |before| + 2, |before| + 2, false, Eol)
  {
    Separator(s, text, before, " \n", after);
    assert text == (before + " ") + "\n" + after;
    CommandEnds(s.(p := |before| + 1, len := |after| + 1), text, before + " ", "\n", after);
  }
}
