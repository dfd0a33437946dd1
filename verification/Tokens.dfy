/** The NCL tokeniser: where each token begins and ends, and that the tokens run out. */
module Tokens {
  import opened Sequences

  datatype Type = Esc | Str | Cmd | Var | Sep | Eol | Eof

  /** struct picolParser; end is one before where the token stops, as in the source. */
  datatype Parser = Parser(p: nat, len: nat, start: int, end: int, insidequote: bool, kind: Type)

  /** A parser, or that it ran past the end of its text. */
  datatype Outcome = Ok(parser: Parser) | Overrun

  /** The text with the NUL that ends it. */
  function At(text: string, i: nat): char { if i < |text| then text[i] else '\0' }

  predicate Blank(c: char) { c == ' ' || c == '\t' }
  predicate Newline(c: char) { c == '\n' || c == '\r' }
  predicate Word(c: char) { 'a' <= c <= 'z' || 'A' <= c <= 'Z' || '0' <= c <= '9' || c == '_' }

  /** picolInitParser. */
  function Init(text: string): Parser { Parser(0, |text|, 0, 0, false, Eol) }

  // ----- Where each scan stops -----

  function SepEnd(text: string, i: nat): (j: nat)
    requires i <= |text|
    ensures i <= j <= |text|
    decreases |text| - i
  {
    if Blank(At(text, i)) || Newline(At(text, i)) then SepEnd(text, i + 1) else i
  }

  function EolEnd(text: string, i: nat): (j: nat)
    requires i <= |text|
    ensures i <= j <= |text|
    decreases |text| - i
  {
    if Blank(At(text, i)) || Newline(At(text, i)) || At(text, i) == ';' then EolEnd(text, i + 1) else i
  }

  function VarEnd(text: string, i: nat): (j: nat)
    requires i <= |text|
    ensures i <= j <= |text|
    decreases |text| - i
  {
    if Word(At(text, i)) then VarEnd(text, i + 1) else i
  }

  function CommentEnd(text: string, i: nat): (j: nat)
    requires i <= |text|
    ensures i <= j <= |text|
    decreases |text| - i
  {
    if i < |text| && !Newline(text[i]) then CommentEnd(text, i + 1) else i
  }

  /** The matching bracket or the end; None where a backslash is the last character. */
  function CommandEnd(text: string, i: nat, level: nat, blevel: nat): (j: Option<nat>)
    requires i <= |text| && level > 0
    ensures j.Some? ==> i <= j.value <= |text| && (j.value < |text| ==> text[j.value] == ']')
    decreases |text| - i
  {
    if i == |text| then Some(i)
    else if text[i] == '[' && blevel == 0 then CommandEnd(text, i + 1, level + 1, blevel)
    else if text[i] == ']' && blevel == 0 then if level == 1 then Some(i) else CommandEnd(text, i + 1, level - 1, blevel)
    else if text[i] == '\\' then if i + 1 == |text| then None else CommandEnd(text, i + 2, level, blevel)
    else if text[i] == '{' then CommandEnd(text, i + 1, level, blevel + 1)
    else if text[i] == '}' then CommandEnd(text, i + 1, level, if blevel > 0 then blevel - 1 else 0)
    else CommandEnd(text, i + 1, level, blevel)
  }

  /** The matching brace or the end. */
  function BraceEnd(text: string, i: nat, level: nat): (j: nat)
    requires i <= |text| && level > 0
    ensures i <= j <= |text|
    decreases |text| - i
  {
    if i == |text| then i
    else if text[i] == '\\' && i + 2 <= |text| then BraceEnd(text, i + 2, level)
    else if text[i] == '}' then if level == 1 then i else BraceEnd(text, i + 1, level - 1)
    else if text[i] == '{' then BraceEnd(text, i + 1, level + 1)
    else BraceEnd(text, i + 1, level)
  }

  /** Where a bare or quoted string stops: at a quote, a separator, a substitution or the end. */
  function StringEnd(text: string, i: nat, quoted: bool): (j: nat)
    requires i <= |text|
    ensures i <= j <= |text|
    decreases |text| - i
  {
    if i == |text| then i
    else if text[i] == '\\' then StringEnd(text, if i + 2 <= |text| then i + 2 else i + 1, quoted)
    else if text[i] == '$' || text[i] == '[' then i
    else if (Blank(text[i]) || Newline(text[i]) || text[i] == ';') && !quoted then i
    else if text[i] == '"' && quoted then i
    else StringEnd(text, i + 1, quoted)
  }

  // ----- What one token is -----

  /** The parser after a token that is text[a..b], with the position moved on to q. */
  function Moved(s: Parser, text: string, a: nat, b: int, q: nat, quoted: bool, kind: Type): Parser
    requires q <= |text|
  {
    Parser(q, |text| - q, a, b - 1, quoted, kind)
  }

  predicate Valid(s: Parser, text: string) { s.p + s.len == |text| }

  function OfCommand(s: Parser, text: string): Outcome
    requires Valid(s, text) && s.len > 0
  {
    var j := CommandEnd(text, s.p + 1, 1, 0);
    if j.None? then Overrun
    else Ok(Moved(s, text, s.p + 1, j.value, if j.value < |text| then j.value + 1 else j.value, s.insidequote, Cmd))
  }

  function OfVar(s: Parser, text: string): Parser
    requires Valid(s, text) && s.len > 0
  {
    var j := VarEnd(text, s.p + 1);
    if j == s.p + 1 then Moved(s, text, s.p, s.p + 1, j, s.insidequote, Str) else Moved(s, text, s.p + 1, j, j, s.insidequote, Var)
  }

  function OfBrace(s: Parser, text: string): Parser
    requires Valid(s, text) && s.len > 0
  {
    var j := BraceEnd(text, s.p + 1, 1);
    Moved(s, text, s.p + 1, j, if j < |text| then j + 1 else j, s.insidequote, Str)
  }

  function OfString(s: Parser, text: string): Parser
    requires Valid(s, text) && s.len > 0
  {
    var newword := s.kind.Sep? || s.kind.Eol? || s.kind.Str?;
    if newword && text[s.p] == '{' then OfBrace(s, text)
    else
      var begin := if newword && text[s.p] == '"' then s.p + 1 else s.p;
      var quoted := s.insidequote || (newword && text[s.p] == '"');
      var j := StringEnd(text, begin, quoted);
      if quoted && j < |text| && text[j] == '"' then Moved(s, text, begin, j, j + 1, false, Esc)
      else Moved(s, text, begin, j, j, quoted, Esc)
  }

  /** picolGetToken. */
  function Token(s: Parser, text: string): Outcome
    requires Valid(s, text)
    decreases s.len
  {
    if s.len == 0 then Ok(s.(kind := if s.kind.Eol? || s.kind.Eof? then Eof else Eol))
    else
      var c := text[s.p];
      if Blank(c) && !s.insidequote then var j := SepEnd(text, s.p); Ok(Moved(s, text, s.p, j, j, false, Sep))
      else if (Newline(c) || c == ';') && !s.insidequote then var j := EolEnd(text, s.p); Ok(Moved(s, text, s.p, j, j, false, Eol))
      else if c == '[' then OfCommand(s, text)
      else if c == '$' then Ok(OfVar(s, text))
      else if c == '#' && s.kind.Eol? then
        assert CommentEnd(text, s.p) > s.p;
        Token(s.(p := CommentEnd(text, s.p), len := |text| - CommentEnd(text, s.p)), text)
      else Ok(OfString(s, text))
  }

  // ----- The parser as the source keeps it -----

  class TokenParser {
    const text: string
    var p: nat
    var len: int
    var start: int
    var end: int
    var insidequote: bool
    var kind: Type

    ghost predicate InText()
      reads this
    {
      len >= 0 && p + len == |text|
    }

    ghost function Now(): Parser
      requires InText()
      reads this
    {
      Parser(p, len, start, end, insidequote, kind)
    }

    constructor (text: string)
      ensures this.text == text && InText() && Now() == Init(text)
    {
      this.text, p, len, start, end, insidequote, kind := text, 0, |text|, 0, 0, false, Eol;
    }

    method ParseSep()
      requires InText()
      modifies this
      ensures InText() && Now() == Moved(old(Now()), text, old(p), SepEnd(text, old(p)), SepEnd(text, old(p)), old(insidequote), Sep)
    {
      start := p;
      while Blank(At(text, p)) || Newline(At(text, p))
        invariant InText() && SepEnd(text, p) == SepEnd(text, old(p)) && start == old(p) && insidequote == old(insidequote)
        decreases len
      {
        p, len := p + 1, len - 1;
      }
      end, kind := p - 1, Sep;
    }

    method ParseEol()
      requires InText()
      modifies this
      ensures InText() && Now() == Moved(old(Now()), text, old(p), EolEnd(text, old(p)), EolEnd(text, old(p)), old(insidequote), Eol)
    {
      start := p;
      while Blank(At(text, p)) || Newline(At(text, p)) || At(text, p) == ';'
        invariant InText() && EolEnd(text, p) == EolEnd(text, old(p)) && start == old(p) && insidequote == old(insidequote)
        decreases len
      {
        p, len := p + 1, len - 1;
      }
      end, kind := p - 1, Eol;
    }

    /** The loop of picolParseCommand; false where it passes the end of the text. */
    method ScanCommand() returns (ok: bool)
      requires InText()
      modifies this`p, this`len
      ensures ok ==> InText() && Some(p) == CommandEnd(text, old(p), 1, 0)
      ensures !ok ==> CommandEnd(text, old(p), 1, 0) == None
    {
      var level: nat, blevel: nat := 1, 0;
      ghost var goal := CommandEnd(text, p, 1, 0);
      while true
        invariant InText() && level > 0 && CommandEnd(text, p, level, blevel) == goal
        decreases len
      {
        if len == 0 {
          return true;
        } else if text[p] == '[' && blevel == 0 {
          level := level + 1;
        } else if text[p] == ']' && blevel == 0 {
          if level == 1 {
            return true;
          }
          level := level - 1;
        } else if text[p] == '\\' {
          p, len := p + 1, len - 1;
          if len == 0 {
            return false;
          }
        } else if text[p] == '{' {
          blevel := blevel + 1;
        } else if text[p] == '}' {
          if blevel != 0 {
            blevel := blevel - 1;
          }
        }
        p, len := p + 1, len - 1;
      }
    }

    /** False where the scan passes the end of the text; nothing is promised of the parser then. */
    method ParseCommand() returns (ok: bool)
      requires InText() && len > 0
      modifies this
      ensures if ok then InText() && Ok(Now()) == OfCommand(old(Now()), text) else OfCommand(old(Now()), text) == Overrun
    {
      p, len := p + 1, len - 1;
      start := p;
      ok := ScanCommand();
      if ok {
        end, kind := p - 1, Cmd;
        if At(text, p) == ']' {
          p, len := p + 1, len - 1;
        }
      }
    }

    method ParseVar()
      requires InText() && len > 0
      modifies this
      ensures InText() && Now() == OfVar(old(Now()), text)
    {
      p, len := p + 1, len - 1;
      start := p;
      while Word(At(text, p))
        invariant InText() && VarEnd(text, p) == VarEnd(text, old(p) + 1) && start == old(p) + 1 <= p && insidequote == old(insidequote)
        decreases len
      {
        p, len := p + 1, len - 1;
      }
      if start == p {
        start, end, kind := p - 1, p - 1, Str;
      } else {
        end, kind := p - 1, Var;
      }
    }

    method ParseBrace()
      requires InText() && len > 0
      modifies this
      ensures InText() && Now() == OfBrace(old(Now()), text)
    {
      var level: nat := 1;
      p, len := p + 1, len - 1;
      start := p;
      ghost var goal := BraceEnd(text, p, 1);
      while true
        invariant InText() && start == old(p) + 1 && insidequote == old(insidequote) && level > 0
        invariant BraceEnd(text, p, level) == goal
        decreases len
      {
        if len >= 2 && text[p] == '\\' {
          p, len := p + 1, len - 1;
        } else if len == 0 || text[p] == '}' {
          if level == 1 || len == 0 {
            end := p - 1;
            if len != 0 {
              p, len := p + 1, len - 1;
            }
            kind := Str;
            return;
          }
          level := level - 1;
        } else if text[p] == '{' {
          level := level + 1;
        }
        p, len := p + 1, len - 1;
      }
    }

    /** The loop of picolParseString. */
    method ScanString()
      requires InText()
      modifies this`p, this`len
      ensures InText() && p == StringEnd(text, old(p), insidequote)
    {
      while len != 0
        invariant InText() && StringEnd(text, p, insidequote) == StringEnd(text, old(p), insidequote)
        decreases len
      {
        var c := text[p];
        if c == '\\' {
          if len >= 2 {
            p, len := p + 1, len - 1;
          }
        } else if c == '$' || c == '[' {
          return;
        } else if Blank(c) || Newline(c) || c == ';' {
          if !insidequote {
            return;
          }
        } else if c == '"' {
          if insidequote {
            return;
          }
        }
        p, len := p + 1, len - 1;
      }
    }

    method ParseString()
      requires InText() && len > 0
      modifies this
      ensures InText() && Now() == OfString(old(Now()), text)
    {
      var newword := kind == Sep || kind == Eol || kind == Str;
      if newword && text[p] == '{' {
        ParseBrace();
        return;
      } else if newword && text[p] == '"' {
        insidequote := true;
        p, len := p + 1, len - 1;
      }
      start := p;
      ScanString();
      end, kind := p - 1, Esc;
      if len > 0 && text[p] == '"' && insidequote {
        p, len := p + 1, len - 1;
        insidequote := false;
      }
    }

    method ParseComment()
      requires InText()
      modifies this`p, this`len
      ensures InText() && p == CommentEnd(text, old(p))
    {
      while len != 0 && !Newline(text[p])
        invariant InText() && CommentEnd(text, p) == CommentEnd(text, old(p))
        decreases len
      {
        p, len := p + 1, len - 1;
      }
    }

    method GetToken() returns (ok: bool)
      requires InText()
      modifies this
      ensures if ok then InText() && Ok(Now()) == Token(old(Now()), text) else Token(old(Now()), text) == Overrun
    {
      ok := true;
      while true
        invariant InText() && Token(Now(), text) == Token(old(Now()), text)
        decreases len
      {
        if len == 0 {
          kind := if kind != Eol && kind != Eof then Eol else Eof;
          return;
        }
        var c := text[p];
        if Blank(c) && !insidequote {
          ParseSep();
          return;
        } else if (Newline(c) || c == ';') && !insidequote {
          ParseEol();
          return;
        } else if c == '[' {
          ok := ParseCommand();
          return;
        } else if c == '$' {
          ParseVar();
          return;
        } else if c == '#' && kind == Eol {
          ParseComment();
        } else {
          ParseString();
          return;
        }
      }
    }
  }

  // ----- What holds of the tokens -----

  /** The bracket stays open to a last backslash that nothing escapes. */
  predicate OpenToBackslash(text: string, i: nat, level: nat, blevel: nat)
    requires i <= |text| && level > 0
  {
    Odd(FinalRun(text[i..], '\\')) && CommandEnd(text[..|text| - 1], i, level, blevel) == Some(|text| - 1)
  }

  /** The bracket scan passes the end of the text exactly then: an odd run of backslashes ends the
      text, and without the last of them the bracket would be open to the end. */
  lemma {:induction false} OverrunsExactly(text: string, i: nat, level: nat, blevel: nat)
    requires i <= |text| && level > 0
    ensures CommandEnd(text, i, level, blevel).None? <==> OpenToBackslash(text, i, level, blevel)
    decreases |text| - i
  {
    if i == |text| - 1 {
      assert text[i..] == [text[i]] && [text[i]][1..] == [];
      assert Odd(FinalRun(text[i..], '\\')) == (text[i] == '\\') by { assert Odd(1); }
      assert CommandEnd(text, i, level, blevel).None? <==> text[i] == '\\';
    } else if i < |text| {
      assert text[i..][1..] == text[i + 1..];
      if text[i] == '[' && blevel == 0 { OverrunsExactly(text, i + 1, level + 1, blevel); }
      else if text[i] == ']' && blevel == 0 { if level > 1 { OverrunsExactly(text, i + 1, level - 1, blevel); } }
      else if text[i] == '\\' { OverrunsExactly(text, i + 2, level, blevel); EscapeKeepsParity(text[i..], '\\'); assert text[i..][2..] == text[i + 2..]; }
      else if text[i] == '{' { OverrunsExactly(text, i + 1, level, blevel + 1); }
      else { OverrunsExactly(text, i + 1, level, if text[i] == '}' && blevel > 0 then blevel - 1 else blevel); }
    }
  }

  /** An overrun begins at a bracket. */
  predicate Overruns(s: Parser, text: string)
    requires Valid(s, text)
  {
    s.len > 0 && text[s.p] == '[' && OpenToBackslash(text, s.p + 1, 1, 0)
  }

  /** picolGetToken passes the end of its text exactly at such a bracket. */
  lemma {:induction false} TokenOverrunsExactly(s: Parser, text: string)
    requires Valid(s, text)
    ensures Token(s, text) == Overrun <==> Overruns(s, text)
    decreases s.len
  {
    if s.len > 0 {
      if text[s.p] == '[' {
        OverrunsExactly(text, s.p + 1, 1, 0);
      } else if text[s.p] == '#' && s.kind.Eol? {
        CommentStops(text, s.p);
        TokenOverrunsExactly(s.(p := CommentEnd(text, s.p), len := |text| - CommentEnd(text, s.p)), text);
      }
    }
  }

  lemma {:induction false} CommentStops(text: string, i: nat)
    requires i <= |text|
    ensures CommentEnd(text, i) < |text| ==> Newline(text[CommentEnd(text, i)])
    decreases |text| - i
  {
    if i < |text| && !Newline(text[i]) { CommentStops(text, i + 1); }
  }

  /** So a text that ends in an even number of backslashes, none included, never is overrun. */
  lemma EvenIsSafe(s: Parser, text: string)
    requires Valid(s, text) && !Odd(FinalRun(text, '\\'))
    ensures !Overruns(s, text)
  {
    if s.len > 0 && text[s.p] == '[' { RunBehind(text, s.p, '\\'); assert text[s.p..][1..] == text[s.p + 1..]; }
  }

  /** Two steps from the end of the tokens, one, or none. */
  function Rank(k: Type): nat { if k.Eof? then 0 else if k.Eol? then 1 else 2 }

  /** A token lies in the text, within what the parser has moved over. */
  predicate Slice(s: Parser, t: Parser) { s.p <= t.start <= t.end + 1 <= t.p }

  /** picolGetToken, where it does not overrun: it stays in the text, keeps position plus remaining
      length at the end of the text, gives a slice of what it moves over, and comes nearer the end. */
  lemma {:induction false} TokenIsSound(s: Parser, text: string)
    requires Valid(s, text) && !Overruns(s, text)
    ensures Token(s, text).Ok? && Valid(Token(s, text).parser, text)
    ensures var t := Token(s, text).parser;
            s.p <= t.p && (t.kind.Eof? || t.len == s.len == 0 || Slice(s, t)) &&
            (t.kind.Eof? || t.len < s.len || Rank(t.kind) < Rank(s.kind))
    decreases s.len
  {
    if s.len > 0 {
      if text[s.p] == '[' {
        CommandMoves(s, text);
      } else if text[s.p] == '$' {
        VarMoves(s, text);
      } else if text[s.p] == '#' && s.kind.Eol? {
        CommentStops(text, s.p);
        TokenIsSound(s.(p := CommentEnd(text, s.p), len := |text| - CommentEnd(text, s.p)), text);
      } else {
        StringMoves(s, text);
      }
    }
  }

  lemma CommandMoves(s: Parser, text: string)
    requires Valid(s, text) && s.len > 0 && text[s.p] == '[' && !Overruns(s, text)
    ensures var o := OfCommand(s, text);
            o.Ok? && Valid(o.parser, text) && o.parser.p > s.p && Slice(s, o.parser) && o.parser.kind.Cmd?
  {
    OverrunsExactly(text, s.p + 1, 1, 0);
  }

  lemma VarMoves(s: Parser, text: string)
    requires Valid(s, text) && s.len > 0
    ensures var t := OfVar(s, text); Valid(t, text) && t.p > s.p && Slice(s, t) && !t.kind.Eof?
  {
  }

  lemma StringMoves(s: Parser, text: string)
    requires Valid(s, text) && s.len > 0
    ensures text[s.p] !in "$[" && !(!s.insidequote && (Blank(text[s.p]) || Newline(text[s.p]) || text[s.p] == ';')) ==>
      OfString(s, text).p > s.p && Slice(s, OfString(s, text))
  {
  }

  /** All the tokens from s on: up to PT_EOF, or up to a bracket that overruns. */
  function Tokens(s: Parser, text: string): (ts: seq<Parser>)
    requires Valid(s, text)
    decreases s.len, Rank(s.kind)
  {
    if Overruns(s, text) then []
    else
      TokenIsSound(s, text);
      var t := Token(s, text).parser;
      if t.kind.Eof? then [t] else [t] + Tokens(t, text)
  }

  /** Each token lies in the text, after the one before it; the last is PT_EOF at the end of the
      text, unless the parser stands at a bracket that overruns. */
  predicate InOrder(s: Parser, ts: seq<Parser>, text: string)
    requires Valid(s, text)
    decreases |ts|
  {
    if ts == [] then Overruns(s, text)
    else if ts[0].kind.Eof? then |ts| == 1 && ts[0].len == 0
    else Valid(ts[0], text) && (ts[0].len == s.len == 0 || Slice(s, ts[0])) && InOrder(ts[0], ts[1..], text)
  }

  lemma {:induction false} EofIsTheEnd(s: Parser, text: string)
    requires Valid(s, text) && Token(s, text).Ok? && Token(s, text).parser.kind.Eof?
    ensures Token(s, text).parser.len == 0
    decreases s.len
  {
    if s.len > 0 && text[s.p] == '#' && s.kind.Eol? {
      EofIsTheEnd(s.(p := CommentEnd(text, s.p), len := |text| - CommentEnd(text, s.p)), text);
    }
  }

  /** The tokens run out: at most two more than the text has characters left. */
  lemma {:induction false} TokensRunOut(s: Parser, text: string)
    requires Valid(s, text)
    ensures InOrder(s, Tokens(s, text), text)
    ensures |Tokens(s, text)| <= if s.len == 0 && Rank(s.kind) <= 1 then 1 else s.len + 2
    decreases s.len, Rank(s.kind)
  {
    if !Overruns(s, text) {
      TokenIsSound(s, text);
      var t := Token(s, text).parser;
      if t.kind.Eof? {
        EofIsTheEnd(s, text);
      } else {
        TokensRunOut(t, text);
        assert ([t] + Tokens(t, text))[1..] == Tokens(t, text);
      }
    }
  }

  /** And they reach PT_EOF in every text that ends in an even number of backslashes. */
  lemma {:induction false} TokensReachEof(s: Parser, text: string)
    requires Valid(s, text) && !Odd(FinalRun(text, '\\'))
    ensures var ts := Tokens(s, text); ts != [] && ts[|ts| - 1].kind.Eof?
    decreases s.len, Rank(s.kind)
  {
    EvenIsSafe(s, text);
    TokenIsSound(s, text);
    var t := Token(s, text).parser;
    if !t.kind.Eof? { TokensReachEof(t, text); }
  }

  // ----- Braces quote -----

  /** The level after s, from a level; None where s closes more than is open, or ends in a
      backslash that escapes nothing. */
  function Depth(s: string, level: nat): Option<nat>
    requires level > 0
    decreases |s|
  {
    if s == "" then Some(level)
    else if s[0] == '\\' then if |s| == 1 then None else Depth(s[2..], level)
    else if s[0] == '}' then if level == 1 then None else Depth(s[1..], level - 1)
    else if s[0] == '{' then Depth(s[1..], level + 1)
    else Depth(s[1..], level)
  }

  lemma {:induction false} BraceStops(text: string, i: nat, s: string, level: nat)
    requires level > 0 && i + |s| < |text| && text[i..i + |s|] == s && text[i + |s|] == '}'
    ensures BraceEnd(text, i, level) == i + |s| <==> Depth(s, level) == Some(1)
    decreases |s|
  {
    if s != "" {
      assert s[0] == text[i];
      if s[0] == '\\' {
        if |s| > 1 {
          assert text[i + 2..i + 2 + |s[2..]|] == s[2..];
          BraceStops(text, i + 2, s[2..], level);
        }
      } else {
        assert text[i + 1..i + 1 + |s[1..]|] == s[1..];
        if s[0] != '}' || level > 1 {
          BraceStops(text, i + 1, s[1..], if s[0] == '}' then level - 1 else if s[0] == '{' then level + 1 else level);
        }
      }
    }
  }

  /** At the start of a word, braces around s make a token that is s and no more, whatever stands
      before and after, exactly if the braces in s match and it leaves no backslash over. */
  lemma BracesQuote(s: Parser, before: string, word: string, after: string)
    requires Valid(s, before + "{" + word + "}" + after) && s.p == |before| && (s.kind.Sep? || s.kind.Eol? || s.kind.Str?)
    ensures var text := before + "{" + word + "}" + after;
            var t := Token(s, text);
            t.Ok? && t.parser.kind.Str? && t.parser.start == |before| + 1 &&
            (t.parser.end + 1 == |before| + 1 + |word| && t.parser.p == |before| + |word| + 2 <==> Depth(word, 1) == Some(1))
  {
    var text := before + "{" + word + "}" + after;
    assert text[s.p] == '{' && text[s.p + 1..s.p + 1 + |word|] == word && text[s.p + 1 + |word|] == '}';
    BraceStops(text, s.p + 1, word, 1);
  }
}
