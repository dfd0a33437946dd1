/** What the text of a command means: its words, and so an if by the number of its condition. */
module InterpText {
  import Tokens
  import TokenMeaning
  import opened Sequences
  import opened Interp
  import opened InterpRules
  import opened InterpYields
  import opened InterpMeaning

  /** Each word in braces, after a space. */
  function Braced(words: seq<string>): string {
    if words == [] then "" else " {" + words[0] + "}" + Braced(words[1..])
  }

  /** Words whose own braces match, with no backslash left over. */
  predicate Matching(words: seq<string>) { forall k | 0 <= k < |words| :: Tokens.Depth(words[k], 1) == Some(1) }

  /** A name that stands for itself where a command begins. */
  predicate PlainName(name: string) {
    name != "" && name[0] != '{' && name[0] != '"' && name[0] != '#' && TokenMeaning.WordText(name, false, false)
  }

  /** What is left of a command of these words. */
  function WordItems(words: seq<string>): seq<Item> {
    if words == [] then [EndOfCommand, EndOfText] else [Begins(Literal(words[0]))] + WordItems(words[1..])
  }

  // ----- The items of the text -----

  lemma NextItem(text: string, p: Tokens.Parser, q: Tokens.Parser)
    requires Tokens.Valid(p, text) && Tokens.Valid(q, text) && Tokens.Token(p, text) == Tokens.Ok(q)
    ensures ItemsFrom(text, p) == ItemsAfter(text, p, q)
  {
    Tokens.TokenOverrunsExactly(p, text);
    ItemsStep(text, p, q);
  }

  lemma ItemsAtEnd(text: string, p: Tokens.Parser)
    requires Tokens.Valid(p, text) && p.len == 0 && !p.kind.Eol? && !p.kind.Eof?
    ensures ItemsFrom(text, p) == [EndOfCommand, EndOfText]
  {
    var q := p.(kind := Tokens.Eol);
    TokenMeaning.TextEnds(p, text);
    TokenMeaning.TextEnds(q, text);
    NextItem(text, p, q);
    NextItem(text, q, q.(kind := Tokens.Eof));
  }

  lemma ItemsOfSpace(text: string, p: Tokens.Parser, before: string, after: string) returns (q: Tokens.Parser)
    requires text == before + " " + after && Tokens.Valid(p, text) && p.p == |before| && !p.insidequote
    requires after != "" && !TokenMeaning.White(after[0])
    ensures Tokens.Valid(q, text) && q.p == |before| + 1 && !q.insidequote && q.kind.Sep?
    ensures ItemsFrom(text, p) == ItemsFrom(text, q)
  {
    var n := |before|;
    q := Tokens.Parser(n + 1, |text| - n - 1, n, n, false, Tokens.Sep);
    TokenMeaning.Separator(p, text, before, " ", after);
    NextItem(text, p, q);
  }

  lemma ItemsOfBraces(text: string, p: Tokens.Parser, before: string, w: string, after: string) returns (q: Tokens.Parser)
    requires text == before + "{" + w + "}" + after && Tokens.Valid(p, text) && p.p == |before| && !p.insidequote && p.kind.Sep?
    requires Tokens.Depth(w, 1) == Some(1)
    ensures Tokens.Valid(q, text) && q.p == |before| + |w| + 2 && !q.insidequote && q.kind.Str?
    ensures ItemsFrom(text, p) == [Begins(Literal(w))] + ItemsFrom(text, q)
  {
    var n := |before|;
    TokenMeaning.BracedWord(p, text, before, w, after);
    TokenMeaning.BracePlaced(text, before, w, after);
    q := Tokens.Parser(n + |w| + 2, |text| - (n + |w| + 2), n + 1, n + |w|, false, Tokens.Str);
    NextItem(text, p, q);
  }

  lemma Regrouped(before: string, w: string, after: string)
    ensures before + " {" + w + "}" + after == before + " " + ("{" + w + "}" + after)
    ensures before + " {" + w + "}" + after == (before + " ") + "{" + w + "}" + after
    ensures before + " {" + w + "}" + after == (before + " {" + w + "}") + after
  {
  }

  /** A space and a braced word. */
  lemma ItemsOfWord(text: string, p: Tokens.Parser, before: string, w: string, after: string) returns (q: Tokens.Parser)
    requires text == before + " {" + w + "}" + after && Tokens.Valid(p, text) && p.p == |before| && !p.insidequote
    requires Tokens.Depth(w, 1) == Some(1)
    ensures Tokens.Valid(q, text) && q.p == |before| + |w| + 3 && !q.insidequote && q.kind.Str?
    ensures ItemsFrom(text, p) == [Begins(Literal(w))] + ItemsFrom(text, q)
  {
    Regrouped(before, w, after);
    var sep := ItemsOfSpace(text, p, before, "{" + w + "}" + after);
    q := ItemsOfBraces(text, sep, before + " ", w, after);
  }

  lemma {:induction false} ItemsOfWords(text: string, p: Tokens.Parser, before: string, words: seq<string>)
    requires text == before + Braced(words) && Tokens.Valid(p, text) && p.p == |before| && !p.insidequote && Matching(words)
    requires p.kind.Esc? || p.kind.Str?
    ensures ItemsFrom(text, p) == WordItems(words)
    decreases |words|
  {
    if words == [] {
      ItemsAtEnd(text, p);
    } else {
      var w, after := words[0], Braced(words[1..]);
      assert text == before + " {" + w + "}" + after;
      var q := ItemsOfWord(text, p, before, w, after);
      assert text == (before + " {" + w + "}") + after;
      ItemsOfWords(text, q, before + " {" + w + "}", words[1..]);
    }
  }

  /** A name and words in braces are a command of those words. */
  lemma CommandItems(name: string, words: seq<string>)
    requires PlainName(name) && Matching(words)
    ensures Script(name + Braced(words)) == WordItems([name] + words)
  {
    var text := name + Braced(words);
    var p, n := Tokens.Init(text), |name|;
    assert text == "" + name + Braced(words);
    assert Braced(words) != "" ==> Braced(words)[0] == ' ';
    NameText(name);
    TokenMeaning.BareWord(p, text, "", name, Braced(words));
    var q := Tokens.Parser(n, |text| - n, 0, n - 1, false, Tokens.Esc);
    NextItem(text, p, q);
    assert text[0..n] == name;
    ItemsOfWords(text, q, name, words);
    assert ([name] + words)[1..] == words;
  }

  lemma {:induction false} NameText(name: string)
    requires TokenMeaning.WordText(name, false, false)
    ensures TokenMeaning.WordText(name, false, true)
    decreases |name|
  {
    if name != "" {
      if name[0] == '\\' { NameText(name[2..]); } else { NameText(name[1..]); }
    }
  }

  // ----- What the command does -----

  /** The command of these words ends with code c in state t. */
  ghost predicate Ran(h: Host, words: seq<string>, s: State, c: Code, t: State) {
    exists k: nat {:trigger Does(k, h, words, s, c, t)} :: Does(k, h, words, s, c, t)
  }

  /** An error notes where it passed. */
  function Marked(from: string, c: Code, t: State): State {
    if c.ERR? then t.(result := t.result + "; in " + from) else t
  }

  lemma {:induction false} WordsObeyed(k: nat, h: Host, words: seq<string>, front: seq<string>, s: State, c: Code, t: State) returns (j: nat)
    requires Obeys(k, h, WordItems(words), front, s, c, t) && front + words != []
    ensures Does(j, h, front + words, s, c, t)
    decreases |words|
  {
    if words == [] {
      assert front + words == front && WordItems(words)[1..] == [EndOfText];
      var d, u := EndRule(k, h, [EndOfText], front, s, c, t);
      j := k - 1;
    } else {
      var rest := WordItems(words[1..]);
      assert ([Begins(Literal(words[0]))] + rest)[1..] == rest;
      assert front + words == (front + [words[0]]) + words[1..];
      j := WordsObeyed(k - 1, h, words[1..], front + [words[0]], s, c, t);
    }
  }

  lemma {:induction false} ObeysWords(j: nat, h: Host, words: seq<string>, front: seq<string>, s: State, c: Code, t: State)
    requires Does(j, h, front + words, s, c, t) && front + words != []
    ensures Obeys(j + 1 + |words|, h, WordItems(words), front, s, c, t)
    decreases |words|
  {
    if words == [] {
      assert front + words == front && WordItems(words) == [EndOfCommand] + [EndOfText];
      EndsCommand(j, h, [EndOfText], front, s, c, t, c, t);
    } else {
      var rest := WordItems(words[1..]);
      assert ([Begins(Literal(words[0]))] + rest)[1..] == rest;
      assert front + words == (front + [words[0]]) + words[1..];
      ObeysWords(j, h, words[1..], front + [words[0]], s, c, t);
      assert Gives(j + |words|, h, Literal(words[0]), s, OK, words[0], s);
    }
  }

  /** A text that is a name and words in braces ends as the command of those words does, and in no
      other way. */
  lemma CommandLeads(h: Host, name: string, words: seq<string>, from: string, s: State, c: Code, t: State)
    requires PlainName(name) && Matching(words)
    ensures Leads(h, name + Braced(words), from, s, c, t) <==>
            exists u {:trigger Ran(h, [name] + words, s.(result := ""), c, u)} ::
              Ran(h, [name] + words, s.(result := ""), c, u) && t == Marked(from, c, u)
  {
    var text, all, begun := name + Braced(words), [name] + words, s.(result := "");
    CommandItems(name, words);
    assert [] + all == all;
    if Leads(h, text, from, s, c, t) {
      var k: nat :| Yields(k, h, text, from, s, c, t);
      var u :| Obeys(k - 1, h, Script(text), [], begun, c, u) && t == if c.ERR? then u.(result := u.result + "; in " + from) else u;
      var j := WordsObeyed(k - 1, h, all, [], begun, c, u);
      assert Ran(h, all, begun, c, u);
    }
    if u :| Ran(h, all, begun, c, u) && t == Marked(from, c, u) {
      var j: nat :| Does(j, h, all, begun, c, u);
      ObeysWords(j, h, all, [], begun, c, u);
      assert Yields(j + 2 + |all|, h, text, from, s, c, t);
    }
  }

  // ----- if, by its text -----

  /** An if takes the branch that the number of its condition chooses. */
  lemma IfElse(h: Host, cond: string, yes: string, no: string, from: string, s: State, d: Code, u: State, c: Code, t: State)
    requires Matching([cond, yes, "else", no]) && "if" in s.globals.commands
    requires s.globals.commands["if"].func == Builtin(If) && s.globals.commands["if"].minArgc <= 5
    requires Leads(h, cond, "cond of if", s.(result := ""), d, u)
    requires if !d.OK? then c == d && t == u
             else if h.atoi(u.result) != 0 then Leads(h, yes, "then of if", u, c, t)
             else Leads(h, no, "else of if", u, c, t)
    ensures Leads(h, "if" + Braced([cond, yes, "else", no]), from, s, c, Marked(from, c, t))
  {
    var words, begun := ["if"] + [cond, yes, "else", no], s.(result := "");
    EvalMeans(h, cond, "cond of if", begun, d, u);
    var f: nat :| Eval(f, h, cond, "cond of if", begun) == Ends(d, u);
    var g: nat := 0;
    var branch := if !d.OK? then "" else if h.atoi(u.result) != 0 then "then of if" else "else of if";
    if branch != "" { g := BranchEnds(h, if h.atoi(u.result) != 0 then yes else no, branch, u, c, t); }
    var n := IfJoin(f, g, h, words, begun, d, u, branch, c, t);
    InvokeIs(n, h, words, begun, c, t);
    InvokeDoes(n + 3, 3 * (n + 3), h, words, begun);
    assert Ran(h, words, begun, c, t);
    assert PlainName("if") by { assert "if"[1..] == "f" && "f"[1..] == ""; }
    CommandLeads(h, "if", [cond, yes, "else", no], from, s, c, Marked(from, c, t));
  }

  lemma BranchEnds(h: Host, text: string, from: string, s: State, c: Code, t: State) returns (g: nat)
    requires Leads(h, text, from, s, c, t)
    ensures Eval(g, h, text, from, s) == Ends(c, t)
  {
    EvalMeans(h, text, from, s, c, t);
    g :| Eval(g, h, text, from, s) == Ends(c, t);
  }

  lemma InvokeIs(n: nat, h: Host, words: seq<string>, s: State, c: Code, t: State)
    requires |words| == 5 && words[0] == "if" && "if" in s.globals.commands
    requires s.globals.commands["if"].func == Builtin(If) && s.globals.commands["if"].minArgc <= 5
    requires Run(n + 1, h, If, words, s) == Ends(c, t)
    ensures Invoke(n + 3, h, words, s) == Ends(c, t)
  {
    assert Call(n + 2, h, s.globals.commands["if"], words, s) == Ends(c, t);
  }
}
