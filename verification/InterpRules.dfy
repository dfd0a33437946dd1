/**
  What evaluation means, as a relation with one rule for each way to end: texts are items, items
  are obeyed one by one, and each command has its own rule.  It is shown to be what the
  interpreter computes.
 */
module InterpRules {
  import Tokens
  import opened Sequences
  import opened Interp

  // ----- A text, without its state -----

  /** What stands for part of a word: itself, a variable, or a command in brackets. */
  datatype Piece = Literal(val: string) | Variable(name: string) | Bracket(script: string)

  /** A piece that begins a word, or goes on with one; the end of a command, and of the text. */
  datatype Item = Begins(piece: Piece) | Adds(piece: Piece) | EndOfCommand | EndOfText

  function PieceOf(text: string, q: Tokens.Parser): Piece {
    var part := if 0 <= q.start <= q.end + 1 <= |text| then text[q.start..q.end + 1] else "";
    if q.kind.Var? then Variable(part) else if q.kind.Cmd? then Bracket(part) else Literal(part)
  }

  /** The items of a list of tokens: a word begins after a separator or the end of a command. */
  function Items(text: string, ts: seq<Tokens.Parser>, apart: bool): seq<Item> {
    if ts == [] then []
    else match ts[0].kind
         case Eof => [EndOfText]
         case Sep => Items(text, ts[1..], true)
         case Eol => [EndOfCommand] + Items(text, ts[1..], true)
         case _ => [if apart then Begins(PieceOf(text, ts[0])) else Adds(PieceOf(text, ts[0]))] + Items(text, ts[1..], false)
  }

  function Script(text: string): seq<Item> { Items(text, Tokens.Tokens(Tokens.Init(text), text), true) }

  // ----- Small meanings -----

  /** A message fills at most 199 characters. */
  function Clipped(message: string): string { if |message| > 199 then message[..199] else message }

  predicate Fails(s: State, message: string, c: Code, t: State) { c == ERR && t == s.(result := Clipped(message)) }

  /** The number that catch gives for a code. */
  predicate Numbers(n: int, c: Code) {
    (n == 0 && c == OK) || (n == 1 && c == ERR) || (n == 2 && c == RETURN) || (n == 3 && c == BREAK) || (n == 4 && c == CONTINUE)
  }

  /** Each parameter has its argument; of two of one name, the last. */
  predicate Binds(params: seq<string>, args: seq<string>, f: Frame) {
    && |params| == |args|
    && f.Keys == (set name | name in params)
    && forall k {:trigger BindsAt(params, args, f, k)} | 0 <= k < |params| :: BindsAt(params, args, f, k)
  }

  predicate BindsAt(params: seq<string>, args: seq<string>, f: Frame, k: nat)
    requires k < |params| == |args|
  {
    params[k] !in params[k + 1..] ==> params[k] in f && f[params[k]] == args[k]
  }

  /** The frame that a proc begins with: a last parameter named args takes a list of what is left. */
  ghost predicate BindsAll(h: Host, params: seq<string>, args: seq<string>, f: Frame) {
    if params != [] && params[|params| - 1] == "args" then
      var n := |params| - 1;
      n <= |args| && exists g {:trigger Binds(params[..n], args[..n], g)} ::
        Binds(params[..n], args[..n], g) && f == g["args" := h.quote(args[n..])]
    else Binds(params, args, f)
  }

  /** The arguments with a space before each. */
  function Spaced(args: seq<string>): string { Concat(seq(|args|, i requires 0 <= i < |args| => " " + args[i])) }

  /** How many arguments a proc takes. */
  predicate Takes(params: seq<string>, n: nat) {
    if params != [] && params[|params| - 1] == "args" then n >= |params| - 1 else n == |params|
  }

  // ----- The rules, for derivations of height at most k -----

  /** The text, from state s, ends with code c in state t. */
  ghost predicate Yields(k: nat, h: Host, text: string, from: string, s: State, c: Code, t: State)
    decreases k
  {
    k > 0 &&
    exists u {:trigger Obeys(k - 1, h, Script(text), [], s.(result := ""), c, u)} ::
      && Obeys(k - 1, h, Script(text), [], s.(result := ""), c, u)
      && t == if c.ERR? then u.(result := u.result + "; in " + from) else u
  }

  /** The items, with the words so far. */
  ghost predicate Obeys(k: nat, h: Host, items: seq<Item>, words: seq<string>, s: State, c: Code, t: State)
    decreases k
  {
    k > 0 &&
    items != [] &&
    match items[0]
    case EndOfText => c == OK && t == s
    case EndOfCommand =>
      if words == [] then Obeys(k - 1, h, items[1..], [], s, c, t)
      else exists d, u {:trigger Does(k - 1, h, words, s, d, u)} ::
             Does(k - 1, h, words, s, d, u) && if d.OK? then Obeys(k - 1, h, items[1..], [], u, c, t) else c == d && t == u
    case Begins(piece) =>
      exists d, v, u {:trigger Gives(k - 1, h, piece, s, d, v, u)} ::
        Gives(k - 1, h, piece, s, d, v, u) && if d.OK? then Obeys(k - 1, h, items[1..], words + [v], u, c, t) else c == d && t == u
    case Adds(piece) =>
      words != [] &&
      exists d, v, u {:trigger Gives(k - 1, h, piece, s, d, v, u)} ::
        Gives(k - 1, h, piece, s, d, v, u) &&
        if d.OK? then Obeys(k - 1, h, items[1..], words[..|words| - 1] + [words[|words| - 1] + v], u, c, t) else c == d && t == u
  }

  /** A piece has the value v, if it ends well. */
  ghost predicate Gives(k: nat, h: Host, piece: Piece, s: State, c: Code, v: string, t: State)
    decreases k
  {
    k > 0 &&
    match piece
    case Literal(val) => c == OK && v == val && t == s
    case Variable(name) =>
      if name in s.top then c == OK && v == s.top[name] && t == s else v == "" && Fails(s, "No such variable '" + name + "'", c, t)
    case Bracket(script) => Yields(k - 1, h, script, "[...]", s, c, t) && v == if c.OK? then t.result else ""
  }

  /** A command of these words: the one of that name, or unknown with all the words, or none. */
  ghost predicate Does(k: nat, h: Host, words: seq<string>, s: State, c: Code, t: State)
    decreases k
  {
    k > 0 &&
    words != [] &&
    var commands := s.globals.commands;
    if words[0] in commands then Performs(k - 1, h, commands[words[0]], words, s, c, t)
    else if words[0] != "unknown" && "unknown" in commands then Performs(k - 1, h, commands["unknown"], ["unknown"] + words, s, c, t)
    else Fails(s, "No such command '" + words[0] + "'", c, t)
  }

  ghost predicate Performs(k: nat, h: Host, command: Command, words: seq<string>, s: State, c: Code, t: State)
    decreases k
  {
    k > 0 &&
    words != [] &&
    if |words| < command.minArgc then Fails(s, "Wrong number of args for " + words[0], c, t)
    else match command.func
         case Proc(alist, body) => Enters(k - 1, h, h.split(alist), body, words, s, c, t)
         case Builtin(which) => Acts(k - 1, h, which, words, s, c, t)
         case Other(name) =>
           var r := h.other(name, words, s.top, s.globals, s.result);
           c == r.code && t == State(s.callers, r.frame, r.globals, r.result)
  }

  /** A proc runs its body over a frame of its own, and ends well where that returns. */
  ghost predicate Enters(k: nat, h: Host, params: seq<string>, body: string, words: seq<string>, s: State, c: Code, t: State)
    decreases k
  {
    k > 0 &&
    words != [] &&
    if !Takes(params, |words| - 1) then Fails(s, "Proc '" + words[0] + "' called with wrong num args", c, t)
    else exists f, d, u {:trigger BindsAll(h, params, words[1..], f), Yields(k - 1, h, body, words[0], State(s.callers + [s.top], f, s.globals, s.result), d, u)} ::
           && BindsAll(h, params, words[1..], f)
           && Yields(k - 1, h, body, words[0], State(s.callers + [s.top], f, s.globals, s.result), d, u)
           && c == (if d.RETURN? then OK else d) && t == State(s.callers, s.top, u.globals, u.result)
  }

  ghost predicate Acts(k: nat, h: Host, which: Which, words: seq<string>, s: State, c: Code, t: State)
    decreases k
  {
    k > 0 &&
    words != [] &&
    match which
    case If => Chooses(k - 1, h, words, s, c, t)
    case And => Conjoins(k - 1, h, words[1..], 1, s, c, t)
    case Or => Disjoins(k - 1, h, words[1..], s, c, t)
    case While => |words| >= 3 && Repeats(k - 1, h, words[1], words[2], s, c, t)
    case ForEach => |words| >= 4 && Each(k - 1, h, words[1], h.split(words[2]), words[3], s, c, t)
    case EvalArgs => Yields(k - 1, h, Spaced(words[1..]), "eval", s, c, t)
    case Catch => |words| >= 2 && Catches(k - 1, h, words, s, c, t)
    case _ => ActsAlone(which, words, s, c, t)
  }

  /** The commands that evaluate nothing. */
  predicate ActsAlone(which: Which, words: seq<string>, s: State, c: Code, t: State) {
    match which
    case Break => c == BREAK && t == s
    case Continue => c == CONTINUE && t == s
    case Return => c == RETURN && t == s.(result := if |words| == 2 then words[1] else "")
    case DefineProc =>
      |words| >= 4 && c == OK &&
      t == s.(globals := Globals(s.globals.commands[words[1] := Command(0, Proc(words[2], words[3]))], s.globals.arrays))
    case Set =>
      |words| >= 2 &&
      if |words| == 2 then
        if words[1] in s.top then c == OK && t == s.(result := s.top[words[1]]) else c == ERR && t == s.(result := "no such var: " + words[1])
      else c == OK && t == s.(top := s.top[words[1] := words[2]], result := words[2])
    case _ => false
  }

  /** The branch that the condition's number chooses, if there is one. */
  ghost predicate Chooses(k: nat, h: Host, words: seq<string>, s: State, c: Code, t: State)
    decreases k
  {
    k > 0 &&
    |words| > 0 &&
    if |words| != 3 && |words| != 5 then Fails(s, "Wrong number of args for " + words[0], c, t)
    else exists d, u {:trigger Yields(k - 1, h, words[1], "cond of if", s, d, u)} ::
           Yields(k - 1, h, words[1], "cond of if", s, d, u) &&
           if !d.OK? then c == d && t == u
           else if h.atoi(u.result) != 0 then Yields(k - 1, h, words[2], "then of if", u, c, t)
           else if |words| == 5 then Yields(k - 1, h, words[4], "else of if", u, c, t)
           else c == OK && t == u
  }

  /** However the body ends, catch ends well, with the number of its code. */
  ghost predicate Catches(k: nat, h: Host, words: seq<string>, s: State, c: Code, t: State)
    decreases k
  {
    k > 0 &&
    |words| >= 2 && c == OK &&
    exists d, n, u {:trigger Yields(k - 1, h, words[1], "catch", s, d, u), Numbers(n, d)} ::
      && Yields(k - 1, h, words[1], "catch", s, d, u) && Numbers(n, d)
      && t == State(u.callers, if |words| == 3 then u.top[words[2] := u.result] else u.top, u.globals, h.show(n))
  }

  /** The first clause that is zero ends it with 0, and none with the last one's number n. */
  ghost predicate Conjoins(k: nat, h: Host, clauses: seq<string>, n: int, s: State, c: Code, t: State)
    decreases k
  {
    k > 0 &&
    if clauses == [] then c == OK && t == s.(result := h.show(n))
    else exists d, u {:trigger Yields(k - 1, h, clauses[0], "clause of and", s, d, u)} ::
           Yields(k - 1, h, clauses[0], "clause of and", s, d, u) &&
           if !d.OK? then c == d && t == u
           else if h.atoi(u.result) == 0 then c == OK && t == u.(result := h.show(0))
           else Conjoins(k - 1, h, clauses[1..], h.atoi(u.result), u, c, t)
  }

  /** The first clause that is not zero ends it with its number, and none with 0. */
  ghost predicate Disjoins(k: nat, h: Host, clauses: seq<string>, s: State, c: Code, t: State)
    decreases k
  {
    k > 0 &&
    if clauses == [] then c == OK && t == s.(result := h.show(0))
    else exists d, u {:trigger Yields(k - 1, h, clauses[0], "clause of or", s, d, u)} ::
           Yields(k - 1, h, clauses[0], "clause of or", s, d, u) &&
           if !d.OK? then c == d && t == u
           else if h.atoi(u.result) != 0 then c == OK && t == u.(result := h.show(h.atoi(u.result)))
           else Disjoins(k - 1, h, clauses[1..], u, c, t)
  }

  /** While the condition is not zero, the body, and again. */
  ghost predicate Repeats(k: nat, h: Host, cond: string, body: string, s: State, c: Code, t: State)
    decreases k
  {
    k > 0 &&
    exists d, u {:trigger Yields(k - 1, h, cond, "cond of while", s, d, u)} ::
      Yields(k - 1, h, cond, "cond of while", s, d, u) &&
      if !d.OK? then c == d && t == u
      else if h.atoi(u.result) == 0 then c == OK && t == u
      else Rounds(k - 1, h, cond, body, u, c, t)
  }

  /** The body, from a condition that is not zero; break ends the while well. */
  ghost predicate Rounds(k: nat, h: Host, cond: string, body: string, s: State, c: Code, t: State)
    decreases k
  {
    k > 0 &&
    exists e, v {:trigger Yields(k - 1, h, body, "body of while", s, e, v)} ::
      Yields(k - 1, h, body, "body of while", s, e, v) &&
      match e
      case OK => Repeats(k - 1, h, cond, body, v, c, t)
      case CONTINUE => Repeats(k - 1, h, cond, body, v, c, t)
      case BREAK => c == OK && t == v
      case ERR => c == ERR && t == v
      case RETURN => c == RETURN && t == v
  }

  /** The body for each item in turn, the variable set to it; break ends it well. */
  ghost predicate Each(k: nat, h: Host, name: string, items: seq<string>, body: string, s: State, c: Code, t: State)
    decreases k
  {
    k > 0 &&
    if items == [] then c == OK && t == s.(result := "")
    else exists e, v {:trigger Yields(k - 1, h, body, "body of foreach", s.(top := s.top[name := items[0]]), e, v)} ::
           Yields(k - 1, h, body, "body of foreach", s.(top := s.top[name := items[0]]), e, v) &&
           match e
           case OK => Each(k - 1, h, name, items[1..], body, v, c, t)
           case CONTINUE => Each(k - 1, h, name, items[1..], body, v, c, t)
           case BREAK => c == OK && t == v.(result := "")
           case ERR => c == ERR && t == v
           case RETURN => c == RETURN && t == v
  }

  // ----- What they lead to -----

  /** The text, from state s, ends with code c in state t. */
  ghost predicate Leads(h: Host, text: string, from: string, s: State, c: Code, t: State) {
    exists k: nat {:trigger Yields(k, h, text, from, s, c, t)} :: Yields(k, h, text, from, s, c, t)
  }
}
