/** The interpreter computes what the rules say, and nothing else. */
module InterpMeaning {
  import Tokens
  import opened Sequences
  import opened Interp
  import opened InterpProofs
  import opened InterpRules
  import opened InterpYields

  // ----- More depth changes nothing -----

  lemma {:induction false} LoopUp(fuel: nat, more: nat, h: Host, text: string, p: Tokens.Parser, argv: seq<string>, s: State)
    requires fuel <= more && Tokens.Valid(p, text) && (argv == [] ==> p.kind.Sep? || p.kind.Eol?)
    requires Loop(fuel, h, text, p, argv, s).Ends?
    ensures Loop(more, h, text, p, argv, s) == Loop(fuel, h, text, p, argv, s)
    decreases more - fuel
  {
    if fuel < more {
      LoopMore(fuel, h, text, p, argv, s);
      LoopUp(fuel + 1, more, h, text, p, argv, s);
    }
  }

  lemma {:induction false} InvokeUp(fuel: nat, more: nat, h: Host, argv: seq<string>, s: State)
    requires fuel <= more && argv != [] && Invoke(fuel, h, argv, s).Ends?
    ensures Invoke(more, h, argv, s) == Invoke(fuel, h, argv, s)
    decreases more - fuel
  {
    if fuel < more {
      InvokeMore(fuel, h, argv, s);
      InvokeUp(fuel + 1, more, h, argv, s);
    }
  }

  lemma {:induction false} AndUp(fuel: nat, more: nat, h: Host, clauses: seq<string>, n: int, s: State)
    requires fuel <= more && RunAnd(fuel, h, clauses, n, s).Ends?
    ensures RunAnd(more, h, clauses, n, s) == RunAnd(fuel, h, clauses, n, s)
    decreases more - fuel
  {
    if fuel < more {
      RunAndMore(fuel, h, clauses, n, s);
      AndUp(fuel + 1, more, h, clauses, n, s);
    }
  }

  lemma {:induction false} OrUp(fuel: nat, more: nat, h: Host, clauses: seq<string>, s: State)
    requires fuel <= more && RunOr(fuel, h, clauses, s).Ends?
    ensures RunOr(more, h, clauses, s) == RunOr(fuel, h, clauses, s)
    decreases more - fuel
  {
    if fuel < more {
      RunOrMore(fuel, h, clauses, s);
      OrUp(fuel + 1, more, h, clauses, s);
    }
  }

  lemma {:induction false} WhileUp(fuel: nat, more: nat, h: Host, cond: string, body: string, s: State)
    requires fuel <= more && RunWhile(fuel, h, cond, body, s).Ends?
    ensures RunWhile(more, h, cond, body, s) == RunWhile(fuel, h, cond, body, s)
    decreases more - fuel
  {
    if fuel < more {
      RunWhileMore(fuel, h, cond, body, s);
      WhileUp(fuel + 1, more, h, cond, body, s);
    }
  }

  lemma {:induction false} ForEachUp(fuel: nat, more: nat, h: Host, name: string, items: seq<string>, body: string, s: State)
    requires fuel <= more && RunForEach(fuel, h, name, items, body, s).Ends?
    ensures RunForEach(more, h, name, items, body, s) == RunForEach(fuel, h, name, items, body, s)
    decreases more - fuel
  {
    if fuel < more {
      RunForEachMore(fuel, h, name, items, body, s);
      ForEachUp(fuel + 1, more, h, name, items, body, s);
    }
  }

  // ----- What follows from the rules is computed -----

  function Max(a: nat, b: nat): nat { if a < b then b else a }

  lemma {:induction false} YieldsEval(k: nat, h: Host, text: string, from: string, s: State, c: Code, t: State) returns (fuel: nat)
    requires Yields(k, h, text, from, s, c, t)
    ensures Eval(fuel, h, text, from, s) == Ends(c, t)
    decreases k, 0
  {
    var begun := s.(result := "");
    var u :| Obeys(k - 1, h, Script(text), [], begun, c, u) && t == if c.ERR? then u.(result := u.result + "; in " + from) else u;
    var f := ObeysLoop(k - 1, h, text, Tokens.Init(text), [], begun, c, u);
    fuel := f + 1;
  }

  /** The items from p on, in the order that tokens come in. */
  lemma {:induction false} ObeysLoop(k: nat, h: Host, text: string, p: Tokens.Parser, argv: seq<string>, s: State, c: Code, t: State) returns (fuel: nat)
    requires Tokens.Valid(p, text) && (argv == [] ==> p.kind.Sep? || p.kind.Eol?)
    requires Obeys(k, h, ItemsFrom(text, p), argv, s, c, t)
    ensures Loop(fuel, h, text, p, argv, s) == Ends(c, t)
    decreases k, 3, p.len, Tokens.Rank(p.kind), 2
  {
    Proceeds(k, h, text, p, argv, s, c, t);
    var q := NextToken(text, p);
    fuel := ObeysLoopAt(k, h, text, p, q, argv, s, c, t);
  }

  lemma {:induction false} ObeysLoopAt(k: nat, h: Host, text: string, p: Tokens.Parser, q: Tokens.Parser, argv: seq<string>, s: State, c: Code, t: State)
    returns (fuel: nat)
    requires Tokens.Valid(p, text) && Tokens.Valid(q, text) && (argv == [] ==> p.kind.Sep? || p.kind.Eol?)
    requires q.kind.Eof? || q.len < p.len || (q.len == p.len && Tokens.Rank(q.kind) < Tokens.Rank(p.kind))
    requires Tokens.Token(p, text) == Tokens.Ok(q) && Obeys(k, h, ItemsAfter(text, p, q), argv, s, c, t)
    ensures Loop(fuel, h, text, p, argv, s) == Ends(c, t)
    decreases k, 3, p.len, Tokens.Rank(p.kind), 1
  {
    var f := ObeysToken(k, h, text, p, q, argv, s, c, t);
    LoopIs(f, h, text, p, q, argv, s);
    fuel := f + 1;
  }

  /** Items that are obeyed do not stop at a bracket that overruns. */
  lemma Proceeds(k: nat, h: Host, text: string, p: Tokens.Parser, argv: seq<string>, s: State, c: Code, t: State)
    requires Tokens.Valid(p, text) && Obeys(k, h, ItemsFrom(text, p), argv, s, c, t)
    ensures !Tokens.Overruns(p, text)
  {
  }

  lemma NextToken(text: string, p: Tokens.Parser) returns (q: Tokens.Parser)
    requires Tokens.Valid(p, text) && !Tokens.Overruns(p, text)
    ensures Tokens.Valid(q, text) && Tokens.Token(p, text) == Tokens.Ok(q) && ItemsFrom(text, p) == ItemsAfter(text, p, q)
    ensures q.kind.Eof? || q.len < p.len || (q.len == p.len && Tokens.Rank(q.kind) < Tokens.Rank(p.kind))
  {
    Tokens.TokenIsSound(p, text);
    q := Tokens.Token(p, text).parser;
    ItemsStep(text, p, q);
  }

  lemma LoopIs(fuel: nat, h: Host, text: string, p: Tokens.Parser, q: Tokens.Parser, argv: seq<string>, s: State)
    requires Tokens.Valid(p, text) && Tokens.Valid(q, text) && (argv == [] ==> p.kind.Sep? || p.kind.Eol?)
    requires Tokens.Token(p, text) == Tokens.Ok(q)
    ensures Loop(fuel + 1, h, text, p, argv, s) == OnToken(fuel, h, text, p, q, argv, s)
  {
  }

  lemma {:induction false} ObeysToken(k: nat, h: Host, text: string, p: Tokens.Parser, q: Tokens.Parser, argv: seq<string>, s: State, c: Code, t: State)
    returns (fuel: nat)
    requires Tokens.Valid(q, text) && (argv == [] ==> p.kind.Sep? || p.kind.Eol?)
    requires q.kind.Eof? || q.len < p.len || (q.len == p.len && Tokens.Rank(q.kind) < Tokens.Rank(p.kind))
    requires Obeys(k, h, ItemsAfter(text, p, q), argv, s, c, t)
    ensures OnToken(fuel, h, text, p, q, argv, s) == Ends(c, t)
    decreases k, 3, p.len, Tokens.Rank(p.kind), 0
  {
    match q.kind {
      case Eof => fuel := 1;
      case Sep =>
        var f := ObeysLoop(k, h, text, q, argv, s, c, t);
        fuel := f + 1;
      case Eol => fuel := ObeysEol(k, h, text, p, q, argv, s, c, t);
      case _ => fuel := ObeysPiece(k, h, text, p, q, argv, s, c, t);
    }
  }

  lemma {:induction false} ObeysEol(k: nat, h: Host, text: string, p: Tokens.Parser, q: Tokens.Parser, argv: seq<string>, s: State, c: Code, t: State)
    returns (fuel: nat)
    requires Tokens.Valid(q, text) && q.kind.Eol? && (argv == [] ==> p.kind.Sep? || p.kind.Eol?)
    requires Obeys(k, h, [EndOfCommand] + ItemsFrom(text, q), argv, s, c, t)
    ensures OnToken(fuel, h, text, p, q, argv, s) == Ends(c, t)
    decreases k, 2
  {
    var rest := ItemsFrom(text, q);
    assert ([EndOfCommand] + rest)[1..] == rest;
    if argv == [] {
      var f := ObeysLoop(k - 1, h, text, q, [], s, c, t);
      fuel := f + 1;
    } else {
      var d, u := EndRule(k, h, rest, argv, s, c, t);
      var f := DoesInvoke(k - 1, h, argv, s, d, u);
      var g: nat := 0;
      if d.OK? { g := ObeysLoop(k - 1, h, text, q, [], u, c, t); }
      fuel := EolJoin(f, g, h, text, p, q, argv, s, d, u, c, t);
    }
  }

  lemma EolJoin(f: nat, g: nat, h: Host, text: string, p: Tokens.Parser, q: Tokens.Parser, argv: seq<string>, s: State, d: Code, u: State,
                c: Code, t: State) returns (fuel: nat)
    requires Tokens.Valid(q, text) && q.kind.Eol? && argv != [] && Invoke(f, h, argv, s) == Ends(d, u)
    requires if d.OK? then Loop(g, h, text, q, [], u) == Ends(c, t) else c == d && t == u
    ensures OnToken(fuel, h, text, p, q, argv, s) == Ends(c, t)
  {
    fuel := Max(f, g) + 1;
    InvokeUp(f, fuel - 1, h, argv, s);
    if d.OK? { LoopUp(g, fuel - 1, h, text, q, [], u); }
    OnEol(fuel, h, text, p, q, argv, s, d, u);
  }

  lemma EndRule(k: nat, h: Host, rest: seq<Item>, argv: seq<string>, s: State, c: Code, t: State) returns (d: Code, u: State)
    requires argv != [] && Obeys(k, h, [EndOfCommand] + rest, argv, s, c, t)
    ensures k > 0 && Does(k - 1, h, argv, s, d, u) && if d.OK? then Obeys(k - 1, h, rest, [], u, c, t) else c == d && t == u
  {
    assert ([EndOfCommand] + rest)[1..] == rest;
    d, u :| Does(k - 1, h, argv, s, d, u) && if d.OK? then Obeys(k - 1, h, rest, [], u, c, t) else c == d && t == u;
  }

  lemma OnEol(fuel: nat, h: Host, text: string, p: Tokens.Parser, q: Tokens.Parser, argv: seq<string>, s: State, d: Code, u: State)
    requires Tokens.Valid(q, text) && q.kind.Eol? && argv != [] && fuel > 0 && Invoke(fuel - 1, h, argv, s) == Ends(d, u)
    ensures OnToken(fuel, h, text, p, q, argv, s) == if d.OK? then Loop(fuel - 1, h, text, q, [], u) else Ends(d, u)
  {
  }

  /** What the rule for a piece says, whether it begins a word or goes on with one. */
  lemma PieceRule(k: nat, h: Host, piece: Piece, p: Tokens.Parser, rest: seq<Item>, argv: seq<string>, s: State, c: Code, t: State)
    returns (d: Code, v: string, u: State)
    requires argv == [] ==> p.kind.Sep? || p.kind.Eol?
    requires Obeys(k, h, [if p.kind.Sep? || p.kind.Eol? then Begins(piece) else Adds(piece)] + rest, argv, s, c, t)
    ensures k > 0 && Gives(k - 1, h, piece, s, d, v, u)
    ensures if d.OK? then Obeys(k - 1, h, rest, Joined(argv, p, v), u, c, t) else c == d && t == u
  {
    assert ([if p.kind.Sep? || p.kind.Eol? then Begins(piece) else Adds(piece)] + rest)[1..] == rest;
    if p.kind.Sep? || p.kind.Eol? {
      d, v, u :| Gives(k - 1, h, piece, s, d, v, u) && if d.OK? then Obeys(k - 1, h, rest, argv + [v], u, c, t) else c == d && t == u;
    } else {
      d, v, u :| Gives(k - 1, h, piece, s, d, v, u) &&
        if d.OK? then Obeys(k - 1, h, rest, argv[..|argv| - 1] + [argv[|argv| - 1] + v], u, c, t) else c == d && t == u;
      assert argv[|argv| - 1 := argv[|argv| - 1] + v] == argv[..|argv| - 1] + [argv[|argv| - 1] + v];
    }
  }

  lemma {:induction false} ObeysPiece(k: nat, h: Host, text: string, p: Tokens.Parser, q: Tokens.Parser, argv: seq<string>, s: State, c: Code, t: State)
    returns (fuel: nat)
    requires Tokens.Valid(q, text) && (argv == [] ==> p.kind.Sep? || p.kind.Eol?) && !q.kind.Eof? && !q.kind.Sep? && !q.kind.Eol?
    requires var piece := PieceOf(text, q);
             Obeys(k, h, [if p.kind.Sep? || p.kind.Eol? then Begins(piece) else Adds(piece)] + ItemsFrom(text, q), argv, s, c, t)
    ensures OnToken(fuel, h, text, p, q, argv, s) == Ends(c, t)
    decreases k, 2
  {
    var piece := PieceOf(text, q);
    var d, v, u := PieceRule(k, h, piece, p, ItemsFrom(text, q), argv, s, c, t);
    var g: nat := 0;
    if d.OK? { g := ObeysLoop(k - 1, h, text, q, Joined(argv, p, v), u, c, t); }
    if q.kind.Cmd? {
      var f := GivesEval(k - 1, h, piece.script, s, d, v, u);
      fuel := BracketJoin(f, g, h, text, p, q, piece.script, argv, s, d, u, c, t);
    } else {
      fuel := g + 1;
      GivesAtOnce(k - 1, h, piece, s, d, v, u);
      if q.kind.Var? { OnVariable(fuel, h, text, p, q, argv, s, piece.name); } else { OnLiteral(fuel, h, text, p, q, argv, s, piece.val); }
    }
  }

  lemma BracketJoin(f: nat, g: nat, h: Host, text: string, p: Tokens.Parser, q: Tokens.Parser, script: string, argv: seq<string>, s: State,
                    d: Code, u: State, c: Code, t: State) returns (fuel: nat)
    requires Tokens.Valid(q, text) && q.kind.Cmd? && (argv == [] ==> p.kind.Sep? || p.kind.Eol?) && script == Part(text, q.start, q.end + 1)
    requires Eval(f, h, script, "[...]", s) == Ends(d, u)
    requires if d.OK? then Loop(g, h, text, q, Joined(argv, p, u.result), u) == Ends(c, t) else c == d && t == u
    ensures OnToken(fuel, h, text, p, q, argv, s) == Ends(c, t)
  {
    fuel := Max(f, g) + 1;
    AnyDepth(f, fuel - 1, h, script, "[...]", s);
    if d.OK? { LoopUp(g, fuel - 1, h, text, q, Joined(argv, p, u.result), u); }
    OnBracket(fuel, h, text, p, q, argv, s, script);
  }

  lemma GivesAtOnce(k: nat, h: Host, piece: Piece, s: State, d: Code, v: string, u: State)
    requires Gives(k, h, piece, s, d, v, u) && !piece.Bracket?
    ensures piece.Literal? ==> d == OK && v == piece.val && u == s
    ensures piece.Variable? && piece.name in s.top ==> d == OK && v == s.top[piece.name] && u == s
    ensures piece.Variable? && piece.name !in s.top ==> Ends(d, u) == Failed(s, "No such variable '" + piece.name + "'")
  {
    if piece.Variable? { CutIsClipped("No such variable '" + piece.name + "'"); }
  }

  lemma {:induction false} GivesEval(k: nat, h: Host, script: string, s: State, d: Code, v: string, u: State) returns (fuel: nat)
    requires Gives(k, h, Bracket(script), s, d, v, u)
    ensures Eval(fuel, h, script, "[...]", s) == Ends(d, u) && (d.OK? ==> v == u.result)
    decreases k
  {
    fuel := YieldsEval(k - 1, h, script, "[...]", s, d, u);
  }

  lemma {:induction false} DoesInvoke(k: nat, h: Host, argv: seq<string>, s: State, c: Code, t: State) returns (fuel: nat)
    requires Does(k, h, argv, s, c, t)
    ensures argv != [] && Invoke(fuel, h, argv, s) == Ends(c, t)
    decreases k
  {
    var f: nat := 0;
    if argv[0] in s.globals.commands {
      f := PerformsCall(k - 1, h, s.globals.commands[argv[0]], argv, s, c, t);
    } else if argv[0] != "unknown" && "unknown" in s.globals.commands {
      f := PerformsCall(k - 1, h, s.globals.commands["unknown"], ["unknown"] + argv, s, c, t);
    } else {
      CutIsClipped("No such command '" + argv[0] + "'");
    }
    fuel := f + 1;
  }

  lemma {:induction false} PerformsCall(k: nat, h: Host, command: Command, argv: seq<string>, s: State, c: Code, t: State) returns (fuel: nat)
    requires Performs(k, h, command, argv, s, c, t)
    ensures argv != [] && Call(fuel, h, command, argv, s) == Ends(c, t)
    decreases k
  {
    var f: nat := 0;
    if |argv| < command.minArgc {
      CutIsClipped("Wrong number of args for " + argv[0]);
    } else {
      match command.func {
        case Proc(alist, body) => f := EntersCallProc(k - 1, h, alist, body, argv, s, c, t);
        case Other(name) =>
        case Builtin(which) => f := ActsRun(k - 1, h, which, argv, s, c, t);
      }
    }
    fuel := f + 1;
  }

  lemma {:induction false} EntersCallProc(k: nat, h: Host, alist: string, body: string, argv: seq<string>, s: State, c: Code, t: State) returns (fuel: nat)
    requires Enters(k, h, h.split(alist), body, argv, s, c, t)
    ensures argv != [] && CallProc(fuel, h, alist, body, argv, s) == Ends(c, t)
    decreases k
  {
    var params := h.split(alist);
    if !Takes(params, |argv| - 1) {
      ArgumentsBind(h, params, argv, map[]);
      CutIsClipped("Proc '" + argv[0] + "' called with wrong num args");
      fuel := 1;
    } else {
      var f, d, u := EntersRule(k, h, params, body, argv, s, c, t);
      ArgumentsBind(h, params, argv, f);
      var e := YieldsEval(k - 1, h, body, argv[0], Push(s, f), d, u);
      fuel := e + 1;
      CallProcIs(e, h, alist, body, argv, s, f, d, u);
    }
  }

  lemma CallProcIs(fuel: nat, h: Host, alist: string, body: string, argv: seq<string>, s: State, f: Frame, d: Code, u: State)
    requires argv != [] && Arguments(h, h.split(alist), argv) == Some(f) && Eval(fuel, h, body, argv[0], Push(s, f)) == Ends(d, u)
    ensures CallProc(fuel + 1, h, alist, body, argv, s) == Ends(if d.RETURN? then OK else d, State(s.callers, s.top, u.globals, u.result))
  {
    assert KeepsCallers(Push(s, f), Eval(fuel, h, body, argv[0], Push(s, f)));
    assert Drop(u) == State(s.callers, s.top, u.globals, u.result);
  }

  lemma EntersRule(k: nat, h: Host, params: seq<string>, body: string, argv: seq<string>, s: State, c: Code, t: State)
    returns (f: Frame, d: Code, u: State)
    requires Enters(k, h, params, body, argv, s, c, t) && argv != [] && Takes(params, |argv| - 1)
    ensures k > 0 && BindsAll(h, params, argv[1..], f) && Yields(k - 1, h, body, argv[0], Push(s, f), d, u)
    ensures c == (if d.RETURN? then OK else d) && t == State(s.callers, s.top, u.globals, u.result)
  {
    f, d, u :| && BindsAll(h, params, argv[1..], f)
               && Yields(k - 1, h, body, argv[0], State(s.callers + [s.top], f, s.globals, s.result), d, u)
               && c == (if d.RETURN? then OK else d) && t == State(s.callers, s.top, u.globals, u.result);
    assert Push(s, f) == State(s.callers + [s.top], f, s.globals, s.result);
  }

  lemma {:induction false} ActsRun(k: nat, h: Host, w: Which, argv: seq<string>, s: State, c: Code, t: State) returns (fuel: nat)
    requires Acts(k, h, w, argv, s, c, t)
    ensures argv != [] && |argv| >= Needs(w) && Run(fuel, h, w, argv, s) == Ends(c, t)
    decreases k, 1
  {
    match w {
      case If => fuel := IfRun(k, h, argv, s, c, t);
      case EvalArgs => fuel := ArgsRun(k, h, argv, s, c, t);
      case Catch => fuel := CatchRun(k, h, argv, s, c, t);
      case And => fuel := AndRun(k, h, argv, s, c, t);
      case Or => fuel := OrRun(k, h, argv, s, c, t);
      case While => fuel := WhileRun(k, h, argv, s, c, t);
      case ForEach => fuel := ForEachRun(k, h, argv, s, c, t);
      case _ => fuel := AloneRun(k, h, w, argv, s, c, t);
    }
  }

  lemma {:induction false} IfRun(k: nat, h: Host, argv: seq<string>, s: State, c: Code, t: State) returns (fuel: nat)
    requires Acts(k, h, If, argv, s, c, t)
    ensures argv != [] && Run(fuel, h, If, argv, s) == Ends(c, t)
    decreases k, 0
  {
    fuel := ChoosesIf(k - 1, h, argv, s, c, t);
    fuel := fuel + 1;
  }

  lemma {:induction false} CatchRun(k: nat, h: Host, argv: seq<string>, s: State, c: Code, t: State) returns (fuel: nat)
    requires Acts(k, h, Catch, argv, s, c, t)
    ensures |argv| >= 2 && Run(fuel, h, Catch, argv, s) == Ends(c, t)
    decreases k, 0
  {
    fuel := CatchesEval(k - 1, h, argv, s, c, t);
    fuel := fuel + 1;
  }

  lemma {:induction false} ArgsRun(k: nat, h: Host, argv: seq<string>, s: State, c: Code, t: State) returns (fuel: nat)
    requires Acts(k, h, EvalArgs, argv, s, c, t)
    ensures argv != [] && Run(fuel, h, EvalArgs, argv, s) == Ends(c, t)
    decreases k, 0
  {
    JoinIsSpaced(argv, 1);
    var f := YieldsEval(k - 1, h, Spaced(argv[1..]), "eval", s, c, t);
    EvalArgsIs(f, h, argv, Spaced(argv[1..]), s);
    fuel := f + 1;
  }

  lemma EvalArgsIs(fuel: nat, h: Host, argv: seq<string>, text: string, s: State)
    requires argv != [] && text == JoinFrom(argv, 1)
    ensures Run(fuel + 1, h, EvalArgs, argv, s) == Eval(fuel, h, text, "eval", s)
  {
  }

  lemma {:induction false} AndRun(k: nat, h: Host, argv: seq<string>, s: State, c: Code, t: State) returns (fuel: nat)
    requires Acts(k, h, And, argv, s, c, t)
    ensures argv != [] && Run(fuel, h, And, argv, s) == Ends(c, t)
    decreases k, 0
  {
    var f := ConjoinsAnd(k - 1, h, argv[1..], 1, s, c, t);
    fuel := f + 1;
  }

  lemma {:induction false} OrRun(k: nat, h: Host, argv: seq<string>, s: State, c: Code, t: State) returns (fuel: nat)
    requires Acts(k, h, Or, argv, s, c, t)
    ensures argv != [] && Run(fuel, h, Or, argv, s) == Ends(c, t)
    decreases k, 0
  {
    var f := DisjoinsOr(k - 1, h, argv[1..], s, c, t);
    fuel := f + 1;
  }

  lemma {:induction false} WhileRun(k: nat, h: Host, argv: seq<string>, s: State, c: Code, t: State) returns (fuel: nat)
    requires Acts(k, h, While, argv, s, c, t)
    ensures |argv| >= 3 && Run(fuel, h, While, argv, s) == Ends(c, t)
    decreases k, 0
  {
    var f := RepeatsWhile(k - 1, h, argv[1], argv[2], s, c, t);
    fuel := f + 1;
  }

  lemma {:induction false} ForEachRun(k: nat, h: Host, argv: seq<string>, s: State, c: Code, t: State) returns (fuel: nat)
    requires Acts(k, h, ForEach, argv, s, c, t)
    ensures |argv| >= 4 && Run(fuel, h, ForEach, argv, s) == Ends(c, t)
    decreases k, 0
  {
    var f := EachForEach(k - 1, h, argv[1], h.split(argv[2]), argv[3], s, c, t);
    fuel := f + 1;
  }

  lemma AloneRun(k: nat, h: Host, w: Which, argv: seq<string>, s: State, c: Code, t: State) returns (fuel: nat)
    requires Acts(k, h, w, argv, s, c, t) && (w.Break? || w.Continue? || w.Return? || w.DefineProc? || w.Set?)
    ensures argv != [] && |argv| >= Needs(w) && Run(fuel, h, w, argv, s) == Ends(c, t)
  {
    AloneIs(h, w, argv, s, c, t);
    fuel := 1;
  }

  lemma AloneIs(h: Host, w: Which, argv: seq<string>, s: State, c: Code, t: State)
    requires argv != [] && ActsAlone(w, argv, s, c, t)
    ensures |argv| >= Needs(w) && Run(1, h, w, argv, s) == Ends(c, t)
  {
  }

  lemma {:induction false} CatchesEval(k: nat, h: Host, argv: seq<string>, s: State, c: Code, t: State) returns (fuel: nat)
    requires Catches(k, h, argv, s, c, t)
    ensures |argv| >= 2 && Run(fuel + 1, h, Catch, argv, s) == Ends(c, t)
    decreases k
  {
    var d, n, u :| && Yields(k - 1, h, argv[1], "catch", s, d, u) && Numbers(n, d)
                   && t == State(u.callers, if |argv| == 3 then u.top[argv[2] := u.result] else u.top, u.globals, h.show(n));
    NumberNumbers(d, n);
    fuel := YieldsEval(k - 1, h, argv[1], "catch", s, d, u);
  }

  lemma {:induction false} ChoosesIf(k: nat, h: Host, argv: seq<string>, s: State, c: Code, t: State) returns (fuel: nat)
    requires Chooses(k, h, argv, s, c, t)
    ensures argv != [] && Run(fuel + 1, h, If, argv, s) == Ends(c, t)
    decreases k
  {
    if |argv| != 3 && |argv| != 5 {
      CutIsClipped("Wrong number of args for " + argv[0]);
      fuel := 0;
    } else {
      var d, u, branch := IfRule(k, h, argv, s, c, t);
      var f := YieldsEval(k - 1, h, argv[1], "cond of if", s, d, u);
      var g: nat := 0;
      if branch != "" { g := YieldsEval(k - 1, h, if h.atoi(u.result) != 0 then argv[2] else argv[4], branch, u, c, t); }
      fuel := IfJoin(f, g, h, argv, s, d, u, branch, c, t);
    }
  }

  lemma IfJoin(f: nat, g: nat, h: Host, argv: seq<string>, s: State, d: Code, u: State, branch: string, c: Code, t: State) returns (fuel: nat)
    requires (|argv| == 3 || |argv| == 5) && Eval(f, h, argv[1], "cond of if", s) == Ends(d, u)
    requires branch == if !d.OK? then "" else if h.atoi(u.result) != 0 then "then of if" else if |argv| == 5 then "else of if" else ""
    requires if branch == "" then c == d && t == u
             else Eval(g, h, if h.atoi(u.result) != 0 then argv[2] else argv[4], branch, u) == Ends(c, t)
    ensures Run(fuel + 1, h, If, argv, s) == Ends(c, t)
  {
    fuel := Max(f, g) + 1;
    AnyDepth(f, fuel - 1, h, argv[1], "cond of if", s);
    if branch != "" { AnyDepth(g, fuel - 1, h, if h.atoi(u.result) != 0 then argv[2] else argv[4], branch, u); }
    IfIs(fuel - 1, h, argv, s, d, u);
  }

  lemma IfIs(fuel: nat, h: Host, argv: seq<string>, s: State, d: Code, u: State)
    requires (|argv| == 3 || |argv| == 5) && Eval(fuel, h, argv[1], "cond of if", s) == Ends(d, u)
    ensures Run(fuel + 2, h, If, argv, s) ==
            if d.OK? && h.atoi(u.result) != 0 then Eval(fuel, h, argv[2], "then of if", u)
            else if d.OK? && |argv| == 5 then Eval(fuel, h, argv[4], "else of if", u)
            else Ends(d, u)
  {
  }

  /** The branch an if takes, named as its errors name it; none, where the condition ends it. */
  lemma IfRule(k: nat, h: Host, argv: seq<string>, s: State, c: Code, t: State) returns (d: Code, u: State, branch: string)
    requires Chooses(k, h, argv, s, c, t) && (|argv| == 3 || |argv| == 5)
    ensures k > 0 && Yields(k - 1, h, argv[1], "cond of if", s, d, u)
    ensures branch == if !d.OK? then "" else if h.atoi(u.result) != 0 then "then of if" else if |argv| == 5 then "else of if" else ""
    ensures if branch == "" then c == d && t == u
            else Yields(k - 1, h, if h.atoi(u.result) != 0 then argv[2] else argv[4], branch, u, c, t)
  {
    d, u :| Yields(k - 1, h, argv[1], "cond of if", s, d, u) &&
      if !d.OK? then c == d && t == u
      else if h.atoi(u.result) != 0 then Yields(k - 1, h, argv[2], "then of if", u, c, t)
      else if |argv| == 5 then Yields(k - 1, h, argv[4], "else of if", u, c, t)
      else c == OK && t == u;
    branch := if !d.OK? then "" else if h.atoi(u.result) != 0 then "then of if" else if |argv| == 5 then "else of if" else "";
  }

  lemma {:induction false} ConjoinsAnd(k: nat, h: Host, clauses: seq<string>, n: int, s: State, c: Code, t: State) returns (fuel: nat)
    requires Conjoins(k, h, clauses, n, s, c, t)
    ensures RunAnd(fuel, h, clauses, n, s) == Ends(c, t)
    decreases k
  {
    if clauses == [] {
      fuel := 1;
    } else {
      var d, u := AndRule(k, h, clauses, n, s, c, t);
      var f := YieldsEval(k - 1, h, clauses[0], "clause of and", s, d, u);
      var g: nat := 0;
      if d.OK? && h.atoi(u.result) != 0 { g := ConjoinsAnd(k - 1, h, clauses[1..], h.atoi(u.result), u, c, t); }
      fuel := AndJoin(f, g, h, clauses, n, s, d, u, c, t);
    }
  }

  lemma AndJoin(f: nat, g: nat, h: Host, clauses: seq<string>, n: int, s: State, d: Code, u: State, c: Code, t: State) returns (fuel: nat)
    requires clauses != [] && Eval(f, h, clauses[0], "clause of and", s) == Ends(d, u)
    requires if d.OK? && h.atoi(u.result) != 0 then RunAnd(g, h, clauses[1..], h.atoi(u.result), u) == Ends(c, t)
             else c == d && t == if d.OK? then u.(result := h.show(0)) else u
    ensures RunAnd(fuel, h, clauses, n, s) == Ends(c, t)
  {
    fuel := Max(f, g) + 1;
    AnyDepth(f, fuel - 1, h, clauses[0], "clause of and", s);
    if d.OK? && h.atoi(u.result) != 0 { AndUp(g, fuel - 1, h, clauses[1..], h.atoi(u.result), u); }
    AndIs(fuel - 1, h, clauses, n, s, d, u);
  }

  lemma AndRule(k: nat, h: Host, clauses: seq<string>, n: int, s: State, c: Code, t: State) returns (d: Code, u: State)
    requires Conjoins(k, h, clauses, n, s, c, t) && clauses != []
    ensures k > 0 && Yields(k - 1, h, clauses[0], "clause of and", s, d, u)
    ensures if d.OK? && h.atoi(u.result) != 0 then Conjoins(k - 1, h, clauses[1..], h.atoi(u.result), u, c, t)
            else c == d && t == if d.OK? then u.(result := h.show(0)) else u
  {
    d, u :| Yields(k - 1, h, clauses[0], "clause of and", s, d, u) &&
      if !d.OK? then c == d && t == u
      else if h.atoi(u.result) == 0 then c == OK && t == u.(result := h.show(0))
      else Conjoins(k - 1, h, clauses[1..], h.atoi(u.result), u, c, t);
  }

  lemma AndIs(fuel: nat, h: Host, clauses: seq<string>, n: int, s: State, d: Code, u: State)
    requires clauses != [] && Eval(fuel, h, clauses[0], "clause of and", s) == Ends(d, u)
    ensures RunAnd(fuel + 1, h, clauses, n, s) ==
            if !d.OK? then Ends(d, u) else if h.atoi(u.result) == 0 then Ends(OK, u.(result := h.show(0)))
            else RunAnd(fuel, h, clauses[1..], h.atoi(u.result), u)
  {
  }

  lemma {:induction false} DisjoinsOr(k: nat, h: Host, clauses: seq<string>, s: State, c: Code, t: State) returns (fuel: nat)
    requires Disjoins(k, h, clauses, s, c, t)
    ensures RunOr(fuel, h, clauses, s) == Ends(c, t)
    decreases k
  {
    if clauses == [] {
      fuel := 1;
    } else {
      var d, u := OrRule(k, h, clauses, s, c, t);
      var f := YieldsEval(k - 1, h, clauses[0], "clause of or", s, d, u);
      var g: nat := 0;
      if d.OK? && h.atoi(u.result) == 0 { g := DisjoinsOr(k - 1, h, clauses[1..], u, c, t); }
      fuel := OrJoin(f, g, h, clauses, s, d, u, c, t);
    }
  }

  lemma OrJoin(f: nat, g: nat, h: Host, clauses: seq<string>, s: State, d: Code, u: State, c: Code, t: State) returns (fuel: nat)
    requires clauses != [] && Eval(f, h, clauses[0], "clause of or", s) == Ends(d, u)
    requires if d.OK? && h.atoi(u.result) == 0 then RunOr(g, h, clauses[1..], u) == Ends(c, t)
             else c == d && t == if d.OK? then u.(result := h.show(h.atoi(u.result))) else u
    ensures RunOr(fuel, h, clauses, s) == Ends(c, t)
  {
    fuel := Max(f, g) + 1;
    AnyDepth(f, fuel - 1, h, clauses[0], "clause of or", s);
    if d.OK? && h.atoi(u.result) == 0 { OrUp(g, fuel - 1, h, clauses[1..], u); }
    OrIs(fuel - 1, h, clauses, s, d, u);
  }

  lemma OrRule(k: nat, h: Host, clauses: seq<string>, s: State, c: Code, t: State) returns (d: Code, u: State)
    requires Disjoins(k, h, clauses, s, c, t) && clauses != []
    ensures k > 0 && Yields(k - 1, h, clauses[0], "clause of or", s, d, u)
    ensures if d.OK? && h.atoi(u.result) == 0 then Disjoins(k - 1, h, clauses[1..], u, c, t)
            else c == d && t == if d.OK? then u.(result := h.show(h.atoi(u.result))) else u
  {
    d, u :| Yields(k - 1, h, clauses[0], "clause of or", s, d, u) &&
      if !d.OK? then c == d && t == u
      else if h.atoi(u.result) != 0 then c == OK && t == u.(result := h.show(h.atoi(u.result)))
      else Disjoins(k - 1, h, clauses[1..], u, c, t);
  }

  lemma OrIs(fuel: nat, h: Host, clauses: seq<string>, s: State, d: Code, u: State)
    requires clauses != [] && Eval(fuel, h, clauses[0], "clause of or", s) == Ends(d, u)
    ensures RunOr(fuel + 1, h, clauses, s) ==
            if !d.OK? then Ends(d, u) else if h.atoi(u.result) != 0 then Ends(OK, u.(result := h.show(h.atoi(u.result))))
            else RunOr(fuel, h, clauses[1..], u)
  {
  }

  /** One test of a while, and whether it runs the body. */
  lemma RepeatsRule(k: nat, h: Host, cond: string, body: string, s: State, c: Code, t: State) returns (d: Code, u: State, runs: bool)
    requires Repeats(k, h, cond, body, s, c, t)
    ensures k > 0 && Yields(k - 1, h, cond, "cond of while", s, d, u) && runs == (d.OK? && h.atoi(u.result) != 0)
    ensures if runs then Rounds(k - 1, h, cond, body, u, c, t) else c == d && t == u
  {
    d, u :| Yields(k - 1, h, cond, "cond of while", s, d, u) &&
      if !d.OK? then c == d && t == u
      else if h.atoi(u.result) == 0 then c == OK && t == u
      else Rounds(k - 1, h, cond, body, u, c, t);
    runs := d.OK? && h.atoi(u.result) != 0;
  }

  lemma RoundsRule(k: nat, h: Host, cond: string, body: string, s: State, c: Code, t: State) returns (e: Code, v: State)
    requires Rounds(k, h, cond, body, s, c, t)
    ensures k > 0 && Yields(k - 1, h, body, "body of while", s, e, v)
    ensures if e.OK? || e.CONTINUE? then Repeats(k - 1, h, cond, body, v, c, t) else c == (if e.BREAK? then OK else e) && t == v
  {
    e, v :| Yields(k - 1, h, body, "body of while", s, e, v) &&
      match e
      case OK => Repeats(k - 1, h, cond, body, v, c, t)
      case CONTINUE => Repeats(k - 1, h, cond, body, v, c, t)
      case BREAK => c == OK && t == v
      case ERR => c == ERR && t == v
      case RETURN => c == RETURN && t == v;
  }

  lemma {:induction false} RepeatsWhile(k: nat, h: Host, cond: string, body: string, s: State, c: Code, t: State) returns (fuel: nat)
    requires Repeats(k, h, cond, body, s, c, t)
    ensures RunWhile(fuel, h, cond, body, s) == Ends(c, t)
    decreases k
  {
    var d, u, runs := RepeatsRule(k, h, cond, body, s, c, t);
    fuel := TestsWhile(k - 1, h, cond, body, s, d, u, runs, c, t);
  }

  lemma {:induction false} TestsWhile(k: nat, h: Host, cond: string, body: string, s: State, d: Code, u: State, runs: bool, c: Code, t: State)
    returns (fuel: nat)
    requires Yields(k, h, cond, "cond of while", s, d, u) && runs == (d.OK? && h.atoi(u.result) != 0)
    requires if runs then Rounds(k, h, cond, body, u, c, t) else c == d && t == u
    ensures RunWhile(fuel, h, cond, body, s) == Ends(c, t)
    decreases k, 1
  {
    var f := YieldsEval(k, h, cond, "cond of while", s, d, u);
    if runs {
      fuel := RoundsWhile(k, h, cond, body, f, s, u, c, t);
    } else {
      WhileIs(f, h, cond, body, s, d, u);
      fuel := f + 1;
    }
  }

  lemma {:induction false} RoundsWhile(k: nat, h: Host, cond: string, body: string, f: nat, s: State, u: State, c: Code, t: State)
    returns (fuel: nat)
    requires Eval(f, h, cond, "cond of while", s) == Ends(OK, u) && h.atoi(u.result) != 0 && Rounds(k, h, cond, body, u, c, t)
    ensures RunWhile(fuel, h, cond, body, s) == Ends(c, t)
    decreases k, 0
  {
    var e, v := RoundsRule(k, h, cond, body, u, c, t);
    var g := YieldsEval(k - 1, h, body, "body of while", u, e, v);
    var i: nat := 0;
    if e.OK? || e.CONTINUE? { i := RepeatsWhile(k - 1, h, cond, body, v, c, t); }
    fuel := WhileJoin(f, g, i, h, cond, body, s, u, e, v, c, t);
  }

  lemma WhileJoin(f: nat, g: nat, i: nat, h: Host, cond: string, body: string, s: State, u: State, e: Code, v: State, c: Code, t: State)
    returns (fuel: nat)
    requires Eval(f, h, cond, "cond of while", s) == Ends(OK, u) && h.atoi(u.result) != 0
    requires Eval(g, h, body, "body of while", u) == Ends(e, v)
    requires if e.OK? || e.CONTINUE? then RunWhile(i, h, cond, body, v) == Ends(c, t) else c == (if e.BREAK? then OK else e) && t == v
    ensures RunWhile(fuel, h, cond, body, s) == Ends(c, t)
  {
    fuel := Max(f, Max(g, i)) + 1;
    AnyDepth(f, fuel - 1, h, cond, "cond of while", s);
    AnyDepth(g, fuel - 1, h, body, "body of while", u);
    if e.OK? || e.CONTINUE? { WhileUp(i, fuel - 1, h, cond, body, v); }
    WhileRuns(fuel - 1, h, cond, body, s, u, e, v);
  }

  lemma WhileIs(fuel: nat, h: Host, cond: string, body: string, s: State, d: Code, u: State)
    requires Eval(fuel, h, cond, "cond of while", s) == Ends(d, u)
    ensures !d.OK? || h.atoi(u.result) == 0 ==> RunWhile(fuel + 1, h, cond, body, s) == Ends(d, u)
  {
  }

  lemma WhileRuns(fuel: nat, h: Host, cond: string, body: string, s: State, u: State, e: Code, v: State)
    requires Eval(fuel, h, cond, "cond of while", s) == Ends(OK, u) && h.atoi(u.result) != 0
    requires Eval(fuel, h, body, "body of while", u) == Ends(e, v)
    ensures RunWhile(fuel + 1, h, cond, body, s) ==
            if e.OK? || e.CONTINUE? then RunWhile(fuel, h, cond, body, v) else Ends(if e.BREAK? then OK else e, v)
  {
  }

  lemma {:induction false} EachForEach(k: nat, h: Host, name: string, items: seq<string>, body: string, s: State, c: Code, t: State) returns (fuel: nat)
    requires Each(k, h, name, items, body, s, c, t)
    ensures RunForEach(fuel, h, name, items, body, s) == Ends(c, t)
    decreases k
  {
    if items == [] {
      fuel := 1;
    } else {
      var began := s.(top := s.top[name := items[0]]);
      var e, v := EachRule(k, h, name, items, body, s, c, t);
      var f := YieldsEval(k - 1, h, body, "body of foreach", began, e, v);
      var g: nat := 0;
      if e.OK? || e.CONTINUE? { g := EachForEach(k - 1, h, name, items[1..], body, v, c, t); }
      fuel := ForEachJoin(f, g, h, name, items, body, s, e, v, c, t);
    }
  }

  lemma ForEachJoin(f: nat, g: nat, h: Host, name: string, items: seq<string>, body: string, s: State, e: Code, v: State, c: Code, t: State)
    returns (fuel: nat)
    requires items != [] && Eval(f, h, body, "body of foreach", s.(top := s.top[name := items[0]])) == Ends(e, v)
    requires if e.OK? || e.CONTINUE? then RunForEach(g, h, name, items[1..], body, v) == Ends(c, t)
             else if e.BREAK? then c == OK && t == v.(result := "") else c == e && t == v
    ensures RunForEach(fuel, h, name, items, body, s) == Ends(c, t)
  {
    fuel := Max(f, g) + 1;
    AnyDepth(f, fuel - 1, h, body, "body of foreach", s.(top := s.top[name := items[0]]));
    if e.OK? || e.CONTINUE? { ForEachUp(g, fuel - 1, h, name, items[1..], body, v); }
    ForEachIs(fuel - 1, h, name, items, body, s, e, v);
  }

  /** One item of a foreach. */
  lemma EachRule(k: nat, h: Host, name: string, items: seq<string>, body: string, s: State, c: Code, t: State) returns (e: Code, v: State)
    requires Each(k, h, name, items, body, s, c, t) && items != []
    ensures k > 0 && Yields(k - 1, h, body, "body of foreach", s.(top := s.top[name := items[0]]), e, v)
    ensures if e.OK? || e.CONTINUE? then Each(k - 1, h, name, items[1..], body, v, c, t)
            else if e.BREAK? then c == OK && t == v.(result := "") else c == e && t == v
  {
    e, v :| Yields(k - 1, h, body, "body of foreach", s.(top := s.top[name := items[0]]), e, v) &&
      match e
      case OK => Each(k - 1, h, name, items[1..], body, v, c, t)
      case CONTINUE => Each(k - 1, h, name, items[1..], body, v, c, t)
      case BREAK => c == OK && t == v.(result := "")
      case ERR => c == ERR && t == v
      case RETURN => c == RETURN && t == v;
  }

  lemma ForEachIs(fuel: nat, h: Host, name: string, items: seq<string>, body: string, s: State, e: Code, v: State)
    requires items != [] && Eval(fuel, h, body, "body of foreach", s.(top := s.top[name := items[0]])) == Ends(e, v)
    ensures RunForEach(fuel + 1, h, name, items, body, s) ==
            if e.OK? || e.CONTINUE? then RunForEach(fuel, h, name, items[1..], body, v)
            else if e.BREAK? then Ends(OK, v.(result := "")) else Ends(e, v)
  {
  }

  // ----- Both -----

  /** An evaluation ends within some depth, with code c in state t, if and only if the rules say so. */
  lemma EvalMeans(h: Host, text: string, from: string, s: State, c: Code, t: State)
    ensures (exists fuel: nat :: Eval(fuel, h, text, from, s) == Ends(c, t)) <==> Leads(h, text, from, s, c, t)
  {
    if fuel: nat :| Eval(fuel, h, text, from, s) == Ends(c, t) {
      EvalYields(fuel, 3 * fuel, h, text, from, s);
    }
    if Leads(h, text, from, s, c, t) {
      var k: nat :| Yields(k, h, text, from, s, c, t);
      var fuel := YieldsEval(k, h, text, from, s, c, t);
    }
  }

  /** So the rules lead to one end at most. */
  lemma OneEnd(h: Host, text: string, from: string, s: State, c: Code, t: State, d: Code, u: State)
    requires Leads(h, text, from, s, c, t) && Leads(h, text, from, s, d, u)
    ensures c == d && t == u
  {
    EvalMeans(h, text, from, s, c, t);
    EvalMeans(h, text, from, s, d, u);
    var f: nat :| Eval(f, h, text, from, s) == Ends(c, t);
    var g: nat :| Eval(g, h, text, from, s) == Ends(d, u);
    AnyDepth(f, Max(f, g), h, text, from, s);
    AnyDepth(g, Max(f, g), h, text, from, s);
  }
}
