/** What the interpreter computes follows from the rules. */
module InterpYields {
  import Tokens
  import opened Sequences
  import opened Interp
  import opened InterpProofs
  import opened InterpRules

  // ----- Small meanings, as computed -----

  lemma CutIsClipped(message: string)
    ensures Cut(message) == Clipped(message)
  {
  }

  lemma {:induction false} BoundBinds(params: seq<string>, args: seq<string>)
    requires |params| == |args|
    ensures Binds(params, args, Bound(params, args))
    decreases |params|
  {
    if params != [] {
      var n := |params| - 1;
      BoundBinds(params[..n], args[..n]);
      BindsOneMore(params[..n], args[..n], Bound(params[..n], args[..n]), params[n], args[n], params, args);
    }
  }

  lemma BindsOneMore(params: seq<string>, args: seq<string>, f: Frame, name: string, arg: string, more: seq<string>, values: seq<string>)
    requires Binds(params, args, f) && more == params + [name] && values == args + [arg]
    ensures Binds(more, values, f[name := arg])
  {
    var g := f[name := arg];
    forall k | 0 <= k < |more| ensures BindsAt(more, values, g, k) {
      if k < |params| {
        assert BindsAt(params, args, f, k);
        assert more[k + 1..] == params[k + 1..] + [name];
        assert more[k + 1..][|params| - k - 1] == name;
      }
    }
  }

  lemma {:induction false} LastOf(params: seq<string>, name: string) returns (k: nat)
    requires name in params
    ensures k < |params| && params[k] == name && name !in params[k + 1..]
    decreases |params|
  {
    if name in params[1..] {
      k := LastOf(params[1..], name);
      assert params[1..][k + 1..] == params[k + 2..];
      k := k + 1;
    } else {
      k := 0;
    }
  }

  lemma BindsIsBound(params: seq<string>, args: seq<string>, f: Frame)
    requires Binds(params, args, f)
    ensures f == Bound(params, args)
  {
    BoundBinds(params, args);
    var g := Bound(params, args);
    forall name | name in f ensures name in g && g[name] == f[name] {
      var k := LastOf(params, name);
      assert BindsAt(params, args, f, k) && BindsAt(params, args, g, k);
    }
  }

  /** The frame a proc begins with is the one that Arguments computes, if there is one. */
  lemma ArgumentsBind(h: Host, params: seq<string>, argv: seq<string>, f: Frame)
    requires argv != []
    ensures Arguments(h, params, argv).Some? <==> Takes(params, |argv| - 1)
    ensures Takes(params, |argv| - 1) ==> (BindsAll(h, params, argv[1..], f) <==> Arguments(h, params, argv) == Some(f))
  {
    var c, args := |params|, argv[1..];
    if Takes(params, |argv| - 1) {
      if c > 0 && params[c - 1] == "args" {
        var n := c - 1;
        assert args[..n] == argv[1..c] && args[n..] == argv[c..];
        BoundBinds(params[..n], args[..n]);
        if BindsAll(h, params, args, f) {
          var g :| Binds(params[..n], args[..n], g) && f == g["args" := h.quote(args[n..])];
          BindsIsBound(params[..n], args[..n], g);
        }
      } else {
        BoundBinds(params, args);
        if BindsAll(h, params, args, f) { BindsIsBound(params, args, f); }
      }
    }
  }

  lemma {:induction false} JoinIsSpaced(argv: seq<string>, j: nat)
    requires j <= |argv|
    ensures JoinFrom(argv, j) == Spaced(argv[j..])
    decreases |argv| - j
  {
    var args := argv[j..];
    var pieces := seq(|args|, i requires 0 <= i < |args| => " " + args[i]);
    if j < |argv| {
      JoinIsSpaced(argv, j + 1);
      assert argv[j + 1..] == args[1..];
      assert pieces[1..] == seq(|args[1..]|, i requires 0 <= i < |args[1..]| => " " + args[1..][i]);
    }
  }

  lemma NumberNumbers(c: Code, n: int)
    ensures Numbers(n, c) <==> n == Number(c)
  {
  }

  // ----- What is computed follows from the rules -----

  lemma {:induction false} EvalYields(fuel: nat, k: nat, h: Host, text: string, from: string, s: State)
    requires 3 * fuel <= k
    requires Eval(fuel, h, text, from, s).Ends?
    ensures var r := Eval(fuel, h, text, from, s); Yields(k, h, text, from, s, r.code, r.state)
    decreases fuel
  {
    var begun := s.(result := "");
    LoopObeys(fuel - 1, k - 1, h, text, Tokens.Init(text), [], begun);
    var r := Loop(fuel - 1, h, text, Tokens.Init(text), [], begun);
    assert Obeys(k - 1, h, Script(text), [], begun, r.code, r.state);
  }

  /** The items of the text from the parser on. */
  function ItemsFrom(text: string, p: Tokens.Parser): seq<Item>
    requires Tokens.Valid(p, text)
  {
    Items(text, Tokens.Tokens(p, text), p.kind.Sep? || p.kind.Eol?)
  }

  lemma {:induction false} LoopObeys(fuel: nat, k: nat, h: Host, text: string, p: Tokens.Parser, argv: seq<string>, s: State)
    requires 3 * fuel <= k
    requires Tokens.Valid(p, text) && (argv == [] ==> p.kind.Sep? || p.kind.Eol?)
    requires Loop(fuel, h, text, p, argv, s).Ends?
    ensures var r := Loop(fuel, h, text, p, argv, s); Obeys(k, h, ItemsFrom(text, p), argv, s, r.code, r.state)
    decreases fuel
  {
    TokenStays(p, text);
    Tokens.TokenOverrunsExactly(p, text);
    LoopObeysToken(fuel, k, h, text, p, Tokens.Token(p, text).parser, argv, s, Loop(fuel, h, text, p, argv, s));
  }

  lemma {:induction false} LoopObeysToken(fuel: nat, k: nat, h: Host, text: string, p: Tokens.Parser, q: Tokens.Parser, argv: seq<string>, s: State, r: Outcome)
    requires 3 * fuel <= k
    requires Tokens.Valid(p, text) && Tokens.Valid(q, text) && (argv == [] ==> p.kind.Sep? || p.kind.Eol?) && fuel > 0
    requires Tokens.Token(p, text) == Tokens.Ok(q) && !Tokens.Overruns(p, text) && r == OnToken(fuel - 1, h, text, p, q, argv, s) && r.Ends?
    ensures Obeys(k, h, ItemsFrom(text, p), argv, s, r.code, r.state)
    decreases fuel, 0
  {
    ItemsStep(text, p, q);
    OnTokenObeys(fuel - 1, k, h, text, p, q, argv, s, r);
  }

  /** The items from p on, where the next token is q. */
  function ItemsAfter(text: string, p: Tokens.Parser, q: Tokens.Parser): seq<Item>
    requires Tokens.Valid(q, text)
  {
    match q.kind
    case Eof => [EndOfText]
    case Sep => ItemsFrom(text, q)
    case Eol => [EndOfCommand] + ItemsFrom(text, q)
    case _ => [if p.kind.Sep? || p.kind.Eol? then Begins(PieceOf(text, q)) else Adds(PieceOf(text, q))] + ItemsFrom(text, q)
  }

  lemma ItemsStep(text: string, p: Tokens.Parser, q: Tokens.Parser)
    requires Tokens.Valid(p, text) && Tokens.Valid(q, text) && Tokens.Token(p, text) == Tokens.Ok(q) && !Tokens.Overruns(p, text)
    ensures ItemsFrom(text, p) == ItemsAfter(text, p, q)
  {
    if !q.kind.Eof? { assert ([q] + Tokens.Tokens(q, text))[1..] == Tokens.Tokens(q, text); }
  }

  lemma {:induction false} OnTokenObeys(fuel: nat, k: nat, h: Host, text: string, p: Tokens.Parser, q: Tokens.Parser, argv: seq<string>, s: State, r: Outcome)
    requires 3 * fuel <= k
    requires Tokens.Valid(q, text) && (argv == [] ==> p.kind.Sep? || p.kind.Eol?)
    requires r == OnToken(fuel, h, text, p, q, argv, s) && r.Ends?
    ensures Obeys(k, h, ItemsAfter(text, p, q), argv, s, r.code, r.state)
    decreases fuel, 2
  {
    match q.kind
    case Eof =>
    case Sep => LoopObeys(fuel - 1, k, h, text, q, argv, s);
    case Eol =>
      if argv == [] {
        LoopObeys(fuel - 1, k - 1, h, text, q, [], s);
        NoCommand(k - 1, h, ItemsFrom(text, q), s, r.code, r.state);
      } else {
        CommandObeys(fuel, k, h, text, q, argv, s, Invoke(fuel - 1, h, argv, s), r);
      }
    case _ => PieceObeys(fuel, k, h, text, p, q, argv, s, r);
  }

  lemma {:induction false} CommandObeys(fuel: nat, k: nat, h: Host, text: string, q: Tokens.Parser, argv: seq<string>, s: State, i: Outcome, r: Outcome)
    requires 3 * fuel <= k
    requires Tokens.Valid(q, text) && q.kind.Eol? && fuel > 0 && r.Ends? && argv != [] && i == Invoke(fuel - 1, h, argv, s)
    requires r == if i.Ends? && i.code.OK? then Loop(fuel - 1, h, text, q, [], i.state) else i
    ensures Obeys(k, h, [EndOfCommand] + ItemsFrom(text, q), argv, s, r.code, r.state)
    decreases fuel, 0
  {
    InvokeDoes(fuel - 1, k - 1, h, argv, s);
    if i.code.OK? { LoopObeys(fuel - 1, k - 1, h, text, q, [], i.state); }
    EndsCommand(k - 1, h, ItemsFrom(text, q), argv, s, i.code, i.state, r.code, r.state);
  }

  lemma NoCommand(k: nat, h: Host, rest: seq<Item>, s: State, c: Code, t: State)
    requires Obeys(k, h, rest, [], s, c, t)
    ensures Obeys(k + 1, h, [EndOfCommand] + rest, [], s, c, t)
  {
    assert ([EndOfCommand] + rest)[1..] == rest;
  }

  lemma EndsCommand(k: nat, h: Host, rest: seq<Item>, argv: seq<string>, s: State, d: Code, u: State, c: Code, t: State)
    requires argv != [] && Does(k, h, argv, s, d, u) && if d.OK? then Obeys(k, h, rest, [], u, c, t) else c == d && t == u
    ensures Obeys(k + 1, h, [EndOfCommand] + rest, argv, s, c, t)
  {
    assert ([EndOfCommand] + rest)[1..] == rest;
  }

  lemma GivesOn(k: nat, h: Host, piece: Piece, apart: bool, rest: seq<Item>, p: Tokens.Parser, argv: seq<string>, s: State,
                d: Code, v: string, u: State, c: Code, t: State)
    requires apart == (p.kind.Sep? || p.kind.Eol?) && (argv == [] ==> apart) && Gives(k, h, piece, s, d, v, u)
    requires if d.OK? then Obeys(k, h, rest, Joined(argv, p, v), u, c, t) else c == d && t == u
    ensures Obeys(k + 1, h, [if apart then Begins(piece) else Adds(piece)] + rest, argv, s, c, t)
  {
    assert ([if apart then Begins(piece) else Adds(piece)] + rest)[1..] == rest;
    if !apart { assert argv[|argv| - 1 := argv[|argv| - 1] + v] == argv[..|argv| - 1] + [argv[|argv| - 1] + v]; }
  }

  /** A token that is part of a word. */
  lemma {:induction false} PieceObeys(fuel: nat, k: nat, h: Host, text: string, p: Tokens.Parser, q: Tokens.Parser, argv: seq<string>, s: State, r: Outcome)
    requires 3 * fuel <= k
    requires Tokens.Valid(q, text) && (argv == [] ==> p.kind.Sep? || p.kind.Eol?) && !q.kind.Eof? && !q.kind.Sep? && !q.kind.Eol?
    requires fuel > 0 && r == OnToken(fuel, h, text, p, q, argv, s) && r.Ends?
    ensures var piece := PieceOf(text, q);
            Obeys(k, h, [if p.kind.Sep? || p.kind.Eol? then Begins(piece) else Adds(piece)] + ItemsFrom(text, q), argv, s, r.code, r.state)
    decreases fuel, 1
  {
    var piece := PieceOf(text, q);
    match piece
    case Variable(name) =>
      OnVariable(fuel, h, text, p, q, argv, s, name);
      VariableObeys(fuel, k, h, text, p, q, name, argv, s, r);
    case Bracket(script) =>
      OnBracket(fuel, h, text, p, q, argv, s, script);
      BracketObeys(fuel, k, h, text, p, q, script, argv, s, r);
    case Literal(val) =>
      OnLiteral(fuel, h, text, p, q, argv, s, val);
      LiteralObeys(fuel, k, h, text, p, q, val, argv, s, r);
  }

  lemma OnVariable(fuel: nat, h: Host, text: string, p: Tokens.Parser, q: Tokens.Parser, argv: seq<string>, s: State, name: string)
    requires Tokens.Valid(q, text) && (argv == [] ==> p.kind.Sep? || p.kind.Eol?) && q.kind.Var? && fuel > 0
    requires name == Part(text, q.start, q.end + 1)
    ensures OnToken(fuel, h, text, p, q, argv, s) ==
            if name in s.top then Loop(fuel - 1, h, text, q, Joined(argv, p, s.top[name]), s) else Failed(s, "No such variable '" + name + "'")
  {
  }

  lemma OnBracket(fuel: nat, h: Host, text: string, p: Tokens.Parser, q: Tokens.Parser, argv: seq<string>, s: State, script: string)
    requires Tokens.Valid(q, text) && (argv == [] ==> p.kind.Sep? || p.kind.Eol?) && q.kind.Cmd? && fuel > 0
    requires script == Part(text, q.start, q.end + 1)
    ensures var e := Eval(fuel - 1, h, script, "[...]", s);
            OnToken(fuel, h, text, p, q, argv, s) ==
            if e.Ends? && e.code.OK? then Loop(fuel - 1, h, text, q, Joined(argv, p, e.state.result), e.state) else e
  {
  }

  lemma OnLiteral(fuel: nat, h: Host, text: string, p: Tokens.Parser, q: Tokens.Parser, argv: seq<string>, s: State, val: string)
    requires Tokens.Valid(q, text) && (argv == [] ==> p.kind.Sep? || p.kind.Eol?) && (q.kind.Esc? || q.kind.Str?) && fuel > 0
    requires val == Part(text, q.start, q.end + 1)
    ensures OnToken(fuel, h, text, p, q, argv, s) == Loop(fuel - 1, h, text, q, Joined(argv, p, val), s)
  {
  }

  lemma {:induction false} LiteralObeys(fuel: nat, k: nat, h: Host, text: string, p: Tokens.Parser, q: Tokens.Parser, val: string,
                                        argv: seq<string>, s: State, r: Outcome)
    requires 3 * fuel <= k
    requires Tokens.Valid(q, text) && (argv == [] ==> p.kind.Sep? || p.kind.Eol?) && fuel > 0
    requires r == Loop(fuel - 1, h, text, q, Joined(argv, p, val), s) && r.Ends?
    ensures var apart := p.kind.Sep? || p.kind.Eol?;
            Obeys(k, h, [if apart then Begins(Literal(val)) else Adds(Literal(val))] + ItemsFrom(text, q), argv, s, r.code, r.state)
    decreases fuel, 0
  {
    LoopObeys(fuel - 1, k - 1, h, text, q, Joined(argv, p, val), s);
    GivesOn(k - 1, h, Literal(val), p.kind.Sep? || p.kind.Eol?, ItemsFrom(text, q), p, argv, s, OK, val, s, r.code, r.state);
  }

  lemma {:induction false} VariableObeys(fuel: nat, k: nat, h: Host, text: string, p: Tokens.Parser, q: Tokens.Parser, name: string,
                                         argv: seq<string>, s: State, r: Outcome)
    requires 3 * fuel <= k
    requires Tokens.Valid(q, text) && (argv == [] ==> p.kind.Sep? || p.kind.Eol?) && fuel > 0
    requires r == if name in s.top then Loop(fuel - 1, h, text, q, Joined(argv, p, s.top[name]), s) else Failed(s, "No such variable '" + name + "'")
    requires r.Ends?
    ensures var apart := p.kind.Sep? || p.kind.Eol?;
            Obeys(k, h, [if apart then Begins(Variable(name)) else Adds(Variable(name))] + ItemsFrom(text, q), argv, s, r.code, r.state)
    decreases fuel, 0
  {
    var apart := p.kind.Sep? || p.kind.Eol?;
    if name in s.top {
      LoopObeys(fuel - 1, k - 1, h, text, q, Joined(argv, p, s.top[name]), s);
      GivesOn(k - 1, h, Variable(name), apart, ItemsFrom(text, q), p, argv, s, OK, s.top[name], s, r.code, r.state);
    } else {
      CutIsClipped("No such variable '" + name + "'");
      GivesOn(k - 1, h, Variable(name), apart, ItemsFrom(text, q), p, argv, s, ERR, "", r.state, r.code, r.state);
    }
  }

  lemma {:induction false} BracketObeys(fuel: nat, k: nat, h: Host, text: string, p: Tokens.Parser, q: Tokens.Parser, script: string,
                                        argv: seq<string>, s: State, r: Outcome)
    requires 3 * fuel <= k
    requires Tokens.Valid(q, text) && (argv == [] ==> p.kind.Sep? || p.kind.Eol?) && fuel > 0
    requires var e := Eval(fuel - 1, h, script, "[...]", s);
             r == if e.Ends? && e.code.OK? then Loop(fuel - 1, h, text, q, Joined(argv, p, e.state.result), e.state) else e
    requires r.Ends?
    ensures var apart := p.kind.Sep? || p.kind.Eol?;
            Obeys(k, h, [if apart then Begins(Bracket(script)) else Adds(Bracket(script))] + ItemsFrom(text, q), argv, s, r.code, r.state)
    decreases fuel, 0
  {
    var e := Eval(fuel - 1, h, script, "[...]", s);
    EvalYields(fuel - 1, k - 2, h, script, "[...]", s);
    var v := if e.code.OK? then e.state.result else "";
    if e.code.OK? { LoopObeys(fuel - 1, k - 1, h, text, q, Joined(argv, p, v), e.state); }
    GivesOn(k - 1, h, Bracket(script), p.kind.Sep? || p.kind.Eol?, ItemsFrom(text, q), p, argv, s, e.code, v, e.state, r.code, r.state);
  }

  lemma {:induction false} InvokeDoes(fuel: nat, k: nat, h: Host, argv: seq<string>, s: State)
    requires 3 * fuel <= k
    requires argv != [] && Invoke(fuel, h, argv, s).Ends?
    ensures var r := Invoke(fuel, h, argv, s); Does(k, h, argv, s, r.code, r.state)
    decreases fuel
  {
    if argv[0] in s.globals.commands {
      CallPerforms(fuel - 1, k - 1, h, s.globals.commands[argv[0]], argv, s);
    } else if argv[0] != "unknown" && "unknown" in s.globals.commands {
      CallPerforms(fuel - 1, k - 1, h, s.globals.commands["unknown"], ["unknown"] + argv, s);
    } else {
      CutIsClipped("No such command '" + argv[0] + "'");
    }
  }

  lemma {:induction false} CallPerforms(fuel: nat, k: nat, h: Host, command: Command, argv: seq<string>, s: State)
    requires 3 * fuel <= k
    requires argv != [] && Call(fuel, h, command, argv, s).Ends?
    ensures var r := Call(fuel, h, command, argv, s); Performs(k, h, command, argv, s, r.code, r.state)
    decreases fuel
  {
    if |argv| < command.minArgc {
      CutIsClipped("Wrong number of args for " + argv[0]);
    } else {
      match command.func
      case Proc(alist, body) => CallProcEnters(fuel - 1, k - 1, h, alist, body, argv, s);
      case Other(name) =>
      case Builtin(which) => RunActs(fuel - 1, k - 1, h, which, argv, s);
    }
  }

  lemma {:induction false} CallProcEnters(fuel: nat, k: nat, h: Host, alist: string, body: string, argv: seq<string>, s: State)
    requires 3 * fuel <= k
    requires argv != [] && CallProc(fuel, h, alist, body, argv, s).Ends?
    ensures var r := CallProc(fuel, h, alist, body, argv, s); Enters(k, h, h.split(alist), body, argv, s, r.code, r.state)
    decreases fuel
  {
    var params, f := h.split(alist), Arguments(h, h.split(alist), argv);
    if f.None? {
      ArgumentsBind(h, params, argv, map[]);
      CutIsClipped("Proc '" + argv[0] + "' called with wrong num args");
    } else {
      ArgumentsBind(h, params, argv, f.value);
      EvalYields(fuel - 1, k - 1, h, body, argv[0], Push(s, f.value));
      var r := Eval(fuel - 1, h, body, argv[0], Push(s, f.value));
      EntersBy(k - 1, h, params, body, argv, s, f.value, r.code, r.state);
    }
  }

  lemma EntersBy(k: nat, h: Host, params: seq<string>, body: string, argv: seq<string>, s: State, f: Frame, d: Code, u: State)
    requires argv != [] && Takes(params, |argv| - 1) && BindsAll(h, params, argv[1..], f) && Yields(k, h, body, argv[0], Push(s, f), d, u)
    requires u.callers == s.callers + [s.top]
    ensures Enters(k + 1, h, params, body, argv, s, if d.RETURN? then OK else d, Drop(u))
  {
    assert Push(s, f) == State(s.callers + [s.top], f, s.globals, s.result);
    assert Drop(u) == State(s.callers, s.top, u.globals, u.result);
  }

  lemma {:induction false} RunActs(fuel: nat, k: nat, h: Host, w: Which, argv: seq<string>, s: State)
    requires 3 * fuel <= k
    requires argv != [] && |argv| >= Needs(w) && Run(fuel, h, w, argv, s).Ends?
    ensures var r := Run(fuel, h, w, argv, s); Acts(k, h, w, argv, s, r.code, r.state)
    decreases fuel
  {
    match w
    case If => IfChooses(fuel - 1, k - 1, h, argv, s, Run(fuel, h, w, argv, s));
    case And => AndConjoins(fuel - 1, k - 1, h, argv[1..], 1, s);
    case Or => OrDisjoins(fuel - 1, k - 1, h, argv[1..], s);
    case While => WhileRepeats(fuel - 1, k - 1, h, argv[1], argv[2], s);
    case ForEach => ForEachEach(fuel - 1, k - 1, h, argv[1], h.split(argv[2]), argv[3], s);
    case EvalArgs =>
      JoinIsSpaced(argv, 1);
      EvalYields(fuel - 1, k - 1, h, JoinFrom(argv, 1), "eval", s);
    case Catch => EvalCatches(fuel - 1, k - 1, h, argv, s);
    case _ => RunAlone(fuel, h, w, argv, s);
  }

  lemma RunAlone(fuel: nat, h: Host, w: Which, argv: seq<string>, s: State)
    requires argv != [] && |argv| >= Needs(w) && (w.Break? || w.Continue? || w.Return? || w.DefineProc? || w.Set?)
    requires fuel > 0
    ensures var r := Run(fuel, h, w, argv, s); r.Ends? && ActsAlone(w, argv, s, r.code, r.state)
  {
  }

  lemma {:induction false} EvalCatches(fuel: nat, k: nat, h: Host, argv: seq<string>, s: State)
    requires 3 * fuel < k
    requires |argv| >= 2 && Eval(fuel, h, argv[1], "catch", s).Ends?
    ensures var r := Run(fuel + 1, h, Catch, argv, s); r.Ends? && Catches(k, h, argv, s, r.code, r.state)
    decreases fuel + 1, 0
  {
    EvalYields(fuel, k - 1, h, argv[1], "catch", s);
    var r := Eval(fuel, h, argv[1], "catch", s);
    NumberNumbers(r.code, Number(r.code));
  }

  lemma {:induction false} IfChooses(fuel: nat, k: nat, h: Host, argv: seq<string>, s: State, r: Outcome)
    requires 3 * fuel <= k && k > 0
    requires argv != [] && r.Ends?
    requires r == if |argv| != 3 && |argv| != 5 then Arity(s, argv[0]) else RunIf(fuel, h, argv, s)
    ensures Chooses(k, h, argv, s, r.code, r.state)
    decreases fuel
  {
    if |argv| != 3 && |argv| != 5 {
      CutIsClipped("Wrong number of args for " + argv[0]);
    } else {
      EvalYields(fuel - 1, k - 1, h, argv[1], "cond of if", s);
      var d := Eval(fuel - 1, h, argv[1], "cond of if", s);
      if d.code.OK? && h.atoi(d.state.result) != 0 {
        EvalYields(fuel - 1, k - 1, h, argv[2], "then of if", d.state);
      } else if d.code.OK? && |argv| == 5 {
        EvalYields(fuel - 1, k - 1, h, argv[4], "else of if", d.state);
      }
    }
  }

  lemma {:induction false} AndConjoins(fuel: nat, k: nat, h: Host, clauses: seq<string>, n: int, s: State)
    requires 3 * fuel <= k
    requires RunAnd(fuel, h, clauses, n, s).Ends?
    ensures var r := RunAnd(fuel, h, clauses, n, s); Conjoins(k, h, clauses, n, s, r.code, r.state)
    decreases fuel
  {
    if clauses != [] {
      EvalYields(fuel - 1, k - 1, h, clauses[0], "clause of and", s);
      var r := Eval(fuel - 1, h, clauses[0], "clause of and", s);
      if r.code.OK? && h.atoi(r.state.result) != 0 { AndConjoins(fuel - 1, k - 1, h, clauses[1..], h.atoi(r.state.result), r.state); }
    }
  }

  lemma {:induction false} OrDisjoins(fuel: nat, k: nat, h: Host, clauses: seq<string>, s: State)
    requires 3 * fuel <= k
    requires RunOr(fuel, h, clauses, s).Ends?
    ensures var r := RunOr(fuel, h, clauses, s); Disjoins(k, h, clauses, s, r.code, r.state)
    decreases fuel
  {
    if clauses != [] {
      EvalYields(fuel - 1, k - 1, h, clauses[0], "clause of or", s);
      var r := Eval(fuel - 1, h, clauses[0], "clause of or", s);
      if r.code.OK? && h.atoi(r.state.result) == 0 { OrDisjoins(fuel - 1, k - 1, h, clauses[1..], r.state); }
    }
  }

  lemma {:induction false} WhileRepeats(fuel: nat, k: nat, h: Host, cond: string, body: string, s: State)
    requires 3 * fuel <= k
    requires RunWhile(fuel, h, cond, body, s).Ends?
    ensures var r := RunWhile(fuel, h, cond, body, s); Repeats(k, h, cond, body, s, r.code, r.state)
    decreases fuel
  {
    EvalYields(fuel - 1, k - 1, h, cond, "cond of while", s);
    var r := Eval(fuel - 1, h, cond, "cond of while", s);
    if r.code.OK? && h.atoi(r.state.result) != 0 {
      WhileRounds(fuel, k - 1, h, cond, body, r.state, RunWhile(fuel, h, cond, body, s));
    }
  }

  lemma {:induction false} WhileRounds(fuel: nat, k: nat, h: Host, cond: string, body: string, s: State, r: Outcome)
    requires 3 * fuel <= k + 1
    requires fuel > 0 && r.Ends?
    requires var b := Eval(fuel - 1, h, body, "body of while", s);
             r == if !b.Ends? then b
                  else if b.code.OK? || b.code.CONTINUE? then RunWhile(fuel - 1, h, cond, body, b.state)
                  else if b.code.BREAK? then Ends(OK, b.state)
                  else b
    ensures Rounds(k, h, cond, body, s, r.code, r.state)
    decreases fuel, 0
  {
    EvalYields(fuel - 1, k - 1, h, body, "body of while", s);
    var b := Eval(fuel - 1, h, body, "body of while", s);
    if b.code.OK? || b.code.CONTINUE? { WhileRepeats(fuel - 1, k - 1, h, cond, body, b.state); }
  }

  lemma {:induction false} ForEachEach(fuel: nat, k: nat, h: Host, name: string, items: seq<string>, body: string, s: State)
    requires 3 * fuel <= k
    requires RunForEach(fuel, h, name, items, body, s).Ends?
    ensures var r := RunForEach(fuel, h, name, items, body, s); Each(k, h, name, items, body, s, r.code, r.state)
    decreases fuel
  {
    if items != [] {
      var began := s.(top := s.top[name := items[0]]);
      EvalYields(fuel - 1, k - 1, h, body, "body of foreach", began);
      var b := Eval(fuel - 1, h, body, "body of foreach", began);
      if b.code.OK? || b.code.CONTINUE? { ForEachEach(fuel - 1, k - 1, h, name, items[1..], body, b.state); }
    }
  }
}
