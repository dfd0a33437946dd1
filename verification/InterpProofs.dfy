/** What an evaluation can see of its callers: nothing. */
module InterpProofs {
  import Tokens
  import opened Interp
  import opened Sequences

  // ----- The same, under other callers -----

  /** The state with other frames below its current one. */
  function Under(s: State, callers: seq<Frame>): State { s.(callers := callers) }

  function UnderAll(r: Outcome, callers: seq<Frame>): Outcome { if r.Ends? then Ends(r.code, Under(r.state, callers)) else r }

  lemma {:induction false} EvalLocal(fuel: nat, h: Host, text: string, from: string, s: State, cs: seq<Frame>)
    ensures Eval(fuel, h, text, from, Under(s, cs)) == UnderAll(Eval(fuel, h, text, from, s), cs)
    decreases fuel
  {
    if fuel > 0 {
      LoopLocal(fuel - 1, h, text, Tokens.Init(text), [], s.(result := ""), cs);
    }
  }

  lemma {:induction false} LoopLocal(fuel: nat, h: Host, text: string, p: Tokens.Parser, argv: seq<string>, s: State, cs: seq<Frame>)
    requires Tokens.Valid(p, text) && (argv == [] ==> p.kind.Sep? || p.kind.Eol?)
    ensures Loop(fuel, h, text, p, argv, Under(s, cs)) == UnderAll(Loop(fuel, h, text, p, argv, s), cs)
    decreases fuel
  {
    if fuel > 0 && Tokens.Token(p, text).Ok? {
      TokenStays(p, text);
      OnTokenLocal(fuel - 1, h, text, p, Tokens.Token(p, text).parser, argv, s, cs);
    }
  }

  lemma {:induction false} OnTokenLocal(fuel: nat, h: Host, text: string, p: Tokens.Parser, q: Tokens.Parser, argv: seq<string>,
                                        s: State, cs: seq<Frame>)
    requires Tokens.Valid(q, text) && (argv == [] ==> p.kind.Sep? || p.kind.Eol?)
    ensures OnToken(fuel, h, text, p, q, argv, Under(s, cs)) == UnderAll(OnToken(fuel, h, text, p, q, argv, s), cs)
    decreases fuel
  {
    if fuel > 0 {
      var t := Part(text, q.start, q.end + 1);
      match q.kind
      case Eof =>
      case Sep => LoopLocal(fuel - 1, h, text, q, argv, s, cs);
      case Eol =>
        if argv == [] {
          LoopLocal(fuel - 1, h, text, q, [], s, cs);
        } else {
          InvokeLocal(fuel - 1, h, argv, s, cs);
          var r := Invoke(fuel - 1, h, argv, s);
          if r.Ends? && r.code.OK? { LoopLocal(fuel - 1, h, text, q, [], r.state, cs); }
        }
      case Var => if t in s.top { LoopLocal(fuel - 1, h, text, q, Joined(argv, p, s.top[t]), s, cs); }
      case Cmd =>
        EvalLocal(fuel - 1, h, t, "[...]", s, cs);
        var r := Eval(fuel - 1, h, t, "[...]", s);
        if r.Ends? && r.code.OK? { LoopLocal(fuel - 1, h, text, q, Joined(argv, p, r.state.result), r.state, cs); }
      case _ => LoopLocal(fuel - 1, h, text, q, Joined(argv, p, t), s, cs);
    }
  }

  lemma {:induction false} InvokeLocal(fuel: nat, h: Host, argv: seq<string>, s: State, cs: seq<Frame>)
    requires argv != []
    ensures Invoke(fuel, h, argv, Under(s, cs)) == UnderAll(Invoke(fuel, h, argv, s), cs)
    decreases fuel
  {
    if fuel > 0 {
      if argv[0] in s.globals.commands {
        CallLocal(fuel - 1, h, s.globals.commands[argv[0]], argv, s, cs);
      } else if argv[0] != "unknown" && "unknown" in s.globals.commands {
        CallLocal(fuel - 1, h, s.globals.commands["unknown"], ["unknown"] + argv, s, cs);
      }
    }
  }

  lemma {:induction false} CallLocal(fuel: nat, h: Host, c: Command, argv: seq<string>, s: State, cs: seq<Frame>)
    requires argv != []
    ensures Call(fuel, h, c, argv, Under(s, cs)) == UnderAll(Call(fuel, h, c, argv, s), cs)
    decreases fuel
  {
    if fuel > 0 && |argv| >= c.minArgc {
      match c.func
      case Proc(alist, body) => CallProcLocal(fuel - 1, h, alist, body, argv, s, cs);
      case Other(name) =>
      case Builtin(which) => if |argv| >= Needs(which) { RunLocal(fuel - 1, h, which, argv, s, cs); }
    }
  }

  lemma {:induction false} RunLocal(fuel: nat, h: Host, w: Which, argv: seq<string>, s: State, cs: seq<Frame>)
    requires argv != [] && |argv| >= Needs(w)
    ensures Run(fuel, h, w, argv, Under(s, cs)) == UnderAll(Run(fuel, h, w, argv, s), cs)
    decreases fuel
  {
    if fuel > 0 {
      match w
      case If => if |argv| == 3 || |argv| == 5 { RunIfLocal(fuel - 1, h, argv, s, cs); }
      case And => RunAndLocal(fuel - 1, h, argv[1..], 1, s, cs);
      case Or => RunOrLocal(fuel - 1, h, argv[1..], s, cs);
      case While => RunWhileLocal(fuel - 1, h, argv[1], argv[2], s, cs);
      case Break =>
      case Continue =>
      case DefineProc =>
      case Return =>
      case ForEach => RunForEachLocal(fuel - 1, h, argv[1], h.split(argv[2]), argv[3], s, cs);
      case EvalArgs => EvalLocal(fuel - 1, h, JoinFrom(argv, 1), "eval", s, cs);
      case Catch =>
        EvalLocal(fuel - 1, h, argv[1], "catch", s, cs);
      case Set =>
    }
  }

  lemma {:induction false} RunIfLocal(fuel: nat, h: Host, argv: seq<string>, s: State, cs: seq<Frame>)
    requires (|argv| == 3 || |argv| == 5)
    ensures RunIf(fuel, h, argv, Under(s, cs)) == UnderAll(RunIf(fuel, h, argv, s), cs)
    decreases fuel
  {
    if fuel > 0 {
      EvalLocal(fuel - 1, h, argv[1], "cond of if", s, cs);
      var r := Eval(fuel - 1, h, argv[1], "cond of if", s);
      if r.Ends? {
        EvalLocal(fuel - 1, h, argv[2], "then of if", r.state, cs);
        if |argv| == 5 { EvalLocal(fuel - 1, h, argv[4], "else of if", r.state, cs); }
      }
    }
  }

  lemma {:induction false} RunAndLocal(fuel: nat, h: Host, clauses: seq<string>, n: int, s: State, cs: seq<Frame>)
    ensures RunAnd(fuel, h, clauses, n, Under(s, cs)) == UnderAll(RunAnd(fuel, h, clauses, n, s), cs)
    decreases fuel
  {
    if fuel > 0 {
      if clauses != [] {
        EvalLocal(fuel - 1, h, clauses[0], "clause of and", s, cs);
        var r := Eval(fuel - 1, h, clauses[0], "clause of and", s);
        if r.Ends? && r.code.OK? { RunAndLocal(fuel - 1, h, clauses[1..], h.atoi(r.state.result), r.state, cs); }
      }
    }
  }

  lemma {:induction false} RunOrLocal(fuel: nat, h: Host, clauses: seq<string>, s: State, cs: seq<Frame>)
    ensures RunOr(fuel, h, clauses, Under(s, cs)) == UnderAll(RunOr(fuel, h, clauses, s), cs)
    decreases fuel
  {
    if fuel > 0 {
      if clauses != [] {
        EvalLocal(fuel - 1, h, clauses[0], "clause of or", s, cs);
        var r := Eval(fuel - 1, h, clauses[0], "clause of or", s);
        if r.Ends? && r.code.OK? { RunOrLocal(fuel - 1, h, clauses[1..], r.state, cs); }
      }
    }
  }

  lemma {:induction false} RunWhileLocal(fuel: nat, h: Host, cond: string, body: string, s: State, cs: seq<Frame>)
    ensures RunWhile(fuel, h, cond, body, Under(s, cs)) == UnderAll(RunWhile(fuel, h, cond, body, s), cs)
    decreases fuel
  {
    if fuel > 0 {
      EvalLocal(fuel - 1, h, cond, "cond of while", s, cs);
      var r := Eval(fuel - 1, h, cond, "cond of while", s);
      if r.Ends? {
        EvalLocal(fuel - 1, h, body, "body of while", r.state, cs);
        var b := Eval(fuel - 1, h, body, "body of while", r.state);
        if b.Ends? { RunWhileLocal(fuel - 1, h, cond, body, b.state, cs); }
      }
    }
  }

  lemma {:induction false} RunForEachLocal(fuel: nat, h: Host, name: string, items: seq<string>, body: string, s: State, cs: seq<Frame>)
    ensures RunForEach(fuel, h, name, items, body, Under(s, cs)) == UnderAll(RunForEach(fuel, h, name, items, body, s), cs)
    decreases fuel
  {
    if fuel > 0 {
      if items != [] {
        var began := SetVar(s, name, items[0]);
        EvalLocal(fuel - 1, h, body, "body of foreach", began, cs);
        var b := Eval(fuel - 1, h, body, "body of foreach", began);
        if b.Ends? { RunForEachLocal(fuel - 1, h, name, items[1..], body, b.state, cs); }
      }
    }
  }

  lemma {:induction false} CallProcLocal(fuel: nat, h: Host, alist: string, body: string, argv: seq<string>, s: State, cs: seq<Frame>)
    requires argv != []
    ensures CallProc(fuel, h, alist, body, argv, Under(s, cs)) == UnderAll(CallProc(fuel, h, alist, body, argv, s), cs)
    decreases fuel
  {
    if fuel > 0 {
      var f := Arguments(h, h.split(alist), argv);
      if f.Some? {
        EvalLocal(fuel - 1, h, body, argv[0], Push(s, f.value), cs + [s.top]);
      }
    }
  }

  /** A proc called with the same arguments and globals does the same from any caller: same code,
      same result, same globals; and no caller's frame is touched. */
  lemma CallersDoNotMatter(fuel: nat, h: Host, alist: string, body: string, argv: seq<string>, s: State, callers: seq<Frame>, top: Frame)
    requires argv != []
    ensures var r, t := CallProc(fuel, h, alist, body, argv, s), CallProc(fuel, h, alist, body, argv, s.(callers := callers, top := top));
            if r.Ends? then t == Ends(r.code, r.state.(callers := callers, top := top)) && r.state.callers == s.callers && r.state.top == s.top
            else t == r
  {
    if fuel > 0 {
      var f := Arguments(h, h.split(alist), argv);
      if f.Some? {
        EvalLocal(fuel - 1, h, body, argv[0], Push(s, f.value), callers + [top]);
      }
    }
  }

  // ----- The depth does not matter either -----

  lemma {:induction false} EvalMore(fuel: nat, h: Host, text: string, from: string, s: State)
    requires !Eval(fuel, h, text, from, s).NotYet?
    ensures Eval(fuel + 1, h, text, from, s) == Eval(fuel, h, text, from, s)
    decreases fuel
  {
    if fuel > 0 {
      LoopMore(fuel - 1, h, text, Tokens.Init(text), [], s.(result := ""));
    }
  }

  lemma {:induction false} LoopMore(fuel: nat, h: Host, text: string, p: Tokens.Parser, argv: seq<string>, s: State)
    requires Tokens.Valid(p, text) && (argv == [] ==> p.kind.Sep? || p.kind.Eol?)
    requires !Loop(fuel, h, text, p, argv, s).NotYet?
    ensures Loop(fuel + 1, h, text, p, argv, s) == Loop(fuel, h, text, p, argv, s)
    decreases fuel
  {
    if fuel > 0 && Tokens.Token(p, text).Ok? {
      TokenStays(p, text);
      OnTokenMore(fuel - 1, h, text, p, Tokens.Token(p, text).parser, argv, s);
    }
  }

  lemma {:induction false} OnTokenMore(fuel: nat, h: Host, text: string, p: Tokens.Parser, q: Tokens.Parser, argv: seq<string>, s: State)
    requires Tokens.Valid(q, text) && (argv == [] ==> p.kind.Sep? || p.kind.Eol?)
    requires !OnToken(fuel, h, text, p, q, argv, s).NotYet?
    ensures OnToken(fuel + 1, h, text, p, q, argv, s) == OnToken(fuel, h, text, p, q, argv, s)
    decreases fuel
  {
    if fuel > 0 {
      var t := Part(text, q.start, q.end + 1);
      match q.kind
      case Eof =>
      case Sep => LoopMore(fuel - 1, h, text, q, argv, s);
      case Eol =>
        if argv == [] {
          LoopMore(fuel - 1, h, text, q, [], s);
        } else {
          InvokeMore(fuel - 1, h, argv, s);
          var r := Invoke(fuel - 1, h, argv, s);
          if r.Ends? && r.code.OK? { LoopMore(fuel - 1, h, text, q, [], r.state); }
        }
      case Var => if t in s.top { LoopMore(fuel - 1, h, text, q, Joined(argv, p, s.top[t]), s); }
      case Cmd =>
        EvalMore(fuel - 1, h, t, "[...]", s);
        var r := Eval(fuel - 1, h, t, "[...]", s);
        if r.Ends? && r.code.OK? { LoopMore(fuel - 1, h, text, q, Joined(argv, p, r.state.result), r.state); }
      case _ => LoopMore(fuel - 1, h, text, q, Joined(argv, p, t), s);
    }
  }

  lemma {:induction false} InvokeMore(fuel: nat, h: Host, argv: seq<string>, s: State)
    requires argv != []
    requires !Invoke(fuel, h, argv, s).NotYet?
    ensures Invoke(fuel + 1, h, argv, s) == Invoke(fuel, h, argv, s)
    decreases fuel
  {
    if fuel > 0 {
      if argv[0] in s.globals.commands {
        CallMore(fuel - 1, h, s.globals.commands[argv[0]], argv, s);
      } else if argv[0] != "unknown" && "unknown" in s.globals.commands {
        CallMore(fuel - 1, h, s.globals.commands["unknown"], ["unknown"] + argv, s);
      }
    }
  }

  lemma {:induction false} CallMore(fuel: nat, h: Host, c: Command, argv: seq<string>, s: State)
    requires argv != []
    requires !Call(fuel, h, c, argv, s).NotYet?
    ensures Call(fuel + 1, h, c, argv, s) == Call(fuel, h, c, argv, s)
    decreases fuel
  {
    if fuel > 0 && |argv| >= c.minArgc {
      match c.func
      case Proc(alist, body) => CallProcMore(fuel - 1, h, alist, body, argv, s);
      case Other(name) =>
      case Builtin(which) => if |argv| >= Needs(which) { RunMore(fuel - 1, h, which, argv, s); }
    }
  }

  lemma {:induction false} RunMore(fuel: nat, h: Host, w: Which, argv: seq<string>, s: State)
    requires argv != [] && |argv| >= Needs(w)
    requires !Run(fuel, h, w, argv, s).NotYet?
    ensures Run(fuel + 1, h, w, argv, s) == Run(fuel, h, w, argv, s)
    decreases fuel
  {
    if fuel > 0 {
      match w
      case If => if |argv| == 3 || |argv| == 5 { RunIfMore(fuel - 1, h, argv, s); }
      case And => RunAndMore(fuel - 1, h, argv[1..], 1, s);
      case Or => RunOrMore(fuel - 1, h, argv[1..], s);
      case While => RunWhileMore(fuel - 1, h, argv[1], argv[2], s);
      case Break =>
      case Continue =>
      case DefineProc =>
      case Return =>
      case ForEach => RunForEachMore(fuel - 1, h, argv[1], h.split(argv[2]), argv[3], s);
      case EvalArgs => EvalMore(fuel - 1, h, JoinFrom(argv, 1), "eval", s);
      case Catch =>
        EvalMore(fuel - 1, h, argv[1], "catch", s);
      case Set =>
    }
  }

  lemma {:induction false} RunIfMore(fuel: nat, h: Host, argv: seq<string>, s: State)
    requires (|argv| == 3 || |argv| == 5)
    requires !RunIf(fuel, h, argv, s).NotYet?
    ensures RunIf(fuel + 1, h, argv, s) == RunIf(fuel, h, argv, s)
    decreases fuel
  {
    if fuel > 0 {
      EvalMore(fuel - 1, h, argv[1], "cond of if", s);
      var r := Eval(fuel - 1, h, argv[1], "cond of if", s);
      if r.Ends? && r.code.OK? {
        if h.atoi(r.state.result) != 0 { EvalMore(fuel - 1, h, argv[2], "then of if", r.state); }
        else if |argv| == 5 { EvalMore(fuel - 1, h, argv[4], "else of if", r.state); }
      }
    }
  }

  lemma {:induction false} RunAndMore(fuel: nat, h: Host, clauses: seq<string>, n: int, s: State)
    requires !RunAnd(fuel, h, clauses, n, s).NotYet?
    ensures RunAnd(fuel + 1, h, clauses, n, s) == RunAnd(fuel, h, clauses, n, s)
    decreases fuel
  {
    if fuel > 0 {
      if clauses != [] {
        EvalMore(fuel - 1, h, clauses[0], "clause of and", s);
        var r := Eval(fuel - 1, h, clauses[0], "clause of and", s);
        if r.Ends? && r.code.OK? && h.atoi(r.state.result) != 0 { RunAndMore(fuel - 1, h, clauses[1..], h.atoi(r.state.result), r.state); }
      }
    }
  }

  lemma {:induction false} RunOrMore(fuel: nat, h: Host, clauses: seq<string>, s: State)
    requires !RunOr(fuel, h, clauses, s).NotYet?
    ensures RunOr(fuel + 1, h, clauses, s) == RunOr(fuel, h, clauses, s)
    decreases fuel
  {
    if fuel > 0 {
      if clauses != [] {
        EvalMore(fuel - 1, h, clauses[0], "clause of or", s);
        var r := Eval(fuel - 1, h, clauses[0], "clause of or", s);
        if r.Ends? && r.code.OK? && h.atoi(r.state.result) == 0 { RunOrMore(fuel - 1, h, clauses[1..], r.state); }
      }
    }
  }

  lemma {:induction false} RunWhileMore(fuel: nat, h: Host, cond: string, body: string, s: State)
    requires !RunWhile(fuel, h, cond, body, s).NotYet?
    ensures RunWhile(fuel + 1, h, cond, body, s) == RunWhile(fuel, h, cond, body, s)
    decreases fuel
  {
    if fuel > 0 {
      EvalMore(fuel - 1, h, cond, "cond of while", s);
      var r := Eval(fuel - 1, h, cond, "cond of while", s);
      if r.Ends? && r.code.OK? && h.atoi(r.state.result) != 0 {
        EvalMore(fuel - 1, h, body, "body of while", r.state);
        var b := Eval(fuel - 1, h, body, "body of while", r.state);
        if b.Ends? && (b.code.OK? || b.code.CONTINUE?) { RunWhileMore(fuel - 1, h, cond, body, b.state); }
      }
    }
  }

  lemma {:induction false} RunForEachMore(fuel: nat, h: Host, name: string, items: seq<string>, body: string, s: State)
    requires !RunForEach(fuel, h, name, items, body, s).NotYet?
    ensures RunForEach(fuel + 1, h, name, items, body, s) == RunForEach(fuel, h, name, items, body, s)
    decreases fuel
  {
    if fuel > 0 {
      if items != [] {
        var began := SetVar(s, name, items[0]);
        EvalMore(fuel - 1, h, body, "body of foreach", began);
        var b := Eval(fuel - 1, h, body, "body of foreach", began);
        if b.Ends? && (b.code.OK? || b.code.CONTINUE?) { RunForEachMore(fuel - 1, h, name, items[1..], body, b.state); }
      }
    }
  }

  lemma {:induction false} CallProcMore(fuel: nat, h: Host, alist: string, body: string, argv: seq<string>, s: State)
    requires argv != []
    requires !CallProc(fuel, h, alist, body, argv, s).NotYet?
    ensures CallProc(fuel + 1, h, alist, body, argv, s) == CallProc(fuel, h, alist, body, argv, s)
    decreases fuel
  {
    if fuel > 0 {
      var f := Arguments(h, h.split(alist), argv);
      if f.Some? {
        EvalMore(fuel - 1, h, body, argv[0], Push(s, f.value));
      }
    }
  }

  /** An evaluation that ends within some depth ends in the same way within any greater one. */
  lemma {:induction false} AnyDepth(fuel: nat, more: nat, h: Host, text: string, from: string, s: State)
    requires fuel <= more && !Eval(fuel, h, text, from, s).NotYet?
    ensures Eval(more, h, text, from, s) == Eval(fuel, h, text, from, s)
    decreases more - fuel
  {
    if fuel < more {
      EvalMore(fuel, h, text, from, s);
      AnyDepth(fuel + 1, more, h, text, from, s);
    }
  }
}
