/**
  The NCL interpreter: evaluation of a text over a stack of call frames, with the commands that
  evaluate texts in turn.
 */
module Interp {
  import opened Tokens
  import opened Sequences

  datatype Code = OK | ERR | RETURN | BREAK | CONTINUE

  type Frame = map<string, string>

  datatype Which = If | And | Or | While | Break | Continue | DefineProc | Return | ForEach | EvalArgs | Catch | Set

  /** What a command runs: a proc's argument list and body, one of the commands modelled here, or
      any other. */
  datatype Func = Proc(alist: string, body: string) | Builtin(which: Which) | Other(name: string)

  datatype Command = Command(minArgc: nat, func: Func)

  datatype Globals = Globals(commands: map<string, Command>, arrays: map<string, Frame>)

  /** The Callframe chain: the current frame, and those below it, the nearest last. */
  datatype State = State(callers: seq<Frame>, top: Frame, globals: Globals, result: string)

  /** What another command does: it sees and changes the current frame and the globals. */
  datatype Reply = Reply(code: Code, result: string, frame: Frame, globals: Globals)

  /** SplitList, BufAppElemS over a list, atoi, printing an int, and the other commands. */
  datatype Host = Host(split: string -> seq<string>, quote: seq<string> -> string, atoi: string -> int, show: int -> string,
                       other: (string, seq<string>, Frame, Globals, string) -> Reply)

  /** How an evaluation goes: it ends with a code; it has not ended within the given depth; or it
      leaves the text or the arguments it was given. */
  datatype Outcome = Ends(code: Code, state: State) | NotYet | Strays

  // ----- Frames -----

  function SetVar(s: State, name: string, val: string): State
  {
    s.(top := s.top[name := val])
  }

  function Failed(s: State, message: string): Outcome { Ends(ERR, s.(result := Cut(message))) }

  /** snprintf_s into a buffer of BUF_SIZE. */
  function Cut(message: string): string { if |message| < 200 then message else message[..199] }

  function Arity(s: State, name: string): Outcome { Failed(s, "Wrong number of args for " + name) }

  function Part(text: string, a: int, b: int): string { if 0 <= a <= b <= |text| then text[a..b] else "" }

  function Number(c: Code): int { match c case OK => 0 case ERR => 1 case RETURN => 2 case BREAK => 3 case CONTINUE => 4 }

  /** The arguments from j on, each after a space. */
  function JoinFrom(argv: seq<string>, j: nat): string
    decreases |argv| - j
  {
    if j >= |argv| then "" else " " + argv[j] + JoinFrom(argv, j + 1)
  }

  /** What any evaluation leaves of the stack: the frame it began with on top, and those below
      as they were. */
  predicate KeepsCallers(s: State, r: Outcome) { r.Ends? ==> r.state.callers == s.callers }

  // ----- Evaluation, to a given depth -----

  /** picolEval. */
  function Eval(fuel: nat, h: Host, text: string, from: string, s: State): (r: Outcome)
    ensures KeepsCallers(s, r)
    decreases fuel
  {
    if fuel == 0 then NotYet
    else
      var r := Loop(fuel - 1, h, text, Init(text), [], s.(result := ""));
      if r.Ends? && r.code.ERR? then Ends(ERR, r.state.(result := r.state.result + "; in " + from)) else r
  }

  /** Its loop, with the words gathered so far. */
  function Loop(fuel: nat, h: Host, text: string, p: Parser, argv: seq<string>, s: State): (r: Outcome)
    requires Valid(p, text) && (argv == [] ==> p.kind.Sep? || p.kind.Eol?)
    ensures KeepsCallers(s, r)
    decreases fuel
  {
    if fuel == 0 then NotYet
    else if Token(p, text).Overrun? then Strays
    else
      TokenStays(p, text);
      OnToken(fuel - 1, h, text, p, Token(p, text).parser, argv, s)
  }

  /** What it does with the token q, which came after p. */
  function OnToken(fuel: nat, h: Host, text: string, p: Parser, q: Parser, argv: seq<string>, s: State): (r: Outcome)
    requires Valid(q, text) && (argv == [] ==> p.kind.Sep? || p.kind.Eol?)
    ensures KeepsCallers(s, r)
    decreases fuel
  {
    if fuel == 0 then NotYet
    else
      var t := Part(text, q.start, q.end + 1);
      match q.kind
      case Eof => Ends(OK, s)
      case Sep => Loop(fuel - 1, h, text, q, argv, s)
      case Eol =>
        if argv == [] then Loop(fuel - 1, h, text, q, [], s)
        else
          var r := Invoke(fuel - 1, h, argv, s);
          if r.Ends? && r.code.OK? then Loop(fuel - 1, h, text, q, [], r.state) else r
      case Var =>
        if t in s.top then Loop(fuel - 1, h, text, q, Joined(argv, p, s.top[t]), s)
        else Failed(s, "No such variable '" + t + "'")
      case Cmd =>
        var r := Eval(fuel - 1, h, t, "[...]", s);
        if r.Ends? && r.code.OK? then Loop(fuel - 1, h, text, q, Joined(argv, p, r.state.result), r.state) else r
      case _ => Loop(fuel - 1, h, text, q, Joined(argv, p, t), s)
  }

  /** A new word, or more of the last one. */
  function Joined(argv: seq<string>, p: Parser, t: string): (r: seq<string>)
    requires argv == [] ==> p.kind.Sep? || p.kind.Eol?
    ensures r != []
  {
    if p.kind.Sep? || p.kind.Eol? then argv + [t] else argv[|argv| - 1 := argv[|argv| - 1] + t]
  }

  function Invoke(fuel: nat, h: Host, argv: seq<string>, s: State): (r: Outcome)
    requires argv != []
    ensures KeepsCallers(s, r)
    decreases fuel
  {
    if fuel == 0 then NotYet
    else if argv[0] in s.globals.commands then Call(fuel - 1, h, s.globals.commands[argv[0]], argv, s)
    else if argv[0] != "unknown" && "unknown" in s.globals.commands then
      Call(fuel - 1, h, s.globals.commands["unknown"], ["unknown"] + argv, s)
    else Failed(s, "No such command '" + argv[0] + "'")
  }

  /** The arguments a command reads without looking whether they are there. */
  function Needs(w: Which): nat {
    match w
    case While => 3
    case DefineProc => 4
    case ForEach => 4
    case Catch => 2
    case Set => 2
    case _ => 1
  }

  function Call(fuel: nat, h: Host, c: Command, argv: seq<string>, s: State): (r: Outcome)
    requires argv != []
    ensures KeepsCallers(s, r)
    ensures c.func.Proc? && r.Ends? ==> r.state.callers == s.callers && r.state.top == s.top
    decreases fuel
  {
    if fuel == 0 then NotYet
    else if |argv| < c.minArgc then Arity(s, argv[0])
    else
      match c.func
      case Proc(alist, body) => CallProc(fuel - 1, h, alist, body, argv, s)
      case Other(name) =>
        var reply := h.other(name, argv, s.top, s.globals, s.result);
        Ends(reply.code, s.(top := reply.frame, globals := reply.globals, result := reply.result))
      case Builtin(which) => if |argv| < Needs(which) then Strays else Run(fuel - 1, h, which, argv, s)
  }

  function Run(fuel: nat, h: Host, w: Which, argv: seq<string>, s: State): (r: Outcome)
    requires argv != [] && |argv| >= Needs(w)
    ensures KeepsCallers(s, r)
    decreases fuel
  {
    if fuel == 0 then NotYet
    else
      match w
      case If => if |argv| != 3 && |argv| != 5 then Arity(s, argv[0]) else RunIf(fuel - 1, h, argv, s)
      case And => RunAnd(fuel - 1, h, argv[1..], 1, s)
      case Or => RunOr(fuel - 1, h, argv[1..], s)
      case While => RunWhile(fuel - 1, h, argv[1], argv[2], s)
      case Break => Ends(BREAK, s)
      case Continue => Ends(CONTINUE, s)
      case DefineProc =>
        Ends(OK, s.(globals := s.globals.(commands := s.globals.commands[argv[1] := Command(0, Proc(argv[2], argv[3]))])))
      case Return => Ends(RETURN, s.(result := if |argv| == 2 then argv[1] else ""))
      case ForEach => RunForEach(fuel - 1, h, argv[1], h.split(argv[2]), argv[3], s)
      case EvalArgs => Eval(fuel - 1, h, JoinFrom(argv, 1), "eval", s)
      case Catch =>
        var r := Eval(fuel - 1, h, argv[1], "catch", s);
        if !r.Ends? then r
        else
          var t := if |argv| == 3 then SetVar(r.state, argv[2], r.state.result) else r.state;
          Ends(OK, t.(result := h.show(Number(r.code))))
      case Set =>
        if |argv| == 2 then
          if argv[1] in s.top then Ends(OK, s.(result := s.top[argv[1]])) else Ends(ERR, s.(result := "no such var: " + argv[1]))
        else Ends(OK, SetVar(s, argv[1], argv[2]).(result := argv[2]))
  }

  function RunIf(fuel: nat, h: Host, argv: seq<string>, s: State): (r: Outcome)
    requires (|argv| == 3 || |argv| == 5)
    ensures KeepsCallers(s, r)
    decreases fuel
  {
    if fuel == 0 then NotYet
    else
      var r := Eval(fuel - 1, h, argv[1], "cond of if", s);
      if !r.Ends? || !r.code.OK? then r
      else if h.atoi(r.state.result) != 0 then Eval(fuel - 1, h, argv[2], "then of if", r.state)
      else if |argv| == 5 then Eval(fuel - 1, h, argv[4], "else of if", r.state)
      else r
  }

  function RunAnd(fuel: nat, h: Host, clauses: seq<string>, n: int, s: State): (r: Outcome)
    ensures KeepsCallers(s, r)
    decreases fuel
  {
    if fuel == 0 then NotYet
    else if clauses == [] then Ends(OK, s.(result := h.show(n)))
    else
      var r := Eval(fuel - 1, h, clauses[0], "clause of and", s);
      if !r.Ends? || !r.code.OK? then r
      else if h.atoi(r.state.result) == 0 then Ends(OK, r.state.(result := h.show(0)))
      else RunAnd(fuel - 1, h, clauses[1..], h.atoi(r.state.result), r.state)
  }

  function RunOr(fuel: nat, h: Host, clauses: seq<string>, s: State): (r: Outcome)
    ensures KeepsCallers(s, r)
    decreases fuel
  {
    if fuel == 0 then NotYet
    else if clauses == [] then Ends(OK, s.(result := h.show(0)))
    else
      var r := Eval(fuel - 1, h, clauses[0], "clause of or", s);
      if !r.Ends? || !r.code.OK? then r
      else if h.atoi(r.state.result) != 0 then Ends(OK, r.state.(result := h.show(h.atoi(r.state.result))))
      else RunOr(fuel - 1, h, clauses[1..], r.state)
  }

  function RunWhile(fuel: nat, h: Host, cond: string, body: string, s: State): (r: Outcome)
    ensures KeepsCallers(s, r)
    decreases fuel
  {
    if fuel == 0 then NotYet
    else
      var r := Eval(fuel - 1, h, cond, "cond of while", s);
      if !r.Ends? || !r.code.OK? || h.atoi(r.state.result) == 0 then r
      else
        var b := Eval(fuel - 1, h, body, "body of while", r.state);
        if !b.Ends? then b
        else if b.code.OK? || b.code.CONTINUE? then RunWhile(fuel - 1, h, cond, body, b.state)
        else if b.code.BREAK? then Ends(OK, b.state)
        else b
  }

  function RunForEach(fuel: nat, h: Host, name: string, items: seq<string>, body: string, s: State): (r: Outcome)
    ensures KeepsCallers(s, r)
    ensures r.Ends? ==> !r.code.BREAK? && !r.code.CONTINUE?
    decreases fuel
  {
    if fuel == 0 then NotYet
    else if items == [] then Ends(OK, s.(result := ""))
    else
      var b := Eval(fuel - 1, h, body, "body of foreach", SetVar(s, name, items[0]));
      if !b.Ends? then b
      else if b.code.OK? || b.code.CONTINUE? then RunForEach(fuel - 1, h, name, items[1..], body, b.state)
      else if b.code.BREAK? then Ends(OK, b.state.(result := ""))
      else b
  }

  /** The frame a proc starts with: its parameters, args taking what is left over. */
  function Arguments(h: Host, params: seq<string>, argv: seq<string>): (f: Option<Frame>)
    requires argv != []
  {
    var c := |params|;
    var varargs := c > 0 && params[c - 1] == "args";
    if (!varargs && c != |argv| - 1) || (varargs && |argv| - 1 < c - 1) then None
    else if varargs then Some(Bound(params[..c - 1], argv[1..c])["args" := h.quote(argv[c..])])
    else Some(Bound(params, argv[1..]))
  }

  /** Parameters set in order, so that the last of two with one name stands. */
  function Bound(params: seq<string>, args: seq<string>): Frame
    requires |params| == |args|
  {
    if params == [] then map[]
    else Bound(params[..|params| - 1], args[..|args| - 1])[params[|params| - 1] := args[|args| - 1]]
  }

  function Push(s: State, f: Frame): State { s.(callers := s.callers + [s.top], top := f) }

  /** picolDropCallFrame. */
  function Drop(s: State): State
    requires s.callers != []
  {
    s.(callers := s.callers[..|s.callers| - 1], top := s.callers[|s.callers| - 1])
  }

  /** picolCommandCallProc. */
  function CallProc(fuel: nat, h: Host, alist: string, body: string, argv: seq<string>, s: State): (r: Outcome)
    requires argv != []
    ensures r.Ends? ==> r.state.callers == s.callers && r.state.top == s.top && !r.code.RETURN?
    decreases fuel
  {
    if fuel == 0 then NotYet
    else
      var f := Arguments(h, h.split(alist), argv);
      if f.None? then Failed(s, "Proc '" + argv[0] + "' called with wrong num args")
      else
        var inner := Push(s, f.value);
        var r := Eval(fuel - 1, h, body, argv[0], inner);
        if !r.Ends? then r
        else
          assert Drop(r.state).callers == s.callers;
          Ends(if r.code.RETURN? then OK else r.code, Drop(r.state))
  }

  lemma {:induction false} TokenStays(p: Parser, text: string)
    requires Valid(p, text)
    ensures Token(p, text).Ok? ==> Valid(Token(p, text).parser, text)
    decreases p.len
  {
    if p.len > 0 && text[p.p] == '#' && p.kind.Eol? {
      TokenStays(p.(p := CommentEnd(text, p.p), len := |text| - CommentEnd(text, p.p)), text);
    }
  }
}
