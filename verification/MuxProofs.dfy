/** What a mux session does under every schedule. */
module MuxProofs {
  import opened Bytes
  import opened Mux

  // ----- Who may send -----

  /** Nothing is under way between the two sides. */
  predicate Still(s: State) { s.c2s == [] && s.held == [] && s.s2c == [] }

  /** n steps from the end of a session that is to end with g: the phases of a turn, then those
      of the farewell. In each, exactly one of the three actors, or one packet, holds the turn. */
  predicate Phase(s: State, g: Result, n: nat) {
    !s.panicked &&
    match s.client
    case AwaitBegin => s.registered && !s.asking && s.c2s == [] && s.held == [] && s.s2c == [Packet(Begin, ['+' as int])] &&
      Wellformed(s.prog, s.io) && Ends(s, g, n - 1)
    case SendMid => s.registered && !s.asking && Still(s) && Wellformed(s.prog, s.io) && Ends(s, g, n)
    case Recv => s.registered && if s.asking then AskingPhase(s, g, n) else TurnPhase(s, g, n)
    case SendEnd => s.registered && !s.asking && Still(s) && Farewell(s, 2) && s.prog[0].GetEnd? && Ends(s, g, n)
    case AwaitEnd => !s.asking && FarewellPhase(s, g, n)
    case Exited(v) => n == 0 && !s.asking && !s.registered && Still(s) && s.prog == [] && Result(s.io, s.received, v) == g
    case Fatal => false
  }

  predicate Ends(s: State, g: Result, n: int) {
    Meaning(s.prog, s.io, s.received) == g && Cost(s.prog, s.io) == n
  }

  predicate Farewell(s: State, left: nat) {
    |s.prog| == left && left > 0 && s.prog[left - 1].PutEnd? && s.prog[left - 1].verdict != []
  }

  /** The client's MID is on its way to the command; or the command has the turn; or its
      subcommand is on its way to the client. */
  predicate TurnPhase(s: State, g: Result, n: nat) {
    if s.s2c != [] then s.c2s == [] && s.held == [] && Answering(s, g, n)
    else if s.c2s != [] then s.c2s == [Packet(Mid, [])] && s.held == [] && Wellformed(s.prog, s.io) && Ends(s, g, n + 1)
    else if s.held != [] then s.held == [Packet(Mid, [])] && Wellformed(s.prog, s.io) && Ends(s, g, n + 2)
    else Turn(s.prog, s.io) && Ends(s, g, n)
  }

  predicate Answering(s: State, g: Result, n: nat) {
    |s.s2c| == 1 && s.s2c[0].kind.Mid? && s.s2c[0].pay != [] && n > 0 &&
    if s.s2c[0].pay == ['.' as int] then Farewell(s, 2) && s.prog[0].GetEnd? && Ends(s, g, n - 1)
    else Arriving(s.s2c[0].pay, s, g, n - 1)
  }

  predicate Arriving(pay: seq<Byte>, s: State, g: Result, n: nat)
    requires pay != []
  {
    var tag := pay[0] as char;
    var io := Effect(s.io, tag, pay[1..]);
    Ordinary(s.io, Put(tag, pay[1..])) && Wellformed(s.prog, io) &&
    Meaning(s.prog, io, s.received) == g && Cost(s.prog, io) == n
  }

  /** The '6' is on its way to the client, or the line is on its way back. */
  predicate AskingPhase(s: State, g: Result, n: nat) {
    s.prog != [] && s.prog[0].Ask? &&
    if s.s2c != [] then s.s2c == [Packet(Mid, ['6' as int])] && s.c2s == [] && s.held == [] && Turn(s.prog, s.io) && Ends(s, g, n + 1)
    else if s.c2s != [] then |s.c2s| == 1 && s.held == [] && n > 1 && Returning(s, s.c2s[0], g, n - 2)
    else |s.held| == 1 && n > 0 && Returning(s, s.held[0], g, n - 1)
  }

  predicate Returning(s: State, p: Packet, g: Result, n: nat)
    requires s.prog != []
  {
    p.kind.Mid? &&
    if p.pay == [] || p.pay == ['6' as int] then Expects(s.prog[1..], s.io, s.received, g, n) && !s.prog[1].Ask?
    else p.pay[0] == '6' as int && Expects(s.prog, s.io, s.received + CrToLf(p.pay[1..]), g, n)
  }

  predicate Expects(prog: seq<Instr>, io: IO, received: seq<Byte>, g: Result, n: nat) {
    Turn(prog, io) && Meaning(prog, io, received) == g && Cost(prog, io) == n
  }

  predicate FarewellPhase(s: State, g: Result, n: nat) {
    if s.registered then s.s2c == [] && Farewell(s, 2) && s.prog[0].GetEnd? && Leaving(s, g, n)
    else s.c2s == [] && s.held == [] && if s.s2c == [] then Farewell(s, 1) && Ends(s, g, n) else Parting(s, g, n)
  }

  predicate Leaving(s: State, g: Result, n: nat) {
    if s.c2s != [] then s.c2s == [Packet(End, [])] && s.held == [] && Ends(s, g, n + 1)
    else s.held == [Packet(End, [])] && Ends(s, g, n + 2)
  }

  predicate Parting(s: State, g: Result, n: nat) {
    n == 1 && s.prog == [] && |s.s2c| == 1 && s.s2c[0].kind.End? && s.s2c[0].pay != [] && g == Result(s.io, s.received, s.s2c[0].pay)
  }

  // ----- One step -----

  /** One '6' and its line, against the whole bout. */
  lemma OneLine(io: IO, received: seq<Byte>)
    requires !io.file.Writing?
    ensures Line(io) == [] || Line(io) == ['6' as int] ==>
      AfterAsking(io) == LineRead(io) && AllLines(Input(io)) == [] && Askings(Input(io)) == 1
    ensures Line(io) != [] && Line(io) != ['6' as int] ==>
      Line(io)[0] == '6' as int && AfterAsking(io) == AfterAsking(LineRead(io)) &&
      received + AllLines(Input(io)) == (received + CrToLf(Line(io)[1..])) + AllLines(Input(LineRead(io))) &&
      Askings(Input(io)) == 1 + Askings(Input(LineRead(io)))
  {
    var left := Input(io);
    var n := LineLength(left, MAX_LINE);
    if n > 0 {
      assert Line(io)[1..] == CString(left[..n]);
      assert Input(LineRead(io)) == left[n..];
    } else {
      assert left[n..] == [];
    }
  }

  lemma ClientKeeps(s: State, g: Result, n: nat)
    requires Phase(s, g, n) && ClientCanStep(s)
    ensures n > 0 && Phase(ClientStep(s), g, n - 1)
  {
    if s.client.Recv? && s.asking {
      OneLine(s.io, s.received);
      if Line(s.io) == [] || Line(s.io) == ['6' as int] {
        assert s.received + [] == s.received;
      }
    }
  }

  lemma DispatcherKeeps(s: State, g: Result, n: nat)
    requires Phase(s, g, n) && DispatcherCanStep(s)
    ensures n > 0 && Phase(DispatcherStep(s), g, n - 1)
  {
  }

  lemma CommandKeeps(s: State, g: Result, n: nat)
    requires Phase(s, g, n) && CommandCanStep(s)
    ensures n > 0 && Phase(CommandStep(s), g, n - 1)
  {
    if s.prog[0].Put? {
      var pay := [Code(s.prog[0].tag)] + s.prog[0].pay;
      assert pay[0] == Code(s.prog[0].tag) && pay[1..] == s.prog[0].pay;
      if s.prog[0] == Put('.', []) {
        assert pay == ['.' as int];
      }
    }
  }
}
