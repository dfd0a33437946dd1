/** Mux sessions from beginning to end: they finish under every fair schedule, with one verdict,
    and getb and putt move files as they should. */
module MuxRuns {
  import opened Bytes
  import opened Mux
  import opened MuxProofs
  import opened Sequences

  /** Until the client has exited, exactly one actor can move; afterwards none. */
  lemma OneMover(s: State, g: Result, n: nat)
    requires Phase(s, g, n)
    ensures n == 0 <==> s.client.Exited?
    ensures n == 0 ==> forall a :: !CanStep(s, a)
    ensures n > 0 ==> exists a :: CanStep(s, a) && forall b :: CanStep(s, b) ==> b == a
  {
    if n > 0 {
      assert CanStep(s, ClientLoop) || CanStep(s, Dispatcher) || CanStep(s, Command);
    }
  }

  lemma StepKeeps(s: State, a: Actor, g: Result, n: nat)
    requires Phase(s, g, n) && CanStep(s, a)
    ensures n > 0 && Phase(Step(s, a), g, n - 1)
  {
    match a
    case ClientLoop => ClientKeeps(s, g, n);
    case Dispatcher => DispatcherKeeps(s, g, n);
    case Command => CommandKeeps(s, g, n);
  }

  /** How many entries of a schedule move somebody. */
  function Moves(s: State, schedule: seq<Actor>): nat
    decreases |schedule|
  {
    if schedule == [] then 0
    else if CanStep(s, schedule[0]) then 1 + Moves(Step(s, schedule[0]), schedule[1..])
    else Moves(s, schedule[1..])
  }

  lemma RunKeeps(s: State, schedule: seq<Actor>, g: Result, n: nat)
    requires Phase(s, g, n)
    ensures Moves(s, schedule) <= n && Phase(Run(s, schedule), g, n - Moves(s, schedule))
  {
    RunIs(s, schedule, g, n, Run(s, schedule), Moves(s, schedule));
  }

  lemma {:induction false} RunIs(s: State, schedule: seq<Actor>, g: Result, n: nat, r: State, moves: nat)
    requires Phase(s, g, n) && r == Run(s, schedule) && moves == Moves(s, schedule)
    ensures moves <= n && Phase(r, g, n - moves)
    decreases |schedule|
  {
    if schedule != [] {
      var next, left := NextKeeps(s, schedule[0], g, n);
      RunFrom(s, schedule, next);
      RunIs(next, schedule[1..], g, left, r, moves - Moved(s, schedule[0]));
    }
  }

  lemma NextKeeps(s: State, a: Actor, g: Result, n: nat) returns (next: State, left: nat)
    requires Phase(s, g, n)
    ensures Phase(next, g, left) && next == Next(s, a) && left == n - Moved(s, a)
  {
    next, left := Next(s, a), n;
    if CanStep(s, a) {
      StepKeeps(s, a, g, n);
      left := n - 1;
    }
  }

  lemma RunFrom(s: State, schedule: seq<Actor>, next: State)
    requires schedule != [] && next == Next(s, schedule[0])
    ensures Run(s, schedule) == Run(next, schedule[1..])
    ensures Moves(s, schedule) == Moved(s, schedule[0]) + Moves(next, schedule[1..])
  {
  }

  function Next(s: State, a: Actor): State { if CanStep(s, a) then Step(s, a) else s }

  function Moved(s: State, a: Actor): nat { if CanStep(s, a) then 1 else 0 }

  /** Whatever the schedule: no party panics or gives up, the client has exited exactly when
      everything due has moved, and then both sides are as the command means, with its verdict. */
  lemma SessionIsRight(prog: seq<Instr>, io: IO, schedule: seq<Actor>)
    requires Wellformed(prog, io)
    ensures var s := Run(Start(prog, io), schedule);
            !s.panicked && !s.client.Fatal? &&
            (s.client.Exited? <==> Moves(Start(prog, io), schedule) == 1 + Cost(prog, io)) &&
            (s.client.Exited? ==> Result(s.io, s.received, s.client.verdict) == Meaning(prog, io, []))
  {
    var g, n := Meaning(prog, io, []), 1 + Cost(prog, io);
    RunKeeps(Start(prog, io), schedule, g, n);
    OneMover(Run(Start(prog, io), schedule), g, n - Moves(Start(prog, io), schedule));
  }

  /** No reachable state is a deadlock, and nobody moves out of turn. */
  lemma NeverStuck(prog: seq<Instr>, io: IO, schedule: seq<Actor>)
    requires Wellformed(prog, io)
    ensures var s := Run(Start(prog, io), schedule);
            if s.client.Exited? then forall a :: !CanStep(s, a)
            else exists a :: CanStep(s, a) && forall b :: CanStep(s, b) ==> b == a
  {
    var g, n := Meaning(prog, io, []), 1 + Cost(prog, io);
    RunKeeps(Start(prog, io), schedule, g, n);
    OneMover(Run(Start(prog, io), schedule), g, n - Moves(Start(prog, io), schedule));
  }

  // ----- Fair schedules finish -----

  /** n rounds, in each of which every actor gets a chance. */
  predicate Fair(rounds: seq<seq<Actor>>) {
    forall r {:trigger r in rounds} :: r in rounds ==> ClientLoop in r && Dispatcher in r && Command in r
  }

  lemma {:induction false} RunAppend(s: State, first: seq<Actor>, second: seq<Actor>)
    ensures Run(s, first + second) == Run(Run(s, first), second)
    ensures Moves(s, first + second) == Moves(s, first) + Moves(Run(s, first), second)
    decreases |first|
  {
    if first == [] {
      assert first + second == second;
    } else {
      assert (first + second)[1..] == first[1..] + second;
      RunAppend(if CanStep(s, first[0]) then Step(s, first[0]) else s, first[1..], second);
    }
  }

  lemma {:induction false} ChanceTaken(s: State, schedule: seq<Actor>, a: Actor)
    requires a in schedule && CanStep(s, a)
    ensures Moves(s, schedule) > 0
    decreases |schedule|
  {
    if !CanStep(s, schedule[0]) {
      ChanceTaken(s, schedule[1..], a);
    }
  }

  lemma {:induction false} RoundsMove(s: State, rounds: seq<seq<Actor>>, g: Result, n: nat)
    requires Phase(s, g, n) && Fair(rounds)
    ensures Moves(s, Concat(rounds)) >= if |rounds| <= n then |rounds| else n
    decreases |rounds|
  {
    if rounds != [] && n > 0 {
      var r := rounds[0];
      OneMover(s, g, n);
      var a :| CanStep(s, a);
      assert r in rounds;
      ChanceTaken(s, r, a);
      RunKeeps(s, r, g, n);
      RunAppend(s, r, Concat(rounds[1..]));
      assert forall q {:trigger q in rounds[1..]} :: q in rounds[1..] ==> q in rounds;
      RoundsMove(Run(s, r), rounds[1..], g, n - Moves(s, r));
    }
  }

  /** n fair rounds end what is n steps from its end. */
  lemma FairRoundsEnd(s: State, rounds: seq<seq<Actor>>, g: Result, n: nat)
    requires Phase(s, g, n) && Fair(rounds) && |rounds| >= n
    ensures var t := Run(s, Concat(rounds)); t.client.Exited? && Result(t.io, t.received, t.client.verdict) == g
  {
    RoundsMove(s, rounds, g, n);
    RunKeeps(s, Concat(rounds), g, n);
  }

  /** Every fair schedule of as many rounds as the command's cost ends the session. */
  lemma FairSessionsEnd(prog: seq<Instr>, io: IO, rounds: seq<seq<Actor>>)
    requires Wellformed(prog, io) && Fair(rounds) && |rounds| > Cost(prog, io)
    ensures Run(Start(prog, io), Concat(rounds)).client.Exited?
  {
    FairRoundsEnd(Start(prog, io), rounds, Meaning(prog, io, []), 1 + Cost(prog, io));
  }

  // ----- A command that panics -----

  /** The command's function has not returned, and is not waiting for a line. */
  predicate MayPanic(s: State) { !s.panicked && !s.asking && |s.prog| >= 4 }

  /** RunCommandFunc's recovery: Exit3, whatever the function had still to do. */
  function Recovered(s: State, verdict: seq<Byte>): State { s.(prog := Exit(verdict)) }

  /** The command has taken the client's last packet and not yet answered it. */
  predicate HasTurn(s: State)
    requires MayPanic(s)
  {
    !s.prog[0].Get?
  }

  lemma ExitCosts(verdict: seq<Byte>, io: IO, received: seq<Byte>)
    requires verdict != []
    ensures Wellformed(Exit(verdict), io) && Cost(Exit(verdict), io) == 10
    ensures Meaning(Exit(verdict), io, received) == Result(io, received, verdict)
  {
    ExitMeans(verdict, io, received);
    assert Exit(verdict)[1..] == [Put('.', []), GetEnd, PutEnd(verdict)];
    assert Exit(verdict)[1..][1..] == [GetEnd, PutEnd(verdict)];
    assert Exit(verdict)[1..][1..][1..] == [PutEnd(verdict)];
    assert Cost([PutEnd(verdict)], io) == 2 && Cost([GetEnd, PutEnd(verdict)], io) == 5;
    assert Effect(io, '.', []) == io && Cost([Put('.', []), GetEnd, PutEnd(verdict)], io) == 7;
  }

  /** Out of its turn, a command that panics comes to the end of its session all the same. */
  lemma PanicOutOfTurn(s: State, g: Result, n: nat, verdict: seq<Byte>) returns (io: IO, left: nat)
    requires Phase(s, g, n) && MayPanic(s) && !HasTurn(s) && verdict != []
    ensures left <= 11 && Phase(Recovered(s, verdict), Result(io, s.received, verdict), left)
  {
    var pay := if s.client.Recv? && s.s2c != [] then s.s2c[0].pay else [];
    io := if pay != [] then Effect(s.io, pay[0] as char, pay[1..]) else s.io;
    ExitCosts(verdict, io, s.received);
    if s.client.AwaitBegin? || pay != [] {
      left := 11;
    } else if s.client.SendMid? {
      left := 10;
    } else if s.c2s != [] {
      left := 9;
    } else {
      left := 8;
    }
  }

  /** In its turn, it leaves both sides waiting: Exit3 for another MID, the client for an answer. */
  lemma PanicInTurn(s: State, g: Result, n: nat, verdict: seq<Byte>)
    requires Phase(s, g, n) && MayPanic(s) && HasTurn(s)
    ensures !s.client.Exited? && forall a :: !CanStep(Recovered(s, verdict), a)
  {
    assert Exit(verdict)[0] == Get;
  }

  lemma {:induction false} NobodyMoves(s: State, schedule: seq<Actor>)
    requires forall a :: !CanStep(s, a)
    ensures Run(s, schedule) == s
    decreases |schedule|
  {
    if schedule != [] { NobodyMoves(s, schedule[1..]); }
  }

  /** Whatever the command, wherever in a session its function panics: the session still ends, in
      every fair continuation, exactly when the command did not have the turn, and then with the
      verdict of the panic; if it did, no continuation ends it. */
  lemma PanicHangsExactly(prog: seq<Instr>, io: IO, before: seq<Actor>, verdict: seq<Byte>, rounds: seq<seq<Actor>>)
    requires Wellformed(prog, io) && verdict != [] && MayPanic(Run(Start(prog, io), before))
    requires Fair(rounds) && |rounds| >= 11
    ensures var s := Run(Start(prog, io), before);
            var t := Run(Recovered(s, verdict), Concat(rounds));
            && (t.client.Exited? <==> !HasTurn(s)) && (t.client.Exited? ==> t.client.verdict == verdict && t.received == s.received)
            && (HasTurn(s) ==> forall schedule :: !Run(Recovered(s, verdict), schedule).client.Exited?)
  {
    var g, n := Meaning(prog, io, []), 1 + Cost(prog, io);
    RunKeeps(Start(prog, io), before, g, n);
    var s, m := Run(Start(prog, io), before), n - Moves(Start(prog, io), before);
    if HasTurn(s) {
      PanicInTurn(s, g, m, verdict);
      forall schedule ensures !Run(Recovered(s, verdict), schedule).client.Exited? { NobodyMoves(Recovered(s, verdict), schedule); }
    } else {
      var now, left := PanicOutOfTurn(s, g, m, verdict);
      FairRoundsEnd(Recovered(s, verdict), rounds, Result(now, s.received, verdict), left);
    }
  }

  // ----- Commands that only send -----

  function Effects(io: IO, ops: seq<(char, seq<Byte>)>): IO
    decreases |ops|
  {
    if ops == [] then io else Effects(Effect(io, ops[0].0, ops[0].1), ops[1..])
  }

  predicate Sendable(io: IO, ops: seq<(char, seq<Byte>)>)
    decreases |ops|
  {
    ops == [] || (Ordinary(io, Put(ops[0].0, ops[0].1)) && Sendable(Effect(io, ops[0].0, ops[0].1), ops[1..]))
  }

  lemma ExitMeans(verdict: seq<Byte>, io: IO, received: seq<Byte>)
    requires verdict != []
    ensures Wellformed(Exit(verdict), io)
    ensures Meaning(Exit(verdict), io, received) == Result(io, received, verdict)
  {
    assert Exit(verdict)[1..] == [Put('.', []), GetEnd, PutEnd(verdict)];
    assert Exit(verdict)[1..][1..] == [GetEnd, PutEnd(verdict)];
    assert Exit(verdict)[1..][1..][1..] == [PutEnd(verdict)];
    assert Effect(io, '.', []) == io;
    assert Meaning([PutEnd(verdict)], io, received) == Result(io, received, verdict);
    assert Meaning([GetEnd, PutEnd(verdict)], io, received) == Result(io, received, verdict);
    assert Meaning([Put('.', []), GetEnd, PutEnd(verdict)], io, received) == Result(io, received, verdict);
  }

  /** A MID, a subcommand, and what follows. */
  lemma PutMeans(tag: char, pay: seq<Byte>, rest: seq<Instr>, io: IO, received: seq<Byte>)
    requires Ordinary(io, Put(tag, pay)) && Wellformed(rest, Effect(io, tag, pay))
    ensures Wellformed([Get, Put(tag, pay)] + rest, io)
    ensures Meaning([Get, Put(tag, pay)] + rest, io, received) == Meaning(rest, Effect(io, tag, pay), received)
  {
    var prog := [Get, Put(tag, pay)] + rest;
    assert prog[1..] == [Put(tag, pay)] + rest;
    assert prog[1..][1..] == rest;
    assert Meaning(prog[1..], io, received) == Meaning(rest, Effect(io, tag, pay), received);
  }

  /** A command that sends its subcommands and exits does to the client what they do. */
  lemma {:induction false} EmitsMean(ops: seq<(char, seq<Byte>)>, verdict: seq<Byte>, io: IO, received: seq<Byte>)
    requires verdict != [] && Sendable(io, ops)
    ensures Wellformed(Emits(ops, Exit(verdict)), io)
    ensures Meaning(Emits(ops, Exit(verdict)), io, received) == Result(Effects(io, ops), received, verdict)
    decreases |ops|
  {
    if ops == [] {
      ExitMeans(verdict, io, received);
    } else {
      var (tag, pay) := ops[0];
      EmitsMean(ops[1..], verdict, Effect(io, tag, pay), received);
      PutMeans(tag, pay, Emits(ops[1..], Exit(verdict)), io, received);
    }
  }

  lemma {:induction false} ChunksArrive(chunks: seq<seq<Byte>>, io: IO)
    requires io.file.Writing?
    ensures var ops := ChunkOps(chunks) + [('c', [])];
            Sendable(io, ops) && Effects(io, ops) == io.(file := NoFile, saved := io.saved + [io.file.data + Concat(chunks)])
    decreases |chunks|
  {
    var ops := ChunkOps(chunks) + [('c', [])];
    if chunks == [] {
      assert ops == [('c', [])] && ops[1..] == [];
      assert io.file.data + [] == io.file.data;
    } else {
      var io' := Effect(io, '4', chunks[0]);
      ChunksArrive(chunks[1..], io');
      assert ops[1..] == ChunkOps(chunks[1..]) + [('c', [])];
      assert (io.file.data + chunks[0]) + Concat(chunks[1..]) == io.file.data + (chunks[0] + Concat(chunks[1..]));
    }
  }

  /** getb: however the reader cuts the file into chunks, a finished session has saved one file,
      equal to it, and nothing else has changed on the client. */
  lemma GetBCopies(dest: seq<Byte>, chunks: seq<seq<Byte>>, verdict: seq<Byte>, io: IO, schedule: seq<Actor>)
    requires verdict != []
    ensures Wellformed(GetB(dest, chunks, verdict), io)
    ensures var s := Run(Start(GetB(dest, chunks, verdict), io), schedule);
            s.client.Exited? ==> s.client.verdict == verdict && s.io == io.(file := NoFile, saved := io.saved + [Concat(chunks)])
  {
    var rest := ChunkOps(chunks) + [('c', [])];
    var ops := [('a', dest)] + ChunkOps(chunks) + [('c', [])];
    assert ops[0] == ('a', dest) && ops[1..] == rest;
    ChunksArrive(chunks, Effect(io, 'a', dest));
    assert [] + Concat(chunks) == Concat(chunks);
    EmitsMean(ops, verdict, io, []);
    SessionIsRight(GetB(dest, chunks, verdict), io, schedule);
  }

  // ----- putt -----

  predicate NulFree(s: seq<Byte>) { NUL !in s }

  lemma {:induction false} CStringWhole(s: seq<Byte>)
    ensures NulFree(s) <==> CString(s) == s
    ensures NulFree(s) <==> |CString(s)| == |s|
  {
    if s != [] {
      CStringWhole(s[1..]);
      assert s == [s[0]] + s[1..];
    }
  }

  lemma CrToLfJoins(a: seq<Byte>, b: seq<Byte>)
    ensures CrToLf(a + b) == CrToLf(a) + CrToLf(b)
  {
  }

  /** A line and the rest, against the whole. */
  lemma OneLineMore(line: seq<Byte>, rest: seq<Byte>, lines: seq<Byte>, more: seq<Byte>)
    requires line != [] && |more| <= |rest| && (if NulFree(rest) then more == CrToLf(rest) else |more| < |rest|)
    requires lines == if CString(line) == [] then [] else CrToLf(CString(line)) + more
    ensures |lines| <= |line + rest| && (if NulFree(line + rest) then lines == CrToLf(line + rest) else |lines| < |line + rest|)
  {
    CStringWhole(line);
    CrToLfJoins(line, rest);
    assert NulFree(line + rest) <==> NulFree(line) && NulFree(rest);
  }

  /** All the lines, decoded, are the file exactly when it has no NUL. */
  lemma {:induction false} LinesAreTheFile(left: seq<Byte>)
    ensures |AllLines(left)| <= |left|
    ensures if NulFree(left) then AllLines(left) == CrToLf(left) else |AllLines(left)| < |left|
    decreases |left|
  {
    var n := LineLength(left, MAX_LINE);
    if n > 0 {
      var line, rest := left[..n], left[n..];
      assert left == line + rest;
      LinesAreTheFile(rest);
      OneLineMore(line, rest, AllLines(left), AllLines(rest));
    }
  }

  lemma PutTMeans(src: seq<Byte>, verdict: seq<Byte>, io: IO)
    requires verdict != []
    ensures Wellformed(PutT(src, verdict), io)
    ensures Meaning(PutT(src, verdict), io, []) == Result(io.(file := NoFile), AllLines(io.source), verdict)
  {
    var began, finish := Effect(io, 'b', src), [Put('c', [])] + Exit(verdict);
    var asked, received := AfterAsking(began), AllLines(io.source);
    assert finish[1..] == Exit(verdict) && Effect(asked, 'c', []) == io.(file := NoFile);
    ExitMeans(verdict, io.(file := NoFile), received);
    assert Turn(finish, asked) && Meaning(finish, asked, received) == Meaning(Exit(verdict), io.(file := NoFile), received);
    var asking := [Ask] + finish;
    assert asking[1..] == finish && [] + received == received;
    assert Turn(asking, began) && Meaning(asking, began, []) == Meaning(finish, asked, received);
    var after := [Get] + asking;
    assert after[1..] == asking;
    assert Wellformed(after, began) && Meaning(after, began, []) == Meaning(asking, began, []);
    PutMeans('b', src, after, io, []);
    assert PutT(src, verdict) == [Get, Put('b', src)] + after;
  }

  /** putt: a finished session has given the server the file, each CR a LF, if and only if the
      file has no NUL; the client's file is closed and its verdict the server's. */
  lemma PutTCopies(src: seq<Byte>, verdict: seq<Byte>, io: IO, schedule: seq<Actor>)
    requires verdict != []
    ensures var s := Run(Start(PutT(src, verdict), io), schedule);
            s.client.Exited? ==> s.client.verdict == verdict && s.io == io.(file := NoFile) &&
                                 (s.received == CrToLf(io.source) <==> NulFree(io.source))
  {
    PutTMeans(src, verdict, io);
    SessionIsRight(PutT(src, verdict), io, schedule);
    LinesAreTheFile(io.source);
  }

  // ----- putt when the server cannot write -----

  lemma RunStep(s: State, schedule: seq<Actor>, now: State, a: Actor, next: State)
    requires Run(s, schedule) == now && CanStep(now, a) && Step(now, a) == next
    ensures Run(s, schedule + [a]) == next
  {
    RunAppend(s, schedule, [a]);
    assert [a][1..] == [] && Run(next, []) == next;
  }

  /** One MID of the client, taken by a command that waits for it. */
  lemma TakesMid(s: State, schedule: seq<Actor>, now: State, rest: seq<Instr>) returns (more: seq<Actor>)
    requires Run(s, schedule) == now && now.client.SendMid? && Still(now) && now.registered && !now.panicked && !now.asking
    requires now.prog == [Get] + rest
    ensures Run(s, more) == now.(client := Recv, prog := rest)
  {
    var mid := Packet(Mid, []);
    var sent := now.(c2s := [mid], client := Recv);
    RunStep(s, schedule, now, ClientLoop, sent);
    var read := sent.(c2s := [], held := [mid]);
    assert [mid][1..] == [];
    RunStep(s, schedule + [ClientLoop], sent, Dispatcher, read);
    RunStep(s, schedule + [ClientLoop] + [Dispatcher], read, Dispatcher, now.(client := Recv, prog := rest));
    more := schedule + [ClientLoop] + [Dispatcher] + [Dispatcher];
  }

  /** putt to its first '6'. */
  lemma PutTAsks(src: seq<Byte>, verdict: seq<Byte>, io: IO) returns (schedule: seq<Actor>)
    ensures Run(Start(PutT(src, verdict), io), schedule) ==
            Start([Ask, Put('c', [])] + Exit(verdict), io.(file := Reading(io.source))).(client := Recv, s2c := [])
  {
    var start, begun := Start(PutT(src, verdict), io), Packet(Begin, ['+' as int]);
    var after := [Get, Ask, Put('c', [])] + Exit(verdict);
    assert PutT(src, verdict) == [Get] + ([Put('b', src)] + after) && ([Put('b', src)] + after)[1..] == after;
    var first := start.(client := SendMid, s2c := []);
    assert [begun][1..] == [];
    assert Run(start, []) == start;
    RunStep(start, [], start, ClientLoop, first);
    var one := TakesMid(start, [] + [ClientLoop], first, [Put('b', src)] + after);
    var open := Packet(Mid, ['b' as int] + src);
    var opening := first.(client := Recv, prog := after, s2c := [open]);
    RunStep(start, one, first.(client := Recv, prog := [Put('b', src)] + after), Command, opening);
    var reading := first.(prog := after, io := io.(file := Reading(io.source)));
    assert [open][1..] == [] && open.pay[0] as char == 'b';
    RunStep(start, one + [Command], opening, ClientLoop, reading);
    assert after == [Get] + ([Ask, Put('c', [])] + Exit(verdict));
    schedule := TakesMid(start, one + [Command] + [ClientLoop], reading, [Ask, Put('c', [])] + Exit(verdict));
  }

  /** And to the first line it has received. */
  lemma PutTReceives(src: seq<Byte>, verdict: seq<Byte>, io: IO) returns (schedule: seq<Actor>)
    requires AllLines(io.source) != []
    ensures var s := Run(Start(PutT(src, verdict), io), schedule);
            s.received != [] && s.prog == [Ask, Put('c', [])] + Exit(verdict) && !s.asking && !s.panicked
  {
    var start, prog := Start(PutT(src, verdict), io), [Ask, Put('c', [])] + Exit(verdict);
    var reading := io.(file := Reading(io.source));
    var line := Packet(Mid, Line(reading));
    var ask := Packet(Mid, ['6' as int]);
    assert Input(reading) == io.source && Line(reading)[1..] == CString(io.source[..LineLength(io.source, MAX_LINE)]);
    var asks := PutTAsks(src, verdict, io);
    var asking := Start(prog, reading).(client := Recv, s2c := []);
    var asked := asking.(s2c := [ask], asking := true);
    RunStep(start, asks, asking, Command, asked);
    var sent := asking.(io := LineRead(reading), c2s := [line], asking := true);
    assert [ask][1..] == [] && [line][1..] == [];
    RunStep(start, asks + [Command], asked, ClientLoop, sent);
    var read := sent.(c2s := [], held := [line]);
    RunStep(start, asks + [Command] + [ClientLoop], sent, Dispatcher, read);
    var got := asking.(io := LineRead(reading), received := [] + CrToLf(line.pay[1..]));
    RunStep(start, asks + [Command] + [ClientLoop] + [Dispatcher], read, Dispatcher, got);
    schedule := asks + [Command] + [ClientLoop] + [Dispatcher] + [Dispatcher];
  }

  /** So it is with a putt of any file that is not empty to C, whose first line the server cannot
      write: it panics in its turn, and the session never ends. */
  lemma PutTWriteFailureHangs(src: seq<Byte>, verdict: seq<Byte>, io: IO, panic: seq<Byte>)
    requires verdict != [] && panic != [] && AllLines(io.source) != []
    ensures exists before ::
              var s := Run(Start(PutT(src, verdict), io), before);
              && MayPanic(s) && s.received != [] && HasTurn(s)
              && forall schedule :: !Run(Recovered(s, panic), schedule).client.Exited?
  {
    var before := PutTReceives(src, verdict, io);
    PutTMeans(src, verdict, io);
    var g, n := Meaning(PutT(src, verdict), io, []), 1 + Cost(PutT(src, verdict), io);
    RunKeeps(Start(PutT(src, verdict), io), before, g, n);
    var s := Run(Start(PutT(src, verdict), io), before);
    assert s.prog[0] == Ask && |s.prog| == 6;
    PanicInTurn(s, g, n - Moves(Start(PutT(src, verdict), io), before), panic);
    forall schedule ensures !Run(Recovered(s, panic), schedule).client.Exited? { NobodyMoves(Recovered(s, panic), schedule); }
  }
}
