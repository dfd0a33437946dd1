/**
  One mux session between the client of r.c and a server command of mux.go: the client's
  loop, the server's dispatcher, and the command's goroutine, passing BEGIN, MID and END
  packets over two byte streams that keep order.
 */
module Mux {
  import opened Bytes

  const NUL: Byte := 0
  const LF: Byte := 10
  const CR: Byte := 13
  const MAX_LINE: nat := 256          // FGets(buf+6, sizeof buf - 7, ..): 257, less its NUL

  datatype Kind = Begin | Mid | End
  datatype Packet = Packet(kind: Kind, pay: seq<Byte>)

  // ----- Client files -----

  /** FilePtr: closed, writing, or reading what is left. */
  datatype Open = NoFile | Writing(data: seq<Byte>) | Reading(left: seq<Byte>)

  /** The client's world: the open file, files written and closed, standard output and error,
      the contents that opening a file for reading finds, and standard input. */
  datatype IO = IO(file: Open, saved: seq<seq<Byte>>, out: seq<Byte>, err: seq<Byte>, source: seq<Byte>, input: seq<Byte>)

  /** What C string functions see of a buffer: the bytes before the first NUL. */
  function CString(s: seq<Byte>): (r: seq<Byte>)
    ensures |r| <= |s|
  {
    if s == [] || s[0] == NUL then [] else [s[0]] + CString(s[1..])
  }

  /** The client's switch on a subcommand other than '.' and '6', where it does not give up. */
  function Effect(io: IO, tag: char, pay: seq<Byte>): IO {
    if tag == '1' then Written(io, CString(pay))
    else if tag == '2' then io.(err := io.err + CString(pay))
    else if tag == '4' then Written(io, pay)
    else if tag == 'a' then io.(file := Writing([]))
    else if tag == 'b' then io.(file := Reading(io.source))
    else if tag == 'c' then io.(file := NoFile, saved := if io.file.Writing? then io.saved + [io.file.data] else io.saved)
    else io
  }

  /** To the open file or else standard output; a file open for reading takes nothing. */
  function Written(io: IO, data: seq<Byte>): IO {
    match io.file
    case NoFile => io.(out := io.out + data)
    case Writing(had) => io.(file := Writing(had + data))
    case Reading(_) => io
  }

  /** Where the client gives up: FWrite to a file open for reading, FClose of none. */
  predicate GivesUp(io: IO, tag: char) {
    (tag == '4' && io.file.Reading?) || (tag == 'c' && io.file.NoFile?)
  }

  /** Os9ReadLn: up to and including a carriage return, at most MAX_LINE bytes. */
  function LineLength(s: seq<Byte>, max: nat): (n: nat)
    ensures n <= |s| && n <= max && (s != [] && max > 0 ==> n > 0)
  {
    if s == [] || max == 0 then 0 else if s[0] == CR then 1 else 1 + LineLength(s[1..], max - 1)
  }

  // ----- Server commands -----

  /** What a command's goroutine does: LowGetOne(MID); LowPutOne of a MID subcommand; the putt
      loop that asks for lines; and Exit3's last two steps. */
  datatype Instr = Get | Put(tag: char, pay: seq<Byte>) | Ask | GetEnd | PutEnd(verdict: seq<Byte>)

  /** Exit3. */
  function Exit(verdict: seq<Byte>): seq<Instr> { [Get, Put('.', []), GetEnd, PutEnd(verdict)] }

  /** A command that sends one subcommand after another: help, echo, vecho, gett, getb. */
  function Emits(ops: seq<(char, seq<Byte>)>, rest: seq<Instr>): seq<Instr> {
    if ops == [] then rest else [Get, Put(ops[0].0, ops[0].1)] + Emits(ops[1..], rest)
  }

  function ChunkOps(chunks: seq<seq<Byte>>): seq<(char, seq<Byte>)> {
    if chunks == [] then [] else [('4', chunks[0])] + ChunkOps(chunks[1..])
  }

  /** getb, sending the file in whatever chunks the reader yields. */
  function GetB(dest: seq<Byte>, chunks: seq<seq<Byte>>, verdict: seq<Byte>): seq<Instr> {
    Emits([('a', dest)] + ChunkOps(chunks) + [('c', [])], Exit(verdict))
  }

  /** putt: open, see that the next packet carries no complaint, ask for lines, close. */
  function PutT(src: seq<Byte>, verdict: seq<Byte>): seq<Instr> {
    [Get, Put('b', src), Get, Ask, Put('c', [])] + Exit(verdict)
  }

  // ----- The three actors -----

  datatype Client = AwaitBegin | SendMid | Recv | SendEnd | AwaitEnd | Exited(verdict: seq<Byte>) | Fatal

  /** prog is what the goroutine still has to do; asking means it waits for a line; panicked
      means it met a packet it did not expect. */
  datatype State = State(client: Client, io: IO, c2s: seq<Packet>, held: seq<Packet>, registered: bool,
                         prog: seq<Instr>, asking: bool, received: seq<Byte>, panicked: bool, s2c: seq<Packet>)

  datatype Actor = ClientLoop | Dispatcher | Command

  /** After BeginMux has found the command and registered the process. */
  function Start(prog: seq<Instr>, io: IO): State {
    State(AwaitBegin, io, [], [], true, prog, false, [], false, [Packet(Begin, ['+' as int])])
  }

  predicate ClientCanStep(s: State) {
    s.client.SendMid? || s.client.SendEnd? || (s.s2c != [] && (s.client.AwaitBegin? || s.client.Recv? || s.client.AwaitEnd?))
  }

  /** What FGets reads from: the open file, or standard input. */
  function Input(io: IO): seq<Byte> {
    match io.file case NoFile => io.input case Reading(left) => left case Writing(_) => []
  }

  function WithInput(io: IO, left: seq<Byte>): IO {
    match io.file case NoFile => io.(input := left) case Reading(_) => io.(file := Reading(left)) case Writing(_) => io
  }

  /** The payload of the answer to '6': one line, without what follows a NUL, or nothing at the
      end of the input. */
  function Line(io: IO): seq<Byte> {
    var n := LineLength(Input(io), MAX_LINE);
    if n == 0 then [] else ['6' as int] + CString(Input(io)[..n])
  }

  function LineRead(io: IO): IO { WithInput(io, Input(io)[LineLength(Input(io), MAX_LINE)..]) }

  /** The '6' case; a file open for writing cannot be read. */
  function SendLine(s: State): State {
    if s.io.file.Writing? then s.(c2s := s.c2s + [Packet(End, ['-' as int])])
    else s.(io := LineRead(s.io), c2s := s.c2s + [Packet(Mid, Line(s.io))])
  }

  function OnMid(s: State, pay: seq<Byte>): State
    requires pay != []
  {
    if pay[0] == '.' as int then s.(client := SendEnd)
    else if pay[0] == '6' as int then SendLine(s)
    else if GivesUp(s.io, pay[0] as char) then s.(client := Fatal)
    else s.(client := SendMid, io := Effect(s.io, pay[0] as char, pay[1..]))
  }

  function ClientStep(s: State): State
    requires ClientCanStep(s)
  {
    match s.client
    case SendMid => s.(c2s := s.c2s + [Packet(Mid, [])], client := Recv)
    case SendEnd => s.(c2s := s.c2s + [Packet(End, [])], client := AwaitEnd)
    case _ =>
      var p, t := s.s2c[0], s.(s2c := s.s2c[1..]);
      if p.pay == [] then t.(client := Fatal)
      else if t.client.AwaitBegin? then t.(client := if p.kind.Begin? then SendMid else Fatal)
      else if t.client.AwaitEnd? then t.(client := if p.kind.End? then Exited(p.pay) else Fatal)
      else if p.kind.Mid? then OnMid(t, p.pay) else t.(client := Fatal)
  }

  /** The goroutine stands at a receive from its channel. */
  predicate Waiting(s: State) {
    !s.panicked && (s.asking || (s.prog != [] && (s.prog[0].Get? || s.prog[0].GetEnd?)))
  }

  predicate DispatcherCanStep(s: State) {
    if s.held == [] then s.c2s != [] else !s.registered || Waiting(s)
  }

  function CrToLf(s: seq<Byte>): (r: seq<Byte>)
    ensures |r| == |s|
  {
    seq(|s|, i requires 0 <= i < |s| => if s[i] == CR then LF else s[i])
  }

  /** LowGetOne, and for putt what is done with the line. */
  function Handed(s: State, p: Packet): State
    requires Waiting(s)
  {
    if s.asking then
      if !p.kind.Mid? || s.prog == [] then s.(panicked := true)
      else if p.pay == [] || p.pay == ['6' as int] then s.(asking := false, prog := s.prog[1..])
      else if p.pay[0] == '6' as int then s.(asking := false, received := s.received + CrToLf(p.pay[1..]))
      else s.(panicked := true)
    else if s.prog[0].Get? then if p.kind.Mid? then s.(prog := s.prog[1..]) else s.(panicked := true)
    else if p.kind.End? then s.(prog := s.prog[1..]) else s.(panicked := true)
  }

  /** Read a packet off the connection, or hand the one read to the waiting goroutine (MidMux,
      EndMux); a packet for no process is answered with a complaint. */
  function DispatcherStep(s: State): State
    requires DispatcherCanStep(s)
  {
    if s.held == [] then s.(held := [s.c2s[0]], c2s := s.c2s[1..])
    else
      var p, t := s.held[0], s.(held := s.held[1..]);
      if !t.registered then t.(s2c := t.s2c + [Packet(p.kind, ['-' as int])])
      else Handed(t, p).(registered := !p.kind.End?)
  }

  function Code(tag: char): Byte { if (tag as int) < 256 then tag as int else 0 }

  predicate CommandCanStep(s: State) {
    !s.panicked && !s.asking && s.prog != [] && (s.prog[0].Put? || s.prog[0].Ask? || s.prog[0].PutEnd?)
  }

  function CommandStep(s: State): State
    requires CommandCanStep(s)
  {
    match s.prog[0]
    case Put(tag, pay) =>
      s.(s2c := s.s2c + [Packet(Mid, [Code(tag)] + pay)], prog := s.prog[1..])
    case PutEnd(verdict) => s.(s2c := s.s2c + [Packet(End, verdict)], prog := s.prog[1..])
    case Ask => s.(s2c := s.s2c + [Packet(Mid, ['6' as int])], asking := true)
  }

  predicate CanStep(s: State, a: Actor) {
    match a
    case ClientLoop => ClientCanStep(s)
    case Dispatcher => DispatcherCanStep(s)
    case Command => CommandCanStep(s)
  }

  function Step(s: State, a: Actor): State
    requires CanStep(s, a)
  {
    match a
    case ClientLoop => ClientStep(s)
    case Dispatcher => DispatcherStep(s)
    case Command => CommandStep(s)
  }

  /** A run under any schedule: an actor chosen when it cannot step does nothing. */
  function Run(s: State, schedule: seq<Actor>): State
    decreases |schedule|
  {
    if schedule == [] then s
    else Run(if CanStep(s, schedule[0]) then Step(s, schedule[0]) else s, schedule[1..])
  }

  // ----- What a session is for, without the protocol -----

  datatype Result = Result(io: IO, received: seq<Byte>, verdict: seq<Byte>)

  /** The lines still to come, as putt receives them: it stops at the end, or at a line that
      looks empty to C. */
  function AllLines(left: seq<Byte>): seq<Byte>
    decreases |left|
  {
    var n := LineLength(left, MAX_LINE);
    if n == 0 || CString(left[..n]) == [] then []
    else CrToLf(CString(left[..n])) + AllLines(left[n..])
  }

  /** What reading those lines leaves. */
  function AfterLines(left: seq<Byte>): seq<Byte>
    decreases |left|
  {
    var n := LineLength(left, MAX_LINE);
    if n == 0 then [] else if CString(left[..n]) == [] then left[n..] else AfterLines(left[n..])
  }

  /** How often '6' is asked for them. */
  function Askings(left: seq<Byte>): nat
    decreases |left|
  {
    var n := LineLength(left, MAX_LINE);
    if n == 0 || CString(left[..n]) == [] then 1 else 1 + Askings(left[n..])
  }

  function AfterAsking(io: IO): IO { WithInput(io, AfterLines(Input(io))) }

  /** Each instruction's effect on the two sides, as if they were one program. */
  function Meaning(prog: seq<Instr>, io: IO, received: seq<Byte>): Result
    decreases |prog|
  {
    if prog == [] then Result(io, received, [])
    else
      match prog[0]
      case PutEnd(v) => Result(io, received, v)
      case Put(tag, pay) => Meaning(prog[1..], Effect(io, tag, pay), received)
      case Ask => Meaning(prog[1..], AfterAsking(io), received + AllLines(Input(io)))
      case _ => Meaning(prog[1..], io, received)
  }

  /** How many steps that takes, the two receptions of the client's packets included. */
  function Cost(prog: seq<Instr>, io: IO): nat
    decreases |prog|
  {
    if prog == [] then 0
    else
      match prog[0]
      case PutEnd(v) => 2
      case Put(tag, pay) => 2 + Cost(prog[1..], Effect(io, tag, pay))
      case Ask => 4 * Askings(Input(io)) + Cost(prog[1..], AfterAsking(io))
      case _ => 3 + Cost(prog[1..], io)
  }

  predicate Ordinary(io: IO, i: Instr) {
    i.Put? && (i.tag as int) < 256 && i.tag != '.' && i.tag != '6' && !GivesUp(io, i.tag)
  }

  /** What a command still does after the client's MID: one subcommand, or a bout of asking for
      lines and then one subcommand; or Exit3's end. */
  predicate Turn(prog: seq<Instr>, io: IO)
    decreases |prog|
  {
    prog != [] &&
    if prog[0].Ask? then |prog| > 1 && !io.file.Writing? && Ordinary(AfterAsking(io), prog[1]) && Turn(prog[1..], AfterAsking(io))
    else if Ordinary(io, prog[0]) then Wellformed(prog[1..], Effect(io, prog[0].tag, prog[0].pay))
    else prog[0] == Put('.', []) && |prog| == 3 && prog[1].GetEnd? && prog[2].PutEnd? && prog[2].verdict != []
  }

  predicate Wellformed(prog: seq<Instr>, io: IO)
    decreases |prog|
  {
    prog != [] && prog[0].Get? && Turn(prog[1..], io)
  }
}
