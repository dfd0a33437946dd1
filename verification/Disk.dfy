/**
  The remote sector device: the RBLemma driver's BlockRead and BlockWrite on the CoCo, the block
  cases of the server's command loop, and the two byte streams between them.
 */
module Disk {
  import opened Bytes

  const BLOCK_READ: Byte := 207
  const BLOCK_WRITE: Byte := 208
  const BLOCK_ERROR: Byte := 209
  const BLOCK_OKAY: Byte := 210
  const CACHE_READ: Byte := 205
  const CACHE_OKAY: Byte := 206
  const SECTOR: nat := 256

  // ----- Quints -----

  function Five(cmd: Byte, n: Word, p: Word): (q: seq<Byte>)
    ensures |q| == 5
  {
    [cmd, Hi(n), Lo(n), Hi(p), Lo(p)]
  }

  // ----- The image file -----

  function Zeros(n: nat): (z: seq<Byte>)
    ensures |z| == n
  {
    seq(n, _ => 0)
  }

  /** A read of 256 bytes at an offset, into a buffer of zeros. */
  function SectorAt(image: seq<Byte>, lsn: nat): (buf: seq<Byte>)
    ensures |buf| == SECTOR
  {
    if SECTOR * lsn + SECTOR <= |image| then image[SECTOR * lsn..SECTOR * lsn + SECTOR]
    else if SECTOR * lsn < |image| then image[SECTOR * lsn..] + Zeros(SECTOR * lsn + SECTOR - |image|)
    else Zeros(SECTOR)
  }

  /** Where the file ends within the sector, the read comes up short and the server panics. */
  predicate ShortRead(image: seq<Byte>, lsn: nat) { SECTOR * lsn < |image| < SECTOR * lsn + SECTOR }

  /** A write beyond the end leaves a hole of zeros before it. */
  function WriteAt(image: seq<Byte>, lsn: nat, data: seq<Byte>): (r: seq<Byte>)
    requires |data| == SECTOR
  {
    var at := SECTOR * lsn;
    var padded := if |image| < at then image + Zeros(at - |image|) else image;
    padded[..at] + data + if at + SECTOR <= |padded| then padded[at + SECTOR..] else []
  }

  // ----- The driver's calls -----

  type SectorData = d: seq<Byte> | |d| == SECTOR witness Zeros(SECTOR)

  /** drive, and the 24-bit sector number as the driver is given it. */
  datatype Op = Read(drive: Byte, lsn1: Byte, lsn2: Word) | Write(drive: Byte, lsn1: Byte, lsn2: Word, data: SectorData)

  datatype Result = Sector(data: seq<Byte>) | Done | Failed(errnum: Byte)

  function Lsn(op: Op): nat { op.lsn1 * 0x1_0000 + op.lsn2 }

  function Request(op: Op): (q: seq<Byte>)
    ensures |q| == 5
  {
    Five(if op.Read? then BLOCK_READ else BLOCK_WRITE, HiLo(op.drive, op.lsn1), op.lsn2)
  }

  // ----- The two programs and the streams -----

  /** One direction of the connection: what is still on its way, then what has arrived. */
  datatype Pipe = Pipe(flight: seq<Byte>, arrived: seq<Byte>)

  function Send(p: Pipe, data: seq<Byte>): Pipe { p.(flight := p.flight + data) }
  function Take(p: Pipe, n: nat): Pipe requires n <= |p.arrived| { p.(arrived := p.arrived[n..]) }

  /** Where the driver is: between calls, between the two sends of BlockWrite, waiting for the
      confirmation, or for the sector after it. */
  datatype Host = Idle | SendingData | AwaitAck | AwaitSector

  /** Where the server is: at ReadFive, between the two writes of a block read, at the ReadFull
      of a block write, or about to confirm it. */
  datatype Server = AwaitFive | SendSector(buf: seq<Byte>) | AwaitData(lsn: nat) | Confirm | Panicked

  datatype State = State(host: Host, ops: seq<Op>, results: seq<Result>, up: Pipe, down: Pipe, server: Server, image: seq<Byte>)

  /** Who moves: the driver, the server, or the network with at most so many bytes and one. */
  datatype Actor = HostMoves | ServerMoves | Up(n: nat) | Down(n: nat)

  function Start(ops: seq<Op>, image: seq<Byte>): State {
    State(Idle, ops, [], Pipe([], []), Pipe([], []), AwaitFive, image)
  }

  predicate HostCan(s: State) {
    match s.host
    case Idle => s.ops != []
    case SendingData => s.ops != []
    case AwaitAck => s.ops != [] && |s.down.arrived| >= 5
    case AwaitSector => s.ops != [] && |s.down.arrived| >= SECTOR
  }

  function Return(s: State, r: Result): State
    requires s.ops != []
  {
    s.(host := Idle, ops := s.ops[1..], results := s.results + [r])
  }

  /** What a confirmation other than CMD_BLOCK_OKAY returns; the low byte of q.p is all that an
      errnum keeps. */
  function Refusal(q: seq<Byte>): Byte
    requires |q| == 5
  {
    if q[0] == BLOCK_ERROR then if HiLo(q[3], q[4]) != 0 then q[4] else 187 else 192
  }

  function HostStep(s: State): State
    requires HostCan(s)
  {
    var op := s.ops[0];
    match s.host
    case Idle => s.(up := Send(s.up, Request(op)), host := if op.Read? then AwaitAck else SendingData)
    case SendingData => s.(up := Send(s.up, if op.Write? then op.data else []), host := AwaitAck)
    case AwaitAck =>
      var q, t := s.down.arrived[..5], s.(down := Take(s.down, 5));
      if q[0] != BLOCK_OKAY then Return(t, Failed(Refusal(q)))
      else if op.Read? then t.(host := AwaitSector) else Return(t, Done)
    case AwaitSector => Return(s.(down := Take(s.down, SECTOR)), Sector(s.down.arrived[..SECTOR]))
  }

  predicate ServerCan(s: State) {
    match s.server
    case AwaitFive => |s.up.arrived| >= 5
    case AwaitData(_) => |s.up.arrived| >= SECTOR
    case SendSector(_) => true
    case Confirm => true
    case Panicked => false
  }

  /** The sector number in a quint; the drive in the high byte of n is ignored. */
  function QuintLsn(q: seq<Byte>): nat
    requires |q| == 5
  {
    Lo(HiLo(q[1], q[2])) * 0x1_0000 + HiLo(q[3], q[4])
  }

  /** The command loop's block cases; the other commands are not part of this model. */
  function Dispatch(s: State, q: seq<Byte>): State
    requires |q| == 5
  {
    var lsn := QuintLsn(q);
    if q[0] == BLOCK_READ || q[0] == CACHE_READ then
      if ShortRead(s.image, lsn) then s.(server := Panicked)
      else s.(down := Send(s.down, Five(if q[0] == BLOCK_READ then BLOCK_OKAY else CACHE_OKAY, HiLo(q[1], q[2]), HiLo(q[3], q[4]))),
              server := SendSector(SectorAt(s.image, lsn)))
    else if q[0] == BLOCK_WRITE then s.(server := AwaitData(lsn))
    else s.(server := Panicked)
  }

  function ServerStep(s: State): State
    requires ServerCan(s)
  {
    match s.server
    case AwaitFive => Dispatch(s.(up := Take(s.up, 5)), s.up.arrived[..5])
    case SendSector(buf) => s.(down := Send(s.down, buf), server := AwaitFive)
    case AwaitData(lsn) => s.(up := Take(s.up, SECTOR), image := WriteAt(s.image, lsn, s.up.arrived[..SECTOR]), server := Confirm)
    case Confirm => s.(down := Send(s.down, Five(BLOCK_OKAY, 0xFFFF, 0xFFFF)), server := AwaitFive)
  }

  /** The network brings n + 1 bytes nearer, or all there are. */
  function Carry(p: Pipe, n: nat): Pipe {
    var k := if n < |p.flight| then n + 1 else |p.flight|;
    Pipe(p.flight[k..], p.arrived + p.flight[..k])
  }

  predicate Can(s: State, a: Actor) {
    match a
    case HostMoves => HostCan(s)
    case ServerMoves => ServerCan(s)
    case Up(_) => s.up.flight != []
    case Down(_) => s.down.flight != []
  }

  /** One step of a schedule; an actor that cannot move lets it pass. */
  function Step(s: State, a: Actor): State {
    if !Can(s, a) then s
    else
      match a
      case HostMoves => HostStep(s)
      case ServerMoves => ServerStep(s)
      case Up(n) => s.(up := Carry(s.up, n))
      case Down(n) => s.(down := Carry(s.down, n))
  }

  function Run(s: State, schedule: seq<Actor>): State
    decreases |schedule|
  {
    if schedule == [] then s else Run(Step(s, schedule[0]), schedule[1..])
  }

  // ----- What it is to the file system: an array of sectors -----

  /** The array: the image's sectors, and zeros for ever after. */
  function After(ops: seq<Op>, image: seq<Byte>): seq<Byte> {
    if ops == [] then image
    else
      var op, before := ops[|ops| - 1], After(ops[..|ops| - 1], image);
      if op.Read? then before else WriteAt(before, Lsn(op), op.data)
  }

  /** What the last of the writes to a sector put there, or else what was there at first. */
  function Held(ops: seq<Op>, image: seq<Byte>, lsn: nat): seq<Byte> {
    if ops == [] then SectorAt(image, lsn)
    else
      var op := ops[|ops| - 1];
      if op.Write? && Lsn(op) == lsn then op.data else Held(ops[..|ops| - 1], image, lsn)
  }

  function Answer(ops: seq<Op>, image: seq<Byte>, k: nat): Result
    requires k < |ops|
  {
    if ops[k].Write? then Done else Sector(Held(ops[..k], image, Lsn(ops[k])))
  }

  predicate Whole(image: seq<Byte>) { |image| % SECTOR == 0 }
}
