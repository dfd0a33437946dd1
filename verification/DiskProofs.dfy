/** The remote sector device behaves as an array of sectors, whatever the timing. */
module DiskProofs {
  import opened Bytes
  import opened Disk

  // ----- The image as an array of sectors -----

  lemma SectorAfterWrite(image: seq<Byte>, lsn: nat, data: SectorData, other: nat)
    ensures Whole(image) ==> Whole(WriteAt(image, lsn, data))
    ensures SectorAt(WriteAt(image, lsn, data), other) == if other == lsn then data else SectorAt(image, other)
  {
    var r := WriteAt(image, lsn, data);
    assert |r| == if |image| < SECTOR * lsn + SECTOR then SECTOR * lsn + SECTOR else |image|;
    assert SectorAt(r, other) == if other == lsn then data else SectorAt(image, other);
  }

  /** Applied one by one, the writes leave in each sector what the last one to it put there. */
  lemma {:induction false} AfterHolds(ops: seq<Op>, image: seq<Byte>, lsn: nat)
    ensures Whole(image) ==> Whole(After(ops, image))
    ensures SectorAt(After(ops, image), lsn) == Held(ops, image, lsn)
  {
    if ops != [] {
      var op, rest := ops[|ops| - 1], ops[..|ops| - 1];
      AfterHolds(rest, image, lsn);
      if op.Write? {
        SectorAfterWrite(After(rest, image), Lsn(op), op.data, lsn);
      }
    }
  }

  // ----- Quints over the wire -----

  lemma QuintArrives(op: Op)
    ensures QuintLsn(Request(op)) == Lsn(op)
    ensures Request(op)[0] == if op.Read? then BLOCK_READ else BLOCK_WRITE
    ensures HiLo(Request(op)[1], Request(op)[2]) == HiLo(op.drive, op.lsn1) && HiLo(Request(op)[3], Request(op)[4]) == op.lsn2
  {
    WordArrives(HiLo(op.drive, op.lsn1));
    WordArrives(op.lsn2);
    LowByte(op.drive, op.lsn1);
  }

  // ----- Where a call can be -----

  function All(p: Pipe): seq<Byte> { p.arrived + p.flight }

  function Echo(op: Op): (q: seq<Byte>)
    ensures |q| == 5 && q[0] == BLOCK_OKAY
  {
    Five(BLOCK_OKAY, HiLo(op.drive, op.lsn1), op.lsn2)
  }

  predicate Reading(s: State, op: Op) {
    var sector := SectorAt(s.image, Lsn(op));
    match s.host
    case AwaitAck =>
      (s.server == AwaitFive && All(s.up) == Request(op) && All(s.down) == []) ||
      (!ShortRead(s.image, Lsn(op)) && All(s.up) == [] &&
        ((s.server == SendSector(sector) && All(s.down) == Echo(op)) || (s.server == AwaitFive && All(s.down) == Echo(op) + sector)))
    case AwaitSector =>
      !ShortRead(s.image, Lsn(op)) && All(s.up) == [] &&
        ((s.server == SendSector(sector) && All(s.down) == []) || (s.server == AwaitFive && All(s.down) == sector))
    case _ => false
  }

  predicate Writing(s: State, op: Op)
    requires op.Write?
  {
    match s.host
    case SendingData =>
      All(s.down) == [] && ((s.server == AwaitFive && All(s.up) == Request(op)) || (s.server == AwaitData(Lsn(op)) && All(s.up) == []))
    case AwaitAck =>
      (s.server == AwaitFive && All(s.up) == Request(op) + op.data && All(s.down) == []) ||
      (s.server == AwaitData(Lsn(op)) && All(s.up) == op.data && All(s.down) == []) ||
      (s.server == Confirm && All(s.up) == [] && All(s.down) == []) ||
      (s.server == AwaitFive && All(s.up) == [] && All(s.down) == Five(BLOCK_OKAY, 0xFFFF, 0xFFFF))
    case _ => false
  }

  /** Between calls both streams are empty and the server waits; within one, it is at one of the
      places above. */
  predicate InCall(s: State) {
    if s.host.Idle? then s.server == AwaitFive && All(s.up) == [] && All(s.down) == []
    else s.ops != [] && if s.ops[0].Read? then Reading(s, s.ops[0]) else Writing(s, s.ops[0])
  }

  /** The file has been written, but the call has not returned. */
  predicate Committed(s: State) {
    s.ops != [] && s.ops[0].Write? && (s.server.Confirm? || (s.host.AwaitAck? && All(s.down) != []))
  }

  /** The k-th call is not a read of the sector within which the file then ends. */
  predicate SafeCall(ops: seq<Op>, image: seq<Byte>, k: nat)
    requires k < |ops|
  {
    ops[k].Read? ==> !ShortRead(After(ops[..k], image), Lsn(ops[k]))
  }

  predicate SafeTo(ops: seq<Op>, image: seq<Byte>, n: nat)
    requires n <= |ops|
  {
    forall k {:trigger SafeCall(ops, image, k)} :: 0 <= k < n ==> SafeCall(ops, image, k)
  }

  predicate Good(s: State, ops: seq<Op>, image: seq<Byte>) {
    var k := |s.results|;
    k <= |ops| && s.ops == ops[k..] && InCall(s) && SafeTo(ops, image, k) &&
    s.image == After(if Committed(s) then ops[..k + 1] else ops[..k], image) &&
    Answered(s.results, ops, image)
  }

  predicate Answered(results: seq<Result>, ops: seq<Op>, image: seq<Byte>) {
    |results| <= |ops| && forall i {:trigger Answer(ops, image, i)} :: 0 <= i < |results| ==> results[i] == Answer(ops, image, i)
  }

  // ----- One step -----

  lemma CarryKeeps(p: Pipe, n: nat)
    ensures All(Carry(p, n)) == All(p)
    ensures p.flight != [] ==> |Carry(p, n).flight| < |p.flight|
  {
  }

  lemma SendAll(p: Pipe, data: seq<Byte>)
    ensures All(Send(p, data)) == All(p) + data
  {
  }

  /** What is taken off the front of the stream was sent first. */
  lemma TakeAll(p: Pipe, n: nat)
    requires n <= |p.arrived|
    ensures All(p) == p.arrived[..n] + All(Take(p, n)) && |p.arrived[..n]| == n
  {
  }

  /** A message taken off a stream that begins with it. */
  lemma TakeMessage(p: Pipe, message: seq<Byte>, rest: seq<Byte>)
    requires |message| <= |p.arrived| && All(p) == message + rest
    ensures p.arrived[..|message|] == message && All(Take(p, |message|)) == rest
  {
    TakeAll(p, |message|);
    assert All(p)[..|message|] == message && All(p)[|message|..] == rest;
    assert All(p)[..|message|] == p.arrived[..|message|];
    assert All(p)[|message|..] == All(Take(p, |message|));
  }

  /** How far a call has come: no step is taken twice, and each send weighs more than what it
      puts on its way. */
  function Spent(s: State): (w: nat)
    ensures w < 300
  {
    if s.host.Idle? || s.ops == [] then 0
    else if s.ops[0].Read? then
      (if s.server.SendSector? then 20 else if All(s.up) != [] then 10 else 290) + (if s.host.AwaitSector? then 1 else 0)
    else if s.host.SendingData? then if s.server.AwaitFive? then 10 else 11
    else if s.server.AwaitData? then 281 else if s.server.Confirm? then 282 else if All(s.up) != [] then 280 else 290
  }

  /** A bound on the moves still to come. */
  function Left(s: State): nat {
    |s.up.flight| + |s.down.flight| + (if s.ops == [] then 0 else 600 * |s.ops| - Spent(s))
  }

  lemma ReturnKeeps(s: State, r: Result, ops: seq<Op>, image: seq<Byte>)
    requires s.ops != [] && |s.results| < |ops| && s.ops == ops[|s.results|..]
    requires SafeTo(ops, image, |s.results|) && SafeCall(ops, image, |s.results|)
    requires s.server == AwaitFive && All(s.up) == [] && All(s.down) == []
    requires s.image == After(ops[..|s.results| + 1], image)
    requires Answered(s.results, ops, image) && r == Answer(ops, image, |s.results|)
    ensures Good(Return(s, r), ops, image) && Left(Return(s, r)) <= 600 * (|s.ops| - 1)
  {
    var t := Return(s, r);
    forall i {:trigger Answer(ops, image, i)} | 0 <= i < |t.results| ensures t.results[i] == Answer(ops, image, i) {
      if i < |s.results| {
        assert s.results[i] == Answer(ops, image, i);
      }
    }
  }

  /** A read leaves the image as it was. */
  lemma AfterRead(ops: seq<Op>, image: seq<Byte>, k: nat)
    requires k < |ops| && ops[k].Read?
    ensures After(ops[..k + 1], image) == After(ops[..k], image)
  {
    assert ops[..k + 1][..k] == ops[..k];
  }

  lemma AfterWrite(ops: seq<Op>, image: seq<Byte>, k: nat)
    requires k < |ops| && ops[k].Write?
    ensures After(ops[..k + 1], image) == WriteAt(After(ops[..k], image), Lsn(ops[k]), ops[k].data)
  {
    assert ops[..k + 1][..k] == ops[..k];
  }

  lemma HostAsks(s: State, ops: seq<Op>, image: seq<Byte>)
    requires Good(s, ops, image) && HostCan(s) && s.host.Idle?
    ensures Good(HostStep(s), ops, image) && Left(HostStep(s)) < Left(s)
  {
    var op := s.ops[0];
    SendAll(s.up, Request(op));
    assert [] + Request(op) == Request(op);
  }

  lemma HostSendsData(s: State, ops: seq<Op>, image: seq<Byte>)
    requires Good(s, ops, image) && HostCan(s) && s.host.SendingData?
    ensures Good(HostStep(s), ops, image) && Left(HostStep(s)) < Left(s)
  {
    var op := s.ops[0];
    SendAll(s.up, op.data);
    assert [] + op.data == op.data;
  }

  lemma HostConfirmed(s: State, ops: seq<Op>, image: seq<Byte>)
    requires Good(s, ops, image) && HostCan(s) && s.host.AwaitAck?
    ensures Good(HostStep(s), ops, image) && Left(HostStep(s)) < Left(s)
  {
    var op, k := s.ops[0], |s.results|;
    assert op == ops[k];
    if op.Read? {
      var rest := if s.server.AwaitFive? then SectorAt(s.image, Lsn(op)) else [];
      assert Echo(op) + [] == Echo(op);
      TakeMessage(s.down, Echo(op), rest);
    } else {
      var ack := Five(BLOCK_OKAY, 0xFFFF, 0xFFFF);
      assert ack + [] == ack;
      TakeMessage(s.down, ack, []);
      ReturnKeeps(s.(down := Take(s.down, 5)), Done, ops, image);
    }
  }

  lemma HostReceives(s: State, ops: seq<Op>, image: seq<Byte>)
    requires Good(s, ops, image) && HostCan(s) && s.host.AwaitSector?
    ensures Good(HostStep(s), ops, image) && Left(HostStep(s)) < Left(s)
  {
    var op, k := s.ops[0], |s.results|;
    assert op == ops[k];
    var sector := SectorAt(s.image, Lsn(op));
    assert sector + [] == sector;
    TakeMessage(s.down, sector, []);
    AfterRead(ops, image, k);
    AfterHolds(ops[..k], image, Lsn(op));
    ReturnKeeps(s.(down := Take(s.down, SECTOR)), Sector(sector), ops, image);
  }

  lemma ReadArrives(s: State)
    requires s.ops != [] && s.ops[0].Read? && s.host.AwaitAck? && s.server.AwaitFive? && |s.up.arrived| >= 5
    requires All(s.up) == Request(s.ops[0]) && All(s.down) == [] && !ShortRead(s.image, Lsn(s.ops[0]))
    ensures var t, op := ServerStep(s), s.ops[0];
            t == s.(up := t.up, down := t.down, server := SendSector(SectorAt(s.image, Lsn(op)))) &&
            All(t.up) == [] && All(t.down) == Echo(op) &&
            |t.up.flight| <= |s.up.flight| && |t.down.flight| == |s.down.flight| + 5
  {
    var op := s.ops[0];
    QuintArrives(op);
    assert Request(op) + [] == Request(op);
    TakeMessage(s.up, Request(op), []);
    SendAll(s.down, Echo(op));
    assert [] + Echo(op) == Echo(op);
  }

  lemma WriteArrives(s: State, rest: seq<Byte>)
    requires s.ops != [] && s.ops[0].Write? && s.server.AwaitFive? && |s.up.arrived| >= 5
    requires All(s.up) == Request(s.ops[0]) + rest
    ensures var t, op := ServerStep(s), s.ops[0];
            t == s.(up := t.up, server := AwaitData(Lsn(op))) && All(t.up) == rest && |t.up.flight| <= |s.up.flight|
  {
    QuintArrives(s.ops[0]);
    TakeMessage(s.up, Request(s.ops[0]), rest);
  }

  /** The server has panicked at a short read, and there is nothing more for anyone to do. */
  predicate Lost(s: State, ops: seq<Op>, image: seq<Byte>) {
    var k := |s.results|;
    s.server.Panicked? && s.host.AwaitAck? && All(s.up) == [] && All(s.down) == [] &&
    k < |ops| && s.ops == ops[k..] && !SafeCall(ops, image, k) && Answered(s.results, ops, image)
  }

  lemma ServerAtFive(s: State, ops: seq<Op>, image: seq<Byte>)
    requires Good(s, ops, image) && ServerCan(s) && s.server.AwaitFive?
    ensures Lost(ServerStep(s), ops, image) || (Good(ServerStep(s), ops, image) && Left(ServerStep(s)) < Left(s))
  {
    assert |All(s.up)| >= 5;
    assert Request(s.ops[0]) + [] == Request(s.ops[0]);
    if s.ops[0].Write? {
      WriteArrives(s, if s.host.AwaitAck? then s.ops[0].data else []);
    } else if ShortRead(s.image, Lsn(s.ops[0])) {
      QuintArrives(s.ops[0]);
      TakeMessage(s.up, Request(s.ops[0]), []);
    } else {
      ReadArrives(s);
    }
  }

  lemma ServerSends(s: State, ops: seq<Op>, image: seq<Byte>)
    requires Good(s, ops, image) && ServerCan(s) && (s.server.SendSector? || s.server.Confirm?)
    ensures Good(ServerStep(s), ops, image) && Left(ServerStep(s)) < Left(s)
  {
    if s.server.SendSector? {
      SendAll(s.down, s.server.buf);
      assert [] + s.server.buf == s.server.buf;
    } else {
      var ack := Five(BLOCK_OKAY, 0xFFFF, 0xFFFF);
      SendAll(s.down, ack);
      assert [] + ack == ack;
    }
  }

  lemma ServerWrites(s: State, ops: seq<Op>, image: seq<Byte>)
    requires Good(s, ops, image) && ServerCan(s) && s.server.AwaitData?
    ensures Good(ServerStep(s), ops, image) && Left(ServerStep(s)) < Left(s)
  {
    var op, k := s.ops[0], |s.results|;
    assert op == ops[k];
    assert op.data + [] == op.data;
    TakeMessage(s.up, op.data, []);
    AfterWrite(ops, image, k);
  }

  /** A step that changes nothing but how far along the bytes are. */
  lemma NetworkKeeps(s: State, t: State, ops: seq<Op>, image: seq<Byte>)
    requires Good(s, ops, image) && t == s.(up := t.up, down := t.down)
    requires All(t.up) == All(s.up) && All(t.down) == All(s.down)
    requires |t.up.flight| + |t.down.flight| < |s.up.flight| + |s.down.flight|
    ensures Good(t, ops, image) && Left(t) < Left(s)
  {
  }

  lemma StepKeeps(s: State, a: Actor, ops: seq<Op>, image: seq<Byte>)
    requires Good(s, ops, image) && Can(s, a)
    ensures Lost(Step(s, a), ops, image) || (Good(Step(s, a), ops, image) && Left(Step(s, a)) < Left(s))
  {
    match a
    case HostMoves =>
      if s.host.AwaitAck? { HostConfirmed(s, ops, image); }
      else if s.host.AwaitSector? { HostReceives(s, ops, image); }
      else if s.host.Idle? { HostAsks(s, ops, image); }
      else { HostSendsData(s, ops, image); }
    case ServerMoves =>
      if s.server.AwaitFive? { ServerAtFive(s, ops, image); }
      else if s.server.AwaitData? { ServerWrites(s, ops, image); }
      else { ServerSends(s, ops, image); }
    case Up(n) =>
      CarryKeeps(s.up, n);
      NetworkKeeps(s, Step(s, a), ops, image);
    case Down(n) =>
      CarryKeeps(s.down, n);
      NetworkKeeps(s, Step(s, a), ops, image);
  }
}
