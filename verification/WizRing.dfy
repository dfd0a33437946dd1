/**
  TCP over the Wiznet chip's 2048-byte rings, as axcore.c drives it.  The chip runs
  between any two host accesses: it stores arriving bytes and takes bytes to transmit
  whenever its pointers allow.  Pointers are 16-bit registers; the ghost streams say
  which bytes of the whole connection they stand for.
 */
module WizRing {
  import opened Bytes

  const RING_SIZE: nat := 2048
  const TCP_CHUNK_SIZE: nat := 1024

  datatype Errnum = Okay | NotYet | Failed(code: Byte)

  /** `& RING_MASK`: where in a ring the stream's byte number j lives. */
  function Slot(j: nat): (r: nat)
    ensures r < RING_SIZE
  {
    j % RING_SIZE
  }

  function Reg(total: nat): Word { total % 0x1_0000 }

  /** A pointer register masked gives the slot of the full count: 2048 divides 65536. */
  lemma MaskedRegister(total: nat)
    ensures Slot(Reg(total)) == Slot(total)
  {}

  /** The 16-bit difference of two counts at most a ring apart is their difference. */
  lemma RegisterDifference(wr: nat, rd: nat)
    requires rd <= wr <= rd + RING_SIZE
    ensures (Reg(wr) + 0x1_0000 - Reg(rd)) % 0x1_0000 == wr - rd
  {
    var q := wr / 0x1_0000;
    if rd / 0x1_0000 == q { } else { assert rd / 0x1_0000 == q - 1; }
  }

  lemma RegisterSum(total: nat, n: nat)
    ensures (Reg(total) + n) % 0x1_0000 == Reg(total + n)
  {}

  lemma SlotAfter(start: nat, i: nat)
    ensures Slot(start) + i < RING_SIZE ==> Slot(start + i) == Slot(start) + i
    ensures RING_SIZE <= Slot(start) + i < 2 * RING_SIZE ==> Slot(start + i) == Slot(start) + i - RING_SIZE
  {
    var q := start / RING_SIZE;
    assert start == q * RING_SIZE + Slot(start);
    if Slot(start) + i < RING_SIZE {
      assert start + i == q * RING_SIZE + (Slot(start) + i);
    } else if Slot(start) + i < 2 * RING_SIZE {
      assert start + i == (q + 1) * RING_SIZE + (Slot(start) + i - RING_SIZE);
    }
  }

  /** Bytes less than a ring apart in the stream never share a slot. */
  lemma SlotsDistinct(j: nat, k: nat)
    requires j < k < j + RING_SIZE
    ensures Slot(j) != Slot(k)
  {
    SlotAfter(j, k - j);
  }

  /** The ring holds bytes from..to of the stream. */
  ghost predicate Holds(ring: seq<Byte>, stream: seq<Byte>, from: nat, to: nat) {
    && |ring| == RING_SIZE && from <= to <= |stream| && to - from <= RING_SIZE
    && forall j {:trigger stream[j]} | from <= j < to :: ring[Slot(j)] == stream[j]
  }

  lemma HoldsPush(ring: seq<Byte>, stream: seq<Byte>, from: nat, b: Byte)
    requires Holds(ring, stream, from, |stream|) && |stream| - from < RING_SIZE
    ensures Holds(ring[Slot(|stream|) := b], stream + [b], from, |stream| + 1)
  {
    var ring', stream' := ring[Slot(|stream|) := b], stream + [b];
    forall j | from <= j < |stream| + 1 ensures ring'[Slot(j)] == stream'[j] {
      if j < |stream| {
        SlotsDistinct(j, |stream|);
        assert stream'[j] == stream[j];
      }
    }
  }

  lemma HoldsAppend(ring: seq<Byte>, stream: seq<Byte>, from: nat, data: seq<Byte>)
    requires Holds(ring, stream, from, |stream|) && |stream| + |data| - from <= RING_SIZE
    requires forall k | 0 <= k < |data| :: ring[Slot(|stream| + k)] == data[k]
    ensures Holds(ring, stream + data, from, |stream| + |data|)
  {
    forall j | from <= j < |stream| + |data| ensures ring[Slot(j)] == (stream + data)[j] {
      if j < |stream| { assert ring[Slot(j)] == stream[j]; } else { assert ring[Slot(|stream| + (j - |stream|))] == data[j - |stream|]; }
    }
  }

  lemma HoldsLater(ring: seq<Byte>, stream: seq<Byte>, from: nat, later: nat)
    requires Holds(ring, stream, from, |stream|) && from <= later <= |stream|
    ensures Holds(ring, stream, later, |stream|)
  {}

  lemma RingByte(ring: seq<Byte>, earlier: seq<Byte>, stream: seq<Byte>, from: nat, j: nat)
    requires Holds(ring, stream, from, |stream|) && earlier <= stream && from <= j < |earlier|
    ensures ring[Slot(j)] == earlier[j]
  {
    assert stream[j] == earlier[j];
  }

  /** The next chunk of n bytes still to go. */
  function NextChunk(n: nat): nat { if n < TCP_CHUNK_SIZE then n else TCP_CHUNK_SIZE }

  class Wiz {
    const rx: array<Byte>
    const tx: array<Byte>
    // Host-visible pointer registers.
    var rxRdReg: Word
    var txWrReg: Word
    // The chip's own pointers: what RECV and SEND have told it, and what it has done.
    var rxRd: Word
    var rxWr: Word
    var txRd: Word
    var txWr: Word
    // Every byte that arrived, was handed to the host, was committed by SEND, was taken.
    ghost var arrived: seq<Byte>
    ghost var received: seq<Byte>
    ghost var sent: seq<Byte>
    ghost var taken: seq<Byte>

    ghost predicate Valid()
      reads this, rx, tx
    {
      && rx != tx && rx.Length == tx.Length == RING_SIZE
      && received <= arrived && taken <= sent
      && Holds(rx[..], arrived, |received|, |arrived|)
      && Holds(tx[..], sent, |taken|, |sent|)
      && rxRd == Reg(|received|) && rxWr == Reg(|arrived|)
      && txRd == Reg(|taken|) && txWr == Reg(|sent|)
    }

    /** The host is between operations: its registers agree with what the chip was told. */
    ghost predicate Idle()
      reads this
    {
      rxRdReg == rxRd && txWrReg == txWr
    }

    constructor ()
      ensures Valid() && Idle() && arrived == received == sent == taken == []
      ensures fresh(rx) && fresh(tx)
    {
      rx := new Byte[RING_SIZE](_ => 0);
      tx := new Byte[RING_SIZE](_ => 0);
      rxRdReg, txWrReg, rxRd, rxWr, txRd, txWr := 0, 0, 0, 0, 0, 0;
      arrived, received, sent, taken := [], [], [], [];
    }

    // ----- The chip -----

    /** What the chip may have done meanwhile: more arrived, more was taken, nothing else. */
    twostate predicate ChipRan()
      reads this, rx, tx
    {
      && old(arrived) <= arrived && old(taken) <= taken
      && received == old(received) && sent == old(sent) && rxRd == old(rxRd) && txWr == old(txWr)
      && rxRdReg == old(rxRdReg) && txWrReg == old(txWrReg) && tx[..] == old(tx[..])
    }

    method ChipReceives(b: Byte)
      requires Valid() && |arrived| - |received| < RING_SIZE
      modifies this`arrived, this`rxWr, rx
      ensures Valid() && arrived == old(arrived) + [b]
    {
      MaskedRegister(|arrived|);
      RegisterSum(|arrived|, 1);
      HoldsPush(rx[..], arrived, |received|, b);
      ghost var ring := rx[..];
      rx[rxWr % RING_SIZE] := b;
      assert rx[..] == ring[Slot(|arrived|) := b];
      rxWr := (rxWr + 1) % 0x1_0000;
      arrived := arrived + [b];
    }

    method ChipTakes() returns (b: Byte)
      requires Valid() && |taken| < |sent|
      modifies this`taken, this`txRd
      ensures Valid() && b == sent[|old(taken)|] && taken == old(taken) + [b]
    {
      MaskedRegister(|taken|);
      RegisterSum(|taken|, 1);
      HoldsLater(tx[..], sent, |taken|, |taken| + 1);
      b := tx[txRd % RING_SIZE];
      RingByte(tx[..], sent, sent, |taken|, |taken|);
      txRd := (txRd + 1) % 0x1_0000;
      taken := taken + [b];
    }

    /** Any number of chip steps, in any order, as far as its pointers allow. */
    method ChipRuns()
      requires Valid()
      modifies this`arrived, this`rxWr, this`taken, this`txRd, rx
      ensures Valid() && ChipRan()
    {
      var steps: int := *;
      while steps > 0
        invariant Valid() && ChipRan()
      {
        steps := steps - 1;
        var x: int := *;
        var b: Byte := x % 256;
        var arrives: bool := *;
        RegisterDifference(|arrived|, |received|);
        if arrives && (rxWr + 0x1_0000 - rxRd) % 0x1_0000 < RING_SIZE {
          ChipReceives(b);
        } else if txRd != txWr {
          RegisterDifference(|sent|, |taken|);
          var _ := ChipTakes();
        }
      }
    }

    // ----- Host: receiving -----

    /** How many bytes have arrived that the host has not been given. */
    ghost function Waiting(): int
      reads this
    {
      |arrived| - |received|
    }

    /** SK_RX_RSR0: how many received bytes wait. */
    method BytesWaiting() returns (n: Word)
      requires Valid()
      ensures n == |arrived| - |received|
    {
      RegisterDifference(|arrived|, |received|);
      n := (rxWr + 0x1_0000 - rxRd) % 0x1_0000;
    }

    /** WizGetN from the receive ring, with the chip running between bytes.  The bytes read
        are numbers first.. of the stream, all arrived and none yet acknowledged. */
    method GetN(reg: nat, buf: array<Byte>, at: nat, n: nat, ghost first: nat)
      requires Valid() && buf != rx && buf != tx && at + n <= buf.Length
      requires |received| <= first && first + n <= |arrived| && reg == Slot(first) && reg + n <= RING_SIZE
      modifies this`arrived, this`rxWr, this`taken, this`txRd, rx, buf
      ensures Valid() && ChipRan()
      ensures buf[..at] == old(buf[..at]) && buf[at + n..] == old(buf[at + n..])
      ensures buf[at..at + n] == old(arrived)[first..first + n]
    {
      ghost var stream := arrived;
      for i := 0 to n
        invariant Valid() && ChipRan() && stream <= arrived
        invariant buf[..at] == old(buf[..at]) && buf[at + n..] == old(buf[at + n..])
        invariant buf[at..at + i] == stream[first..first + i]
      {
        ChipRuns();
        SlotAfter(first, i);
        RingByte(rx[..], stream, arrived, |received|, first + i);
        buf[at + i] := rx[reg + i];
        assert buf[at..at + i + 1] == buf[at..at + i] + [stream[first + i]];
      }
    }

    /** WizRecvChunkTry; linkError is what WizCheck reads from the interrupt register.  It fails
        exactly for that, and puts off only while fewer than n bytes wait. */
    method RecvChunkTry(buf: array<Byte>, at: nat, n: nat, linkError: Byte) returns (e: Errnum)
      requires Valid() && Idle() && buf != rx && buf != tx && at + n <= buf.Length
      modifies this, rx, buf
      ensures Valid() && Idle() && sent == old(sent) && old(arrived) <= arrived && old(taken) <= taken
      ensures if linkError != 0 then e == Failed(linkError) else !e.Failed?
      ensures e == NotYet ==> Waiting() < n
      ensures e != Okay ==> received == old(received) && buf[..] == old(buf[..])
      ensures e == Okay ==>
                && received == old(received) + buf[at..at + n]
                && buf[..at] == old(buf[..at]) && buf[at + n..] == old(buf[at + n..])
    {
      if linkError != 0 { return Failed(linkError); }
      ChipRuns();
      var waiting := BytesWaiting();
      if waiting < n { return NotYet; }
      ChipRuns();
      var rd := rxRdReg;
      ReadOut(rd, buf, at, n);
      ChipRuns();
      Acknowledge(rd, n, buf[at..at + n]);
      ChipRuns();
      e := Okay;
    }

    /** The copy out of the ring, in one piece or, across its end, in two. */
    method ReadOut(rd: Word, buf: array<Byte>, at: nat, n: nat)
      requires Valid() && rd == Reg(|received|) && buf != rx && buf != tx && at + n <= buf.Length
      requires |received| + n <= |arrived|
      modifies this`arrived, this`rxWr, this`taken, this`txRd, rx, buf
      ensures Valid() && ChipRan()
      ensures buf[..at] == old(buf[..at]) && buf[at + n..] == old(buf[at + n..])
      ensures |received| + n <= |arrived| && buf[at..at + n] == arrived[|received|..|received| + n]
    {
      ghost var first, stream := |received|, arrived;
      MaskedRegister(first);
      var begin := rd % RING_SIZE;
      var end := begin + n;
      if end >= RING_SIZE {
        var firstN := RING_SIZE - begin;
        var secondN := n - firstN;
        SlotAfter(first, firstN);
        GetN(begin, buf, at, firstN, first);
        ghost var middle, meanwhile := buf[..], arrived;
        GetN(0, buf, at + firstN, secondN, first + firstN);
        SamePiece(stream, meanwhile, first + firstN, first + n);
        JoinPieces(old(buf[..]), middle, buf[..], stream, at, firstN, n, first);
      } else {
        GetN(begin, buf, at, n, first);
      }
      SamePiece(stream, arrived, first, first + n);
    }

    /** WizPut2 of SK_RX_RD0, then the RECV command. */
    method Acknowledge(rd: Word, n: nat, ghost bytes: seq<Byte>)
      requires Valid() && Idle() && rd == rxRdReg && |received| + n <= |arrived|
      requires bytes == arrived[|received|..|received| + n]
      modifies this`rxRdReg, this`rxRd, this`received, this`arrived, this`rxWr, this`taken, this`txRd, rx
      ensures Valid() && Idle() && received == old(received) + bytes
      ensures sent == old(sent) && old(arrived) <= arrived && old(taken) <= taken
    {
      rxRdReg := (rd + n) % 0x1_0000;
      ChipRuns();
      assert arrived[|received|..|received| + n] == old(arrived)[|received|..|received| + n];
      rxRd := rxRdReg;
      RegisterSum(|received|, n);
      HoldsLater(rx[..], arrived, |received|, |received| + n);
      assert received + bytes == arrived[..|received| + n];
      received := received + bytes;
    }

    /** TcpRecv, in chunks; each chunk is tried at most `patience` times, and link(got, t) is what
        the interrupt register says at try t of the chunk after `got` bytes.  It gives up only with
        fewer bytes waiting than the next chunk has, or at an error of the link. */
    method TcpRecv(buf: array<Byte>, n: nat, patience: nat, link: (nat, nat) -> Byte) returns (e: Errnum, got: nat)
      requires Valid() && Idle() && buf != rx && buf != tx && n <= buf.Length && patience > 0
      modifies this, rx, buf
      ensures Valid() && Idle() && sent == old(sent) && old(arrived) <= arrived && old(taken) <= taken
      ensures got <= n && (e == Okay <==> got == n)
      ensures e == NotYet ==> Waiting() < NextChunk(n - got)
      ensures e.Failed? ==> exists t: nat :: t < patience && link(got, t) == e.code != 0
      ensures received == old(received) + buf[..got] && received <= arrived
      ensures buf[got..] == old(buf[got..])
    {
      got := 0;
      while got < n
        invariant got <= n && Valid() && Idle() && sent == old(sent) && old(arrived) <= arrived && old(taken) <= taken
        invariant received == old(received) + buf[..got]
        invariant buf[got..] == old(buf[got..])
        decreases n - got
      {
        var chunk := NextChunk(n - got);
        ghost var before := buf[..];
        e := RecvChunk(buf, got, chunk, patience, t => link(got, t));
        if e != Okay { return; }
        ChunkAppended(old(received), before, buf[..], got, chunk);
        got := got + chunk;
      }
      e := Okay;
    }

    method RecvChunk(buf: array<Byte>, at: nat, n: nat, patience: nat, link: nat -> Byte) returns (e: Errnum)
      requires Valid() && Idle() && buf != rx && buf != tx && at + n <= buf.Length && patience > 0
      modifies this, rx, buf
      ensures Valid() && Idle() && sent == old(sent) && old(arrived) <= arrived && old(taken) <= taken
      ensures e == NotYet ==> Waiting() < n && forall t: nat | t < patience :: link(t) == 0
      ensures e.Failed? ==> exists t: nat :: t < patience && link(t) == e.code != 0
      ensures link(0) != 0 ==> e == Failed(link(0))
      ensures e != Okay ==> received == old(received) && buf[..] == old(buf[..])
      ensures e == Okay ==>
                && received == old(received) + buf[at..at + n]
                && buf[..at] == old(buf[..at]) && buf[at + n..] == old(buf[at + n..])
    {
      e := NotYet;
      var tries := 0;
      while e == NotYet && tries < patience
        invariant Valid() && Idle() && sent == old(sent) && old(arrived) <= arrived && old(taken) <= taken && tries <= patience
        invariant e == NotYet ==> (tries > 0 ==> Waiting() < n) && forall t: nat | t < tries :: link(t) == 0
        invariant e.Failed? ==> exists t: nat :: t < patience && link(t) == e.code != 0
        invariant if tries == 0 then e == NotYet else link(0) != 0 ==> e == Failed(link(0))
        invariant e != Okay ==> received == old(received) && buf[..] == old(buf[..])
        invariant e == Okay ==>
                && received == old(received) + buf[at..at + n]
                && buf[..at] == old(buf[..at]) && buf[at + n..] == old(buf[at + n..])
      {
        e := RecvChunkTry(buf, at, n, link(tries));
        tries := tries + 1;
      }
    }

    // ----- Host: sending -----

    /** SK_TX_FSR0: free room in the transmit ring. */
    method FreeSize() returns (n: Word)
      requires Valid()
      ensures n == RING_SIZE - (|sent| - |taken|)
    {
      RegisterDifference(|sent|, |taken|);
      n := RING_SIZE - (txWr + 0x1_0000 - txRd) % 0x1_0000;
    }

    /** WizPutN into the transmit ring, beyond what SEND has committed. */
    method PutN(reg: nat, data: seq<Byte>, ghost offset: nat)
      requires Valid() && reg == Slot(|sent| + offset) && reg + |data| <= RING_SIZE
      requires |sent| + offset + |data| - |taken| <= RING_SIZE
      modifies this`arrived, this`rxWr, this`taken, this`txRd, rx, tx
      ensures Valid() && old(arrived) <= arrived && old(taken) <= taken && SameHost()
      ensures forall k | 0 <= k < |data| :: tx[reg + k] == data[k]
      ensures forall s | 0 <= s < RING_SIZE && !(reg <= s < reg + |data|) :: tx[s] == old(tx[s])
    {
      for i := 0 to |data|
        invariant Valid() && old(arrived) <= arrived && old(taken) <= taken && SameHost()
        invariant forall k | 0 <= k < i :: tx[reg + k] == data[k]
        invariant forall s | 0 <= s < RING_SIZE && !(reg <= s < reg + i) :: tx[s] == old(tx[s])
      {
        ChipRuns();
        SlotAfter(|sent| + offset, i);
        PutByte(reg + i, data[i], |sent| + offset + i);
      }
    }

    twostate predicate SameHost()
      reads this
    {
      && received == old(received) && sent == old(sent) && rxRd == old(rxRd) && txWr == old(txWr)
      && rxRdReg == old(rxRdReg) && txWrReg == old(txWrReg)
    }

    method PutByte(slot: nat, b: Byte, ghost j: nat)
      requires Valid() && slot == Slot(j) && |sent| <= j < |taken| + RING_SIZE
      modifies tx
      ensures Valid() && tx[..] == old(tx[..])[slot := b]
    {
      tx[slot] := b;
      forall i | |taken| <= i < |sent| ensures tx[..][Slot(i)] == sent[i] {
        SlotsDistinct(i, j);
      }
    }

    /** WizSendChunk: reserve, copy, finalize.  `patience` bounds the wait for free room, and runs
        out only while there is too little. */
    method SendChunk(data: seq<Byte>, patience: nat, linkError: Byte) returns (e: Errnum)
      requires Valid() && Idle() && |data| <= RING_SIZE
      modifies this, rx, tx
      ensures Valid() && Idle() && received == old(received) && old(arrived) <= arrived && old(taken) <= taken
      ensures if linkError != 0 then e == Failed(linkError) else !e.Failed?
      ensures e == NotYet ==> |sent| - |taken| + |data| > RING_SIZE
      ensures sent == old(sent) + if e == Okay then data else []
    {
      if linkError != 0 { return Failed(linkError); }
      var free := FreeSize();
      var tries := 0;
      while free < |data| && tries < patience
        invariant Valid() && Idle() && SameHost() && old(arrived) <= arrived && old(taken) <= taken
        invariant free == RING_SIZE - (|sent| - |taken|)
      {
        ChipRuns();
        free := FreeSize();
        tries := tries + 1;
      }
      if free < |data| { return NotYet; }
      CopyIn(data);
      ChipRuns();
      Finalize(|data|, data);
      ChipRuns();
      e := Okay;
    }

    /** WizDataToSend: the copy into the ring, in one piece or two. */
    method CopyIn(data: seq<Byte>)
      requires Valid() && Idle() && |sent| + |data| - |taken| <= RING_SIZE
      modifies this`arrived, this`rxWr, this`taken, this`txRd, rx, tx
      ensures Valid() && old(arrived) <= arrived && old(taken) <= taken && SameHost()
      ensures forall k | 0 <= k < |data| :: tx[..][Slot(|sent| + k)] == data[k]
    {
      MaskedRegister(|sent|);
      var begin := txWrReg % RING_SIZE;
      var end := begin + |data|;
      if end >= RING_SIZE {
        var firstN := RING_SIZE - begin;
        SlotAfter(|sent|, firstN);
        PutN(begin, data[..firstN], 0);
        PutN(0, data[firstN..], firstN);
      } else {
        PutN(begin, data, 0);
      }
      WrittenSlots(tx[..], |sent|, data);
    }

    /** WizFinalizeSend: advance SK_TX_WR0, then the SEND command. */
    method Finalize(n: nat, ghost data: seq<Byte>)
      requires Valid() && Idle() && n == |data| && |sent| + n - |taken| <= RING_SIZE
      requires forall k | 0 <= k < n :: tx[..][Slot(|sent| + k)] == data[k]
      modifies this`txWrReg, this`txWr, this`sent, this`arrived, this`rxWr, this`taken, this`txRd, rx
      ensures Valid() && Idle() && sent == old(sent) + data
      ensures received == old(received) && old(arrived) <= arrived && old(taken) <= taken
    {
      RegisterSum(|sent|, n);
      txWrReg := (txWrReg + n) % 0x1_0000;
      ChipRuns();
      HoldsAppend(tx[..], sent, |taken|, data);
      txWr := txWrReg;
      sent := sent + data;
    }

    /** TcpSend: what the chip was given to transmit is the data, in order, up to a failure, which
        is an error of the link, or too little room for the next chunk. */
    method TcpSend(data: seq<Byte>, patience: nat, link: nat -> Byte) returns (e: Errnum, done: nat)
      requires Valid() && Idle()
      modifies this, rx, tx
      ensures Valid() && Idle() && received == old(received) && old(arrived) <= arrived && old(taken) <= taken
      ensures done <= |data| && (e == Okay <==> done == |data|)
      ensures e == NotYet ==> |sent| - |taken| + NextChunk(|data| - done) > RING_SIZE && link(done) == 0
      ensures e.Failed? ==> e.code == link(done) != 0
      ensures sent == old(sent) + data[..done] && taken <= sent
    {
      done := 0;
      while done < |data|
        invariant done <= |data| && Valid() && Idle()
        invariant received == old(received) && old(arrived) <= arrived && old(taken) <= taken
        invariant sent == old(sent) + data[..done]
      {
        var chunk := NextChunk(|data| - done);
        e := SendChunk(data[done..done + chunk], patience, link(done));
        if e != Okay { return; }
        assert data[..done + chunk] == data[..done] + data[done..done + chunk];
        done := done + chunk;
      }
      e := Okay;
    }
  }

  /** Two pieces read on either side of the ring's end are one stretch of the stream. */
  lemma JoinPieces(before: seq<Byte>, middle: seq<Byte>, buf: seq<Byte>, stream: seq<Byte>, at: nat, firstN: nat, n: nat, first: nat)
    requires firstN <= n && at + n <= |buf| == |middle| == |before| && first + n <= |stream|
    requires middle[..at] == before[..at] && middle[at + firstN..] == before[at + firstN..]
    requires buf[..at + firstN] == middle[..at + firstN] && buf[at + n..] == middle[at + n..]
    requires middle[at..at + firstN] == stream[first..first + firstN]
    requires buf[at + firstN..at + n] == stream[first + firstN..first + n]
    ensures buf[at..at + n] == stream[first..first + n]
    ensures buf[..at] == before[..at] && buf[at + n..] == before[at + n..]
  {
    assert buf[at..at + firstN] == buf[..at + firstN][at..] == middle[at..at + firstN];
    assert buf[at..at + n] == buf[at..at + firstN] + buf[at + firstN..at + n];
    assert buf[..at] == buf[..at + firstN][..at] == middle[..at];
    assert middle[at + n..] == middle[at + firstN..][n - firstN..] == before[at + n..];
  }

  lemma SamePiece(stream: seq<Byte>, now: seq<Byte>, i: nat, j: nat)
    requires stream <= now && i <= j <= |stream|
    ensures now[i..j] == stream[i..j]
  {
    forall k | 0 <= k < j - i ensures now[i..j][k] == stream[i..j][k] {}
  }

  lemma ChunkAppended(received: seq<Byte>, before: seq<Byte>, after: seq<Byte>, got: nat, chunk: nat)
    requires |before| == |after| && got + chunk <= |after| && before[..got] == after[..got]
    ensures received + before[..got] + after[got..got + chunk] == received + after[..got + chunk]
  {}

  /** Pieces written on either side of the ring's end fill the slots that follow `from`. */
  lemma WrittenSlots(ring: seq<Byte>, from: nat, data: seq<Byte>)
    requires |ring| == RING_SIZE && |data| <= RING_SIZE
    requires forall k | 0 <= k < |data| ::
               ring[if Slot(from) + k < RING_SIZE then Slot(from) + k else Slot(from) + k - RING_SIZE] == data[k]
    ensures forall k | 0 <= k < |data| :: ring[Slot(from + k)] == data[k]
  {
    forall k | 0 <= k < |data| ensures ring[Slot(from + k)] == data[k] { SlotAfter(from, k); }
  }
}
