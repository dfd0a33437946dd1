/** The rescue loop of the burn: which records it wants, and what it writes to memory. */
module BurnRescue {
  import opened Bytes
  import opened Burn
  import opened Sequences

  type Memory = m: seq<Byte> | |m| == MEMORY witness Blank()

  function Blank(): (m: seq<Byte>)
    ensures |m| == MEMORY
  {
    seq(MEMORY, _ => 0)
  }

  // ----- Packets -----

  /** A packet as it lies in the chip: header, description, struct tiny_burn, payload. */
  function PacketFor(header: seq<Byte>, text: seq<Byte>, segs: seq<Segment>, r: nat): (p: seq<Byte>)
    requires |header| == HEADER && |text| == PACKET - HEADER && r < |segs| && |segs[r].data| <= PAGE
    ensures |p| == PACKET
  {
    var n, addr := |segs[r].data|, Wrap(segs[r].addr);
    header + text[..59] + [Lo(Wrap(r)), Lo(Wrap(|segs|)), n, Hi(addr), Lo(addr)] + segs[r].data + text[64 + n..]
  }

  // ----- The loops' bodies -----

  /** ReceiveIfPacketAvailable, of a whole packet. */
  function Received(m: Memory, packet: seq<Byte>): Memory
    requires |packet| == PACKET
  {
    m[..BUFFER] + packet + m[BUFFER + PACKET..]
  }

  /** Before the key: the bar shows which records are wanted. */
  function Listed(m: Memory): Memory {
    m[..BAR] + seq(BAR_LENGTH, i => if i < m[TINY + 1] then WANT else EMPTY) + m[BAR + BAR_LENGTH..]
  }

  /** The byte loop of the burning, from byte i on; it reads the struct anew each time. */
  function PokeFrom(m: Memory, i: nat): Memory
    requires i < 256
    decreases 256 - i
  {
    if i < m[TINY + 2] then PokeFrom(Poked(m, i), i + 1) else m
  }

  function Poked(m: Memory, i: nat): Memory
    requires i < 256
  {
    m[Wrap(HiLo(m[TINY + 3], m[TINY + 4]) + i) := m[DATA + i]]
  }

  lemma PokeStep(m: Memory, i: nat)
    requires i < m[TINY + 2]
    ensures i + 1 < 256 && PokeFrom(m, i) == PokeFrom(Poked(m, i), i + 1)
  {
  }

  /** After the key: a wanted record is written and marked. */
  function Burnt(m: Memory): Memory {
    if m[BAR + m[TINY]] == WANT then PokeFrom(m, 0)[BAR + m[TINY] := GOT] else m
  }

  class Rescue {
    const mem: array<Byte>

    constructor (m: Memory)
      ensures fresh(mem) && mem[..] == m
    {
      mem := new Byte[MEMORY](i requires 0 <= i < MEMORY => m[i]);
      new;
      assert mem[..] == m;
    }

    ghost predicate Valid() { mem.Length == MEMORY }

    method Receive(packet: seq<Byte>)
      requires Valid() && |packet| == PACKET
      modifies mem
      ensures mem[..] == Received(old(mem[..]), packet)
    {
      for i := 0 to PACKET
        invariant mem[..] == old(mem[..BUFFER]) + packet[..i] + old(mem[BUFFER + i..])
      {
        mem[BUFFER + i] := packet[i];
      }
    }

    method Listen(packet: seq<Byte>)
      requires Valid() && |packet| == PACKET
      modifies mem
      ensures mem[..] == Listed(Received(old(mem[..]), packet))
    {
      Receive(packet);
      ghost var m := mem[..];
      for i := 0 to BAR_LENGTH
        invariant forall k :: 0 <= k < MEMORY ==>
          mem[k] == if BAR <= k < BAR + i then (if k - BAR < m[TINY + 1] then WANT else EMPTY) else m[k]
      {
        mem[BAR + i] := if i < mem[TINY + 1] then WANT else EMPTY;
      }
      assert mem[..] == Listed(m);
    }

    /** POKE1(tiny->payload_addr + i, PEEK1(start_of_burn_data + i)). */
    method PokeByte(i: nat)
      requires Valid() && i < 255
      modifies mem
      ensures mem[..] == Poked(old(mem[..]), i)
    {
      var to := Wrap(HiLo(mem[TINY + 3], mem[TINY + 4]) + i);
      mem[to] := mem[DATA + i];
    }

    method BurnPacket(packet: seq<Byte>)
      requires Valid() && |packet| == PACKET
      modifies mem
      ensures mem[..] == Burnt(Received(old(mem[..]), packet))
    {
      Receive(packet);
      ghost var m := mem[..];
      var ith := mem[TINY];
      if mem[BAR + ith] == WANT {
        ghost var poked := PokeFrom(m, 0);
        var i: nat := 0;
        while i < mem[TINY + 2]
          invariant i < 256 && PokeFrom(mem[..], i) == poked
          decreases 256 - i
        {
          ghost var before := mem[..];
          PokeByte(i);
          PokeStep(before, i);
          i := i + 1;
        }
        mem[BAR + ith] := GOT;
      }
    }
  }

  // ----- One record -----

  /** Where the receiver puts packets and the bar. */
  predicate Working(a: int) { BUFFER <= a < BUFFER + PACKET || BAR <= a < BAR + BAR_LENGTH }

  /** Where it puts packets and the marks of n records. */
  predicate Reserved(a: int, n: nat) { BUFFER <= a < BUFFER + PACKET || BAR <= a < BAR + n }

  /** Nothing of the record lies there. */
  predicate Clear(s: Segment, n: nat) { forall a {:trigger Covers(s, a)} :: 0 <= a < MEMORY && Reserved(a, n) ==> !Covers(s, a) }

  predicate Loaded(m: Memory, s: Segment) {
    |s.data| <= PAGE && m[TINY + 2] == |s.data| && HiLo(m[TINY + 3], m[TINY + 4]) == Wrap(s.addr) &&
    forall i {:trigger s.data[i]} :: 0 <= i < |s.data| ==> m[DATA + i] == s.data[i]
  }

  lemma IntoReached(s: Segment, i: nat)
    requires i < MEMORY
    ensures var a := Wrap(Wrap(s.addr) + i);
            Into(s, a) == i && forall b {:trigger Into(s, b)} :: 0 <= b < MEMORY && Into(s, b) == i ==> b == a
  {
    var a := Wrap(Wrap(s.addr) + i);
    WrapBack(a, s.addr, i);
    forall b {:trigger Into(s, b)} | 0 <= b < MEMORY && Into(s, b) == i ensures b == a {
      WrapBack(b, s.addr, i);
    }
  }

  lemma WrapBack(b: nat, addr: nat, i: nat)
    requires b < MEMORY && i < MEMORY
    ensures Wrap(b - addr) == i <==> b == Wrap(Wrap(addr) + i)
  {
    WrapIs(b - addr);
    WrapIs(addr);
    WrapIs(Wrap(addr) + i);
  }

  /** The byte loop writes the record where it belongs, and nothing else. */
  lemma {:induction false} PokesTheRecord(m: Memory, s: Segment, i: nat, r: Memory, a: nat)
    requires Loaded(m, s) && Clear(s, 0) && i <= |s.data| && r == PokeFrom(m, i) && a < MEMORY
    ensures r[a] == if i <= Into(s, a) < |s.data| then s.data[Into(s, a)] else m[a]
    decreases |s.data| - i
  {
    if i < |s.data| {
      var to := Wrap(Wrap(s.addr) + i);
      IntoReached(s, i);
      assert Covers(s, to);
      assert Poked(m, i) == m[to := s.data[i]];
      PokesTheRecord(m[to := s.data[i]], s, i + 1, r, a);
    }
  }

  // ----- Packets of one burn -----

  /** What the transmitter must have cut: few enough records for a byte, none longer than a page,
      none where packets and their own marks come to lie, no address in two. */
  ghost predicate Burnable(segs: seq<Segment>) {
    |segs| <= 255 && Disjoint(segs) &&
    forall r {:trigger segs[r]} :: 0 <= r < |segs| ==> |segs[r].data| <= PAGE && Clear(segs[r], |segs|)
  }

  /** One packet that got through; header and description are anything. */
  datatype Heard = Heard(r: nat, header: seq<Byte>, text: seq<Byte>)

  predicate HeardOk(h: Heard, segs: seq<Segment>) {
    h.r < |segs| && |h.header| == HEADER && |h.text| == PACKET - HEADER
  }

  function After(m: Memory, segs: seq<Segment>, h: Heard): Memory
    requires HeardOk(h, segs) && |segs[h.r].data| <= PAGE
  {
    Received(m, PacketFor(h.header, h.text, segs, h.r))
  }

  lemma PacketArrives(m: Memory, segs: seq<Segment>, h: Heard)
    requires HeardOk(h, segs) && |segs| <= 255 && |segs[h.r].data| <= PAGE
    ensures var t := After(m, segs, h);
            t[TINY] == h.r && t[TINY + 1] == |segs| && Loaded(t, segs[h.r]) &&
            forall a {:trigger t[a]} :: 0 <= a < MEMORY && !(BUFFER <= a < BUFFER + PACKET) ==> t[a] == m[a]
  {
    var p, t, s := PacketFor(h.header, h.text, segs, h.r), After(m, segs, h), segs[h.r];
    assert forall k {:trigger p[k]} :: 0 <= k < PACKET ==> t[BUFFER + k] == p[k];
    assert p[67] == h.r && p[68] == |segs| && p[69] == |s.data|;
    assert p[70] == Hi(Wrap(s.addr)) && p[71] == Lo(Wrap(s.addr));
    WordArrives(Wrap(s.addr));
    assert forall i {:trigger s.data[i]} :: 0 <= i < |s.data| ==> p[72 + i] == s.data[i];
  }

  // ----- What the burn keeps -----

  predicate Outside(a: int) { 0 <= a < MEMORY && !Working(a) }

  /** An address that belongs to neither the packet nor the marks of n records. */
  predicate Holds(a: int, n: nat) { 0 <= a < MEMORY && !Reserved(a, n) }

  predicate Wanted(m: Memory, r: nat) { r < 256 && m[BAR + r] == WANT }
  predicate Burned(m: Memory, r: nat) { r < 256 && m[BAR + r] == GOT }

  predicate Mark(m: Memory, r: nat) { Wanted(m, r) || Burned(m, r) }

  /** An address still has what it had, or already what the image has for it. */
  predicate OldOrRight(m: Memory, before: Memory, segs: seq<Segment>, a: nat) {
    a < MEMORY && (m[a] == before[a] || Lookup(segs, a) == Some(m[a]))
  }

  predicate Has(m: Memory, s: Segment, a: nat) { a < MEMORY && (Covers(s, a) ==> m[a] == s.data[Into(s, a)]) }

  /** A record is wanted, or got and then in memory. */
  ghost predicate RecordOk(m: Memory, segs: seq<Segment>, r: nat) {
    r < |segs| && Mark(m, r) && (Burned(m, r) ==> forall a: nat {:trigger Has(m, segs[r], a)} :: Holds(a, |segs|) ==> Has(m, segs[r], a))
  }

  ghost predicate Burning(m: Memory, before: Memory, segs: seq<Segment>) {
    (forall a: nat {:trigger OldOrRight(m, before, segs, a)} :: Outside(a) ==> OldOrRight(m, before, segs, a)) &&
    (forall r: nat {:trigger RecordOk(m, segs, r)} :: r < |segs| ==> RecordOk(m, segs, r))
  }

  lemma {:induction false} TheOneCover(segs: seq<Segment>, r: nat, a: nat)
    requires r < |segs| && Covers(segs[r], a) && Count(segs, a) <= 1
    ensures Count(segs, a) == 1 && Lookup(segs, a) == Some(segs[r].data[Into(segs[r], a)])
    ensures forall q {:trigger segs[q]} :: 0 <= q < |segs| && q != r ==> !Covers(segs[q], a)
  {
    if r > 0 {
      TheOneCover(segs[1..], r - 1, a);
      forall q {:trigger segs[q]} | 0 <= q < |segs| && q != r ensures !Covers(segs[q], a) {
        if q > 0 { assert segs[q] == segs[1..][q - 1]; }
      }
    } else {
      forall q {:trigger segs[q]} | 0 < q < |segs| ensures !Covers(segs[q], a) {
        if Covers(segs[q], a) {
          CountAtLeast(segs[1..], q - 1, a);
        }
      }
    }
  }

  lemma {:induction false} CountAtLeast(segs: seq<Segment>, q: nat, a: nat)
    requires q < |segs| && Covers(segs[q], a)
    ensures Count(segs, a) >= 1
  {
    if q > 0 {
      CountAtLeast(segs[1..], q - 1, a);
    }
  }

  /** An address that the packet does not come to lie at. */
  predicate Beside(a: int) { 0 <= a < MEMORY && !(BUFFER <= a < BUFFER + PACKET) }

  lemma ArrivesBeside(m: Memory, segs: seq<Segment>, h: Heard, u: Memory, a: nat)
    requires HeardOk(h, segs) && |segs| <= 255 && |segs[h.r].data| <= PAGE && u == After(m, segs, h)
    ensures u[TINY] == h.r && Loaded(u, segs[h.r]) && u[BAR + h.r] == m[BAR + h.r]
    ensures Beside(a) ==> u[a] == m[a]
  {
    PacketArrives(m, segs, h);
    assert u[BAR + h.r] == m[BAR + h.r];
    assert Beside(a) ==> u[a] == m[a];
  }

  /** What burning does at an address that the packet does not lie at. */
  lemma BurntAt(u: Memory, s: Segment, r: Memory, t: Memory, a: nat)
    requires Loaded(u, s) && Clear(s, 0) && r == PokeFrom(u, 0) && t == Burnt(u) && Beside(a)
    ensures t[a] ==
      if u[BAR + u[TINY]] != WANT then u[a] else if a == BAR + u[TINY] then GOT else if Covers(s, a) then s.data[Into(s, a)] else u[a]
  {
    PokesTheRecord(u, s, 0, r, a);
  }

  /** What burning a packet does to the bar. */
  lemma BurntBar(m: Memory, segs: seq<Segment>, h: Heard, t: Memory, q: nat)
    requires Burnable(segs) && HeardOk(h, segs) && Mark(m, h.r) && t == Burnt(After(m, segs, h)) && q < |segs|
    ensures t[BAR + q] == if q == h.r then GOT else m[BAR + q]
  {
    ghost var u, at := After(m, segs, h), BAR + q;
    ArrivesBeside(m, segs, h, u, at);
    BurntAt(u, segs[h.r], PokeFrom(u, 0), t, at);
    assert Reserved(at, |segs|) && !Covers(segs[h.r], at);
  }

  /** What it does to memory: the record is there; the rest is as it was. */
  lemma BurntByte(m: Memory, segs: seq<Segment>, h: Heard, t: Memory, a: nat)
    requires Burnable(segs) && HeardOk(h, segs) && Mark(m, h.r) && t == Burnt(After(m, segs, h)) && Holds(a, |segs|)
    ensures t[a] == if m[BAR + h.r] == WANT && Covers(segs[h.r], a) then segs[h.r].data[Into(segs[h.r], a)] else m[a]
  {
    ghost var u := After(m, segs, h);
    ArrivesBeside(m, segs, h, u, a);
    BurntAt(u, segs[h.r], PokeFrom(u, 0), t, a);
  }

  lemma BurntKeepsAddress(m: Memory, before: Memory, segs: seq<Segment>, h: Heard, t: Memory, a: nat)
    requires Burnable(segs) && HeardOk(h, segs) && Mark(m, h.r) && t == Burnt(After(m, segs, h))
    requires Outside(a) && OldOrRight(m, before, segs, a)
    ensures OldOrRight(t, before, segs, a)
  {
    BurntByte(m, segs, h, t, a);
    if Covers(segs[h.r], a) {
      assert Count(segs, a) <= 1;
      TheOneCover(segs, h.r, a);
    }
  }

  lemma BurntKeepsByte(m: Memory, segs: seq<Segment>, h: Heard, t: Memory, q: nat, a: nat)
    requires Burnable(segs) && HeardOk(h, segs) && Mark(m, h.r) && t == Burnt(After(m, segs, h))
    requires q < |segs| && Holds(a, |segs|) && RecordOk(m, segs, q) && Burned(t, q)
    ensures Has(t, segs[q], a)
  {
    BurntByte(m, segs, h, t, a);
    BurntBar(m, segs, h, t, q);
    assert Burned(m, q) ==> Has(m, segs[q], a);
    if q != h.r && Covers(segs[q], a) {
      assert Count(segs, a) <= 1;
      TheOneCover(segs, q, a);
      assert !Covers(segs[h.r], a);
    }
  }

  lemma BurntKeepsRecord(m: Memory, segs: seq<Segment>, h: Heard, t: Memory, q: nat)
    requires Burnable(segs) && HeardOk(h, segs) && Mark(m, h.r) && t == Burnt(After(m, segs, h)) && RecordOk(m, segs, q)
    ensures RecordOk(t, segs, q)
  {
    BurntBar(m, segs, h, t, q);
    if Burned(t, q) {
      forall a: nat {:trigger Has(t, segs[q], a)} | Holds(a, |segs|) ensures Has(t, segs[q], a) {
        BurntKeepsByte(m, segs, h, t, q, a);
      }
    }
  }

  lemma BurntKeeps(m: Memory, before: Memory, segs: seq<Segment>, h: Heard, t: Memory)
    requires Burnable(segs) && HeardOk(h, segs) && Burning(m, before, segs) && t == Burnt(After(m, segs, h))
    ensures Burning(t, before, segs)
  {
    assert RecordOk(m, segs, h.r);
    forall a: nat {:trigger OldOrRight(t, before, segs, a)} | Outside(a) ensures OldOrRight(t, before, segs, a) {
      assert OldOrRight(m, before, segs, a);
      BurntKeepsAddress(m, before, segs, h, t, a);
    }
    forall r: nat {:trigger RecordOk(t, segs, r)} | r < |segs| ensures RecordOk(t, segs, r) {
      assert RecordOk(m, segs, r);
      BurntKeepsRecord(m, segs, h, t, r);
    }
  }

  // ----- Whole runs -----

  predicate AllOk(segs: seq<Segment>, heard: seq<Heard>) {
    forall h {:trigger HeardOk(h, segs)} :: h in heard ==> HeardOk(h, segs)
  }

  lemma FirstOk(segs: seq<Segment>, heard: seq<Heard>)
    requires AllOk(segs, heard) && heard != []
    ensures HeardOk(heard[0], segs) && AllOk(segs, heard[1..])
  {
  }

  /** Packets that came before the key, and packets that came after it: any of the burn's packets,
      in any order, any number of times. */
  ghost function Listening(m: Memory, segs: seq<Segment>, heard: seq<Heard>): Memory
    requires Burnable(segs) && AllOk(segs, heard)
    decreases |heard|
  {
    if heard == [] then m
    else
      FirstOk(segs, heard);
      assert |segs[heard[0].r].data| <= PAGE;
      Listening(Listed(After(m, segs, heard[0])), segs, heard[1..])
  }

  ghost function Burns(m: Memory, segs: seq<Segment>, heard: seq<Heard>): Memory
    requires Burnable(segs) && AllOk(segs, heard)
    decreases |heard|
  {
    if heard == [] then m
    else
      FirstOk(segs, heard);
      assert |segs[heard[0].r].data| <= PAGE;
      Burns(Burnt(After(m, segs, heard[0])), segs, heard[1..])
  }

  /** Nothing but the receiver's own area has changed, and every record is wanted. */
  ghost predicate Wanting(m: Memory, before: Memory, segs: seq<Segment>) {
    (forall a: nat {:trigger m[a]} :: Outside(a) ==> m[a] == before[a]) &&
    forall r: nat {:trigger Wanted(m, r)} :: r < |segs| ==> Wanted(m, r)
  }

  lemma ListedWants(m: Memory, before: Memory, segs: seq<Segment>, h: Heard)
    requires Burnable(segs) && HeardOk(h, segs) && |segs[h.r].data| <= PAGE
    requires forall a: nat {:trigger m[a]} :: Outside(a) ==> m[a] == before[a]
    ensures Wanting(Listed(After(m, segs, h)), before, segs)
  {
    PacketArrives(m, segs, h);
    var u := After(m, segs, h);
    var t := Listed(u);
    forall a: nat {:trigger t[a]} | Outside(a) ensures t[a] == before[a] {
      assert u[a] == m[a];
    }
    forall r: nat {:trigger Wanted(t, r)} | r < |segs| ensures Wanted(t, r) {
    }
  }

  lemma {:induction false} ListeningWants(m: Memory, before: Memory, segs: seq<Segment>, heard: seq<Heard>)
    requires Burnable(segs) && AllOk(segs, heard)
    requires forall a: nat {:trigger m[a]} :: Outside(a) ==> m[a] == before[a]
    requires heard == [] ==> Wanting(m, before, segs)
    ensures Wanting(Listening(m, segs, heard), before, segs)
    decreases |heard|
  {
    if heard != [] {
      FirstOk(segs, heard);
      assert |segs[heard[0].r].data| <= PAGE;
      ListedWants(m, before, segs, heard[0]);
      ListeningWants(Listed(After(m, segs, heard[0])), before, segs, heard[1..]);
    }
  }

  lemma WantingIsBurning(m: Memory, before: Memory, segs: seq<Segment>)
    requires Wanting(m, before, segs) && |segs| <= 255
    ensures Burning(m, before, segs)
  {
    forall a: nat {:trigger OldOrRight(m, before, segs, a)} | Outside(a) ensures OldOrRight(m, before, segs, a) {
      assert m[a] == before[a];
    }
    forall r: nat {:trigger RecordOk(m, segs, r)} | r < |segs| ensures RecordOk(m, segs, r) {
      assert Wanted(m, r);
    }
  }

  predicate Arrives(heard: seq<Heard>, r: nat) { exists h :: h in heard && h.r == r }

  lemma {:induction false} BurnsKeep(m: Memory, before: Memory, segs: seq<Segment>, heard: seq<Heard>, t: Memory)
    requires Burnable(segs) && AllOk(segs, heard) && Burning(m, before, segs) && t == Burns(m, segs, heard)
    ensures Burning(t, before, segs)
    decreases |heard|
  {
    if heard != [] {
      FirstOk(segs, heard);
      assert |segs[heard[0].r].data| <= PAGE;
      var u := Burnt(After(m, segs, heard[0]));
      BurntKeeps(m, before, segs, heard[0], u);
      BurnsKeep(u, before, segs, heard[1..], t);
    }
  }

  lemma {:induction false} BurnsMark(m: Memory, before: Memory, segs: seq<Segment>, heard: seq<Heard>, t: Memory, r: nat)
    requires Burnable(segs) && AllOk(segs, heard) && Burning(m, before, segs) && t == Burns(m, segs, heard) && r < |segs|
    ensures r < 256 && t[BAR + r] == if Arrives(heard, r) then GOT else m[BAR + r]
    decreases |heard|
  {
    if heard != [] {
      FirstOk(segs, heard);
      assert |segs[heard[0].r].data| <= PAGE;
      assert RecordOk(m, segs, heard[0].r);
      var u := Burnt(After(m, segs, heard[0]));
      BurntKeeps(m, before, segs, heard[0], u);
      BurntBar(m, segs, heard[0], u, r);
      BurnsMark(u, before, segs, heard[1..], t, r);
      assert Arrives(heard, r) <==> heard[0].r == r || Arrives(heard[1..], r) by {
        if Arrives(heard, r) {
          var h :| h in heard && h.r == r;
          assert h == heard[0] || h in heard[1..];
        }
      }
    }
  }

  // ----- The image -----

  /** An image that can be burnt: groups cut rightly, no address twice, none where packets and the
      marks of its records lie, and few enough records. */
  ghost predicate Image(groups: seq<Segment>) {
    (forall g {:trigger g in groups} :: g in groups ==> Plain(g)) && Disjoint(groups) && |AllRecords(groups)| <= 255 &&
    forall a {:trigger Count(groups, a)} :: 0 <= a < MEMORY && Reserved(a, |AllRecords(groups)|) ==> Count(groups, a) == 0
  }

  lemma ImageIsBurnable(groups: seq<Segment>)
    requires Image(groups)
    ensures Burnable(AllRecords(groups))
  {
    var segs := AllRecords(groups);
    forall a {:trigger Count(segs, a)} | 0 <= a < MEMORY ensures Count(segs, a) <= 1 {
      RecordsAreTheImage(groups, a);
      assert Count(groups, a) <= 1;
    }
    forall r {:trigger segs[r]} | 0 <= r < |segs| ensures |segs[r].data| <= PAGE && Clear(segs[r], |segs|) {
      RecordsArePaged(groups, r);
      forall a {:trigger Covers(segs[r], a)} | 0 <= a < MEMORY && Reserved(a, |segs|) ensures !Covers(segs[r], a) {
        RecordsAreTheImage(groups, a);
        assert Count(groups, a) == 0;
        if Covers(segs[r], a) {
          CountAtLeast(segs, r, a);
        }
      }
    }
  }

  /** Memory after packets heard before the key and packets heard after it. */
  ghost function Rescued(m: Memory, groups: seq<Segment>, first: seq<Heard>, second: seq<Heard>): Memory
    requires Image(groups) && AllOk(AllRecords(groups), first) && AllOk(AllRecords(groups), second)
  {
    ImageIsBurnable(groups);
    Burns(Listening(m, AllRecords(groups), first), AllRecords(groups), second)
  }

  lemma RescueIsBurning(m: Memory, groups: seq<Segment>, first: seq<Heard>, second: seq<Heard>, t: Memory)
    requires Image(groups) && first != [] && AllOk(AllRecords(groups), first) && AllOk(AllRecords(groups), second)
    requires t == Rescued(m, groups, first, second)
    ensures Burning(t, m, AllRecords(groups))
    ensures forall r: nat {:trigger Burned(t, r)} :: r < |AllRecords(groups)| ==> (Burned(t, r) <==> Arrives(second, r))
  {
    var segs := AllRecords(groups);
    ImageIsBurnable(groups);
    var u := Listening(m, segs, first);
    ListeningWants(m, m, segs, first);
    WantingIsBurning(u, m, segs);
    BurnsKeep(u, m, segs, second, t);
    forall r: nat {:trigger Burned(t, r)} | r < |segs| ensures Burned(t, r) <==> Arrives(second, r) {
      BurnsMark(u, m, segs, second, t, r);
      assert Wanted(u, r);
    }
  }

  /** Whatever packets are lost, doubled or out of order, a byte outside the receiver's area is as
      it was or as the image has it; a byte that is not the image's is as it was. */
  lemma NothingElseIsBurnt(m: Memory, groups: seq<Segment>, first: seq<Heard>, second: seq<Heard>, a: nat)
    requires Image(groups) && first != [] && AllOk(AllRecords(groups), first) && AllOk(AllRecords(groups), second) && Outside(a)
    ensures var t := Rescued(m, groups, first, second);
            t[a] == m[a] || Lookup(groups, a) == Some(t[a])
  {
    var t := Rescued(m, groups, first, second);
    RescueIsBurning(m, groups, first, second, t);
    assert OldOrRight(t, m, AllRecords(groups), a);
    RecordsAreTheImage(groups, a);
  }

  /** Once every record has come after the key, and so is marked, the image is in memory, the part
      of the bar that its own records do not use included. */
  lemma AllMarkedIsAllThere(m: Memory, groups: seq<Segment>, first: seq<Heard>, second: seq<Heard>, a: nat)
    requires Image(groups) && first != [] && AllOk(AllRecords(groups), first) && AllOk(AllRecords(groups), second) && Holds(a, |AllRecords(groups)|)
    ensures var t, n := Rescued(m, groups, first, second), |AllRecords(groups)|;
            (forall r: nat {:trigger Burned(t, r)} :: r < n ==> (Burned(t, r) <==> Arrives(second, r))) &&
            ((forall r: nat {:trigger Burned(t, r)} :: r < n ==> Burned(t, r)) && Lookup(groups, a).Some? ==> Lookup(groups, a) == Some(t[a]))
  {
    var t := Rescued(m, groups, first, second);
    RescueIsBurning(m, groups, first, second, t);
    RecordsAreTheImage(groups, a);
    if Lookup(groups, a).Some? && forall r: nat {:trigger Burned(t, r)} :: r < |AllRecords(groups)| ==> Burned(t, r) {
      GotIsThere(t, m, AllRecords(groups), a);
    }
  }

  /** Before any packet has been heard nothing is wanted, and nothing is burnt. */
  lemma {:induction false} NothingWanted(m: Memory, segs: seq<Segment>, second: seq<Heard>, t: Memory, a: nat)
    requires Burnable(segs) && AllOk(segs, second) && t == Burns(m, segs, second) && Outside(a)
    requires forall r: nat {:trigger Wanted(m, r)} :: !Wanted(m, r)
    ensures t[a] == m[a]
    decreases |second|
  {
    if second != [] {
      FirstOk(segs, second);
      assert |segs[second[0].r].data| <= PAGE;
      UnwantedStays(m, segs, second[0], a);
      NothingWanted(After(m, segs, second[0]), segs, second[1..], t, a);
    }
  }

  lemma UnwantedStays(m: Memory, segs: seq<Segment>, h: Heard, a: nat)
    requires HeardOk(h, segs) && |segs| <= 255 && |segs[h.r].data| <= PAGE && Outside(a)
    requires forall r: nat {:trigger Wanted(m, r)} :: !Wanted(m, r)
    ensures var u := After(m, segs, h);
            Burnt(u) == u && u[a] == m[a] && forall r: nat {:trigger Wanted(u, r)} :: !Wanted(u, r)
  {
    PacketArrives(m, segs, h);
    BarStays(m, After(m, segs, h), a);
  }

  /** Nothing is wanted, or burnt, that was not before. */
  lemma BarStays(m: Memory, u: Memory, a: nat)
    requires forall x {:trigger u[x]} :: 0 <= x < MEMORY && !(BUFFER <= x < BUFFER + PACKET) ==> u[x] == m[x]
    requires (forall r: nat {:trigger Wanted(m, r)} :: !Wanted(m, r)) && Outside(a)
    ensures Burnt(u) == u && u[a] == m[a] && forall r: nat {:trigger Wanted(u, r)} :: !Wanted(u, r)
  {
    forall r: nat {:trigger Wanted(u, r)} ensures !Wanted(u, r) {
      assert !Wanted(m, r);
    }
    assert !Wanted(u, u[TINY]);
  }

  lemma {:induction false} CoverOf(segs: seq<Segment>, a: nat) returns (r: nat)
    requires Lookup(segs, a).Some?
    ensures r < |segs| && Covers(segs[r], a) && Lookup(segs, a) == Some(segs[r].data[Into(segs[r], a)])
  {
    if Covers(segs[0], a) {
      r := 0;
    } else {
      r := CoverOf(segs[1..], a);
      r := r + 1;
    }
  }

  lemma GotIsThere(t: Memory, before: Memory, segs: seq<Segment>, a: nat)
    requires Burning(t, before, segs) && Holds(a, |segs|) && Lookup(segs, a).Some?
    requires forall r: nat {:trigger Burned(t, r)} :: r < |segs| ==> Burned(t, r)
    ensures Lookup(segs, a) == Some(t[a])
  {
    var r := CoverOf(segs, a);
    BurnedHas(t, before, segs, r, a);
  }

  lemma BurnedHas(t: Memory, before: Memory, segs: seq<Segment>, r: nat, a: nat)
    requires Burning(t, before, segs) && Holds(a, |segs|) && r < |segs| && Burned(t, r)
    ensures Has(t, segs[r], a)
  {
    assert RecordOk(t, segs, r);
  }

  // ----- Images the receiver treads on -----

  /** Of what a packet puts at place k, header and description, and payload past the record's
      bytes, may be anything. */
  predicate Loose(segs: seq<Segment>, r: nat, k: nat)
    requires r < |segs|
  {
    k < TINY - BUFFER || k >= DATA - BUFFER + |segs[r].data|
  }

  function Plainly(b: Byte, segs: seq<Segment>, r: nat): (p: seq<Byte>)
    requires r < |segs| && |segs[r].data| <= PAGE
    ensures |p| == PACKET
  {
    PacketFor(seq(HEADER, _ => b), seq(PACKET - HEADER, _ => b), segs, r)
  }

  lemma PacketPlace(header: seq<Byte>, text: seq<Byte>, segs: seq<Segment>, r: nat, b: Byte, k: nat)
    requires |header| == HEADER && |text| == PACKET - HEADER && r < |segs| && |segs[r].data| <= PAGE && k < PACKET
    ensures Loose(segs, r, k) ==> Plainly(b, segs, r)[k] == b
    ensures !Loose(segs, r, k) ==> PacketFor(header, text, segs, r)[k] == Plainly(b, segs, r)[k]
  {
  }

  predicate Paged(segs: seq<Segment>) { |segs| <= 255 && forall r: nat {:trigger segs[r]} :: r < |segs| ==> |segs[r].data| <= PAGE }

  predicate AllMarked(t: Memory, segs: seq<Segment>) { forall r: nat {:trigger Burned(t, r)} :: r < |segs| ==> Burned(t, r) }

  /** Record r's packet can put another byte than b at place k. */
  predicate Differs(segs: seq<Segment>, r: nat, k: nat, b: Byte)
    requires Paged(segs) && r < |segs| && k < PACKET
  {
    Loose(segs, r, k) || Plainly(0, segs, r)[k] != b
  }

  predicate Loses(t: Memory, segs: seq<Segment>, h: Heard, a: nat, b: Byte)
    requires Paged(segs) && HeardOk(h, segs) && a < MEMORY
  {
    Burnt(After(t, segs, h))[a] != b
  }

  lemma MarkedArrives(t: Memory, segs: seq<Segment>, h: Heard, a: nat)
    requires Paged(segs) && AllMarked(t, segs) && HeardOk(h, segs) && BUFFER <= a < BUFFER + PACKET
    ensures Burnt(After(t, segs, h)) == After(t, segs, h) && AllMarked(After(t, segs, h), segs)
    ensures After(t, segs, h)[a] == PacketFor(h.header, h.text, segs, h.r)[a - BUFFER]
  {
    PacketArrives(t, segs, h);
    MarksStay(t, After(t, segs, h), segs, h.r);
  }

  lemma MarksStay(t: Memory, u: Memory, segs: seq<Segment>, q: nat)
    requires forall x {:trigger u[x]} :: 0 <= x < MEMORY && !(BUFFER <= x < BUFFER + PACKET) ==> u[x] == t[x]
    requires AllMarked(t, segs) && q < |segs| <= 255 && u[TINY] == q
    ensures Burnt(u) == u && AllMarked(u, segs)
  {
    forall r: nat {:trigger Burned(u, r)} | r < |segs| ensures Burned(u, r) { assert Burned(t, r); }
    assert Burned(u, q);
  }

  /** An image with a byte at 0400-0487, all its records marked: one more packet can lose the byte,
      and leave all marks, exactly if some record's packet can have another byte there. */
  lemma PacketLosesExactly(t: Memory, segs: seq<Segment>, a: nat, b: Byte)
    requires Paged(segs) && AllMarked(t, segs) && BUFFER <= a < BUFFER + PACKET
    ensures forall h {:trigger HeardOk(h, segs)} | HeardOk(h, segs) :: AllMarked(Burnt(After(t, segs, h)), segs)
    ensures (exists h {:trigger HeardOk(h, segs)} :: HeardOk(h, segs) && Loses(t, segs, h, a, b)) <==>
            exists r: nat {:trigger Differs(segs, r, a - BUFFER, b)} :: r < |segs| && Differs(segs, r, a - BUFFER, b)
  {
    forall h {:trigger HeardOk(h, segs)} | HeardOk(h, segs)
      ensures AllMarked(Burnt(After(t, segs, h)), segs) && (Loses(t, segs, h, a, b) ==> Differs(segs, h.r, a - BUFFER, b))
    {
      MarkedArrives(t, segs, h, a);
      PacketPlace(h.header, h.text, segs, h.r, 0, a - BUFFER);
    }
    var k := a - BUFFER;
    if r: nat :| r < |segs| && Differs(segs, r, k, b) {
      LosingPacket(t, segs, r, a, b);
    }
  }

  lemma LosingPacket(t: Memory, segs: seq<Segment>, r: nat, a: nat, b: Byte)
    requires Paged(segs) && AllMarked(t, segs) && BUFFER <= a < BUFFER + PACKET && r < |segs| && Differs(segs, r, a - BUFFER, b)
    ensures exists h {:trigger HeardOk(h, segs)} :: HeardOk(h, segs) && Loses(t, segs, h, a, b)
  {
    var c: Byte := if b == 0 then 1 else 0;
    var h := Heard(r, seq(HEADER, _ => c), seq(PACKET - HEADER, _ => c));
    PacketPlace(h.header, h.text, segs, r, 0, a - BUFFER);
    PacketPlace(h.header, h.text, segs, r, c, a - BUFFER);
    assert HeardOk(h, segs);
    MarkedArrives(t, segs, h, a);
  }

  /** An image with a byte where a record of its own is marked: once that is marked, the byte is
      there exactly if it is the mark. */
  lemma BarHoldsTheMark(t: Memory, segs: seq<Segment>, r: nat)
    requires r < |segs| <= 255 && Burned(t, r) && Lookup(segs, BAR + r).Some?
    ensures Lookup(segs, BAR + r) == Some(t[BAR + r]) <==> Lookup(segs, BAR + r) == Some(GOT)
  {
  }

  lemma OneByteImage(a: nat, b: Byte)
    requires PAGE <= a < MEMORY
    ensures var groups := [Segment(a, [b])];
            AllRecords(groups) == groups && Disjoint(groups) && (forall g {:trigger g in groups} :: g in groups ==> Plain(g)) &&
            Lookup(groups, a) == Some(b)
  {
    var groups := [Segment(a, [b])];
    CutOnce(a, [b]);
    assert groups[..0] == [] && AllRecords([]) == [];
    WrapIs(0);
  }

  /** One byte at the start of the bar: its packet, before and after the key, leaves its record
      marked and another byte there. */
  lemma BarImageIsLost(m: Memory, h: Heard)
    requires h.r == 0 && |h.header| == HEADER && |h.text| == PACKET - HEADER
    ensures var groups := [Segment(BAR, [WANT])];
            var t := Burnt(After(Listed(After(m, groups, h)), groups, h));
            AllRecords(groups) == groups && Disjoint(groups) && Burned(t, 0) && Lookup(groups, BAR) == Some(WANT) != Some(t[BAR])
  {
    var groups := [Segment(BAR, [WANT])];
    OneByteImage(BAR, WANT);
    PacketArrives(m, groups, h);
    var listed := Listed(After(m, groups, h));
    PacketArrives(listed, groups, h);
    assert listed[BAR + 0] == WANT;
    assert After(listed, groups, h)[BAR + 0] == listed[BAR + 0];
  }

  /** One byte where packets are received: a second packet of it leaves its record marked and the
      packet's header there. */
  lemma PacketImageIsLost(m: Memory, h: Heard)
    requires h.r == 0 && |h.header| == HEADER && |h.text| == PACKET - HEADER && h.header[0] != 0
    ensures var groups := [Segment(BUFFER, [0])];
            var once := Burnt(After(Listed(After(m, groups, h)), groups, h));
            var t := Burnt(After(once, groups, h));
            AllRecords(groups) == groups && Disjoint(groups) && Burned(t, 0) && Lookup(groups, BUFFER) == Some(0) != Some(t[BUFFER])
  {
    var groups := [Segment(BUFFER, [0])];
    OneByteImage(BUFFER, 0);
    PacketArrives(m, groups, h);
    var listed := Listed(After(m, groups, h));
    PacketArrives(listed, groups, h);
    assert listed[BAR + 0] == WANT;
    assert After(listed, groups, h)[BAR + 0] == listed[BAR + 0];
    var once := Burnt(After(listed, groups, h));
    assert once[BAR + 0] == GOT;
    PacketArrives(once, groups, h);
    assert After(once, groups, h)[BAR + 0] == once[BAR + 0];
    assert After(once, groups, h)[BUFFER] == PacketFor(h.header, h.text, groups, 0)[0] == h.header[0];
  }
}
