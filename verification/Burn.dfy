/**
  The broadcast burn: cutting an image into records of at most one 64-byte page, broadcasting them
  in packets, and the rescue loop that burns those it wants.
 */
module Burn {
  import opened Bytes
  import opened Sequences

  const PAGE: nat := 64
  const MEMORY: nat := 0x1_0000
  const HEADER: nat := 8              // what the chip puts before a UDP payload
  const PACKET: nat := 136            // PACKET_SIZE
  const BUFFER: nat := 0x0400
  const TINY: nat := 0x0443           // struct tiny_burn, just before the burn data
  const DATA: nat := 0x0448
  const BAR: nat := 0x0500
  const BAR_LENGTH: nat := 480
  const EMPTY: Byte := 46
  const WANT: Byte := 15
  const GOT: Byte := 88

  /** Bytes for consecutive addresses: a group of the image, or a record of it. */
  datatype Segment = Segment(addr: nat, data: seq<Byte>)

  // ----- What segments put where -----

  /** How far an address is into a segment, counting as a 16-bit address does. */
  function Into(s: Segment, a: nat): nat { Wrap(a - s.addr) }

  predicate Covers(s: Segment, a: nat) { Into(s, a) < |s.data| }

  function Count(segs: seq<Segment>, a: nat): nat {
    if segs == [] then 0 else (if Covers(segs[0], a) then 1 else 0) + Count(segs[1..], a)
  }

  /** The byte the segments have for an address. */
  function Lookup(segs: seq<Segment>, a: nat): Option<Byte> {
    if segs == [] then None
    else if Covers(segs[0], a) then Some(segs[0].data[Into(segs[0], a)])
    else Lookup(segs[1..], a)
  }

  predicate Disjoint(segs: seq<Segment>) { forall a {:trigger Count(segs, a)} :: 0 <= a < MEMORY ==> Count(segs, a) <= 1 }

  predicate OnePage(s: Segment) { s.data != [] && s.addr / PAGE == (s.addr + |s.data| - 1) / PAGE }

  // ----- The transmitter -----

  /** A group cut where a page ends. */
  function Cut(data: seq<Byte>, p: nat): seq<Segment>
    decreases |data|
  {
    if data == [] then []
    else
      var n := Taken(data, p);
      [Segment(p, data[..n])] + Cut(data[n..], p + n)
  }

  /** How much of the data the page of p has room for. */
  function Taken(data: seq<Byte>, p: nat): (n: nat)
    ensures n <= |data| && (data != [] ==> n > 0)
  {
    if Room(p) < |data| then Room(p) else |data|
  }

  /** The bytes from p to the end of its page. */
  function Room(p: nat): (r: nat)
    ensures 0 < r <= PAGE <= r + p
    decreases p
  {
    if p < PAGE then PAGE - p else Room(p - PAGE)
  }

  lemma {:induction false} RoomIs(p: nat)
    ensures Room(p) == PAGE - p % PAGE
    decreases p
  {
    if p >= PAGE {
      RoomIs(p - PAGE);
    }
  }

  lemma {:induction false} RoomShrinks(p: nat, n: nat)
    requires n <= Room(p)
    ensures Room(p + n) == if n < Room(p) then Room(p) - n else PAGE
    decreases p
  {
    if p >= PAGE {
      RoomShrinks(p - PAGE, n);
    } else if n == Room(p) {
      assert Room(PAGE) == Room(0);
    }
  }

  predicate PageStart(p: nat) { Room(p) == PAGE }

  /** What TransmitGroup makes of it: in page 0 it forgets where the group starts. */
  function Records(data: seq<Byte>, p: nat): seq<Segment> { if p < PAGE then FromZero(Cut(data, p)) else Cut(data, p) }

  function FromZero(segs: seq<Segment>): seq<Segment> { if segs == [] then [] else [Segment(0, segs[0].data)] + segs[1..] }

  /** One more byte for the last record. */
  function Longer(segs: seq<Segment>, b: Byte): seq<Segment>
    requires segs != []
  {
    var last := segs[|segs| - 1];
    segs[..|segs| - 1] + [Segment(last.addr, last.data + [b])]
  }

  /** The first record takes the new byte, or is full. */
  lemma TakenGrows(data: seq<Byte>, p: nat, b: Byte)
    requires data != []
    ensures var n, more := Taken(data, p), data + [b];
            if n < |data| || PageStart(p + |data|) then Taken(more, p) == n && more[..n] == data[..n] && more[n..] == data[n..] + [b]
            else Taken(more, p) == |more|
  {
    RoomShrinks(p, Taken(data, p));
  }

  lemma LongerTail(first: Segment, rest: seq<Segment>, b: Byte)
    requires rest != []
    ensures Longer([first] + rest, b) == [first] + Longer(rest, b)
  {
  }

  lemma CutOnce(p: nat, data: seq<Byte>)
    requires data != [] && Taken(data, p) == |data|
    ensures Cut(data, p) == [Segment(p, data)]
  {
    assert data[..|data|] == data && data[|data|..] == [];
  }

  lemma CutSplit(data: seq<Byte>, p: nat, n: nat)
    requires data != [] && n == Taken(data, p)
    ensures Cut(data, p) == [Segment(p, data[..n])] + Cut(data[n..], p + n)
  {
  }

  lemma LastGrows(data: seq<Byte>, p: nat, b: Byte)
    requires data != [] && Taken(data, p) == |data|
    ensures Cut(data, p) == [Segment(p, data)]
    ensures Cut(data + [b], p) == if PageStart(p + |data|) then [Segment(p, data), Segment(p + |data|, [b])] else [Segment(p, data + [b])]
  {
    var more := data + [b];
    TakenGrows(data, p, b);
    CutOnce(p, data);
    if PageStart(p + |data|) {
      CutSplit(more, p, |data|);
      CutOnce(p + |data|, [b]);
    } else {
      CutOnce(p, more);
    }
  }

  lemma {:induction false} CutGrows(data: seq<Byte>, p: nat, b: Byte, cut: seq<Segment>, cut': seq<Segment>)
    requires data != [] && cut == Cut(data, p) && cut' == Cut(data + [b], p)
    ensures cut != [] && cut' == if PageStart(p + |data|) then cut + [Segment(p + |data|, [b])] else Longer(cut, b)
    decreases |data|
  {
    var n := Taken(data, p);
    if n < |data| {
      var rest, rest' := Cut(data[n..], p + n), Cut(data[n..] + [b], p + n);
      TakenGrows(data, p, b);
      CutSplit(data, p, n);
      CutSplit(data + [b], p, n);
      CutGrows(data[n..], p + n, b, rest, rest');
      LongerTail(Segment(p, data[..n]), rest, b);
    } else {
      LastGrows(data, p, b);
    }
  }

  lemma FromZeroGrows(segs: seq<Segment>, b: Byte, x: Segment)
    requires segs != []
    ensures FromZero(segs) != [] && FromZero(Longer(segs, b)) == Longer(FromZero(segs), b) && FromZero(segs + [x]) == FromZero(segs) + [x]
  {
  }

  /** The byte loop's step: a byte in the page of the one before it joins its record. */
  lemma RecordsGrow(data: seq<Byte>, p: nat, b: Byte)
    requires data != []
    ensures Records(data, p) != []
    ensures Records(data + [b], p) == if PageStart(p + |data|) then Records(data, p) + [Segment(p + |data|, [b])] else Longer(Records(data, p), b)
  {
    var cut, cut' := Cut(data, p), Cut(data + [b], p);
    CutGrows(data, p, b, cut, cut');
    FromZeroGrows(cut, b, Segment(p + |data|, [b]));
  }

  lemma RecordsBegin(p: nat, b: Byte)
    ensures Records([b], p) == [Segment(if p < PAGE then 0 else p, [b])]
  {
    CutOnce(p, [b]);
  }

  /** The transmitter's globals. */
  class Transmitter {
    var segments: seq<Segment>
    var data: seq<Byte>
    var base: nat
    var offset: nat

    constructor ()
      ensures segments == []
    {
      segments, data, base, offset := [], [], 0, 0;
    }

    method Keep()
      modifies this
      ensures segments == Gathered(old(segments), old(data), old(base) + old(offset))
      ensures old(data) == [] ==> data == [] && base == old(base) && offset == old(offset)
      ensures old(data) != [] ==> data == [] && base == 0 && offset == 0
    {
      if data == [] {
        return;
      }
      segments := segments + [Segment(base + offset, data)];
      data, base, offset := [], 0, 0;
    }

    /** The body of the byte loop. */
    method TakeByte(b: Byte, addr: nat)
      modifies this
      ensures Takes(old(segments), old(data), old(base), old(offset), segments, data, base, offset, b, addr, PageOf(addr))
    {
      if PageOf(addr) == base {
        data := data + [b];
      } else {
        Keep();
        data, base, offset := [b], PageOf(addr), addr - PageOf(addr);
      }
    }

    method TransmitGroup(bb: seq<Byte>, p: nat)
      modifies this
      ensures segments == old(segments) + Records(bb, p)
    {
      data, base, offset := [], 0, 0;
      GroupBegins(segments, bb, p);
      for i := 0 to |bb|
        invariant Gathering(segments, data, base, offset, old(segments), bb, p, i)
      {
        ghost var kept, had, page, into := segments, data, base, offset;
        TakeByte(bb[i], p + i);
        Turn(kept, had, page, into, segments, data, base, offset, old(segments), bb, p, i);
      }
      GroupEnds(segments, data, base, offset, old(segments), bb, p);
      Keep();
    }

    /** The image of poke commands; false where the program panics or gives up. */
    method TransmitAll(image: seq<Byte>) returns (ok: bool)
      modifies this
      ensures ok == Parse(image).Some?
      ensures ok ==> segments == old(segments) + AllRecords(Parse(image).value)
    {
      var bb := image;
      ghost var done: seq<Segment> := [];
      ParsesFrom(image);
      while bb != []
        invariant Parsed(image, done, bb)
        invariant segments == old(segments) + AllRecords(done)
        decreases |bb|
      {
        if |bb| < 5 || (bb[0] != 255 && (bb[0] != 0 || 5 + HiLo(bb[1], bb[2]) > |bb|)) {
          Refused(image, done, bb);
          return false;
        }
        if bb[0] == 255 {
          ok := |bb| == 5 && HiLo(bb[1], bb[2]) == 0;
          Ended(image, done, bb);
          return;
        }
        ghost var g, kept := First(bb), segments;
        TransmitGroup(bb[5..5 + HiLo(bb[1], bb[2])], HiLo(bb[3], bb[4]));
        AllRecordsGrow(old(segments), kept, done, g, segments);
        ParseStep(image, done, bb);
        done := done + [g];
        bb := bb[5 + HiLo(bb[1], bb[2])..];
      }
      Ended(image, done, bb);
      ok := true;
    }
  }


  /** A poke command and its bytes. */
  predicate Pokes(bb: seq<Byte>) { |bb| >= 5 && bb[0] == 0 && 5 + HiLo(bb[1], bb[2]) <= |bb| }

  function First(bb: seq<Byte>): Segment
    requires Pokes(bb)
  {
    Segment(HiLo(bb[3], bb[4]), bb[5..5 + HiLo(bb[1], bb[2])])
  }

  /** What is done, and what is left to do, are what there was to do. */
  predicate Parsed(image: seq<Byte>, done: seq<Segment>, bb: seq<Byte>) {
    var rest := Parse(bb);
    Parse(image) == if rest.None? then None else Some(done + rest.value)
  }

  lemma ParsesFrom(image: seq<Byte>)
    ensures Parsed(image, [], image)
  {
    var rest := Parse(image);
    assert rest.Some? ==> [] + rest.value == rest.value;
  }

  lemma ParseStep(image: seq<Byte>, done: seq<Segment>, bb: seq<Byte>)
    requires Pokes(bb) && Parsed(image, done, bb)
    ensures Parsed(image, done + [First(bb)], bb[5 + HiLo(bb[1], bb[2])..])
  {
    var rest := Parse(bb[5 + HiLo(bb[1], bb[2])..]);
    assert rest.Some? ==> done + ([First(bb)] + rest.value) == (done + [First(bb)]) + rest.value;
  }

  lemma Refused(image: seq<Byte>, done: seq<Segment>, bb: seq<Byte>)
    requires Parsed(image, done, bb) && bb != [] && (|bb| < 5 || (bb[0] != 255 && !Pokes(bb)))
    ensures Parse(image).None?
  {
  }

  lemma Ended(image: seq<Byte>, done: seq<Segment>, bb: seq<Byte>)
    requires Parsed(image, done, bb) && (bb == [] || (|bb| >= 5 && bb[0] == 255))
    ensures Parse(image).Some? <==> bb == [] || (|bb| == 5 && HiLo(bb[1], bb[2]) == 0)
    ensures Parse(image).Some? ==> Parse(image).value == done
  {
    assert done + [] == done;
  }

  /** The groups of an image: pokes, to the end or to an end mark with nothing after it. */
  function Parse(bb: seq<Byte>): Option<seq<Segment>>
    decreases |bb|
  {
    if bb == [] then Some([])
    else if |bb| < 5 then None
    else if bb[0] == 255 then if |bb| == 5 && HiLo(bb[1], bb[2]) == 0 then Some([]) else None
    else if !Pokes(bb) then None
    else
      var rest := Parse(bb[5 + HiLo(bb[1], bb[2])..]);
      if rest.None? then None else Some([First(bb)] + rest.value)
  }

  function AllRecords(groups: seq<Segment>): seq<Segment> {
    if groups == [] then [] else AllRecords(groups[..|groups| - 1]) + Records(groups[|groups| - 1].data, groups[|groups| - 1].addr)
  }

  lemma AllRecordsGrow(start: seq<Segment>, kept: seq<Segment>, groups: seq<Segment>, g: Segment, now: seq<Segment>)
    requires kept == start + AllRecords(groups) && now == kept + Records(g.data, g.addr)
    ensures now == start + AllRecords(groups + [g])
  {
    assert (groups + [g])[..|groups|] == groups;
    assert (start + AllRecords(groups)) + Records(g.data, g.addr) == start + (AllRecords(groups) + Records(g.data, g.addr));
  }

  // ----- Images as poke commands -----

  predicate Encodable(g: Segment) { |g.data| < MEMORY && g.addr < MEMORY }

  function Command(g: Segment): (r: seq<Byte>)
    requires Encodable(g)
    ensures |r| == 5 + |g.data|
  {
    [0, Hi(|g.data|), Lo(|g.data|), Hi(g.addr), Lo(g.addr)] + g.data
  }

  function Encode(groups: seq<Segment>): seq<Byte>
    requires forall g {:trigger g in groups} :: g in groups ==> Encodable(g)
  {
    if groups == [] then [255, 0, 0, 0, 0]
    else
      assert groups[0] in groups && forall g {:trigger g in groups[1..]} :: g in groups[1..] ==> g in groups;
      Command(groups[0]) + Encode(groups[1..])
  }

  lemma FirstBack(g: Segment, rest: seq<Byte>)
    requires Encodable(g)
    ensures var bb := Command(g) + rest;
            Pokes(bb) && First(bb) == g && bb[5 + HiLo(bb[1], bb[2])..] == rest
  {
    var bb := Command(g) + rest;
    assert bb[1] == Hi(|g.data|) && bb[2] == Lo(|g.data|) && bb[3] == Hi(g.addr) && bb[4] == Lo(g.addr);
    WordArrives(|g.data|);
    WordArrives(g.addr);
    assert bb[5..5 + |g.data|] == g.data;
  }

  lemma ParseOne(g: Segment, rest: seq<Byte>, groups: seq<Segment>)
    requires Encodable(g) && Parse(rest) == Some(groups)
    ensures Parse(Command(g) + rest) == Some([g] + groups)
  {
    FirstBack(g, rest);
  }

  lemma {:induction false} ParsesBack(groups: seq<Segment>, bb: seq<Byte>)
    requires forall g {:trigger g in groups} :: g in groups ==> Encodable(g)
    requires bb == Encode(groups)
    ensures Parse(bb) == Some(groups)
    decreases |groups|
  {
    if groups != [] {
      assert groups[0] in groups && forall g {:trigger g in groups[1..]} :: g in groups[1..] ==> g in groups;
      ParsesBack(groups[1..], Encode(groups[1..]));
      ParseOne(groups[0], Encode(groups[1..]), groups[1..]);
      assert [groups[0]] + groups[1..] == groups;
    }
  }

  /** addr &^ 63; what is left is 63 & addr. */
  function PageOf(addr: nat): (r: nat)
    ensures r <= addr
  {
    addr + Room(addr) - PAGE
  }

  lemma SamePage(p: nat, i: nat)
    ensures i > 0 ==> (PageOf(p + i) == PageOf(p + i - 1) <==> !PageStart(p + i))
    ensures PageOf(p) == 0 <==> p < PAGE
  {
    RoomIs(p);
    if i > 0 {
      RoomShrinks(p + i - 1, 1);
    }
  }

  lemma Joined(kept: seq<Segment>, before: seq<Segment>, sofar: seq<Segment>, gathering: Segment, b: Byte)
    requires kept + (if gathering.data == [] then [] else [gathering]) == before + sofar
    ensures gathering.data != [] && sofar != [] ==>
      kept + [Segment(gathering.addr, gathering.data + [b])] == before + Longer(sofar, b)
  {
    if gathering.data != [] && sofar != [] {
      var all := before + sofar;
      assert all[|all| - 1] == gathering && all[|all| - 1] == sofar[|sofar| - 1];
      assert all[..|all| - 1] == kept && all[..|all| - 1] == before + sofar[..|sofar| - 1];
    }
  }

  /** How the records grow by one byte, by page alone. */
  lemma RecordsStep(bb: seq<Byte>, p: nat, i: nat, r: seq<Segment>, r': seq<Segment>)
    requires i < |bb| && r == Records(bb[..i], p) && r' == Records(bb[..i + 1], p)
    ensures i == 0 ==> r == [] && r' == [Segment(if PageOf(p) == 0 then 0 else p, [bb[0]])]
    ensures i > 0 ==> r != [] && r' == if PageOf(p + i) == PageOf(p + i - 1) then Longer(r, bb[i]) else r + [Segment(p + i, [bb[i]])]
  {
    SamePage(p, i);
    assert bb[..i + 1] == bb[..i] + [bb[i]];
    if i == 0 {
      assert bb[..0] == [] && bb[..1] == [bb[0]];
      RecordsBegin(p, bb[0]);
    } else {
      RecordsGrow(bb[..i], p, bb[i]);
    }
  }

  /** The records kept, with the one being gathered. */
  function Gathered(kept: seq<Segment>, data: seq<Byte>, at: nat): seq<Segment> {
    kept + if data == [] then [] else [Segment(at, data)]
  }

  /** The transmitter's globals after i bytes of a group. */
  predicate Gathering(kept: seq<Segment>, data: seq<Byte>, base: nat, offset: nat, before: seq<Segment>, bb: seq<Byte>, p: nat, i: nat) {
    i <= |bb| && Gathered(kept, data, base + offset) == before + Records(bb[..i], p) &&
    if i == 0 then data == [] && base == 0 && offset == 0 else data != [] && base == PageOf(p + i - 1)
  }

  /** What the body of the byte loop does to them. */
  predicate Takes(kept: seq<Segment>, data: seq<Byte>, base: nat, offset: nat, kept': seq<Segment>, data': seq<Byte>, base': nat, offset': nat,
                  b: Byte, addr: nat, page: nat)
  {
    base' == page && data' != [] &&
    Gathered(kept', data', base' + offset') ==
      if page == base then kept + [Segment(base + offset, data + [b])]
      else Gathered(kept, data, base + offset) + [Segment(addr, [b])]
  }

  lemma GroupBegins(kept: seq<Segment>, bb: seq<Byte>, p: nat)
    ensures Gathering(kept, [], 0, 0, kept, bb, p, 0)
  {
    assert bb[..0] == [];
  }

  lemma GroupEnds(kept: seq<Segment>, data: seq<Byte>, base: nat, offset: nat, before: seq<Segment>, bb: seq<Byte>, p: nat)
    requires Gathering(kept, data, base, offset, before, bb, p, |bb|)
    ensures Gathered(kept, data, base + offset) == before + Records(bb, p)
  {
    assert bb[..|bb|] == bb;
  }

  /** One turn of the byte loop. */
  lemma Turn(kept: seq<Segment>, data: seq<Byte>, base: nat, offset: nat, kept': seq<Segment>, data': seq<Byte>, base': nat, offset': nat,
             before: seq<Segment>, bb: seq<Byte>, p: nat, i: nat)
    requires i < |bb| && Gathering(kept, data, base, offset, before, bb, p, i)
    requires Takes(kept, data, base, offset, kept', data', base', offset', bb[i], p + i, PageOf(p + i))
    ensures Gathering(kept', data', base', offset', before, bb, p, i + 1)
  {
    var r, r' := Records(bb[..i], p), Records(bb[..i + 1], p);
    RecordsStep(bb, p, i, r, r');
    GatherOne(kept, before, data, base + offset, r, r', i == 0, PageOf(p + i) == base, p + i, bb[i]);
    TakesOver(kept, data, base, offset, kept', data', base', offset', before, r', bb[i], p + i, PageOf(p + i));
  }

  lemma TakesOver(kept: seq<Segment>, data: seq<Byte>, base: nat, offset: nat, kept': seq<Segment>, data': seq<Byte>, base': nat, offset': nat,
                  before: seq<Segment>, r': seq<Segment>, b: Byte, addr: nat, page: nat)
    requires Takes(kept, data, base, offset, kept', data', base', offset', b, addr, page)
    requires page == base ==> kept + [Segment(base + offset, data + [b])] == before + r'
    requires page != base ==> Gathered(kept, data, base + offset) + [Segment(addr, [b])] == before + r'
    ensures Gathered(kept', data', base' + offset') == before + r' && data' != [] && base' == page
  {
  }

  lemma GatherOne(kept: seq<Segment>, before: seq<Segment>, data: seq<Byte>, at: nat, r: seq<Segment>, r': seq<Segment>,
                  first: bool, same: bool, p: nat, b: Byte)
    requires Gathered(kept, data, at) == before + r
    requires if first then data == [] && at == 0 && r == [] && r' == [Segment(if same then 0 else p, [b])]
             else data != [] && r != [] && r' == if same then Longer(r, b) else r + [Segment(p, [b])]
    ensures same ==> kept + [Segment(at, data + [b])] == before + r'
    ensures !same ==> Gathered(kept, data, at) + [Segment(p, [b])] == before + r'
  {
    if first {
      assert kept + [] == kept && before + [] == before && data + [b] == [b];
    } else {
      Joined(kept, before, r, Segment(at, data), b);
    }
  }

  // ----- The records are the image -----

  lemma WrapLater(x: int, n: nat)
    requires n < MEMORY
    ensures Wrap(x - n) == if Wrap(x) >= n then Wrap(x) - n else Wrap(x) - n + MEMORY
  {
    WrapIs(x);
    WrapIs(x - n);
  }

  lemma IntoLater(p: nat, n: nat, a: nat)
    requires n < MEMORY
    ensures var s, t := Segment(p, []), Segment(p + n, []);
            Into(t, a) == if Into(s, a) >= n then Into(s, a) - n else Into(s, a) - n + MEMORY
  {
    WrapLater(a - p, n);
  }

  /** One record cut off the front changes neither what the bytes are nor how often they occur. */
  lemma CutFront(data: seq<Byte>, p: nat, n: nat, a: nat)
    requires n <= |data| < MEMORY
    ensures Count([Segment(p, data[..n])], a) + Count([Segment(p + n, data[n..])], a) == Count([Segment(p, data)], a)
    ensures Lookup([Segment(p, data)], a) ==
      if Covers(Segment(p, data[..n]), a) then Lookup([Segment(p, data[..n])], a) else Lookup([Segment(p + n, data[n..])], a)
  {
    IntoLater(p, n, a);
  }

  lemma {:induction false} CutIsTheGroup(data: seq<Byte>, p: nat, a: nat)
    requires |data| < MEMORY
    ensures Count(Cut(data, p), a) == Count([Segment(p, data)], a)
    ensures Lookup(Cut(data, p), a) == Lookup([Segment(p, data)], a)
    decreases |data|
  {
    if data != [] {
      var n := Taken(data, p);
      var rest := Cut(data[n..], p + n);
      CutFront(data, p, n, a);
      CutIsTheGroup(data[n..], p + n, a);
      CountAppend([Segment(p, data[..n])], rest, a);
      assert Cut(data, p) == [Segment(p, data[..n])] + rest;
    }
  }

  lemma {:induction false} CutIsPaged(data: seq<Byte>, p: nat, k: nat)
    requires k < |Cut(data, p)|
    ensures OnePage(Cut(data, p)[k]) && |Cut(data, p)[k].data| <= PAGE
    decreases |data|
  {
    var n := Taken(data, p);
    if k == 0 {
      RoomIs(p);
      InOnePage(p, n);
    } else {
      CutIsPaged(data[n..], p + n, k - 1);
    }
  }

  lemma InOnePage(p: nat, n: nat)
    requires 0 < n <= PAGE - p % PAGE
    ensures p / PAGE == (p + n - 1) / PAGE
  {
  }

  /** The transmitter's records put a group's bytes where they belong exactly if the group is
      empty, starts at 0, or starts beyond page 0. */
  lemma RecordsAreRightExactly(data: seq<Byte>, p: nat)
    requires |data| < MEMORY && p < MEMORY
    ensures (forall a {:trigger Lookup(Records(data, p), a)} :: 0 <= a < MEMORY ==> Lookup(Records(data, p), a) == Lookup([Segment(p, data)], a))
            <==> data == [] || p == 0 || p >= PAGE
  {
    if data == [] || p == 0 || p >= PAGE {
      RightWhenPlain(data, p);
      forall a {:trigger Lookup(Records(data, p), a)} | 0 <= a < MEMORY ensures Lookup(Records(data, p), a) == Lookup([Segment(p, data)], a) {
        CutIsTheGroup(data, p, a);
      }
    } else {
      MisplacedInPage0(data, p);
    }
  }

  lemma MisplacedInPage0(data: seq<Byte>, p: nat)
    requires 0 < |data| < MEMORY && 0 < p < PAGE
    ensures exists a {:trigger Lookup(Records(data, p), a)} :: 0 <= a < MEMORY && Lookup(Records(data, p), a) != Lookup([Segment(p, data)], a)
  {
    var bad := if Taken(data, p) < |data| then PAGE - 1 else 0;
    if Taken(data, p) < |data| { LastOfPage0(data, p); } else { FirstOfPage0(data, p); }
    assert Lookup(Records(data, p), bad) != Lookup([Segment(p, data)], bad);
  }

  /** The last byte of page 0 is in the group, and in no record. */
  lemma LastOfPage0(data: seq<Byte>, p: nat)
    requires |data| < MEMORY && 0 < p < PAGE && Taken(data, p) < |data|
    ensures Lookup(Records(data, p), PAGE - 1) == None && Lookup([Segment(p, data)], PAGE - 1).Some?
  {
    var n := PAGE - p;
    PageRoom(p);
    var first, tail := Segment(0, data[..n]), Segment(PAGE, data[n..]);
    LookupFirst(first, Cut(data[n..], PAGE), PAGE - 1);
    CutIsTheGroup(data[n..], PAGE, PAGE - 1);
    IntoIs(first, PAGE - 1);
    IntoIs(tail, PAGE - 1);
    IntoIs(Segment(p, data), PAGE - 1);
    assert !Covers(tail, PAGE - 1) && Lookup([tail], PAGE - 1) == None;
  }

  lemma PageRoom(p: nat)
    requires p < PAGE
    ensures Room(p) == PAGE - p
  {
  }

  lemma IntoIs(s: Segment, a: nat)
    requires s.addr < MEMORY && a < MEMORY
    ensures Into(s, a) == if s.addr <= a then a - s.addr else MEMORY + a - s.addr
  {
    WrapIs(a - s.addr);
  }

  lemma LookupFirst(first: Segment, rest: seq<Segment>, a: nat)
    ensures !Covers(first, a) ==> Lookup([first] + rest, a) == Lookup(rest, a)
  {
    assert ([first] + rest)[1..] == rest;
  }

  /** Address 0 is in the only record, and not in the group. */
  lemma FirstOfPage0(data: seq<Byte>, p: nat)
    requires 0 < |data| < MEMORY && 0 < p < PAGE && Taken(data, p) == |data|
    ensures Lookup(Records(data, p), 0).Some? && Lookup([Segment(p, data)], 0) == None
  {
    assert data[..|data|] == data;
    IntoIs(Segment(p, data), 0);
    IntoIs(Segment(0, data), 0);
  }

  // ----- The whole image -----

  /** Groups that the transmitter cuts rightly. */
  predicate Plain(g: Segment) { |g.data| < MEMORY && (g.data == [] || g.addr == 0 || g.addr >= PAGE) }

  lemma {:induction false} CountAppend(x: seq<Segment>, y: seq<Segment>, a: nat)
    ensures Count(x + y, a) == Count(x, a) + Count(y, a)
    ensures Lookup(x + y, a) == if Lookup(x, a).Some? then Lookup(x, a) else Lookup(y, a)
  {
    if x == [] {
      assert x + y == y;
    } else {
      assert (x + y)[1..] == x[1..] + y;
      CountAppend(x[1..], y, a);
    }
  }

  /** The records hold exactly the image's bytes, each as often as the image does. */
  lemma {:induction false} RecordsAreTheImage(groups: seq<Segment>, a: nat)
    requires forall g {:trigger g in groups} :: g in groups ==> Plain(g)
    ensures Count(AllRecords(groups), a) == Count(groups, a)
    ensures Lookup(AllRecords(groups), a) == Lookup(groups, a)
  {
    if groups != [] {
      var n := |groups| - 1;
      var g := groups[n];
      assert g in groups && forall h {:trigger h in groups[..n]} :: h in groups[..n] ==> h in groups;
      RecordsAreTheImage(groups[..n], a);
      PlainRecords(g, a);
      OneGroupMore(groups[..n], g, AllRecords(groups[..n]), Records(g.data, g.addr), a);
      assert groups == groups[..n] + [g];
    }
  }

  lemma PlainRecords(g: Segment, a: nat)
    requires Plain(g)
    ensures Count(Records(g.data, g.addr), a) == Count([g], a) && Lookup(Records(g.data, g.addr), a) == Lookup([g], a)
  {
    RightWhenPlain(g.data, g.addr);
    CutIsTheGroup(g.data, g.addr, a);
  }

  lemma RightWhenPlain(data: seq<Byte>, p: nat)
    requires data == [] || p == 0 || p >= PAGE
    ensures Records(data, p) == Cut(data, p)
  {
  }

  lemma OneGroupMore(groups: seq<Segment>, g: Segment, records: seq<Segment>, more: seq<Segment>, a: nat)
    requires Count(records, a) == Count(groups, a) && Lookup(records, a) == Lookup(groups, a)
    requires Count(more, a) == Count([g], a) && Lookup(more, a) == Lookup([g], a)
    ensures Count(records + more, a) == Count(groups + [g], a) && Lookup(records + more, a) == Lookup(groups + [g], a)
  {
    CountAppend(records, more, a);
    CountAppend(groups, [g], a);
  }

  /** Each record is within one page. */
  lemma {:induction false} RecordsArePaged(groups: seq<Segment>, r: nat)
    requires (forall g {:trigger g in groups} :: g in groups ==> Plain(g)) && r < |AllRecords(groups)|
    ensures OnePage(AllRecords(groups)[r]) && |AllRecords(groups)[r].data| <= PAGE
  {
    var n := |groups| - 1;
    var g := groups[n];
    assert g in groups && forall h {:trigger h in groups[..n]} :: h in groups[..n] ==> h in groups;
    RightWhenPlain(g.data, g.addr);
    if r < |AllRecords(groups[..n])| {
      RecordsArePaged(groups[..n], r);
    } else {
      CutIsPaged(g.data, g.addr, r - |AllRecords(groups[..n])|);
    }
  }
}
