/**
  The octet2.c heap: objects with a two-byte header tile memory from RamBegin to RamUsed;
  free objects are chained, bucket by bucket, through the first word of their body.
  Blocks are keyed by header address; an object's own address is two bytes further.
 */
module Octet {
  import opened Bytes
  import opened Sequences

  const HDR_SIZE: nat := 2
  const MARK_BIT: nat := 0x80
  const NUM_BUCKETS: nat := 16
  const LAST_NONPTR_CLASS: nat := 15
  const BUCKET_CAP: seq<nat> :=
    [4, 8, 12, 16, 24, 32, 48, 64, 96, 128, 192, 0x100, 0x180, 0x200, 0x300, 0x400]

  /** The header bytes `buck` (with its mark bit) and `cls`, and the body as words. */
  datatype Block = Block(buck: Byte, cls: Byte, body: seq<Word>) {
    predicate Marked() { buck >= MARK_BIT }
    function Bucket(): nat { if Marked() then buck - MARK_BIT else buck }
    function Mark(): Block { this.(buck := if Marked() then buck else buck + MARK_BIT) }
    function Unmark(): Block { this.(buck := Bucket()) }
    predicate Free() { cls == 0 }
    /** The bucket is one of the sixteen and the body has its capacity. */
    predicate Sized() { Bucket() < NUM_BUCKETS && 2 * |body| == BUCKET_CAP[Bucket()] }
  }

  type Blocks = map<nat, Block>

  function Footprint(bucket: nat): nat
    requires bucket < NUM_BUCKETS
  {
    HDR_SIZE + BUCKET_CAP[bucket]
  }

  /** The smallest bucket that holds `len` bytes; none if len exceeds 1024. */
  function SizeToBucket(len: nat): (k: nat)
    ensures k <= NUM_BUCKETS
    ensures k < NUM_BUCKETS ==> len <= BUCKET_CAP[k]
    ensures forall j :: 0 <= j < k ==> BUCKET_CAP[j] < len
  {
    SizeFrom(len, 0)
  }

  function SizeFrom(len: nat, from: nat): (k: nat)
    requires from <= NUM_BUCKETS && forall j :: 0 <= j < from ==> BUCKET_CAP[j] < len
    ensures from <= k <= NUM_BUCKETS
    ensures k < NUM_BUCKETS ==> len <= BUCKET_CAP[k]
    ensures forall j :: 0 <= j < k ==> BUCKET_CAP[j] < len
    decreases NUM_BUCKETS - from
  {
    if from == NUM_BUCKETS || len <= BUCKET_CAP[from] then from else SizeFrom(len, from + 1)
  }

  function Zeros(n: nat): (r: seq<Word>)
    ensures |r| == n
  {
    seq(n, _ => 0)
  }

  // ----- Tiling -----

  /** From p, blocks follow one another exactly up to `used`. */
  ghost predicate Tiles(blocks: Blocks, p: nat, used: nat)
    decreases used - p
  {
    p == used ||
    (p < used && p in blocks && blocks[p].Sized() && Tiles(blocks, p + Footprint(blocks[p].Bucket()), used))
  }

  ghost function Headers(blocks: Blocks, p: nat, used: nat): set<nat>
    requires Tiles(blocks, p, used)
    decreases used - p
  {
    if p == used then {} else {p} + Headers(blocks, p + Footprint(blocks[p].Bucket()), used)
  }

  lemma {:induction false} HeadersWithin(blocks: Blocks, p: nat, used: nat)
    requires Tiles(blocks, p, used)
    ensures forall h | h in Headers(blocks, p, used) ::
              && p <= h && h in blocks && blocks[h].Sized() && h + Footprint(blocks[h].Bucket()) <= used
    decreases used - p
  {
    if p < used {
      var next := p + Footprint(blocks[p].Bucket());
      HeadersWithin(blocks, next, used);
      TilesInOrder(blocks, next, used);
    }
  }

  lemma {:induction false} TilesInOrder(blocks: Blocks, p: nat, used: nat)
    requires Tiles(blocks, p, used)
    ensures p <= used
    decreases used - p
  {
    if p < used { TilesInOrder(blocks, p + Footprint(blocks[p].Bucket()), used); }
  }

  /** Changing contents but no bucket leaves the tiling as it was. */
  lemma {:induction false} TilesSame(blocks: Blocks, blocks': Blocks, p: nat, used: nat)
    requires Tiles(blocks, p, used)
    requires forall h | h in Headers(blocks, p, used) ::
               h in blocks ==> h in blocks' && blocks'[h].Sized() && blocks'[h].Bucket() == blocks[h].Bucket()
    ensures Tiles(blocks', p, used) && Headers(blocks', p, used) == Headers(blocks, p, used)
    decreases used - p
  {
    if p < used { TilesSame(blocks, blocks', p + Footprint(blocks[p].Bucket()), used); }
  }

  /** Carving a new block at the end extends the tiling by just that block. */
  lemma {:induction false} TilesExtend(blocks: Blocks, p: nat, used: nat, b: Block)
    requires Tiles(blocks, p, used) && used !in blocks && b.Sized()
    ensures Tiles(blocks[used := b], p, used + Footprint(b.Bucket()))
    ensures Headers(blocks[used := b], p, used + Footprint(b.Bucket())) == Headers(blocks, p, used) + {used}
    decreases used - p
  {
    var blocks', used' := blocks[used := b], used + Footprint(b.Bucket());
    TilesInOrder(blocks, p, used);
    if p < used {
      TilesExtend(blocks, p + Footprint(blocks[p].Bucket()), used, b);
    } else {
      assert Headers(blocks', used', used') == {};
    }
  }

  /** Two different blocks of a tiling do not overlap. */
  lemma {:induction false} TilesDisjoint(blocks: Blocks, p: nat, used: nat, g: nat, h: nat)
    requires Tiles(blocks, p, used) && g in Headers(blocks, p, used) && h in Headers(blocks, p, used) && g < h
    ensures g in blocks && blocks[g].Sized() && g + Footprint(blocks[g].Bucket()) <= h
    decreases used - p
  {
    HeadersWithin(blocks, p, used);
    var next := p + Footprint(blocks[p].Bucket());
    if g == p { HeadersWithin(blocks, next, used); } else { TilesDisjoint(blocks, next, used, g, h); }
  }

  // ----- Free lists -----

  /** From `head`, first body words lead through exactly the headers in `list`, then to 0. */
  ghost predicate Chain(blocks: Blocks, head: nat, list: seq<nat>)
    decreases |list|
  {
    if list == [] then head == 0
    else head == list[0] && head != 0 && head in blocks && blocks[head].body != [] && Chain(blocks, blocks[head].body[0], list[1..])
  }

  lemma {:induction false} ChainSame(blocks: Blocks, blocks': Blocks, head: nat, list: seq<nat>)
    requires Chain(blocks, head, list)
    requires forall h | h in list && h in blocks :: h in blocks' && blocks'[h].body == blocks[h].body
    ensures Chain(blocks', head, list)
    decreases |list|
  {
    if list != [] { ChainSame(blocks, blocks', blocks[head].body[0], list[1..]); }
  }

  /** Bucket k's list holds exactly the free blocks of bucket k among `within`, each once. */
  ghost predicate ListOk(blocks: Blocks, within: set<nat>, k: nat, head: nat, list: seq<nat>) {
    && Chain(blocks, head, list) && Distinct(list)
    && forall h :: h in list <==> h in within && h in blocks && blocks[h].Free() && blocks[h].Bucket() == k
  }

  // ----- Pointers -----

  /** A word that omark takes for an object address. */
  predicate LooksLikePointer(w: nat, begin: nat, end: nat) { begin < w < end && w % 2 == 0 }

  function Children(b: Block, begin: nat, end: nat): set<nat> {
    if b.cls <= LAST_NONPTR_CLASS then {}
    else set i | 0 <= i < |b.body| && LooksLikePointer(b.body[i], begin, end) :: b.body[i] - HDR_SIZE
  }

  /** Every pointer a block holds leads to an object in use. */
  ghost predicate PointerOk(blocks: Blocks, begin: nat, end: nat, h: nat)
    requires h in blocks
  {
    forall c | c in Children(blocks[h], begin, end) :: c in blocks && !blocks[c].Free()
  }

  ghost predicate IsPath(blocks: Blocks, begin: nat, end: nat, path: seq<nat>) {
    && path != [] && (forall i | 0 <= i < |path| :: path[i] in blocks)
    && forall i {:trigger Edge(blocks, begin, end, path, i)} | 0 <= i < |path| - 1 :: Edge(blocks, begin, end, path, i)
  }

  ghost predicate Edge(blocks: Blocks, begin: nat, end: nat, path: seq<nat>, i: nat)
    requires i < |path| - 1 && path[i] in blocks
  {
    path[i + 1] in Children(blocks[path[i]], begin, end)
  }

  ghost predicate Reaches(blocks: Blocks, begin: nat, end: nat, from: nat, to: nat) {
    exists path :: IsPath(blocks, begin, end, path) && path[0] == from && path[|path| - 1] == to
  }

  /** Reachable from one of the root objects (0 is no object). */
  ghost predicate Live(blocks: Blocks, begin: nat, end: nat, roots: seq<Word>, h: nat) {
    exists r {:trigger RootReaches(blocks, begin, end, r, h)} :: r in roots && RootReaches(blocks, begin, end, r, h)
  }

  ghost predicate RootReaches(blocks: Blocks, begin: nat, end: nat, root: Word, h: nat) {
    root >= HDR_SIZE && Reaches(blocks, begin, end, root - HDR_SIZE, h)
  }

  lemma ReachesSelf(blocks: Blocks, begin: nat, end: nat, h: nat)
    requires h in blocks
    ensures Reaches(blocks, begin, end, h, h)
  {
    assert IsPath(blocks, begin, end, [h]);
  }

  lemma ReachesStep(blocks: Blocks, begin: nat, end: nat, from: nat, mid: nat, to: nat)
    requires from in blocks && mid in Children(blocks[from], begin, end) && Reaches(blocks, begin, end, mid, to)
    ensures Reaches(blocks, begin, end, from, to)
  {
    var path :| IsPath(blocks, begin, end, path) && path[0] == mid && path[|path| - 1] == to;
    var longer := [from] + path;
    forall i | 0 <= i < |longer| - 1 ensures longer[i] in blocks && Edge(blocks, begin, end, longer, i) {
      if i > 0 { assert Edge(blocks, begin, end, path, i - 1); }
    }
    assert IsPath(blocks, begin, end, longer);
  }

  lemma ReachesChild(blocks: Blocks, begin: nat, end: nat, from: nat, mid: nat, to: nat)
    requires Reaches(blocks, begin, end, from, mid) && mid in blocks && to in blocks
    requires to in Children(blocks[mid], begin, end)
    ensures Reaches(blocks, begin, end, from, to)
  {
    var path :| IsPath(blocks, begin, end, path) && path[0] == from && path[|path| - 1] == mid;
    var longer := path + [to];
    forall i | 0 <= i < |longer| - 1 ensures longer[i] in blocks && Edge(blocks, begin, end, longer, i) {
      if i < |path| - 1 { assert Edge(blocks, begin, end, path, i); }
    }
    assert IsPath(blocks, begin, end, longer);
  }

  /** A set of blocks closed under Children holds everything reachable from its members. */
  lemma {:induction false} ClosedUnderReach(blocks: Blocks, begin: nat, end: nat, s: set<nat>, path: seq<nat>)
    requires IsPath(blocks, begin, end, path) && path[0] in s
    requires forall h | h in s && h in blocks :: Children(blocks[h], begin, end) <= s
    ensures path[|path| - 1] in s
    decreases |path|
  {
    if |path| > 1 {
      var tail := path[1..];
      assert Edge(blocks, begin, end, path, 0);
      forall i | 0 <= i < |tail| - 1 ensures tail[i] in blocks && Edge(blocks, begin, end, tail, i) {
        assert tail[i] == path[i + 1];
        assert Edge(blocks, begin, end, path, i + 1);
      }
      ClosedUnderReach(blocks, begin, end, s, tail);
    }
  }

  // ----- The text of octet2.c where it departs from its comments -----

  /** Line 181 as its comment intends: unused means class 0 or not marked. */
  predicate UnusedAsIntended(b: Block) { b.Free() || !b.Marked() }

  /** Line 181 as written: line 177 has already masked the mark bit off `buck`. */
  predicate UnusedAsWritten(b: Block) { b.Free() || b.Bucket() < MARK_BIT }

  /** Line 79 as intended: the whole body is cleared and the bucket kept. */
  function ReuseAsIntended(b: Block, cls: Byte): Block { b.(cls := cls, body := Zeros(|b.body|)) }

  /** Line 79 as written: `cap` bytes are cleared from the header on, so the bucket byte
      becomes 0 and the last word of the body survives. */
  function ReuseAsWritten(b: Block, cls: Byte): Block
    requires b.body != []
  {
    Block(0, cls, Zeros(|b.body| - 1) + [b.body[|b.body| - 1]])
  }

  /** The text leaves a well-sized block exactly when the block came from bucket 0, and then
      it is the intended one exactly when its last word was already 0. */
  lemma ReuseAsWrittenIsSizedOnlyInBucketZero(b: Block, cls: Byte)
    requires b.Sized()
    ensures b.body != []
    ensures ReuseAsWritten(b, cls).Sized() <==> b.Bucket() == 0
    ensures !b.Marked() ==>
            (ReuseAsWritten(b, cls) == ReuseAsIntended(b, cls) <==> b.Bucket() == 0 && b.body[|b.body| - 1] == 0)
  {
    var w, i := ReuseAsWritten(b, cls), ReuseAsIntended(b, cls);
    var n := |b.body|;
    assert BUCKET_CAP[0] == 4;
    if w == i { assert w.body[n - 1] == 0 && w.buck == 0; }
    if b.body[n - 1] == 0 { assert w.body == i.body; }
  }

  // Line 149 as written indexes the capacity table with the mark bit still set, so past its
  // sixteen entries; `found` is the word that lies there.

  /** What marking then takes for the object's children, `beyond` being the words after its body. */
  function ChildrenAsWritten(b: Block, beyond: seq<Word>, found: Word, begin: nat, end: nat): set<nat> {
    var memory := b.body + beyond;
    if b.cls <= LAST_NONPTR_CLASS then {}
    else set i | 0 <= i < |memory| && 2 * i < found && LooksLikePointer(memory[i], begin, end) :: memory[i] - HDR_SIZE
  }

  /** Whatever the object holds, and whatever lies after it, the scan finds its children and no others. */
  ghost predicate FindsExactly(shape: Block, found: Word, begin: nat, end: nat) {
    forall body: seq<Word>, beyond: seq<Word> {:trigger ChildrenAsWritten(shape.(body := body), beyond, found, begin, end)}
      | |body| == |shape.body| ::
      ChildrenAsWritten(shape.(body := body), beyond, found, begin, end) == Children(shape.(body := body), begin, end)
  }

  /** The index is past the table, and the scan is that of the object, for every object of that
      size, exactly when the word there makes it end with the object's last word. */
  lemma CapacityIndexAsWritten(b: Block, found: Word, begin: nat, end: nat, w: Word)
    requires b.Sized() && b.cls > LAST_NONPTR_CLASS && LooksLikePointer(w, begin, end) && begin >= HDR_SIZE
    ensures b.Mark().buck >= |BUCKET_CAP|
    ensures FindsExactly(b, found, begin, end) <==> BUCKET_CAP[b.Bucket()] - 2 < found <= BUCKET_CAP[b.Bucket()]
  {
    var n := |b.body|;
    assert BUCKET_CAP[b.Bucket()] > 0;
    if found > 2 * n {
      var body: seq<Word>, beyond: seq<Word> := Zeros(n), [w];
      var taken := b.(body := body);
      assert (body + beyond)[n] == w && w - HDR_SIZE in ChildrenAsWritten(taken, beyond, found, begin, end);
      assert forall i | 0 <= i < n :: body[i] == 0;
      assert Children(taken, begin, end) == {};
    } else if found > 2 * n - 2 {
      forall body: seq<Word>, beyond: seq<Word> | |body| == n
        ensures ChildrenAsWritten(b.(body := body), beyond, found, begin, end) == Children(b.(body := body), begin, end)
      {
        assert forall i | 0 <= i < n :: 2 * i < found && (body + beyond)[i] == body[i];
        assert forall i | n <= i < n + |beyond| :: 2 * i >= found;
      }
    } else {
      var body: seq<Word> := Zeros(n - 1) + [w];
      var lost := b.(body := body);
      assert body[n - 1] == w && w - HDR_SIZE in Children(lost, begin, end);
      assert body + [] == body && forall i | 0 <= i < n - 1 :: body[i] == 0;
      assert ChildrenAsWritten(lost, [], found, begin, end) == {};
    }
  }

  // Line 118 as written copies `len` bytes, more than the old object holds; `memory` is what
  // the words from the old body on are.

  function WordCopied(memory: seq<Word>, len: nat, i: nat): Word
    requires i < |memory|
  {
    if 2 * i + 1 < len then memory[i] else if 2 * i < len then 256 * Hi(memory[i]) else 0
  }

  /** The new object's words: the last byte of an odd length is the high half of its word. */
  function CopyAsWritten(memory: seq<Word>, len: nat, room: nat): (r: seq<Word>)
    requires len <= 2 * room && room <= |memory|
    ensures |r| == room
  {
    seq(room, i requires 0 <= i < room => WordCopied(memory, len, i))
  }

  function CopyAsIntended(body: seq<Word>, room: nat): (r: seq<Word>)
    requires |body| <= room
    ensures |r| == room
  {
    body + Zeros(room - |body|)
  }

  /** The text makes the object intended exactly when the bytes it copies from beyond the old
      object are zero. */
  lemma CopyLengthAsWritten(b: Block, beyond: seq<Word>, len: nat, room: nat)
    requires b.Sized() && BUCKET_CAP[b.Bucket()] < len <= 2 * room <= 2 * (|b.body| + |beyond|)
    ensures CopyAsWritten(b.body + beyond, len, room) == CopyAsIntended(b.body, room) <==>
            forall i :: |b.body| <= i && 2 * i < len ==> WordCopied(b.body + beyond, len, i) == 0
  {
    var memory, n := b.body + beyond, |b.body|;
    var written, intended := CopyAsWritten(memory, len, room), CopyAsIntended(b.body, room);
    if written == intended {
      forall i | n <= i && 2 * i < len ensures WordCopied(memory, len, i) == 0 {
        assert written[i] == intended[i];
      }
    }
    if forall i :: n <= i && 2 * i < len ==> WordCopied(memory, len, i) == 0 {
      forall i | 0 <= i < room ensures written[i] == intended[i] {}
    }
  }
}
