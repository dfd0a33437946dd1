/**
  The collector of octet2.c over one heap, with its free lists and its mark and sweep
  loops updated in place.  Where the text of octet2.c departs from its own comments the
  code here is what the comments intend; module Octet says exactly what the text does.
 */
module OctetHeap {
  import opened Bytes
  import opened Octet
  import opened Sequences

  /** Wrapped: ORamUsed + sz passed 64K, after which the source would carve beyond the heap. */
  datatype Alloc = Object(addr: Word) | NoRoom | Panic | Wrapped

  /** blocks1 is blocks0 with, at most, more mark bits set. */
  ghost predicate MarksAdded(blocks0: Blocks, blocks1: Blocks) {
    && blocks1.Keys == blocks0.Keys
    && forall h | h in blocks0 ::
         blocks1[h].Unmark() == blocks0[h].Unmark() && (blocks0[h].Marked() ==> blocks1[h].Marked())
  }

  ghost function Marks(blocks: Blocks): set<nat> { set h | h in blocks && blocks[h].Marked() }

  /** Everything newly marked is reachable from h and has all its children marked. */
  ghost predicate MarkedFrom(blocks0: Blocks, blocks1: Blocks, begin: nat, end: nat, h: nat) {
    forall x | x in Marks(blocks1) - Marks(blocks0) && x in blocks0 ::
      Children(blocks0[x], begin, end) <= Marks(blocks1) && Reaches(blocks0, begin, end, h, x)
  }

  /** Every header is even and inside the heap. */
  ghost predicate Placed(blocks: Blocks, begin: nat, end: nat) {
    forall h | h in blocks :: h % 2 == 0 && begin <= h < end - HDR_SIZE
  }

  /** What omark may rely on: whatever it can come to from h holds sound pointers. */
  ghost predicate SoundFrom(blocks: Blocks, begin: nat, end: nat, h: nat) {
    forall x {:trigger Reaches(blocks, begin, end, h, x)} | Reaches(blocks, begin, end, h, x) ::
      x in blocks && PointerOk(blocks, begin, end, x)
  }

  lemma SoundChild(blocks: Blocks, begin: nat, end: nat, h: nat, c: nat)
    requires SoundFrom(blocks, begin, end, h) && h in blocks && c in Children(blocks[h], begin, end)
    ensures c in blocks && !blocks[c].Free() && SoundFrom(blocks, begin, end, c)
  {
    ReachesSelf(blocks, begin, end, h);
    assert PointerOk(blocks, begin, end, h);
    forall x | Reaches(blocks, begin, end, c, x) ensures x in blocks && PointerOk(blocks, begin, end, x) {
      ReachesStep(blocks, begin, end, h, c, x);
    }
  }

  lemma SoundAfter(blocks0: Blocks, blocks1: Blocks, begin: nat, end: nat, h: nat)
    requires SoundFrom(blocks0, begin, end, h) && MarksAdded(blocks0, blocks1)
    ensures SoundFrom(blocks1, begin, end, h)
  {
    forall x | Reaches(blocks1, begin, end, h, x) ensures x in blocks1 && PointerOk(blocks1, begin, end, x) {
      ReachesAfter(blocks0, blocks1, begin, end, h, x);
      assert PointerOk(blocks0, begin, end, x);
      PointerAfter(blocks0, blocks1, begin, end, x);
    }
  }

  lemma PointerAfter(blocks0: Blocks, blocks1: Blocks, begin: nat, end: nat, x: nat)
    requires MarksAdded(blocks0, blocks1) && x in blocks0 && PointerOk(blocks0, begin, end, x)
    ensures PointerOk(blocks1, begin, end, x)
  {
    assert blocks1[x].Unmark() == blocks0[x].Unmark();
    forall c | c in Children(blocks1[x], begin, end) ensures c in blocks1 && !blocks1[c].Free() {
      assert blocks1[c].Unmark() == blocks0[c].Unmark();
    }
  }

  lemma ReachesAfter(blocks0: Blocks, blocks1: Blocks, begin: nat, end: nat, from: nat, to: nat)
    requires MarksAdded(blocks0, blocks1)
    ensures Reaches(blocks1, begin, end, from, to) <==> Reaches(blocks0, begin, end, from, to)
  {
    forall h | h in blocks0 ensures Children(blocks1[h], begin, end) == Children(blocks0[h], begin, end) {
      assert blocks1[h].Unmark() == blocks0[h].Unmark();
    }
    if Reaches(blocks1, begin, end, from, to) {
      var path :| IsPath(blocks1, begin, end, path) && path[0] == from && path[|path| - 1] == to;
      PathAfter(blocks1, blocks0, begin, end, path);
    }
    if Reaches(blocks0, begin, end, from, to) {
      var path :| IsPath(blocks0, begin, end, path) && path[0] == from && path[|path| - 1] == to;
      PathAfter(blocks0, blocks1, begin, end, path);
    }
  }

  lemma PathAfter(blocks0: Blocks, blocks1: Blocks, begin: nat, end: nat, path: seq<nat>)
    requires IsPath(blocks0, begin, end, path) && blocks1.Keys == blocks0.Keys
    requires forall h | h in blocks0 :: Children(blocks1[h], begin, end) == Children(blocks0[h], begin, end)
    ensures IsPath(blocks1, begin, end, path)
  {
    forall i | 0 <= i < |path| - 1 ensures path[i] in blocks1 && Edge(blocks1, begin, end, path, i) {
      assert Edge(blocks0, begin, end, path, i);
    }
  }

  /** omark(h) has marked h and dealt with its first i words. */
  ghost predicate Visiting(blocks0: Blocks, blocks1: Blocks, begin: nat, end: nat, h: nat, i: nat)
    requires h in blocks0
  {
    && MarksAdded(blocks0, blocks1) && h in Marks(blocks1)
    && (forall x | x in Marks(blocks1) - Marks(blocks0) && x in blocks0 && x != h ::
          Children(blocks0[x], begin, end) <= Marks(blocks1) && Reaches(blocks0, begin, end, h, x))
    && i <= |blocks0[h].body|
    && (forall j | 0 <= j < i && LooksLikePointer(blocks0[h].body[j], begin, end) ::
          blocks0[h].body[j] - HDR_SIZE in Marks(blocks1))
  }

  lemma MarksOfMark(blocks0: Blocks, h: nat)
    requires h in blocks0
    ensures Marks(blocks0[h := blocks0[h].Mark()]) == Marks(blocks0) + {h}
  {}

  lemma VisitStart(blocks0: Blocks, begin: nat, end: nat, h: nat)
    requires h in blocks0
    ensures Visiting(blocks0, blocks0[h := blocks0[h].Mark()], begin, end, h, 0)
  {
    MarksOfMark(blocks0, h);
  }

  /** The measure of omark: marking an unmarked block leaves fewer unmarked. */
  lemma MarkingDecreases(blocks0: Blocks, h: nat)
    requires h in blocks0
    ensures var blocks1 := blocks0[h := blocks0[h].Mark()];
            |blocks1.Keys - Marks(blocks1)| == |blocks0.Keys - Marks(blocks0)| - if h in Marks(blocks0) then 0 else 1
  {
    MarksOfMark(blocks0, h);
    var u0, u1 := blocks0.Keys - Marks(blocks0), blocks0.Keys - (Marks(blocks0) + {h});
    if h !in Marks(blocks0) { assert u1 == u0 - {h}; } else { assert u1 == u0; }
    assert blocks0[h := blocks0[h].Mark()].Keys == blocks0.Keys;
  }

  lemma VisitWord(blocks0: Blocks, blocks1: Blocks, begin: nat, end: nat, h: nat, i: nat)
    requires h in blocks0 && Visiting(blocks0, blocks1, begin, end, h, i) && i < |blocks0[h].body|
    requires SoundFrom(blocks0, begin, end, h) && blocks0[h].cls > LAST_NONPTR_CLASS
    ensures h in blocks1 && blocks1[h].body == blocks0[h].body
    ensures var q := blocks0[h].body[i]; LooksLikePointer(q, begin, end) ==>
              && q >= HDR_SIZE && q - HDR_SIZE in blocks1 && !blocks1[q - HDR_SIZE].Free()
              && SoundFrom(blocks1, begin, end, q - HDR_SIZE)
  {
    assert blocks1[h].Unmark() == blocks0[h].Unmark();
    var q := blocks0[h].body[i];
    if LooksLikePointer(q, begin, end) {
      assert q - HDR_SIZE in Children(blocks0[h], begin, end);
      SoundChild(blocks0, begin, end, h, q - HDR_SIZE);
      SoundAfter(blocks0, blocks1, begin, end, q - HDR_SIZE);
      assert blocks1[q - HDR_SIZE].Unmark() == blocks0[q - HDR_SIZE].Unmark();
    }
  }

  lemma VisitChild(blocks0: Blocks, blocks1: Blocks, blocks2: Blocks, begin: nat, end: nat, h: nat, i: nat)
    requires h in blocks0 && Visiting(blocks0, blocks1, begin, end, h, i) && i < |blocks0[h].body|
    requires LooksLikePointer(blocks0[h].body[i], begin, end) && blocks0[h].cls > LAST_NONPTR_CLASS
    requires MarksAdded(blocks1, blocks2)
    requires var c := blocks0[h].body[i] - HDR_SIZE; c in Marks(blocks2) && MarkedFrom(blocks1, blocks2, begin, end, c)
    ensures Visiting(blocks0, blocks2, begin, end, h, i + 1)
  {
    var c := blocks0[h].body[i] - HDR_SIZE;
    assert c in Children(blocks0[h], begin, end);
    assert Marks(blocks1) <= Marks(blocks2);
    forall x | x in Marks(blocks2) - Marks(blocks0) && x in blocks0 && x != h
      ensures Children(blocks0[x], begin, end) <= Marks(blocks2) && Reaches(blocks0, begin, end, h, x)
    {
      if x !in Marks(blocks1) {
        assert x in Marks(blocks2) - Marks(blocks1) && x in blocks1;
        assert blocks1[x].Unmark() == blocks0[x].Unmark();
        ReachesAfter(blocks0, blocks1, begin, end, c, x);
        ReachesStep(blocks0, begin, end, h, c, x);
      }
    }
    forall x | x in blocks0 ensures blocks2[x].Unmark() == blocks0[x].Unmark() {
      assert blocks1[x].Unmark() == blocks0[x].Unmark();
    }
  }

  lemma VisitEnd(blocks0: Blocks, blocks1: Blocks, begin: nat, end: nat, h: nat)
    requires h in blocks0 && Visiting(blocks0, blocks1, begin, end, h, 0)
    requires blocks0[h].cls > LAST_NONPTR_CLASS ==> Visiting(blocks0, blocks1, begin, end, h, |blocks0[h].body|)
    ensures MarkedFrom(blocks0, blocks1, begin, end, h)
  {
    ReachesSelf(blocks0, begin, end, h);
  }

  /** ORamEnd is a word. */
  const MAX_END: nat := 0xFFFF

  /** What holds of a heap between calls. */
  ghost predicate HeapOk(begin: nat, end: nat, used: nat, blocks: Blocks, heads: seq<nat>, lists: seq<seq<nat>>) {
    && TilingOk(begin, end, used, blocks)
    && ListsOk(blocks, blocks.Keys, heads, lists)
  }

  ghost predicate TilingOk(begin: nat, end: nat, used: nat, blocks: Blocks) {
    && 0 < begin <= used <= end <= MAX_END && begin % 2 == 0
    && Tiles(blocks, begin, used) && blocks.Keys == Headers(blocks, begin, used)
    && forall h | h in blocks :: !blocks[h].Marked()
  }

  ghost predicate ListsOk(blocks: Blocks, within: set<nat>, heads: seq<nat>, lists: seq<seq<nat>>) {
    && |heads| == |lists| == NUM_BUCKETS
    && forall k {:trigger ListOk(blocks, within, k, heads[k], lists[k])} | 0 <= k < NUM_BUCKETS ::
         ListOk(blocks, within, k, heads[k], lists[k])
  }

  lemma {:induction false} TilesEven(blocks: Blocks, p: nat, used: nat)
    requires Tiles(blocks, p, used) && p % 2 == 0
    ensures used % 2 == 0 && forall h | h in Headers(blocks, p, used) :: h % 2 == 0
    decreases used - p
  {
    if p < used {
      assert forall k | 0 <= k < NUM_BUCKETS :: BUCKET_CAP[k] % 2 == 0;
      TilesEven(blocks, p + Footprint(blocks[p].Bucket()), used);
    }
  }

  /** Between calls every block lies within the heap, at an even address, with its capacity. */
  lemma BlockPlaced(begin: nat, end: nat, used: nat, blocks: Blocks, h: nat)
    requires TilingOk(begin, end, used, blocks) && h in blocks
    ensures h % 2 == 0 && begin <= h && blocks[h].Sized() && h + Footprint(blocks[h].Bucket()) <= used
  {
    HeadersWithin(blocks, begin, used);
    TilesEven(blocks, begin, used);
  }

  /** Replacing a block by one of the same bucket keeps the tiling. */
  lemma TilingKept(begin: nat, end: nat, used: nat, blocks: Blocks, h: nat, b: Block)
    requires TilingOk(begin, end, used, blocks) && h in blocks
    requires b.buck == blocks[h].buck && |b.body| == |blocks[h].body|
    ensures TilingOk(begin, end, used, blocks[h := b])
  {
    HeadersWithin(blocks, begin, used);
    TilesSame(blocks, blocks[h := b], begin, used);
  }

  // ----- oalloc_try -----

  lemma HeadIsFree(blocks: Blocks, within: set<nat>, heads: seq<nat>, lists: seq<seq<nat>>, k: nat)
    requires ListsOk(blocks, within, heads, lists) && k < NUM_BUCKETS
    ensures heads[k] == 0 <==> lists[k] == []
    ensures heads[k] != 0 ==>
              && heads[k] in blocks && blocks[heads[k]].Free() && blocks[heads[k]].Bucket() == k && blocks[heads[k]].body != []
  {
    assert ListOk(blocks, within, k, heads[k], lists[k]);
    if heads[k] != 0 { assert lists[k][0] in lists[k]; }
  }

  lemma TakeLists(blocks: Blocks, heads: seq<nat>, lists: seq<seq<nat>>, k: nat, cls: Byte)
    requires ListsOk(blocks, blocks.Keys, heads, lists) && k < NUM_BUCKETS && heads[k] != 0 && cls != 0
    ensures var h := heads[k];
            && h in blocks && blocks[h].body != [] && lists[k] != []
            && var blocks' := blocks[h := ReuseAsIntended(blocks[h], cls)];
               ListsOk(blocks', blocks'.Keys, heads[k := blocks[h].body[0]], lists[k := lists[k][1..]])
  {
    HeadIsFree(blocks, blocks.Keys, heads, lists, k);
    var h := heads[k];
    var blocks' := blocks[h := ReuseAsIntended(blocks[h], cls)];
    var heads', lists' := heads[k := blocks[h].body[0]], lists[k := lists[k][1..]];
    forall j | 0 <= j < NUM_BUCKETS ensures ListOk(blocks', blocks'.Keys, j, heads'[j], lists'[j]) {
      assert ListOk(blocks, blocks.Keys, j, heads[j], lists[j]);
      assert h in lists[j] <==> j == k by { assert ListOk(blocks, blocks.Keys, k, heads[k], lists[k]); }
      if j == k { assert lists[k] == [h] + lists'[k]; }
      ChainSame(blocks, blocks', heads'[j], lists'[j]);
    }
  }

  lemma TakeOk(begin: nat, end: nat, used: nat, blocks: Blocks, heads: seq<nat>, lists: seq<seq<nat>>, k: nat, cls: Byte)
    requires HeapOk(begin, end, used, blocks, heads, lists) && k < NUM_BUCKETS && heads[k] != 0 && cls != 0
    ensures var h := heads[k];
            && h in blocks && blocks[h].body != [] && lists[k] != [] && blocks[h].Free()
            && blocks[h].Bucket() == k && blocks[h].Sized() && h % 2 == 0 && begin <= h && h + Footprint(k) <= used
            && HeapOk(begin, end, used, blocks[h := ReuseAsIntended(blocks[h], cls)],
                      heads[k := blocks[h].body[0]], lists[k := lists[k][1..]])
  {
    HeadIsFree(blocks, blocks.Keys, heads, lists, k);
    TakeLists(blocks, heads, lists, k, cls);
    var h := heads[k];
    BlockPlaced(begin, end, used, blocks, h);
    TilingKept(begin, end, used, blocks, h, ReuseAsIntended(blocks[h], cls));
  }

  lemma CarvedIsSized(k: nat, cls: Byte)
    requires k < NUM_BUCKETS
    ensures BUCKET_CAP[k] > 0 && BUCKET_CAP[k] % 2 == 0
    ensures var b := Block(k, cls, Zeros(BUCKET_CAP[k] / 2)); b.Sized() && b.Bucket() == k
  {}

  lemma CarveOk(begin: nat, end: nat, used: nat, blocks: Blocks, heads: seq<nat>, lists: seq<seq<nat>>, k: nat, cls: Byte)
    requires HeapOk(begin, end, used, blocks, heads, lists) && k < NUM_BUCKETS && cls != 0
    requires used + Footprint(k) < end
    ensures used !in blocks && used % 2 == 0
    ensures HeapOk(begin, end, used + Footprint(k), blocks[used := Block(k, cls, Zeros(BUCKET_CAP[k] / 2))], heads, lists)
  {
    HeadersWithin(blocks, begin, used);
    TilesEven(blocks, begin, used);
    var b := Block(k, cls, Zeros(BUCKET_CAP[k] / 2));
    assert forall j | 0 <= j < NUM_BUCKETS :: BUCKET_CAP[j] % 2 == 0;
    TilesExtend(blocks, begin, used, b);
    var blocks' := blocks[used := b];
    forall j | 0 <= j < NUM_BUCKETS ensures ListOk(blocks', blocks'.Keys, j, heads[j], lists[j]) {
      assert ListOk(blocks, blocks.Keys, j, heads[j], lists[j]);
      ChainSame(blocks, blocks', heads[j], lists[j]);
    }
  }

  // ----- ofree and the sweep both put a block at the front of its bucket's list -----

  /** A freed block: cleared, class 0, unmarked, linked to the old head. */
  function Freed(b: Block, head: Word): Block
    requires b.body != []
  {
    Block(b.Bucket(), 0, [head] + Zeros(|b.body| - 1))
  }

  lemma PushList(blocks: Blocks, within: set<nat>, heads: seq<nat>, lists: seq<seq<nat>>, h: nat)
    requires ListsOk(blocks, within, heads, lists) && h in blocks && h != 0 && blocks[h].Sized()
    requires blocks[h].body != [] && heads[blocks[h].Bucket()] < 0x1_0000
    requires h !in within || !blocks[h].Free()
    ensures var k := blocks[h].Bucket();
            ListsOk(blocks[h := Freed(blocks[h], heads[k])], within + {h}, heads[k := h], lists[k := [h] + lists[k]])
  {
    var k := blocks[h].Bucket();
    var blocks' := blocks[h := Freed(blocks[h], heads[k])];
    var heads', lists' := heads[k := h], lists[k := [h] + lists[k]];
    forall j | 0 <= j < NUM_BUCKETS ensures ListOk(blocks', within + {h}, j, heads'[j], lists'[j]) {
      assert ListOk(blocks, within, j, heads[j], lists[j]);
      ChainSame(blocks, blocks', heads[j], lists[j]);
      if j == k { assert lists'[k][1..] == lists[k]; }
    }
  }

  lemma HeadFits(begin: nat, end: nat, used: nat, blocks: Blocks, within: set<nat>, heads: seq<nat>, lists: seq<seq<nat>>, k: nat)
    requires ListsOk(blocks, within, heads, lists) && k < NUM_BUCKETS
    requires used <= end <= MAX_END && forall h | h in blocks :: h < used
    ensures heads[k] < 0x1_0000
  {
    HeadIsFree(blocks, within, heads, lists, k);
  }

  lemma FreeOk(begin: nat, end: nat, used: nat, blocks: Blocks, heads: seq<nat>, lists: seq<seq<nat>>, h: nat)
    requires HeapOk(begin, end, used, blocks, heads, lists) && h in blocks && !blocks[h].Free()
    ensures blocks[h].Sized() && blocks[h].body != []
    ensures var k := blocks[h].Bucket();
            && heads[k] < 0x1_0000
            && HeapOk(begin, end, used, blocks[h := Freed(blocks[h], heads[k])], heads[k := h], lists[k := [h] + lists[k]])
  {
    HeadersWithin(blocks, begin, used);
    BlockPlaced(begin, end, used, blocks, h);
    var k := blocks[h].Bucket();
    assert forall j | 0 <= j < NUM_BUCKETS :: BUCKET_CAP[j] > 0;
    forall g | g in blocks ensures g < used { BlockPlaced(begin, end, used, blocks, g); }
    HeadFits(begin, end, used, blocks, blocks.Keys, heads, lists, k);
    PushList(blocks, blocks.Keys, heads, lists, h);
    assert blocks[h := Freed(blocks[h], heads[k])].Keys == blocks.Keys + {h};
    TilingKept(begin, end, used, blocks, h, Freed(blocks[h], heads[k]));
  }

  /** Filling a used object with words whose pointers another used object already holds. */
  lemma FillOk(begin: nat, end: nat, used: nat, blocks: Blocks, heads: seq<nat>, lists: seq<seq<nat>>, n: nat, h: nat, body: seq<Word>)
    requires HeapOk(begin, end, used, blocks, heads, lists)
    requires n in blocks && h in blocks && n != h && !blocks[n].Free() && !blocks[h].Free() && blocks[n].cls == blocks[h].cls
    requires |body| == |blocks[n].body| && blocks[h].body <= body
    requires forall i | |blocks[h].body| <= i < |body| :: body[i] == 0
    ensures HeapOk(begin, end, used, blocks[n := blocks[n].(body := body)], heads, lists)
    ensures Children(blocks[n].(body := body), begin, end) == Children(blocks[h], begin, end)
  {
    var b := blocks[n].(body := body);
    var blocks' := blocks[n := b];
    assert Children(b, begin, end) == Children(blocks[h], begin, end) by {
      if b.cls > LAST_NONPTR_CLASS {
        forall i | 0 <= i < |body| && LooksLikePointer(body[i], begin, end)
          ensures i < |blocks[h].body| && body[i] == blocks[h].body[i]
        {}
        forall i | 0 <= i < |blocks[h].body| ensures body[i] == blocks[h].body[i] {}
      }
    }
    TilingKept(begin, end, used, blocks, n, b);
    FillLists(blocks, heads, lists, n, b);
  }

  lemma FillLists(blocks: Blocks, heads: seq<nat>, lists: seq<seq<nat>>, n: nat, b: Block)
    requires ListsOk(blocks, blocks.Keys, heads, lists) && n in blocks && !blocks[n].Free() && !b.Free()
    ensures ListsOk(blocks[n := b], blocks[n := b].Keys, heads, lists)
  {
    var blocks' := blocks[n := b];
    forall k | 0 <= k < NUM_BUCKETS ensures ListOk(blocks', blocks'.Keys, k, heads[k], lists[k]) {
      assert ListOk(blocks, blocks.Keys, k, heads[k], lists[k]);
      ChainSame(blocks, blocks', heads[k], lists[k]);
    }
  }

  // ----- ogc -----

  /** After marking from the first n roots: what is marked is live, and is closed under children. */
  ghost predicate RootsMarked(blocks0: Blocks, blocks1: Blocks, begin: nat, end: nat, roots: seq<Word>, n: nat)
    requires n <= |roots|
  {
    && MarksAdded(blocks0, blocks1)
    && (forall x {:trigger MarkOk(blocks0, Marks(blocks1), begin, end, roots, x)} | x in Marks(blocks1) ::
          MarkOk(blocks0, Marks(blocks1), begin, end, roots, x))
    && (forall i {:trigger RootHeld(Marks(blocks1), roots[i])} | 0 <= i < n :: RootHeld(Marks(blocks1), roots[i]))
  }

  ghost predicate MarkOk(blocks0: Blocks, marks: set<nat>, begin: nat, end: nat, roots: seq<Word>, x: nat) {
    x in blocks0 && Children(blocks0[x], begin, end) <= marks && Live(blocks0, begin, end, roots, x)
  }

  ghost predicate RootHeld(marks: set<nat>, r: Word) { r >= HDR_SIZE ==> r - HDR_SIZE in marks }

  ghost predicate RootsOk(blocks: Blocks, roots: seq<Word>) {
    forall r {:trigger RootOk(blocks, r)} | r in roots :: RootOk(blocks, r)
  }

  /** A root variable is null or holds an object's address. */
  predicate RootOk(blocks: Blocks, r: Word) {
    r == 0 || (r >= HDR_SIZE && r - HDR_SIZE in blocks && !blocks[r - HDR_SIZE].Free())
  }

  lemma RootSound(blocks: Blocks, begin: nat, end: nat, roots: seq<Word>, r: Word)
    requires Sound(blocks, begin, end, roots) && r in roots && r >= HDR_SIZE
    ensures SoundFrom(blocks, begin, end, r - HDR_SIZE)
  {
    forall x | Reaches(blocks, begin, end, r - HDR_SIZE, x) ensures x in blocks && PointerOk(blocks, begin, end, x) {
      assert RootReaches(blocks, begin, end, r, x);
      assert Live(blocks, begin, end, roots, x);
      LiveIsUsed(blocks, begin, end, roots, x);
    }
  }

  /** While marking goes on, a root is still an object in use that omark may start from. */
  lemma RootStays(blocks0: Blocks, blocks1: Blocks, begin: nat, end: nat, roots: seq<Word>, r: Word)
    requires Sound(blocks0, begin, end, roots) && MarksAdded(blocks0, blocks1) && Placed(blocks0, begin, end) && r in roots
    ensures Placed(blocks1, begin, end) && RootOk(blocks0, r) && RootOk(blocks1, r)
    ensures r != 0 ==> SoundFrom(blocks1, begin, end, r - HDR_SIZE)
  {
    assert RootOk(blocks0, r);
    if r != 0 {
      RootSound(blocks0, begin, end, roots, r);
      SoundAfter(blocks0, blocks1, begin, end, r - HDR_SIZE);
      assert blocks1[r - HDR_SIZE].Unmark() == blocks0[r - HDR_SIZE].Unmark();
    }
  }

  lemma RootMarked(blocks0: Blocks, blocks1: Blocks, blocks2: Blocks, begin: nat, end: nat, roots: seq<Word>, n: nat)
    requires n < |roots| && RootsMarked(blocks0, blocks1, begin, end, roots, n) && RootOk(blocks0, roots[n])
    requires MarksAdded(blocks1, blocks2)
    requires roots[n] == 0 ==> blocks2 == blocks1
    requires roots[n] != 0 ==>
               roots[n] - HDR_SIZE in Marks(blocks2) && MarkedFrom(blocks1, blocks2, begin, end, roots[n] - HDR_SIZE)
    ensures RootsMarked(blocks0, blocks2, begin, end, roots, n + 1)
  {
    MarksCompose(blocks0, blocks1, blocks2);
    forall x | x in Marks(blocks2) ensures MarkOk(blocks0, Marks(blocks2), begin, end, roots, x) {
      if x in Marks(blocks1) {
        assert MarkOk(blocks0, Marks(blocks1), begin, end, roots, x);
      } else {
        NewMarkOk(blocks0, blocks1, blocks2, begin, end, roots, n, x);
      }
    }
    RootsHeld(Marks(blocks1), Marks(blocks2), roots, n);
  }

  lemma RootsHeld(before: set<nat>, after: set<nat>, roots: seq<Word>, n: nat)
    requires n < |roots| && before <= after && RootHeld(after, roots[n])
    requires forall i | 0 <= i < n :: RootHeld(before, roots[i])
    ensures forall i | 0 <= i < n + 1 :: RootHeld(after, roots[i])
  {
    forall i | 0 <= i < n + 1 ensures RootHeld(after, roots[i]) {
      if i < n { assert RootHeld(before, roots[i]); }
    }
  }

  lemma MarksCompose(blocks0: Blocks, blocks1: Blocks, blocks2: Blocks)
    requires MarksAdded(blocks0, blocks1) && MarksAdded(blocks1, blocks2)
    ensures MarksAdded(blocks0, blocks2) && Marks(blocks1) <= Marks(blocks2)
  {
    forall x | x in blocks0
      ensures blocks2[x].Unmark() == blocks0[x].Unmark() && (blocks0[x].Marked() ==> blocks2[x].Marked())
    {
      assert blocks1[x].Unmark() == blocks0[x].Unmark();
    }
  }

  lemma NewMarkOk(blocks0: Blocks, blocks1: Blocks, blocks2: Blocks, begin: nat, end: nat, roots: seq<Word>, n: nat, x: nat)
    requires MarksAdded(blocks0, blocks1) && MarksAdded(blocks1, blocks2) && n < |roots|
    requires roots[n] >= HDR_SIZE && MarkedFrom(blocks1, blocks2, begin, end, roots[n] - HDR_SIZE)
    requires x in Marks(blocks2) && x !in Marks(blocks1)
    ensures MarkOk(blocks0, Marks(blocks2), begin, end, roots, x)
  {
    assert x in Marks(blocks2) - Marks(blocks1) && x in blocks1;
    assert blocks1[x].Unmark() == blocks0[x].Unmark();
    ReachesAfter(blocks0, blocks1, begin, end, roots[n] - HDR_SIZE, x);
    assert RootReaches(blocks0, begin, end, roots[n], x);
  }

  /** omark from every root marks exactly the live objects. */
  lemma MarksAreLive(blocks0: Blocks, blocks1: Blocks, begin: nat, end: nat, roots: seq<Word>, h: nat)
    requires RootsMarked(blocks0, blocks1, begin, end, roots, |roots|)
    ensures h in Marks(blocks1) <==> Live(blocks0, begin, end, roots, h)
  {
    if h in Marks(blocks1) {
      assert MarkOk(blocks0, Marks(blocks1), begin, end, roots, h);
    }
    if Live(blocks0, begin, end, roots, h) {
      var i :| 0 <= i < |roots| && RootReaches(blocks0, begin, end, roots[i], h);
      assert RootHeld(Marks(blocks1), roots[i]);
      LiveMarked(blocks0, blocks1, begin, end, roots, roots[i] - HDR_SIZE, h);
    }
  }

  lemma LiveMarked(blocks0: Blocks, blocks1: Blocks, begin: nat, end: nat, roots: seq<Word>, from: nat, h: nat)
    requires RootsMarked(blocks0, blocks1, begin, end, roots, |roots|)
    requires from in Marks(blocks1) && Reaches(blocks0, begin, end, from, h)
    ensures h in Marks(blocks1)
  {
    var path :| IsPath(blocks0, begin, end, path) && path[0] == from && path[|path| - 1] == h;
    forall g | g in Marks(blocks1) && g in blocks0 ensures Children(blocks0[g], begin, end) <= Marks(blocks1) {
      assert MarkOk(blocks0, Marks(blocks1), begin, end, roots, g);
    }
    ClosedUnderReach(blocks0, begin, end, Marks(blocks1), path);
  }

  /** What the sweep makes of one block. */
  ghost predicate Swept(b: Block, b': Block) {
    if UnusedAsIntended(b) then Cleared(b, b') else b' == b.Unmark()
  }

  /** b' is b freed, whatever its free-list link. */
  predicate Cleared(b: Block, b': Block) { b.body != [] && b'.body != [] && b' == Freed(b, b'.body[0]) }

  /** The sweep has reached p. */
  ghost predicate Sweeping(blocks0: Blocks, used: nat, p: nat, blocks: Blocks, heads: seq<nat>, lists: seq<seq<nat>>) {
    && Tiles(blocks0, p, used) && blocks.Keys == blocks0.Keys
    && (forall h | h in blocks0 :: if h in Headers(blocks0, p, used) then blocks[h] == blocks0[h] else Swept(blocks0[h], blocks[h]))
    && ListsOk(blocks, blocks0.Keys - Headers(blocks0, p, used), heads, lists)
  }

  /** The state after the block at p. */
  lemma SweepUnused(blocks0: Blocks, used: nat, p: nat, blocks: Blocks, heads: seq<nat>, lists: seq<seq<nat>>)
    requires Sweeping(blocks0, used, p, blocks, heads, lists) && 0 < p < used <= MAX_END
    requires forall h | h in blocks0 :: h < used
    requires UnusedAsIntended(blocks0[p])
    ensures blocks[p] == blocks0[p] && blocks[p].Sized() && blocks[p].body != []
    ensures var k := blocks[p].Bucket();
            && heads[k] < 0x1_0000
            && Sweeping(blocks0, used, p + Footprint(k), blocks[p := Freed(blocks[p], heads[k])],
                        heads[k := p], lists[k := [p] + lists[k]])
  {
    var k := blocks0[p].Bucket();
    assert forall j | 0 <= j < NUM_BUCKETS :: BUCKET_CAP[j] > 0;
    var next := p + Footprint(k);
    HeadersWithin(blocks0, next, used);
    assert Headers(blocks0, p, used) == {p} + Headers(blocks0, next, used);
    var within := blocks0.Keys - Headers(blocks0, p, used);
    HeadFits(0, used, used, blocks, within, heads, lists, k);
    PushList(blocks, within, heads, lists, p);
    assert blocks0.Keys - Headers(blocks0, next, used) == within + {p};
    SweptOneMore(blocks0, Headers(blocks0, p, used), Headers(blocks0, next, used), p, blocks, Freed(blocks[p], heads[k]));
  }

  /** One more block is swept, and the others as before. */
  lemma SweptOneMore(blocks0: Blocks, ahead: set<nat>, ahead': set<nat>, p: nat, blocks: Blocks, b: Block)
    requires blocks.Keys == blocks0.Keys && p in blocks && ahead == {p} + ahead' && p !in ahead' && Swept(blocks0[p], b)
    requires forall h | h in blocks0 :: if h in ahead then blocks[h] == blocks0[h] else Swept(blocks0[h], blocks[h])
    ensures var blocks' := blocks[p := b];
            forall h | h in blocks0 :: if h in ahead' then blocks'[h] == blocks0[h] else Swept(blocks0[h], blocks'[h])
  {
    var blocks' := blocks[p := b];
    forall h | h in blocks0 ensures if h in ahead' then blocks'[h] == blocks0[h] else Swept(blocks0[h], blocks'[h]) {
      if h != p { assert blocks'[h] == blocks[h]; }
    }
  }

  lemma SweepUsed(blocks0: Blocks, used: nat, p: nat, blocks: Blocks, heads: seq<nat>, lists: seq<seq<nat>>)
    requires Sweeping(blocks0, used, p, blocks, heads, lists) && p < used
    requires !UnusedAsIntended(blocks0[p])
    ensures blocks[p] == blocks0[p] && blocks[p].Sized()
    ensures Sweeping(blocks0, used, p + Footprint(blocks[p].Bucket()), blocks[p := blocks[p].Unmark()], heads, lists)
  {
    var next := p + Footprint(blocks0[p].Bucket());
    HeadersWithin(blocks0, next, used);
    assert Headers(blocks0, p, used) == {p} + Headers(blocks0, next, used);
    var within := blocks0.Keys - Headers(blocks0, p, used);
    var within' := blocks0.Keys - Headers(blocks0, next, used);
    assert within' == within + {p};
    var blocks' := blocks[p := blocks[p].Unmark()];
    forall j | 0 <= j < NUM_BUCKETS ensures ListOk(blocks', within', j, heads[j], lists[j]) {
      assert ListOk(blocks, within, j, heads[j], lists[j]);
      ChainSame(blocks, blocks', heads[j], lists[j]);
    }
    forall h | h in blocks0
      ensures if h in Headers(blocks0, next, used) then blocks'[h] == blocks0[h] else Swept(blocks0[h], blocks'[h])
    {
      if h != p { assert blocks'[h] == blocks[h]; }
    }
  }

  /** The promise of ogc: live objects are as they were, everything else is free and cleared. */
  ghost predicate Collected(blocks0: Blocks, blocks1: Blocks, begin: nat, end: nat, roots: seq<Word>) {
    && blocks1.Keys == blocks0.Keys
    && forall h {:trigger CollectedAt(blocks0, blocks1, begin, end, roots, h)} | h in blocks0 ::
         CollectedAt(blocks0, blocks1, begin, end, roots, h)
  }

  ghost predicate CollectedAt(blocks0: Blocks, blocks1: Blocks, begin: nat, end: nat, roots: seq<Word>, h: nat) {
    && h in blocks0 && h in blocks1
    && if Live(blocks0, begin, end, roots, h) then blocks1[h] == blocks0[h] else Cleared(blocks0[h], blocks1[h])
  }

  lemma CollectedAll(blocks0: Blocks, blocksM: Blocks, blocks1: Blocks, begin: nat, end: nat, roots: seq<Word>)
    requires RootsMarked(blocks0, blocksM, begin, end, roots, |roots|)
    requires forall h | h in blocks0 :: !blocks0[h].Marked()
    requires Sound(blocks0, begin, end, roots)
    requires blocks1.Keys == blocksM.Keys && forall h | h in blocksM :: Swept(blocksM[h], blocks1[h])
    ensures Collected(blocks0, blocks1, begin, end, roots)
  {
    forall h | h in blocks0 ensures CollectedAt(blocks0, blocks1, begin, end, roots, h) {
      MarksAreLive(blocks0, blocksM, begin, end, roots, h);
      assert blocksM[h].Unmark() == blocks0[h].Unmark() == blocks0[h];
      assert Swept(blocksM[h], blocks1[h]);
      if Live(blocks0, begin, end, roots, h) { LiveIsUsed(blocks0, begin, end, roots, h); }
    }
  }

  // ----- What the roots lead to -----

  /** Whatever the roots lead to is in use and holds sound pointers.  Nothing is asked of the rest:
      garbage may hold the addresses of objects long freed. */
  ghost predicate Sound(blocks: Blocks, begin: nat, end: nat, roots: seq<Word>) {
    && RootsOk(blocks, roots)
    && forall h {:trigger Live(blocks, begin, end, roots, h)} | h in blocks && Live(blocks, begin, end, roots, h) ::
         PointerOk(blocks, begin, end, h)
  }

  ghost function LiveSet(blocks: Blocks, begin: nat, end: nat, roots: seq<Word>): set<nat> {
    set h | h in blocks && Live(blocks, begin, end, roots, h)
  }

  /** A set of blocks in use that holds the roots and the children of its members. */
  ghost predicate Closed(blocks: Blocks, begin: nat, end: nat, roots: seq<Word>, s: set<nat>) {
    && (forall g | g in s :: g in blocks && !blocks[g].Free() && Children(blocks[g], begin, end) <= s)
    && (forall r | r in roots :: r == 0 || (r >= HDR_SIZE && r - HDR_SIZE in s))
  }

  /** Such a set shows the roots sound, and nothing outside it is live. */
  lemma ClosedIsSound(blocks: Blocks, begin: nat, end: nat, roots: seq<Word>, s: set<nat>)
    requires Closed(blocks, begin, end, roots, s)
    ensures Sound(blocks, begin, end, roots) && LiveSet(blocks, begin, end, roots) <= s
    ensures forall h {:trigger Live(blocks, begin, end, roots, h)} | Live(blocks, begin, end, roots, h) :: h in s
  {
    forall h | Live(blocks, begin, end, roots, h) ensures h in s {
      var r :| r in roots && RootReaches(blocks, begin, end, r, h);
      var path :| IsPath(blocks, begin, end, path) && path[0] == r - HDR_SIZE && path[|path| - 1] == h;
      ClosedUnderReach(blocks, begin, end, s, path);
    }
  }

  /** And where the roots are sound, what is live is such a set. */
  lemma LiveIsClosed(blocks: Blocks, begin: nat, end: nat, roots: seq<Word>)
    requires Sound(blocks, begin, end, roots)
    ensures Closed(blocks, begin, end, roots, LiveSet(blocks, begin, end, roots))
    ensures forall h {:trigger Live(blocks, begin, end, roots, h)} | Live(blocks, begin, end, roots, h) :: h in blocks && !blocks[h].Free()
  {
    var live := LiveSet(blocks, begin, end, roots);
    var s := set h | h in live && !blocks[h].Free();
    forall r | r in roots ensures r == 0 || (r >= HDR_SIZE && r - HDR_SIZE in s) {
      assert RootOk(blocks, r);
      if r != 0 {
        ReachesSelf(blocks, begin, end, r - HDR_SIZE);
        assert RootReaches(blocks, begin, end, r, r - HDR_SIZE);
      }
    }
    forall g | g in s ensures Children(blocks[g], begin, end) <= s {
      assert PointerOk(blocks, begin, end, g);
      forall c | c in Children(blocks[g], begin, end) ensures c in s { LiveChild(blocks, begin, end, roots, g, c); }
    }
    ClosedIsSound(blocks, begin, end, roots, s);
    assert live == s;
  }

  lemma LiveChild(blocks: Blocks, begin: nat, end: nat, roots: seq<Word>, h: nat, c: nat)
    requires Live(blocks, begin, end, roots, h) && h in blocks && c in blocks && c in Children(blocks[h], begin, end)
    ensures Live(blocks, begin, end, roots, c)
  {
    var r :| r in roots && RootReaches(blocks, begin, end, r, h);
    ReachesChild(blocks, begin, end, r - HDR_SIZE, h, c);
    assert RootReaches(blocks, begin, end, r, c);
  }

  /** What ogc as written makes of a block. */
  ghost predicate SweptAsWritten(b: Block, b': Block) {
    if UnusedAsWritten(b) then Cleared(b, b') else b' == b.Unmark()
  }

  /** As written, whatever has been marked, it keeps its promise to the live objects exactly when
      there are none: when no root holds an object. */
  lemma SweepAsWritten(begin: nat, end: nat, used: nat, blocks0: Blocks, blocksM: Blocks, blocks1: Blocks, roots: seq<Word>)
    requires TilingOk(begin, end, used, blocks0) && Sound(blocks0, begin, end, roots) && MarksAdded(blocks0, blocksM)
    requires blocks1.Keys == blocksM.Keys && forall h | h in blocksM :: SweptAsWritten(blocksM[h], blocks1[h])
    ensures (forall h {:trigger Live(blocks0, begin, end, roots, h)}
               | h in blocks0 && Live(blocks0, begin, end, roots, h) :: blocks1[h] == blocks0[h]) <==>
            forall r | r in roots :: r == 0
  {
    forall h | h in blocks0 ensures blocks1[h].Free() {
      BlockPlaced(begin, end, used, blocks0, h);
      assert blocksM[h].Unmark() == blocks0[h].Unmark() && SweptAsWritten(blocksM[h], blocks1[h]);
      assert blocksM[h].Bucket() == blocksM[h].Unmark().buck == blocks0[h].Bucket() < MARK_BIT;
    }
    if r :| r in roots && r != 0 {
      assert RootOk(blocks0, r);
      ReachesSelf(blocks0, begin, end, r - HDR_SIZE);
      assert RootReaches(blocks0, begin, end, r, r - HDR_SIZE);
      assert Live(blocks0, begin, end, roots, r - HDR_SIZE);
    }
  }

  lemma LiveIsUsed(blocks: Blocks, begin: nat, end: nat, roots: seq<Word>, h: nat)
    requires Sound(blocks, begin, end, roots) && Live(blocks, begin, end, roots, h)
    ensures h in blocks && !blocks[h].Free()
  {
    LiveIsClosed(blocks, begin, end, roots);
  }

  /** Changing nothing live keeps the roots sound. */
  lemma LiveStays(blocks0: Blocks, blocks1: Blocks, begin: nat, end: nat, roots: seq<Word>)
    requires Sound(blocks0, begin, end, roots)
    requires forall g | g in blocks0 && Live(blocks0, begin, end, roots, g) :: g in blocks1 && blocks1[g] == blocks0[g]
    ensures Sound(blocks1, begin, end, roots)
  {
    LiveIsClosed(blocks0, begin, end, roots);
    var s := LiveSet(blocks0, begin, end, roots);
    forall g | g in s ensures g in blocks1 && !blocks1[g].Free() && Children(blocks1[g], begin, end) <= s { assert g in blocks0; }
    ClosedIsSound(blocks1, begin, end, roots, s);
  }

  /** The same, with a new object n that holds only live ones, and the object `gone` dropped where
      `drops`: roots drawn from the old ones and n are sound. */
  lemma NewStays(blocks0: Blocks, blocks1: Blocks, begin: nat, end: nat, roots: seq<Word>, next: seq<Word>, n: nat, gone: nat, drops: bool)
    requires Sound(blocks0, begin, end, roots) && n in blocks1 && !blocks1[n].Free()
    requires forall g | g in blocks0 && Live(blocks0, begin, end, roots, g) && !(drops && g == gone) :: g in blocks1 && blocks1[g] == blocks0[g]
    requires forall c | c in Children(blocks1[n], begin, end) :: c in blocks0 && Live(blocks0, begin, end, roots, c)
    requires drops ==> Unpointed(blocks0, begin, end, roots, gone) && gone !in Children(blocks1[n], begin, end)
    requires Drawn(roots, next, n, gone, drops)
    ensures Sound(blocks1, begin, end, next)
  {
    LiveIsClosed(blocks0, begin, end, roots);
    var live := LiveSet(blocks0, begin, end, roots);
    var s := (if drops then live - {gone} else live) + {n};
    forall g | g in s ensures g in blocks1 && !blocks1[g].Free() && Children(blocks1[g], begin, end) <= s {
      if g != n { assert g in blocks0 && Live(blocks0, begin, end, roots, g); }
    }
    forall r | r in next ensures r == 0 || (r >= HDR_SIZE && r - HDR_SIZE in s) {
      assert r == n + HDR_SIZE || r in roots;
    }
    ClosedIsSound(blocks1, begin, end, next, s);
  }

  /** No live object points to h. */
  ghost predicate Unpointed(blocks: Blocks, begin: nat, end: nat, roots: seq<Word>, h: nat) {
    forall g | g in blocks && Live(blocks, begin, end, roots, g) :: h !in Children(blocks[g], begin, end)
  }

  /** Roots drawn from the old ones and a new object, without the one that is gone. */
  predicate Drawn(roots: seq<Word>, next: seq<Word>, n: nat, gone: nat, drops: bool) {
    forall r | r in next :: r == n + HDR_SIZE || (r in roots && (drops ==> r != gone + HDR_SIZE))
  }

  /** Collecting keeps the heap in order. */
  lemma CollectedOk(begin: nat, end: nat, used: nat, blocks0: Blocks, blocks1: Blocks, roots: seq<Word>)
    requires TilingOk(begin, end, used, blocks0) && Sound(blocks0, begin, end, roots)
    requires Collected(blocks0, blocks1, begin, end, roots)
    ensures TilingOk(begin, end, used, blocks1) && Sound(blocks1, begin, end, roots)
  {
    CollectedTiling(begin, end, used, blocks0, blocks1, roots);
    forall g | g in blocks0 && Live(blocks0, begin, end, roots, g) ensures g in blocks1 && blocks1[g] == blocks0[g] {
      assert CollectedAt(blocks0, blocks1, begin, end, roots, g);
    }
    LiveStays(blocks0, blocks1, begin, end, roots);
  }

  lemma CollectedTiling(begin: nat, end: nat, used: nat, blocks0: Blocks, blocks1: Blocks, roots: seq<Word>)
    requires TilingOk(begin, end, used, blocks0) && Collected(blocks0, blocks1, begin, end, roots)
    ensures TilingOk(begin, end, used, blocks1)
  {
    HeadersWithin(blocks0, begin, used);
    forall h | h in blocks0
      ensures !blocks1[h].Marked() && blocks1[h].Sized() && blocks1[h].Bucket() == blocks0[h].Bucket()
    {
      CollectedBlock(begin, end, blocks0, blocks1, roots, h);
    }
    TilesSame(blocks0, blocks1, begin, used);
  }

  lemma CollectedBlock(begin: nat, end: nat, blocks0: Blocks, blocks1: Blocks, roots: seq<Word>, h: nat)
    requires Collected(blocks0, blocks1, begin, end, roots) && h in blocks0 && !blocks0[h].Marked() && blocks0[h].Sized()
    ensures !blocks1[h].Marked() && blocks1[h].Sized() && blocks1[h].Bucket() == blocks0[h].Bucket()
    ensures blocks1[h].Free() || (Live(blocks0, begin, end, roots, h) && blocks1[h] == blocks0[h])
    ensures blocks1[h].Free() ==> blocks0[h].Free() || !Live(blocks0, begin, end, roots, h)
  {
    assert CollectedAt(blocks0, blocks1, begin, end, roots, h);
  }

  /** What an allocation must not disturb: live objects, or with no collector all used ones. */
  ghost predicate Kept(blocks: Blocks, begin: nat, end: nat, collects: bool, roots: seq<Word>, g: nat)
    requires g in blocks
  {
    if collects then Live(blocks, begin, end, roots, g) else !blocks[g].Free()
  }

  lemma KeptIsUsed(blocks: Blocks, begin: nat, end: nat, collects: bool, roots: seq<Word>, g: nat)
    requires (collects ==> Sound(blocks, begin, end, roots)) && g in blocks
    requires Kept(blocks, begin, end, collects, roots, g)
    ensures !blocks[g].Free()
  {
    if collects { LiveIsUsed(blocks, begin, end, roots, g); }
  }

  /** No room for a block of bucket k, and none is free. */
  ghost predicate NoSpace(blocks: Blocks, used: nat, end: nat, k: nat)
    requires k < NUM_BUCKETS
  {
    end <= used + Footprint(k) < 0x1_0000 && NoneFree(blocks, k)
  }

  ghost predicate NoneFree(blocks: Blocks, k: nat) {
    forall h {:trigger InUse(blocks, k, h)} | h in blocks :: InUse(blocks, k, h)
  }

  /** Nor is one free where the 16-bit sum of the test for room passes 64K. */
  ghost predicate Wraps(blocks: Blocks, used: nat, k: nat)
    requires k < NUM_BUCKETS
  {
    used + Footprint(k) >= 0x1_0000 && NoneFree(blocks, k)
  }

  /** The 16-bit test `ORamUsed + sz >= ORamEnd` finds room exactly where there is some, or where
      the sum wraps around. */
  lemma RoomTestPasses(used: nat, end: nat, k: nat)
    requires used <= end <= MAX_END && k < NUM_BUCKETS
    ensures Wrap(used + Footprint(k)) < end <==> used + Footprint(k) < end || used + Footprint(k) >= 0x1_0000
  {
    assert forall j | 0 <= j < NUM_BUCKETS :: BUCKET_CAP[j] <= 0x400;
    var sum := used + Footprint(k);
    if sum >= 0x1_0000 { assert Wrap(sum) == Wrap(sum - 0x1_0000) == sum - 0x1_0000; }
  }

  predicate InUse(blocks: Blocks, k: nat, h: nat)
    requires h in blocks
  {
    blocks[h].Bucket() == k ==> !blocks[h].Free()
  }

  /** No room for a block of bucket k, and every one there is must be kept. */
  ghost predicate OutOfMemory(blocks: Blocks, begin: nat, end: nat, used: nat, k: nat, collects: bool, roots: seq<Word>)
    requires k < NUM_BUCKETS
  {
    && end <= used + Footprint(k) < 0x1_0000
    && forall h {:trigger Needed(blocks, begin, end, k, collects, roots, h)} | h in blocks :: Needed(blocks, begin, end, k, collects, roots, h)
  }

  ghost predicate Needed(blocks: Blocks, begin: nat, end: nat, k: nat, collects: bool, roots: seq<Word>, h: nat)
    requires h in blocks
  {
    blocks[h].Bucket() == k ==> Kept(blocks, begin, end, collects, roots, h)
  }

  /** Having space now, the heap is not out of memory; nor is it if a collection makes space. */
  lemma SpaceIsMemory(blocks: Blocks, begin: nat, end: nat, used: nat, k: nat, collects: bool, roots: seq<Word>)
    requires (collects ==> Sound(blocks, begin, end, roots)) && k < NUM_BUCKETS
    ensures OutOfMemory(blocks, begin, end, used, k, collects, roots) ==> NoSpace(blocks, used, end, k)
    ensures !collects && NoSpace(blocks, used, end, k) ==> OutOfMemory(blocks, begin, end, used, k, collects, roots)
  {
    if OutOfMemory(blocks, begin, end, used, k, collects, roots) {
      forall h | h in blocks ensures InUse(blocks, k, h) {
        assert Needed(blocks, begin, end, k, collects, roots, h);
        if blocks[h].Bucket() == k { KeptIsUsed(blocks, begin, end, collects, roots, h); }
      }
    }
    if !collects && NoSpace(blocks, used, end, k) {
      forall h | h in blocks ensures Needed(blocks, begin, end, k, collects, roots, h) { assert InUse(blocks, k, h); }
    }
  }

  lemma CollectedSpace(blocks0: Blocks, blocks1: Blocks, begin: nat, end: nat, used: nat, k: nat, roots: seq<Word>)
    requires TilingOk(begin, end, used, blocks0) && Sound(blocks0, begin, end, roots) && Collected(blocks0, blocks1, begin, end, roots)
    requires k < NUM_BUCKETS
    ensures NoSpace(blocks1, used, end, k) <==> OutOfMemory(blocks0, begin, end, used, k, true, roots)
  {
    forall h | h in blocks0
      ensures h in blocks1 && (InUse(blocks1, k, h) <==> Needed(blocks0, begin, end, k, true, roots, h))
    {
      BlockPlaced(begin, end, used, blocks0, h);
      CollectedBlock(begin, end, blocks0, blocks1, roots, h);
      if Live(blocks0, begin, end, roots, h) { LiveIsUsed(blocks0, begin, end, roots, h); }
    }
    if OutOfMemory(blocks0, begin, end, used, k, true, roots) {
      forall h | h in blocks1 ensures InUse(blocks1, k, h) { assert Needed(blocks0, begin, end, k, true, roots, h); }
    }
    if NoSpace(blocks1, used, end, k) {
      forall h | h in blocks0 ensures Needed(blocks0, begin, end, k, true, roots, h) { assert InUse(blocks1, k, h); }
    }
  }

  /** What must be kept is unchanged, and besides the new object n nothing else is in use. */
  ghost predicate Survive(blocks0: Blocks, blocks1: Blocks, begin: nat, end: nat, collects: bool, roots: seq<Word>, n: nat) {
    && (forall g {:trigger Kept(blocks0, begin, end, collects, roots, g)}
          | g in blocks0 && Kept(blocks0, begin, end, collects, roots, g) :: g != n && g in blocks1 && blocks1[g] == blocks0[g])
    && (forall g {:trigger NoNewer(blocks0, blocks1, g)} | g in blocks1 && g != n :: NoNewer(blocks0, blocks1, g))
  }

  predicate NoNewer(blocks0: Blocks, blocks1: Blocks, g: nat)
    requires g in blocks1
  {
    blocks1[g].Free() || (g in blocks0 && blocks1[g] == blocks0[g])
  }

  /** A cleared object n on memory that was free, and nothing else changed. */
  ghost predicate Placement(blocks0: Blocks, blocks1: Blocks, n: nat)
    requires n in blocks1
  {
    && blocks1.Keys == blocks0.Keys + {n} && (n in blocks0 ==> blocks0[n].Free())
    && !blocks1[n].Free() && blocks1[n].body == Zeros(|blocks1[n].body|)
    && (forall g | g in blocks0 && g != n :: blocks1[g] == blocks0[g])
  }

  ghost predicate NewAt(blocks: Blocks, begin: nat, end: nat, h: nat, len: nat, cls: Byte) {
    && h in blocks && h % 2 == 0 && begin <= h && h + HDR_SIZE < end
    && blocks[h].Bucket() == SizeToBucket(len) && blocks[h].Sized()
    && blocks[h].cls == cls != 0 && blocks[h].body == Zeros(|blocks[h].body|)
  }

  lemma CarvedIsNew(blocks: Blocks, begin: nat, end: nat, h: nat, len: nat, k: nat, cls: Byte)
    requires h !in blocks && h % 2 == 0 && begin <= h && k == SizeToBucket(len) < NUM_BUCKETS && h + Footprint(k) < end && cls != 0
    ensures var blocks1 := blocks[h := Block(k, cls, Zeros(BUCKET_CAP[k] / 2))];
            NewAt(blocks1, begin, end, h, len, cls) && Placement(blocks, blocks1, h)
  {
    CarvedIsSized(k, cls);
  }

  lemma TakenIsNew(blocks: Blocks, begin: nat, end: nat, h: nat, len: nat, k: nat, cls: Byte)
    requires h in blocks && blocks[h].Free() && blocks[h].Bucket() == k == SizeToBucket(len) < NUM_BUCKETS && blocks[h].Sized()
    requires h % 2 == 0 && begin <= h && h + Footprint(k) <= end && cls != 0
    ensures var blocks1 := blocks[h := ReuseAsIntended(blocks[h], cls)];
            NewAt(blocks1, begin, end, h, len, cls) && Placement(blocks, blocks1, h)
  {
    assert BUCKET_CAP[k] > 0;
  }

  lemma FirstSurvive(blocks0: Blocks, blocks1: Blocks, begin: nat, end: nat, collects: bool, roots: seq<Word>, n: nat)
    requires collects ==> Sound(blocks0, begin, end, roots)
    requires n in blocks1 && Placement(blocks0, blocks1, n)
    ensures Survive(blocks0, blocks1, begin, end, collects, roots, n)
  {
    forall g | g in blocks0 && Kept(blocks0, begin, end, collects, roots, g) ensures g != n {
      KeptIsUsed(blocks0, begin, end, collects, roots, g);
    }
  }

  /** What a collection leaves, if there was one. */
  ghost predicate Remain(blocks0: Blocks, blocks1: Blocks, begin: nat, end: nat, collects: bool, roots: seq<Word>) {
    if collects then
      Sound(blocks0, begin, end, roots) && Sound(blocks1, begin, end, roots) && Collected(blocks0, blocks1, begin, end, roots)
    else blocks1 == blocks0
  }

  /** The second try, if it gives an object. */
  lemma Retried(blocks0: Blocks, blocks1: Blocks, blocks2: Blocks, begin: nat, end: nat, collects: bool, roots: seq<Word>, r: Alloc)
    requires Remain(blocks0, blocks1, begin, end, collects, roots)
    requires !r.Object? ==> blocks2 == blocks1
    requires r.Object? ==> r.addr >= HDR_SIZE && r.addr - HDR_SIZE in blocks2 && Placement(blocks1, blocks2, r.addr - HDR_SIZE)
    ensures collects ==> Sound(blocks2, begin, end, roots)
    ensures r.Object? ==> Survive(blocks0, blocks2, begin, end, collects, roots, r.addr - HDR_SIZE)
    ensures r.Object? && collects ==> Sound(blocks2, begin, end, roots + [r.addr])
  {
    if r.Object? {
      SecondSurvive(blocks0, blocks1, blocks2, begin, end, collects, roots, r.addr - HDR_SIZE);
      if collects { NewIsSound(blocks1, blocks2, begin, end, roots, r.addr - HDR_SIZE); }
    }
  }

  /** The first try, if it gives an object. */
  lemma Tried(blocks0: Blocks, blocks1: Blocks, begin: nat, end: nat, collects: bool, roots: seq<Word>, r: Alloc)
    requires collects ==> Sound(blocks0, begin, end, roots)
    requires !r.Object? ==> blocks1 == blocks0
    requires r.Object? ==> r.addr >= HDR_SIZE && r.addr - HDR_SIZE in blocks1 && Placement(blocks0, blocks1, r.addr - HDR_SIZE)
    ensures collects ==> Sound(blocks1, begin, end, roots)
    ensures r.Object? ==> Survive(blocks0, blocks1, begin, end, collects, roots, r.addr - HDR_SIZE)
    ensures r.Object? && collects ==> Sound(blocks1, begin, end, roots + [r.addr])
  {
    if r.Object? {
      FirstSurvive(blocks0, blocks1, begin, end, collects, roots, r.addr - HDR_SIZE);
      if collects { NewIsSound(blocks0, blocks1, begin, end, roots, r.addr - HDR_SIZE); }
    }
  }

  lemma SecondSurvive(blocks0: Blocks, blocks1: Blocks, blocks2: Blocks, begin: nat, end: nat, collects: bool, roots: seq<Word>, n: nat)
    requires collects ==> Sound(blocks0, begin, end, roots)
    requires if collects then Collected(blocks0, blocks1, begin, end, roots) else blocks1 == blocks0
    requires n in blocks2 && Placement(blocks1, blocks2, n)
    ensures Survive(blocks0, blocks2, begin, end, collects, roots, n)
  {
    forall g | g in blocks0 && Kept(blocks0, begin, end, collects, roots, g) ensures g != n && g in blocks1 && blocks1[g] == blocks0[g] {
      KeptIsUsed(blocks0, begin, end, collects, roots, g);
      if collects { assert CollectedAt(blocks0, blocks1, begin, end, roots, g); }
    }
    forall g | g in blocks2 && g != n ensures NoNewer(blocks0, blocks2, g) {
      if collects { assert CollectedAt(blocks0, blocks1, begin, end, roots, g); }
    }
  }

  /** A new object that points to nothing may join the roots. */
  lemma NewIsSound(blocks0: Blocks, blocks1: Blocks, begin: nat, end: nat, roots: seq<Word>, n: Word)
    requires Sound(blocks0, begin, end, roots) && n + HDR_SIZE < 0x1_0000
    requires n in blocks1 && Placement(blocks0, blocks1, n)
    ensures Sound(blocks1, begin, end, roots) && Sound(blocks1, begin, end, roots + [n + HDR_SIZE])
  {
    assert Children(blocks1[n], begin, end) == {};
    forall g | g in blocks0 && Live(blocks0, begin, end, roots, g) ensures g != n { LiveIsUsed(blocks0, begin, end, roots, g); }
    LiveStays(blocks0, blocks1, begin, end, roots);
    NewStays(blocks0, blocks1, begin, end, roots, roots + [n + HDR_SIZE], n, n, false);
  }

  /** What had to be kept, except h, is as it was, and is not n. */
  ghost predicate Stay(blocks0: Blocks, blocks1: Blocks, begin: nat, end: nat, collects: bool, roots: seq<Word>, n: nat, h: nat) {
    forall g {:trigger Kept(blocks0, begin, end, collects, roots, g)}
      | g in blocks0 && g != h && Kept(blocks0, begin, end, collects, roots, g) :: g != n && g in blocks1 && blocks1[g] == blocks0[g]
  }

  /** Roots drawn from the old ones and n are sound, unless h was dropped with a live pointer to it. */
  ghost predicate SoundAgain(blocks0: Blocks, blocks1: Blocks, begin: nat, end: nat, roots: seq<Word>, n: nat, h: nat, drops: bool) {
    (drops ==> Unpointed(blocks0, begin, end, roots, h)) ==>
    forall next {:trigger Drawn(roots, next, n, h, drops)} | Drawn(roots, next, n, h, drops) :: Sound(blocks1, begin, end, next)
  }

  lemma KeptApart(blocks0: Blocks, blocks1: Blocks, begin: nat, end: nat, collects: bool, roots: seq<Word>, n: nat, h: nat)
    requires h in blocks0 && Kept(blocks0, begin, end, collects, roots, h) && Survive(blocks0, blocks1, begin, end, collects, roots, n)
    ensures h != n && h in blocks1 && blocks1[h] == blocks0[h]
  {}

  /** After the object at h has moved to n, just allocated. */
  lemma KeptOthers(blocks0: Blocks, blocks1: Blocks, blocks2: Blocks, begin: nat, end: nat, collects: bool, roots: seq<Word>, n: nat, h: nat, drops: bool)
    requires (collects ==> Sound(blocks0, begin, end, roots)) && h in blocks0 && Kept(blocks0, begin, end, collects, roots, h)
    requires n in blocks1 && Survive(blocks0, blocks1, begin, end, collects, roots, n)
    requires blocks2.Keys == blocks1.Keys && forall g | g in blocks1 && g != n && !(drops && g == h) :: blocks2[g] == blocks1[g]
    requires !blocks2[n].Free() && Children(blocks2[n], begin, end) == Children(blocks0[h], begin, end)
    ensures Stay(blocks0, blocks2, begin, end, collects, roots, n, h)
    ensures collects ==> SoundAgain(blocks0, blocks2, begin, end, roots, n, h, drops)
  {
    if collects && (drops ==> Unpointed(blocks0, begin, end, roots, h)) {
      forall g | g in blocks0 && Live(blocks0, begin, end, roots, g) && !(drops && g == h) ensures g in blocks2 && blocks2[g] == blocks0[g] {
        assert Kept(blocks0, begin, end, collects, roots, g);
      }
      LiveIsClosed(blocks0, begin, end, roots);
      assert h in LiveSet(blocks0, begin, end, roots);
      forall next | Drawn(roots, next, n, h, drops) ensures Sound(blocks2, begin, end, next) {
        NewStays(blocks0, blocks2, begin, end, roots, next, n, h, drops);
      }
    }
  }

  lemma StartSweep(begin: nat, end: nat, used: nat, blocks0: Blocks, blocks: Blocks)
    requires TilingOk(begin, end, used, blocks0) && MarksAdded(blocks0, blocks)
    ensures Sweeping(blocks, used, begin, blocks, seq(NUM_BUCKETS, _ => 0), seq(NUM_BUCKETS, _ => []))
    ensures forall h | h in blocks :: h < used
  {
    HeadersWithin(blocks0, begin, used);
    forall h | h in blocks0 ensures blocks[h].Sized() && blocks[h].Bucket() == blocks0[h].Bucket() {
      assert blocks[h].Unmark() == blocks0[h].Unmark();
      assert blocks[h].Unmark().Bucket() == blocks[h].Bucket();
    }
    TilesSame(blocks0, blocks, begin, used);
    var heads, lists := seq(NUM_BUCKETS, _ => 0), seq<seq<nat>>(NUM_BUCKETS, _ => []);
    var within := blocks.Keys - Headers(blocks, begin, used);
    assert within == {};
    forall k | 0 <= k < NUM_BUCKETS ensures ListOk(blocks, within, k, heads[k], lists[k]) {}
  }

  lemma EndSweep(blocks0: Blocks, used: nat, blocks: Blocks, heads: seq<nat>, lists: seq<seq<nat>>)
    requires Sweeping(blocks0, used, used, blocks, heads, lists)
    ensures blocks.Keys == blocks0.Keys && forall h | h in blocks0 :: Swept(blocks0[h], blocks[h])
    ensures ListsOk(blocks, blocks.Keys, heads, lists)
  {
    assert blocks0.Keys - Headers(blocks0, used, used) == blocks.Keys;
    assert forall h | h in blocks0 :: h !in Headers(blocks0, used, used);
  }

  class Heap {
    const begin: nat
    const end: nat
    var used: nat
    var blocks: Blocks
    var heads: seq<nat>
    // The free list of each bucket, head first.
    ghost var lists: seq<seq<nat>>

    ghost predicate Valid()
      reads this
    {
      HeapOk(begin, end, used, blocks, heads, lists)
    }

    constructor (begin: nat, end: nat)
      requires 0 < begin <= end <= MAX_END && begin % 2 == 0
      ensures Valid() && blocks == map[] && this.begin == begin && this.end == end && used == begin
    {
      this.begin, this.end, used, blocks := begin, end, begin, map[];
      heads, lists := seq(NUM_BUCKETS, _ => 0), seq(NUM_BUCKETS, _ => []);
    }

    /** A new object: zeroed, of the class asked for and the least bucket that holds it. */
    ghost predicate New(h: nat, len: nat, cls: Byte)
      reads this
    {
      NewAt(blocks, begin, end, h, len, cls)
    }

    /** It stands on memory that was free, and nothing else has changed. */
    twostate predicate Allocated(h: nat, len: nat, cls: Byte)
      reads this
    {
      New(h, len, cls) && Placement(old(blocks), blocks, h)
    }

    /** oalloc_try. */
    method AllocTry(len: nat, cls: Byte) returns (r: Alloc)
      requires Valid()
      modifies this
      ensures Valid()
      ensures r.Panic? <==> cls == 0 || SizeToBucket(len) == NUM_BUCKETS
      ensures !r.Panic? ==> (r.NoRoom? <==> NoSpace(old(blocks), old(used), end, SizeToBucket(len)))
      ensures !r.Panic? ==> (r.Wrapped? <==> Wraps(old(blocks), old(used), SizeToBucket(len)))
      ensures !r.Object? ==> blocks == old(blocks) && used == old(used)
      ensures r.Object? ==> r.addr >= HDR_SIZE && Allocated(r.addr - HDR_SIZE, len, cls)
    {
      if cls == 0 { return Panic; }
      var k := SizeToBucket(len);
      if k == NUM_BUCKETS { return Panic; }
      EmptyList(k);
      var h := heads[k];
      if h != 0 {
        TakeFirst(k, len, cls);
        return Object(h + HDR_SIZE);
      }
      r := CarveIfRoom(k, len, cls);
    }

    method CarveIfRoom(k: nat, len: nat, cls: Byte) returns (r: Alloc)
      requires Valid() && k == SizeToBucket(len) < NUM_BUCKETS && cls != 0
      modifies this
      ensures Valid() && !r.Panic?
      ensures r.NoRoom? <==> end <= old(used) + Footprint(k) < 0x1_0000
      ensures r.Wrapped? <==> old(used) + Footprint(k) >= 0x1_0000
      ensures !r.Object? ==> blocks == old(blocks) && used == old(used)
      ensures r.Object? ==> r.addr >= HDR_SIZE && Allocated(r.addr - HDR_SIZE, len, cls)
    {
      RoomTestPasses(used, end, k);
      if Wrap(used + Footprint(k)) >= end { return NoRoom; }
      if used + Footprint(k) >= 0x1_0000 { return Wrapped; }
      var h := used;
      Carve(k, len, cls);
      r := Object(h + HDR_SIZE);
    }

    lemma EmptyList(k: nat)
      requires Valid() && k < NUM_BUCKETS
      ensures heads[k] == 0 <==> NoneFree(blocks, k)
    {
      HeadIsFree(blocks, blocks.Keys, heads, lists, k);
      assert ListOk(blocks, blocks.Keys, k, heads[k], lists[k]);
      if heads[k] != 0 { assert !InUse(blocks, k, heads[k]); }
    }

    /** oalloc: a second try after a collection, when OMarkRoots is set.  It panics exactly for a
        size too big, for class 0, or without room while every block of the bucket must be kept. */
    method Allocate(len: nat, cls: Byte, collects: bool, roots: seq<Word>) returns (r: Alloc)
      requires Valid() && (collects ==> Sound(blocks, begin, end, roots))
      modifies this
      ensures Valid() && !r.NoRoom? && (collects ==> Sound(blocks, begin, end, roots))
      ensures r.Panic? <==>
                cls == 0 || SizeToBucket(len) == NUM_BUCKETS ||
                OutOfMemory(old(blocks), begin, end, old(used), SizeToBucket(len), collects, roots)
      ensures r.Wrapped? <==>
                cls != 0 && SizeToBucket(len) < NUM_BUCKETS && Wraps(old(blocks), old(used), SizeToBucket(len))
      ensures r.Object? ==> r.addr >= HDR_SIZE && New(r.addr - HDR_SIZE, len, cls)
      ensures r.Object? ==> Survive(old(blocks), blocks, begin, end, collects, roots, r.addr - HDR_SIZE)
      ensures r.Object? && collects ==> Sound(blocks, begin, end, roots + [r.addr])
    {
      var k := SizeToBucket(len);
      if k < NUM_BUCKETS { SpaceIsMemory(blocks, begin, end, used, k, collects, roots); }
      r := AllocTry(len, cls);
      Tried(old(blocks), blocks, begin, end, collects, roots, r);
      if r.NoRoom? { r := CollectAndTry(len, cls, collects, roots); }
    }

    method CollectAndTry(len: nat, cls: Byte, collects: bool, roots: seq<Word>) returns (r: Alloc)
      requires Valid() && (collects ==> Sound(blocks, begin, end, roots))
      requires cls != 0 && SizeToBucket(len) < NUM_BUCKETS && NoSpace(blocks, used, end, SizeToBucket(len))
      modifies this
      ensures Valid() && !r.NoRoom? && !r.Wrapped? && (collects ==> Sound(blocks, begin, end, roots))
      ensures r.Panic? <==> OutOfMemory(old(blocks), begin, end, old(used), SizeToBucket(len), collects, roots)
      ensures r.Object? ==> r.addr >= HDR_SIZE && New(r.addr - HDR_SIZE, len, cls)
      ensures r.Object? ==> Survive(old(blocks), blocks, begin, end, collects, roots, r.addr - HDR_SIZE)
      ensures r.Object? && collects ==> Sound(blocks, begin, end, roots + [r.addr])
    {
      CollectIfSet(SizeToBucket(len), collects, roots);
      ghost var blocks1 := blocks;
      r := AllocTry(len, cls);
      Retried(old(blocks), blocks1, blocks, begin, end, collects, roots, r);
      if !r.Object? { r := Panic; }
    }

    /** ogc does nothing where OMarkRoots is not set. */
    method CollectIfSet(k: nat, collects: bool, roots: seq<Word>)
      requires Valid() && (collects ==> Sound(blocks, begin, end, roots)) && k < NUM_BUCKETS && NoSpace(blocks, used, end, k)
      modifies this
      ensures Valid() && used == old(used) && Remain(old(blocks), blocks, begin, end, collects, roots)
      ensures NoSpace(blocks, used, end, k) <==> OutOfMemory(old(blocks), begin, end, used, k, collects, roots)
    {
      SpaceIsMemory(blocks, begin, end, used, k, collects, roots);
      if collects {
        Collect(roots);
        CollectedSpace(old(blocks), blocks, begin, end, used, k, roots);
      }
    }

    method TakeFirst(k: nat, len: nat, cls: Byte)
      requires Valid() && k == SizeToBucket(len) < NUM_BUCKETS && heads[k] != 0 && cls != 0
      modifies this
      ensures Valid() && Allocated(old(heads)[k], len, cls)
    {
      var h := heads[k];
      TakeOk(begin, end, used, blocks, heads, lists, k, cls);
      TakenIsNew(blocks, begin, end, h, len, k, cls);
      heads := heads[k := blocks[h].body[0]];
      lists := lists[k := lists[k][1..]];
      blocks := blocks[h := ReuseAsIntended(blocks[h], cls)];
    }

    method Carve(k: nat, len: nat, cls: Byte)
      requires Valid() && k == SizeToBucket(len) < NUM_BUCKETS && used + Footprint(k) < end && cls != 0
      modifies this
      ensures Valid() && Allocated(old(used), len, cls)
    {
      CarveOk(begin, end, used, blocks, heads, lists, k, cls);
      CarvedIsNew(blocks, begin, end, used, len, k, cls);
      blocks := blocks[used := Block(k, cls, Zeros(BUCKET_CAP[k] / 2))];
      used := used + BUCKET_CAP[k] + HDR_SIZE;
    }

    /** orealloc, of an object its caller keeps reachable.  What is too small moves, its words
        first and zeros after them; everything else that is kept stays; and if to_free drops an
        object that nothing live points to, any roots that do not name it are sound again. */
    method ReAlloc(obj: Word, len: nat, toFree: bool, collects: bool, roots: seq<Word>) returns (r: Alloc)
      requires Valid() && (collects ==> Sound(blocks, begin, end, roots))
      requires obj >= HDR_SIZE && obj - HDR_SIZE in blocks && Kept(blocks, begin, end, collects, roots, obj - HDR_SIZE)
      modifies this
      ensures Valid()
      ensures len <= 2 * |old(blocks)[obj - HDR_SIZE].body| ==> r == Object(obj) && blocks == old(blocks)
      ensures len > 2 * |old(blocks)[obj - HDR_SIZE].body| ==> Grown(r, obj - HDR_SIZE, len, toFree, collects, roots)
    {
      var h := obj - HDR_SIZE;
      KeptIsUsed(blocks, begin, end, collects, roots, h);
      BlockPlaced(begin, end, used, blocks, h);
      if BUCKET_CAP[blocks[h].buck] >= len { return Object(obj); }
      r := Grow(h, len, toFree, collects, roots);
    }

    /** A panic or a wrapped sum, exactly as in allocating, or the object moved. */
    twostate predicate Grown(r: Alloc, h: nat, len: nat, toFree: bool, collects: bool, roots: seq<Word>)
      requires h in old(blocks)
      reads this
    {
      match r
      case NoRoom => false
      case Wrapped =>
        && SizeToBucket(len) != NUM_BUCKETS && Wraps(old(blocks), old(used), SizeToBucket(len))
        && (collects ==> Sound(blocks, begin, end, roots))
      case Panic =>
        && (SizeToBucket(len) == NUM_BUCKETS || OutOfMemory(old(blocks), begin, end, old(used), SizeToBucket(len), collects, roots))
        && (collects ==> Sound(blocks, begin, end, roots))
      case Object(addr) =>
        && SizeToBucket(len) != NUM_BUCKETS && !OutOfMemory(old(blocks), begin, end, old(used), SizeToBucket(len), collects, roots)
        && !Wraps(old(blocks), old(used), SizeToBucket(len))
        && addr >= HDR_SIZE && Moved(h, addr - HDR_SIZE, len, toFree)
        && Stay(old(blocks), blocks, begin, end, collects, roots, addr - HDR_SIZE, h)
        && (collects ==> SoundAgain(old(blocks), blocks, begin, end, roots, addr - HDR_SIZE, h, toFree))
    }

    /** The object at h now stands at n, with room for len bytes. */
    twostate predicate Moved(h: nat, n: nat, len: nat, toFree: bool)
      requires h in old(blocks)
      reads this
    {
      && n != h && h in blocks && n in blocks && n % 2 == 0 && begin <= n && n + HDR_SIZE < end
      && blocks[n].Sized() && blocks[n].buck == SizeToBucket(len) && blocks[n].cls == old(blocks)[h].cls
      && |old(blocks)[h].body| <= |blocks[n].body|
      && blocks[n].body == old(blocks)[h].body + Zeros(|blocks[n].body| - |old(blocks)[h].body|)
      && (if toFree then Cleared(old(blocks)[h], blocks[h]) else blocks[h] == old(blocks)[h])
    }

    /** Its way to a larger object. */
    method Grow(h: nat, len: nat, toFree: bool, collects: bool, roots: seq<Word>) returns (r: Alloc)
      requires Valid() && (collects ==> Sound(blocks, begin, end, roots))
      requires h + HDR_SIZE < 0x1_0000 && h in blocks && !blocks[h].Free() && len > 2 * |blocks[h].body|
      requires Kept(blocks, begin, end, collects, roots, h)
      modifies this
      ensures Valid() && Grown(r, h, len, toFree, collects, roots)
    {
      r := Allocate(len, blocks[h].cls, collects, roots);
      if r.Object? {
        ghost var blocks1 := blocks;
        var n := r.addr - HDR_SIZE;
        KeptApart(old(blocks), blocks1, begin, end, collects, roots, n, h);
        Move(n, h, len, toFree);
        KeptOthers(old(blocks), blocks1, blocks, begin, end, collects, roots, n, h, toFree);
      }
    }

    method Move(n: nat, h: nat, len: nat, toFree: bool)
      requires Valid() && h in blocks && h + HDR_SIZE < 0x1_0000 && !blocks[h].Free() && n != h
      requires New(n, len, blocks[h].cls) && |blocks[h].body| <= |blocks[n].body|
      modifies this
      ensures Valid() && Moved(h, n, len, toFree) && Children(blocks[n], begin, end) == Children(old(blocks)[h], begin, end)
      ensures blocks.Keys == old(blocks).Keys && forall g | g in blocks && g != n && !(toFree && g == h) :: blocks[g] == old(blocks)[g]
    {
      Fill(n, h);
      if toFree { Free(h + HDR_SIZE); }
    }

    method Fill(n: nat, h: nat)
      requires Valid() && n in blocks && h in blocks && n != h && !blocks[h].Free() && !blocks[n].Free()
      requires blocks[n].cls == blocks[h].cls && |blocks[h].body| <= |blocks[n].body| && Zeros(|blocks[n].body|) == blocks[n].body
      modifies this`blocks
      ensures Valid() && blocks.Keys == old(blocks).Keys
      ensures blocks == old(blocks)[n := old(blocks)[n].(body := blocks[n].body)]
      ensures blocks[n].body == blocks[h].body + Zeros(|old(blocks)[n].body| - |blocks[h].body|)
      ensures Children(blocks[n], begin, end) == Children(blocks[h], begin, end)
    {
      var body := blocks[h].body + Zeros(|blocks[n].body| - |blocks[h].body|);
      FillOk(begin, end, used, blocks, heads, lists, n, h, body);
      blocks := blocks[n := blocks[n].(body := body)];
    }

    /** ofree.  Whatever roots do not lead to the object stay sound. */
    method Free(addr: Word)
      requires Valid() && addr >= HDR_SIZE && addr - HDR_SIZE in blocks && !blocks[addr - HDR_SIZE].Free()
      modifies this
      ensures Valid() && used == old(used)
      ensures var h := addr - HDR_SIZE;
              && blocks.Keys == old(blocks).Keys && Cleared(old(blocks)[h], blocks[h])
              && (forall g | g in blocks && g != h :: blocks[g] == old(blocks)[g])
      ensures forall roots {:trigger Sound(old(blocks), begin, end, roots)}
                | Sound(old(blocks), begin, end, roots) && !Live(old(blocks), begin, end, roots, addr - HDR_SIZE) ::
                Sound(blocks, begin, end, roots)
    {
      var h := addr - HDR_SIZE;
      FreeOk(begin, end, used, blocks, heads, lists, h);
      var k := blocks[h].Bucket();
      lists := lists[k := [h] + lists[k]];
      blocks := blocks[h := Freed(blocks[h], heads[k])];
      heads := heads[k := h];
      forall roots | Sound(old(blocks), begin, end, roots) && !Live(old(blocks), begin, end, roots, h) ensures Sound(blocks, begin, end, roots) {
        LiveStays(old(blocks), blocks, begin, end, roots);
      }
    }

    /** ogc, with OMarkRoots calling omark on each root object; no omark panics. */
    method Collect(roots: seq<Word>)
      requires Valid() && Sound(blocks, begin, end, roots)
      modifies this
      ensures Valid() && used == old(used)
      ensures Collected(old(blocks), blocks, begin, end, roots) && Sound(blocks, begin, end, roots)
    {
      ghost var blocks0 := blocks;
      MarkRoots(roots);
      ghost var blocksM := blocks;
      Sweep(blocks0);
      CollectedAll(blocks0, blocksM, blocks, begin, end, roots);
      CollectedOk(begin, end, used, blocks0, blocks, roots);
    }

    method MarkRoots(roots: seq<Word>)
      requires Valid() && Sound(blocks, begin, end, roots)
      modifies this`blocks
      ensures RootsMarked(old(blocks), blocks, begin, end, roots, |roots|)
    {
      ghost var blocks0 := blocks;
      PlacedNow();
      assert Marks(blocks) == {};
      for i := 0 to |roots|
        invariant RootsMarked(blocks0, blocks, begin, end, roots, i)
      {
        MarkRoot(roots, i, blocks0);
      }
    }

    /** One call of omark by OMarkRoots. */
    method MarkRoot(roots: seq<Word>, i: nat, ghost blocks0: Blocks)
      requires i < |roots| && Placed(blocks0, begin, end) && Sound(blocks0, begin, end, roots)
      requires RootsMarked(blocks0, blocks, begin, end, roots, i)
      modifies this`blocks
      ensures RootsMarked(blocks0, blocks, begin, end, roots, i + 1)
    {
      ghost var blocks1 := blocks;
      var r := roots[i];
      RootStays(blocks0, blocks, begin, end, roots, r);
      var ok := Mark(r);
      RootMarked(blocks0, blocks1, blocks, begin, end, roots, i);
    }

    lemma PlacedNow()
      requires Valid()
      ensures Placed(blocks, begin, end)
    {
      forall h | h in blocks ensures h % 2 == 0 && begin <= h < end - HDR_SIZE {
        BlockPlaced(begin, end, used, blocks, h);
        assert BUCKET_CAP[blocks[h].Bucket()] > 0;
      }
    }

    /** The second half of ogc. */
    method Sweep(ghost blocks0: Blocks)
      requires TilingOk(begin, end, used, blocks0) && MarksAdded(blocks0, blocks)
      modifies this`blocks, this`heads, this`lists
      ensures blocks.Keys == old(blocks).Keys && forall h | h in blocks :: Swept(old(blocks)[h], blocks[h])
      ensures ListsOk(blocks, blocks.Keys, heads, lists)
    {
      ghost var blocksM := blocks;
      StartSweep(begin, end, used, blocks0, blocks);
      heads, lists := seq(NUM_BUCKETS, _ => 0), seq(NUM_BUCKETS, _ => []);
      var p := begin;
      while p < used
        invariant begin <= p <= used && Sweeping(blocksM, used, p, blocks, heads, lists)
        decreases used - p
      {
        TilesInOrder(blocksM, p + Footprint(blocksM[p].Bucket()), used);
        p := SweepBlock(p, blocksM);
      }
      EndSweep(blocksM, used, blocks, heads, lists);
    }

    /** The body of that loop. */
    method SweepBlock(p: nat, ghost blocksM: Blocks) returns (next: nat)
      requires Sweeping(blocksM, used, p, blocks, heads, lists) && 0 < p < used <= MAX_END
      requires forall h | h in blocksM :: h < used
      modifies this`blocks, this`heads, this`lists
      ensures next == p + Footprint(blocksM[p].Bucket()) && Sweeping(blocksM, used, next, blocks, heads, lists)
    {
      var cls, buck := blocks[p].cls, blocks[p].Bucket();
      if cls == 0 || !blocks[p].Marked() {
        SweepUnused(blocksM, used, p, blocks, heads, lists);
        lists := lists[buck := [p] + lists[buck]];
        blocks := blocks[p := Block(buck, 0, [heads[buck]] + Zeros(|blocks[p].body| - 1))];
        heads := heads[buck := p];
      } else {
        SweepUsed(blocksM, used, p, blocks, heads, lists);
        blocks := blocks[p := blocks[p].(buck := buck)];
      }
      next := p + HDR_SIZE + BUCKET_CAP[buck];
    }

    /** omark: false is opanic. */
    method Mark(addr: Word) returns (ok: bool)
      requires Placed(blocks, begin, end)
      requires addr % 2 == 0 && begin <= addr < end && addr >= HDR_SIZE ==>
                 addr - HDR_SIZE in blocks && SoundFrom(blocks, begin, end, addr - HDR_SIZE)
      modifies this`blocks
      ensures ok <==> addr == 0 || (addr >= HDR_SIZE && addr - HDR_SIZE in old(blocks) && !old(blocks)[addr - HDR_SIZE].Free())
      ensures MarksAdded(old(blocks), blocks)
      ensures ok && addr != 0 ==>
                addr - HDR_SIZE in Marks(blocks) && MarkedFrom(old(blocks), blocks, begin, end, addr - HDR_SIZE)
      ensures addr == 0 ==> blocks == old(blocks)
      decreases |blocks.Keys - Marks(blocks)|,
                if addr >= HDR_SIZE && addr - HDR_SIZE in Marks(blocks) then 4 else 1
    {
      if addr == 0 { return true; }
      if addr % 2 == 1 || addr < begin || addr >= end { return false; }
      if addr < HDR_SIZE { return false; }
      var h := addr - HDR_SIZE;
      if blocks[h].cls == 0 { return false; }
      ghost var blocks0 := blocks;
      blocks := blocks[h := blocks[h].Mark()];
      VisitStart(blocks0, begin, end, h);
      MarkingDecreases(blocks0, h);
      if blocks[h].cls > LAST_NONPTR_CLASS { MarkChildren(h, blocks0); }
      VisitEnd(blocks0, blocks, begin, end, h);
      ok := true;
    }

    /** The scan of a pointer object's payload inside omark. */
    method MarkChildren(h: nat, ghost blocks0: Blocks)
      requires h in blocks0 && Visiting(blocks0, blocks, begin, end, h, 0)
      requires Placed(blocks0, begin, end) && SoundFrom(blocks0, begin, end, h) && blocks0[h].cls > LAST_NONPTR_CLASS
      modifies this`blocks
      ensures Visiting(blocks0, blocks, begin, end, h, |blocks0[h].body|)
      decreases |blocks.Keys - Marks(blocks)|, 3
    {
      assert blocks[h].Unmark() == blocks0[h].Unmark();
      ghost var unmarked := |blocks.Keys - Marks(blocks)|;
      var n, i := |blocks[h].body|, 0;
      while i < n
        invariant n == |blocks0[h].body| && 0 <= i <= n
        invariant Visiting(blocks0, blocks, begin, end, h, i)
        invariant |blocks.Keys - Marks(blocks)| <= unmarked
      {
        MarkWord(h, i, blocks0);
        i := i + 1;
      }
    }

    /** One word of that payload. */
    method MarkWord(h: nat, i: nat, ghost blocks0: Blocks)
      requires h in blocks0 && Visiting(blocks0, blocks, begin, end, h, i) && i < |blocks0[h].body|
      requires Placed(blocks0, begin, end) && SoundFrom(blocks0, begin, end, h) && blocks0[h].cls > LAST_NONPTR_CLASS
      modifies this`blocks
      ensures Visiting(blocks0, blocks, begin, end, h, i + 1)
      ensures |blocks.Keys - Marks(blocks)| <= |old(blocks).Keys - Marks(old(blocks))|
      decreases |blocks.Keys - Marks(blocks)|, 2
    {
      VisitWord(blocks0, blocks, begin, end, h, i);
      ghost var blocks1 := blocks;
      var q := blocks[h].body[i];
      if LooksLikePointer(q, begin, end) && !blocks[q - HDR_SIZE].Marked() {
        var ok := Mark(q);
        assert ok && q != 0;
        VisitChild(blocks0, blocks1, blocks, begin, end, h, i);
        FewerUnmarked(blocks1, blocks);
      }
    }
  }

  lemma FewerUnmarked(blocks0: Blocks, blocks1: Blocks)
    requires MarksAdded(blocks0, blocks1)
    ensures |blocks1.Keys - Marks(blocks1)| <= |blocks0.Keys - Marks(blocks0)|
  {
    SmallerSet(blocks1.Keys - Marks(blocks1), blocks0.Keys - Marks(blocks0));
  }

  lemma {:induction false} SmallerSet(a: set<nat>, b: set<nat>)
    requires a <= b
    ensures |a| <= |b|
  {
    assert |b - a| + |a| == |b| by { assert b == (b - a) + a; }
  }
}
