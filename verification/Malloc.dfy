/**
  The power-of-two allocator of froblib/malloc.c: twelve buckets of 8 to 16384 bytes, a
  free list for each, and fresh blocks broken off at heap_here.  Blocks are keyed by the
  address of their header; a caller's pointer is HEAD bytes further.
 */
module Malloc {
  import opened Bytes
  import opened Sequences

  const NBUCKETS: nat := 12
  const SMALLEST_BUCKET: nat := 8
  const MAX_REQUEST: nat := 16384
  const HEAD: nat := 6          // sizeof (struct MallocHead)
  const PAGE: nat := 0x2000

  /** Capacities double from bucket to bucket. */
  function Cap(b: nat): (c: nat)
    ensures c >= SMALLEST_BUCKET
    ensures b < NBUCKETS ==> c <= MAX_REQUEST
  {
    if b == 0 then 8 else if b == 1 then 16 else if b == 2 then 32 else if b == 3 then 64
    else if b == 4 then 128 else if b == 5 then 256 else if b == 6 then 512 else if b == 7 then 1024
    else if b == 8 then 2048 else if b == 9 then 4096 else if b == 10 then 8192 else 16384
  }

  /** A word passed as `int n`: 32768 and up turn negative. */
  function AsInt(n: Word): int { if n < 0x8000 then n else n - 0x1_0000 }

  /** Which bucket a request falls in; NBUCKETS stands for the panic. */
  function BucketFrom(n: int, b: nat): (r: nat)
    requires b <= NBUCKETS
    ensures b <= r <= NBUCKETS
    ensures r < NBUCKETS ==> n <= Cap(r)
    ensures forall j :: b <= j < r ==> Cap(j) < n
    decreases NBUCKETS - b
  {
    if b == NBUCKETS || n <= Cap(b) then b else BucketFrom(n, b + 1)
  }

  function Bucket(n: Word): nat { BucketFrom(AsInt(n), 0) }

  /** which_bucket, with its doubling loop. */
  method WhichBucket(n: Word) returns (b: nat, cap: nat)
    ensures b == Bucket(n) && (b < NBUCKETS ==> cap == Cap(b))
  {
    b, cap := 0, SMALLEST_BUCKET;
    while b < NBUCKETS
      invariant b <= NBUCKETS && (b < NBUCKETS ==> cap == Cap(b))
      invariant Bucket(n) == BucketFrom(AsInt(n), b)
    {
      if AsInt(n) <= cap { break; }
      cap := cap + cap;
      b := b + 1;
    }
  }

  /** A request gets a bucket that holds it exactly when it is at most 16384 bytes: larger ones
      panic up to 32767, and from 32768 on are given 8 bytes. */
  lemma BucketHoldsRequest(n: Word)
    ensures Bucket(n) < NBUCKETS && n <= Cap(Bucket(n)) <==> n <= MAX_REQUEST
    ensures Bucket(n) == NBUCKETS <==> MAX_REQUEST < n < 0x8000
    ensures n >= 0x8000 ==> Bucket(n) == 0
  {
    if Bucket(n) == NBUCKETS { assert Cap(NBUCKETS - 1) < AsInt(n); }
  }

  /** And it is the smallest such bucket: a request over 8 bytes wastes less than half of it. */
  lemma BucketIsTight(n: Word)
    requires SMALLEST_BUCKET < n <= MAX_REQUEST
    ensures Cap(Bucket(n)) < 2 * n
  {
    var b := Bucket(n);
    BucketHoldsRequest(n);
    assert b > 0 && Cap(b) == 2 * Cap(b - 1);
  }

  /** A block: its header's cap (0 when free) and next, its two barriers, and its bytes. */
  datatype Block = Block(cap: nat, next: nat, barrierA: char, barrierZ: char, data: seq<Byte>) {
    predicate Free() { cap == 0 }
    predicate Intact() { barrierA == 'A' && barrierZ == 'Z' && (cap != 0 ==> cap == |data|) }
  }

  type Blocks = map<nat, Block>

  function Zeros(n: nat): (r: seq<Byte>)
    ensures |r| == n
  {
    seq(n, _ => 0)
  }

  // ----- Layout -----

  /** Bytes taken by blocks of these buckets, headers included. */
  function Footprint(carved: seq<nat>): nat {
    if carved == [] then 0 else Footprint(carved[..|carved| - 1]) + Cap(carved[|carved| - 1]) + HEAD
  }

  /** The header address of the i-th block ever broken off. */
  function Place(min: nat, carved: seq<nat>, i: nat): nat
    requires i <= |carved|
  {
    min + Footprint(carved[..i])
  }

  lemma {:induction false} PlacesApart(min: nat, carved: seq<nat>, i: nat, j: nat)
    requires i < j <= |carved|
    ensures Place(min, carved, i) + HEAD + Cap(carved[i]) <= Place(min, carved, j)
    decreases j
  {
    assert carved[..j][..j - 1] == carved[..j - 1];
    if i < j - 1 { PlacesApart(min, carved, i, j - 1); }
  }

  /** The blocks are exactly those ever broken off, each where it was put, with its capacity. */
  ghost predicate LayoutOk(min: nat, here: nat, carved: seq<nat>, blocks: Blocks) {
    && here == min + Footprint(carved)
    && (forall k | 0 <= k < |carved| :: carved[k] < NBUCKETS)
    && (forall i {:trigger PlacedOk(min, carved, blocks, i)} | 0 <= i < |carved| :: PlacedOk(min, carved, blocks, i))
    && (forall h {:trigger Carved(min, carved, h)} | h in blocks :: Carved(min, carved, h))
  }

  ghost predicate PlacedOk(min: nat, carved: seq<nat>, blocks: Blocks, i: nat)
    requires i < |carved|
  {
    var h := Place(min, carved, i); h in blocks && blocks[h].Intact() && |blocks[h].data| == Cap(carved[i])
  }

  ghost predicate Carved(min: nat, carved: seq<nat>, h: nat) {
    exists i :: 0 <= i < |carved| && h == Place(min, carved, i)
  }

  /** Every block lies in heap_min..heap_here, intact, with the capacity of its bucket. */
  lemma BlockPlaced(min: nat, here: nat, carved: seq<nat>, blocks: Blocks, h: nat)
    requires LayoutOk(min, here, carved, blocks) && h in blocks
    ensures min <= h && h + HEAD + |blocks[h].data| <= here && blocks[h].Intact()
    ensures exists k :: 0 <= k < NBUCKETS && |blocks[h].data| == Cap(k)
  {
    assert Carved(min, carved, h);
    var i :| 0 <= i < |carved| && h == Place(min, carved, i);
    assert PlacedOk(min, carved, blocks, i);
    PlacesApart(min, carved, i, |carved|);
    assert carved[..|carved|] == carved;
    assert carved[i] < NBUCKETS;
  }

  /** No two blocks overlap. */
  lemma BlocksDisjoint(min: nat, here: nat, carved: seq<nat>, blocks: Blocks, g: nat, h: nat)
    requires LayoutOk(min, here, carved, blocks) && g in blocks && h in blocks && g < h
    ensures g + HEAD + |blocks[g].data| <= h
  {
    assert Carved(min, carved, g) && Carved(min, carved, h);
    var i :| 0 <= i < |carved| && g == Place(min, carved, i);
    var j :| 0 <= j < |carved| && h == Place(min, carved, j);
    assert PlacedOk(min, carved, blocks, i);
    if i < j { PlacesApart(min, carved, i, j); } else if j < i { PlacesApart(min, carved, j, i); }
  }

  /** Breaking off one more block. */
  lemma CarveLayout(min: nat, here: nat, carved: seq<nat>, blocks: Blocks, b: nat, block: Block)
    requires LayoutOk(min, here, carved, blocks) && b < NBUCKETS
    requires block.Intact() && |block.data| == Cap(b)
    ensures here !in blocks
    ensures LayoutOk(min, here + HEAD + Cap(b), carved + [b], blocks[here := block])
  {
    if here in blocks { BlockPlaced(min, here, carved, blocks, here); assert false; }
    var carved', blocks' := carved + [b], blocks[here := block];
    assert carved'[..|carved|] == carved && carved'[..|carved'|] == carved';
    forall i | 0 <= i < |carved| ensures carved'[..i] == carved[..i] {}
    forall i | 0 <= i < |carved'| ensures PlacedOk(min, carved', blocks', i) {
      if i < |carved| { assert PlacedOk(min, carved, blocks, i); }
    }
    forall h | h in blocks' ensures Carved(min, carved', h) {
      if h == here {
        assert h == Place(min, carved', |carved|);
      } else {
        assert Carved(min, carved, h);
        var i :| 0 <= i < |carved| && h == Place(min, carved, i);
        assert h == Place(min, carved', i);
      }
    }
  }

  lemma UpdateLayout(min: nat, here: nat, carved: seq<nat>, blocks: Blocks, h: nat, block: Block)
    requires LayoutOk(min, here, carved, blocks) && h in blocks
    requires block.Intact() && |block.data| == |blocks[h].data|
    ensures LayoutOk(min, here, carved, blocks[h := block])
  {
    var blocks' := blocks[h := block];
    forall i | 0 <= i < |carved| ensures PlacedOk(min, carved, blocks', i) { assert PlacedOk(min, carved, blocks, i); }
    forall g | g in blocks' ensures Carved(min, carved, g) { assert Carved(min, carved, g); }
  }

  // ----- Free lists -----

  ghost predicate Chain(blocks: Blocks, head: nat, list: seq<nat>)
    decreases |list|
  {
    if list == [] then head == 0
    else head == list[0] && head != 0 && head in blocks && Chain(blocks, blocks[head].next, list[1..])
  }

  lemma {:induction false} ChainSame(blocks: Blocks, blocks': Blocks, head: nat, list: seq<nat>)
    requires Chain(blocks, head, list)
    requires forall h | h in list && h in blocks :: h in blocks' && blocks'[h].next == blocks[h].next
    ensures Chain(blocks', head, list)
    decreases |list|
  {
    if list != [] { ChainSame(blocks, blocks', blocks[head].next, list[1..]); }
  }

  function Members(list: seq<nat>): (r: set<nat>)
    ensures forall h :: h in r <==> h in list
  {
    set h | h in list
  }

  /** The blocks of bucket k, all of them and the free ones. */
  ghost function Of(blocks: Blocks, k: nat): set<nat> { set h | h in blocks && |blocks[h].data| == Cap(k) }
  ghost function FreeOf(blocks: Blocks, k: nat): set<nat> { set h | h in Of(blocks, k) && blocks[h].Free() }
  ghost function LiveOf(blocks: Blocks, k: nat): set<nat> { set h | h in Of(blocks, k) && !blocks[h].Free() }

  /** Bucket k's list holds exactly its free blocks, each once, and buck_num_brk counts them all. */
  ghost predicate BucketOk(blocks: Blocks, k: nat, head: nat, list: seq<nat>, brk: nat) {
    && Chain(blocks, head, list) && Distinct(list)
    && Members(list) == FreeOf(blocks, k)
    && brk == |Of(blocks, k)|
  }

  ghost predicate BucketsOk(blocks: Blocks, heads: seq<nat>, lists: seq<seq<nat>>, brk: seq<nat>) {
    && |heads| == |lists| == |brk| == NBUCKETS
    && forall k {:trigger BucketOk(blocks, k, heads[k], lists[k], brk[k])} | 0 <= k < NBUCKETS ::
         BucketOk(blocks, k, heads[k], lists[k], brk[k])
  }

  lemma {:induction false} DistinctSize(list: seq<nat>)
    requires Distinct(list)
    ensures |Members(list)| == |list|
    decreases |list|
  {
    if list != [] {
      var tail := list[1..];
      forall i, j | 0 <= i < j < |tail| ensures tail[i] != tail[j] { assert tail[i] == list[i + 1] && tail[j] == list[j + 1]; }
      DistinctSize(tail);
      assert list == [list[0]] + tail;
      assert list[0] !in tail;
      assert Members(list) == Members(tail) + {list[0]};
    }
  }

  /** buck_num_brk is the live blocks plus the length of the free list. */
  lemma BrkCounts(blocks: Blocks, k: nat, head: nat, list: seq<nat>, brk: nat)
    requires BucketOk(blocks, k, head, list, brk)
    ensures brk == |LiveOf(blocks, k)| + |list|
  {
    DistinctSize(list);
    assert Of(blocks, k) == LiveOf(blocks, k) + FreeOf(blocks, k);
    assert LiveOf(blocks, k) !! FreeOf(blocks, k);
  }

  lemma CapsDiffer(j: nat, k: nat)
    requires j < NBUCKETS && k < NBUCKETS && j != k
    ensures Cap(j) != Cap(k)
  {}

  /** Taking the first free block of bucket b. */
  lemma TakeBucket(blocks: Blocks, heads: seq<nat>, lists: seq<seq<nat>>, brk: seq<nat>, b: nat, block: Block)
    requires BucketsOk(blocks, heads, lists, brk) && b < NBUCKETS && heads[b] != 0
    requires !block.Free() && |block.data| == Cap(b)
    ensures var h := heads[b];
            && h in blocks && blocks[h].Free() && |blocks[h].data| == Cap(b) && lists[b] != []
            && BucketsOk(blocks[h := block], heads[b := blocks[h].next], lists[b := lists[b][1..]], brk)
  {
    assert BucketOk(blocks, b, heads[b], lists[b], brk[b]);
    var h := heads[b];
    assert lists[b][0] in Members(lists[b]);
    var blocks' := blocks[h := block];
    var heads', lists' := heads[b := blocks[h].next], lists[b := lists[b][1..]];
    forall k | 0 <= k < NBUCKETS ensures BucketOk(blocks', k, heads'[k], lists'[k], brk[k]) {
      assert BucketOk(blocks, k, heads[k], lists[k], brk[k]);
      assert Of(blocks', k) == Of(blocks, k);
      if k == b {
        assert lists[b] == [h] + lists'[b];
        assert Members(lists'[b]) == Members(lists[b]) - {h};
        assert FreeOf(blocks', b) == FreeOf(blocks, b) - {h};
      } else {
        CapsDiffer(k, b);
        assert FreeOf(blocks', k) == FreeOf(blocks, k);
        assert h !in FreeOf(blocks, k);
      }
      forall g | g in lists'[k] ensures g != h {
        if k == b { assert lists[b] == [h] + lists'[b]; } else { assert g in Members(lists[k]); }
      }
      ChainSame(blocks, blocks', heads'[k], lists'[k]);
    }
  }

  /** Putting a live block of bucket b at the front of its list. */
  lemma PushBucket(blocks: Blocks, heads: seq<nat>, lists: seq<seq<nat>>, brk: seq<nat>, b: nat, h: nat, block: Block)
    requires BucketsOk(blocks, heads, lists, brk) && b < NBUCKETS
    requires h in blocks && h != 0 && !blocks[h].Free() && |blocks[h].data| == Cap(b)
    requires block.Free() && |block.data| == Cap(b) && block.next == heads[b]
    ensures BucketsOk(blocks[h := block], heads[b := h], lists[b := [h] + lists[b]], brk)
  {
    var blocks' := blocks[h := block];
    var heads', lists' := heads[b := h], lists[b := [h] + lists[b]];
    forall k | 0 <= k < NBUCKETS ensures BucketOk(blocks', k, heads'[k], lists'[k], brk[k]) {
      assert BucketOk(blocks, k, heads[k], lists[k], brk[k]);
      assert Of(blocks', k) == Of(blocks, k);
      assert forall g | g in lists[k] :: g in Members(lists[k]) && g != h;
      ChainSame(blocks, blocks', heads[k], lists[k]);
      if k == b {
        assert lists'[b][1..] == lists[b];
        assert FreeOf(blocks', b) == FreeOf(blocks, b) + {h};
      } else {
        CapsDiffer(k, b);
        assert FreeOf(blocks', k) == FreeOf(blocks, k);
      }
    }
  }

  /** A fresh live block of bucket b. */
  lemma CarveBucket(blocks: Blocks, heads: seq<nat>, lists: seq<seq<nat>>, brk: seq<nat>, b: nat, h: nat, block: Block)
    requires BucketsOk(blocks, heads, lists, brk) && b < NBUCKETS
    requires h !in blocks && !block.Free() && |block.data| == Cap(b)
    ensures BucketsOk(blocks[h := block], heads, lists, brk[b := brk[b] + 1])
  {
    var blocks', brk' := blocks[h := block], brk[b := brk[b] + 1];
    forall k | 0 <= k < NBUCKETS ensures BucketOk(blocks', k, heads[k], lists[k], brk'[k]) {
      assert BucketOk(blocks, k, heads[k], lists[k], brk[k]);
      assert FreeOf(blocks', k) == FreeOf(blocks, k);
      assert forall g | g in lists[k] :: g in Members(lists[k]);
      ChainSame(blocks, blocks', heads[k], lists[k]);
      if k == b { assert Of(blocks', k) == Of(blocks, k) + {h}; } else {
        CapsDiffer(k, b);
        assert Of(blocks', k) == Of(blocks, k);
      }
    }
  }

  /** The 16-bit test `new_brk > heap_max` lets a request through exactly when it fits or when
      the sum wrapped around 64K. */
  lemma BrkTestPasses(here: nat, max: nat, b: nat)
    requires here <= max < 0x1_0000 && b < NBUCKETS
    ensures (here + Cap(b) + HEAD) % 0x1_0000 <= max <==>
            here + Cap(b) + HEAD <= max || here + Cap(b) + HEAD >= 0x1_0000
  {
    var sum := here + Cap(b) + HEAD;
    if sum >= 0x1_0000 { assert sum % 0x1_0000 == sum - 0x1_0000 <= max; }
  }
}
