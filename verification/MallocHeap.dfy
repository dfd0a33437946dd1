/** Malloc, Free and ReAlloc of froblib/malloc.c over one heap. */
module MallocHeap {
  import opened Bytes
  import opened Malloc
  import opened Sequences

  /** A pointer; the program's panic; the 16-bit sum heap_here + cap + header wrapped, after
      which the source would hand out memory outside the heap; or ReAlloc's copy would run past
      the new block. */
  datatype Outcome = Pointer(p: nat) | Panic | Wrapped | Overrun

  /** p points at a live block of n's bucket, all zero, that was not live before; nothing else
      has changed. */
  ghost predicate Obtained(blocks0: Blocks, blocks1: Blocks, p: nat, n: Word) {
    && p >= HEAD && p - HEAD in blocks1
    && var h := p - HEAD;
    && Bucket(n) < NBUCKETS && blocks1[h].cap == |blocks1[h].data| == Cap(Bucket(n))
    && blocks1[h].data == Zeros(|blocks1[h].data|)
    && (h in blocks0 ==> blocks0[h].Free())
    && blocks1.Keys == blocks0.Keys + {h}
    && (forall g | g in blocks0 && g != h :: blocks1[g] == blocks0[g])
  }

  function Fresh(b: nat, next: nat): Block { Block(Cap(b), next, 'A', 'Z', Zeros(Cap(b))) }

  lemma FreshObtained(blocks0: Blocks, h: nat, b: nat, next: nat, n: Word)
    requires h in blocks0 ==> blocks0[h].Free()
    requires b == Bucket(n) < NBUCKETS
    ensures Obtained(blocks0, blocks0[h := Fresh(b, next)], h + HEAD, n)
  {}

  class Heap {
    const min: nat
    var here: nat
    var max: nat
    var retry: bool
    var blocks: Blocks
    var freelist: seq<nat>
    var numBrk: seq<nat>
    // Each bucket's free list, and the bucket of every block ever broken off, in order.
    ghost var lists: seq<seq<nat>>
    ghost var carved: seq<nat>

    ghost predicate Valid()
      reads this
    {
      && 0 < min <= here <= max < 0x1_0000
      && LayoutOk(min, here, carved, blocks)
      && BucketsOk(blocks, freelist, lists, numBrk)
    }

    constructor (min: nat, max: nat)
      requires 0 < min <= max < 0x1_0000
      ensures Valid() && !retry && blocks == map[] && this.min == min && here == min && this.max == max
    {
      this.min, here, this.max, retry, blocks := min, min, max, false, map[];
      freelist, numBrk := seq(NBUCKETS, _ => 0), seq(NBUCKETS, _ => 0);
      lists, carved := seq(NBUCKETS, _ => []), [];
      new;
      forall k | 0 <= k < NBUCKETS ensures BucketOk(blocks, k, freelist[k], lists[k], numBrk[k]) {
        assert Of(blocks, k) == {} && FreeOf(blocks, k) == {} && Members([]) == {};
      }
    }

    /** The request must be broken off fresh memory, which would then end at Brk. */
    ghost predicate MustBreak(n: Word)
      reads this
    {
      Bucket(n) < NBUCKETS && FreeOf(blocks, Bucket(n)) == {}
    }

    ghost function Brk(n: Word): nat
      reads this
    {
      here + Cap(Bucket(n)) + HEAD
    }

    /** Exactly when Malloc panics: too big a request, or no free block, no room for a new one,
        and no page or one not enough. */
    ghost predicate OutOfMemory(n: Word, granted: bool)
      reads this
    {
      || Bucket(n) == NBUCKETS
      || (MustBreak(n) && max < Brk(n) < 0x1_0000 &&
          (retry || !granted || max + PAGE >= 0x1_0000 || Brk(n) > max + PAGE))
    }

    ghost predicate Wraps(n: Word)
      reads this
    {
      MustBreak(n) && Brk(n) >= 0x1_0000
    }

    /** Malloc; granted is OS-9's answer should another page be asked for. */
    method Malloc(n: Word, granted: bool) returns (r: Outcome)
      requires Valid()
      modifies this
      ensures r.Panic? <==> old(OutOfMemory(n, granted))
      ensures r.Wrapped? <==> old(Wraps(n))
      ensures !r.Overrun?
      ensures r.Pointer? ==> Valid() && retry == old(retry) && Obtained(old(blocks), blocks, r.p, n)
      ensures !r.Pointer? ==> here == old(here) && freelist == old(freelist) && blocks == old(blocks)
      decreases if retry then 0 else 1
    {
      BucketHoldsRequest(n);
      var b, cap := WhichBucket(n);
      if b >= NBUCKETS { return Panic; }
      EmptyBucket(blocks, freelist, lists, numBrk, b);
      if freelist[b] != 0 {
        var p := Reuse(b, n);
        return Pointer(p);
      }
      BrkTestPasses(here, max, b);
      var newBrk := (here + cap + HEAD) % 0x1_0000;
      if newBrk > max {
        if retry { return Panic; }
        if !granted || max + PAGE >= 0x1_0000 { return Panic; }
        max := max + PAGE;
        retry := true;
        r := Malloc(n, granted);
        retry := false;
        return;
      }
      if here + cap + HEAD >= 0x1_0000 { return Wrapped; }
      var p := BreakFresh(b, n);
      r := Pointer(p);
    }

    /** An existing unused block. */
    method Reuse(b: nat, n: Word) returns (p: nat)
      requires Valid() && b == Bucket(n) < NBUCKETS && freelist[b] != 0
      modifies this`blocks, this`freelist, this`lists
      ensures Valid() && Obtained(old(blocks), blocks, p, n)
    {
      var h := freelist[b];
      HeadIsFree(blocks, freelist, lists, numBrk, b);
      BlockPlaced(min, here, carved, blocks, h);
      var next := blocks[h].next;
      var block := Fresh(b, next);
      FreshObtained(blocks, h, b, next, n);
      TakeBucket(blocks, freelist, lists, numBrk, b, block);
      UpdateLayout(min, here, carved, blocks, h, block);
      freelist := freelist[b := next];
      lists := lists[b := lists[b][1..]];
      blocks := blocks[h := block];
      p := h + HEAD;
    }

    /** Fresh memory at heap_here. */
    method BreakFresh(b: nat, n: Word) returns (p: nat)
      requires Valid() && b == Bucket(n) < NBUCKETS && here + Cap(b) + HEAD <= max
      modifies this`blocks, this`here, this`numBrk, this`carved
      ensures Valid() && Obtained(old(blocks), blocks, p, n) && p == old(here) + HEAD
    {
      var block := Fresh(b, 0);
      CarveLayout(min, here, carved, blocks, b, block);
      CarveBucket(blocks, freelist, lists, numBrk, b, here, block);
      FreshObtained(blocks, here, b, 0, n);
      p := here + HEAD;
      here, blocks, numBrk, carved :=
        here + HEAD + Cap(b), blocks[here := block], numBrk[b := numBrk[b] + 1], carved + [b];
    }

    /** Free: false is the double-free panic. */
    method Free(p: nat) returns (ok: bool)
      requires Valid() && (p != 0 ==> p >= HEAD && p - HEAD in blocks)
      modifies this`blocks, this`freelist, this`lists
      ensures ok <==> p == 0 || !old(blocks)[p - HEAD].Free()
      ensures Valid() && blocks.Keys == old(blocks).Keys
      ensures ok && p != 0 ==> blocks[p - HEAD].Free() && blocks[p - HEAD].data == Zeros(|old(blocks)[p - HEAD].data|)
      ensures forall g | g in blocks && !(ok && g + HEAD == p) :: blocks[g] == old(blocks)[g]
    {
      if p == 0 { return true; }
      var h := p - HEAD;
      if blocks[h].cap == 0 { return false; }
      BlockPlaced(min, here, carved, blocks, h);
      CapWord(blocks[h].data);
      var b, cap := WhichBucket(blocks[h].cap);
      CapBucket(blocks[h].cap);
      Release(h, b, Block(0, freelist[b], 'A', 'Z', Zeros(cap)));
      ok := true;
    }

    /** A live block becomes the first free one of its bucket. */
    method Release(h: nat, b: nat, block: Block)
      requires Valid() && h in blocks && !blocks[h].Free() && b < NBUCKETS && |blocks[h].data| == Cap(b)
      requires block == Block(0, freelist[b], 'A', 'Z', Zeros(Cap(b)))
      modifies this`blocks, this`freelist, this`lists
      ensures Valid() && blocks == old(blocks)[h := block]
    {
      BlockPlaced(min, here, carved, blocks, h);
      PushBucket(blocks, freelist, lists, numBrk, b, h, block);
      UpdateLayout(min, here, carved, blocks, h, block);
      blocks := blocks[h := block];
      lists := lists[b := [h] + lists[b]];
      freelist := freelist[b := h];
    }

    /** p's bytes now stand at the front of a new block of n's bucket, zeros after them; p is free,
        and nothing else has changed. */
    twostate predicate Relocated(p: nat, q: nat, n: Word)
      requires p >= HEAD && p - HEAD in old(blocks)
      reads this
    {
      && q >= HEAD && q != p && p - HEAD in blocks && q - HEAD in blocks
      && var from, to := old(blocks)[p - HEAD], blocks[q - HEAD];
      && Bucket(n) < NBUCKETS && |from.data| <= Cap(Bucket(n)) == to.cap
      && to.data == from.data + Zeros(to.cap - |from.data|)
      && blocks[p - HEAD].Free() && (q - HEAD in old(blocks) ==> old(blocks)[q - HEAD].Free())
      && blocks.Keys == old(blocks).Keys + {q - HEAD}
      && forall g | g in old(blocks) && g + HEAD != p && g + HEAD != q :: blocks[g] == old(blocks)[g]
    }

    /** ReAlloc of a live block, or of none, keeps its contents at the front of the block returned;
        the copy overruns exactly for requests of 32768 and up of a block of more than 8 bytes. */
    method ReAlloc(p: nat, n: Word, granted: bool) returns (r: Outcome)
      requires Valid() && (p != 0 ==> p >= HEAD && p - HEAD in blocks && !blocks[p - HEAD].Free())
      modifies this
      ensures r.Pointer? ==> Valid()
      ensures p == 0 ==> (r.Panic? <==> old(OutOfMemory(n, granted))) && (r.Wrapped? <==> old(Wraps(n))) && !r.Overrun?
      ensures p == 0 && r.Pointer? ==> Obtained(old(blocks), blocks, r.p, n)
      ensures p != 0 ==> (r == Pointer(p) <==> n <= old(blocks)[p - HEAD].cap)
      ensures p != 0 && r == Pointer(p) ==> blocks == old(blocks)
      ensures p != 0 && n > old(blocks)[p - HEAD].cap ==>
                && (r.Panic? <==> old(OutOfMemory(n, granted))) && (r.Wrapped? <==> old(Wraps(n)))
                && (r.Overrun? <==> !old(OutOfMemory(n, granted)) && !old(Wraps(n)) && n >= 0x8000 && old(blocks)[p - HEAD].cap > SMALLEST_BUCKET)
                && (r.Pointer? ==> Relocated(p, r.p, n))
    {
      if p == 0 { r := Malloc(n, granted); return; }
      var h := p - HEAD;
      BlockPlaced(min, here, carved, blocks, h);
      if n <= blocks[h].cap { return Pointer(p); }
      r := Grow(p, n, granted);
    }

    method Grow(p: nat, n: Word, granted: bool) returns (r: Outcome)
      requires Valid() && p >= HEAD && p - HEAD in blocks && !blocks[p - HEAD].Free()
      requires n > blocks[p - HEAD].cap == |blocks[p - HEAD].data| >= SMALLEST_BUCKET
      modifies this
      ensures r.Panic? <==> old(OutOfMemory(n, granted))
      ensures r.Wrapped? <==> old(Wraps(n))
      ensures r.Overrun? <==>
                !old(OutOfMemory(n, granted)) && !old(Wraps(n)) && n >= 0x8000 && old(blocks)[p - HEAD].cap > SMALLEST_BUCKET
      ensures r.Pointer? ==> Valid() && Relocated(p, r.p, n)
    {
      r := Malloc(n, granted);
      BucketHoldsRequest(n);
      if r.Pointer? {
        if Cap(Bucket(n)) < blocks[p - HEAD].cap { return Overrun; }
        CopyAndFree(p, r.p, n);
      }
    }

    method CopyAndFree(p: nat, q: nat, n: Word)
      requires Valid() && p >= HEAD && q >= HEAD && p != q && p - HEAD in blocks && q - HEAD in blocks
      requires !blocks[p - HEAD].Free() && Bucket(n) < NBUCKETS && |blocks[p - HEAD].data| <= Cap(Bucket(n)) == blocks[q - HEAD].cap
      requires blocks[q - HEAD].data == Zeros(Cap(Bucket(n)))
      modifies this`blocks, this`freelist, this`lists
      ensures Valid() && blocks.Keys == old(blocks).Keys
      ensures blocks[q - HEAD].cap == Cap(Bucket(n)) && blocks[p - HEAD].Free()
      ensures blocks[q - HEAD].data == old(blocks)[p - HEAD].data + Zeros(Cap(Bucket(n)) - |old(blocks)[p - HEAD].data|)
      ensures forall g | g in blocks && g + HEAD != p && g + HEAD != q :: blocks[g] == old(blocks)[g]
    {
      Copy(q - HEAD, p - HEAD);
      assert blocks[p - HEAD] == old(blocks)[p - HEAD];
      var _ := Free(p);
    }

    /** memcpy(z, p, h->cap). */
    method Copy(to: nat, from: nat)
      requires Valid() && to in blocks && from in blocks && to != from && !blocks[to].Free()
      requires |blocks[from].data| <= |blocks[to].data|
      modifies this`blocks
      ensures Valid() && to in blocks && blocks == old(blocks)[to := blocks[to]] && blocks[to].cap == old(blocks)[to].cap
      ensures blocks[to].data == blocks[from].data + old(blocks)[to].data[|blocks[from].data|..]
    {
      var block := blocks[to].(data := blocks[from].data + blocks[to].data[|blocks[from].data|..]);
      BlockPlaced(min, here, carved, blocks, to);
      UpdateLayout(min, here, carved, blocks, to, block);
      StoreBuckets(blocks, freelist, lists, numBrk, to, block);
      blocks := blocks[to := block];
    }
  }

  /** Storing into a live block disturbs no free list. */
  lemma StoreBuckets(blocks: Blocks, heads: seq<nat>, lists: seq<seq<nat>>, brk: seq<nat>, h: nat, block: Block)
    requires BucketsOk(blocks, heads, lists, brk) && h in blocks && !blocks[h].Free()
    requires block == blocks[h].(data := block.data) && |block.data| == |blocks[h].data|
    ensures BucketsOk(blocks[h := block], heads, lists, brk)
  {
    var blocks' := blocks[h := block];
    forall k | 0 <= k < NBUCKETS ensures BucketOk(blocks', k, heads[k], lists[k], brk[k]) {
      assert BucketOk(blocks, k, heads[k], lists[k], brk[k]);
      assert Of(blocks', k) == Of(blocks, k) && FreeOf(blocks', k) == FreeOf(blocks, k);
      ChainSame(blocks, blocks', heads[k], lists[k]);
    }
  }

  lemma CapWord(data: seq<Byte>)
    requires exists k :: 0 <= k < NBUCKETS && |data| == Cap(k)
    ensures 0 < |data| <= MAX_REQUEST
  {}

  /** A bucket's own capacity falls in that bucket. */
  lemma CapBucket(cap: Word)
    requires exists k :: 0 <= k < NBUCKETS && cap == Cap(k)
    ensures Bucket(cap) < NBUCKETS && Cap(Bucket(cap)) == cap
  {
    BucketHoldsRequest(cap);
    var k :| 0 <= k < NBUCKETS && cap == Cap(k);
    CapOrder(Bucket(cap), k);
  }

  lemma CapOrder(i: nat, j: nat)
    requires i < NBUCKETS && j < NBUCKETS
    ensures i < j <==> Cap(i) < Cap(j)
  {}

  lemma EmptyBucket(blocks: Blocks, heads: seq<nat>, lists: seq<seq<nat>>, brk: seq<nat>, b: nat)
    requires BucketsOk(blocks, heads, lists, brk) && b < NBUCKETS
    ensures heads[b] == 0 <==> FreeOf(blocks, b) == {}
  {
    assert BucketOk(blocks, b, heads[b], lists[b], brk[b]);
    if lists[b] != [] { assert lists[b][0] in Members(lists[b]); } else { assert Members(lists[b]) == {}; }
  }

  lemma HeadIsFree(blocks: Blocks, heads: seq<nat>, lists: seq<seq<nat>>, brk: seq<nat>, b: nat)
    requires BucketsOk(blocks, heads, lists, brk) && b < NBUCKETS && heads[b] != 0
    ensures heads[b] in blocks && blocks[heads[b]].Free() && |blocks[heads[b]].data| == Cap(b)
  {
    TakeBucket(blocks, heads, lists, brk, b, Block(1, 0, 'A', 'Z', Zeros(Cap(b))));
  }
}
