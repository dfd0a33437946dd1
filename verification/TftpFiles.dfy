/** The daemon's side of fuse-tftp.c: the linked fragment list and the read cursors on it. */
module TftpFiles {
  import opened Bytes
  import opened Tftp
  import opened Sequences

  const CR: Byte := 13

  class Fragment {
    const data: seq<Byte>
    var next: Fragment?

    constructor (data: seq<Byte>)
      ensures this.data == data && next == null
    {
      this.data, next := data, null;
    }
  }

  /** The list rooted at FragRoot; `spine` is its nodes in order and `frags` their contents. */
  class FragList {
    var root: Fragment?
    ghost var spine: seq<Fragment>
    ghost var frags: seq<seq<Byte>>

    ghost predicate Valid()
      reads this, spine
    {
      && root == Node(0)
      && (forall i | 0 <= i < |spine| :: spine[i].next == Node(i + 1))
      && (forall i, j | 0 <= i < j < |spine| :: spine[i] != spine[j])
      && |frags| == |spine| && (forall i | 0 <= i < |spine| :: frags[i] == spine[i].data)
    }

    ghost function Node(i: nat): Fragment?
      reads this
    {
      if i < |spine| then spine[i] else null
    }

    constructor ()
      ensures Valid() && spine == [] && frags == []
    {
      root, spine, frags := null, [], [];
    }

    /** AppendToFragList: walk to the end and hang the fragment there. */
    method Append(frag: Fragment)
      requires Valid() && frag.next == null && frag !in spine
      modifies this, spine
      ensures Valid() && spine == old(spine) + [frag] && frags == old(frags) + [frag.data]
    {
      var p, pred: Fragment? := root, null;
      ghost var k := 0;
      while p != null
        invariant k <= |spine| && p == Node(k) && pred == if k == 0 then null else Node(k - 1)
        decreases |spine| - k
      {
        pred := p;
        p := p.next;
        k := k + 1;
      }
      assert k == |spine|;
      ghost var before := spine;
      if pred == null { root := frag; } else { pred.next := frag; }
      spine, frags := spine + [frag], frags + [frag.data];
      assert forall i | 0 <= i < |before| :: spine[i] == before[i];
    }

    /** SaveBytesToFragList. */
    method SaveBytes(data: seq<Byte>)
      requires Valid()
      modifies this, spine
      ensures Valid() && frags == Save(old(frags), data)
    {
      if data == [] { return; }
      var frag := new Fragment(data);
      Append(frag);
    }
  }

  /** TftpGet's receive loop, one packet at a time. */
  class Getter {
    const list: FragList
    var expectedBlock: Word
    var ended: bool

    ghost predicate Valid()
      reads this, list, list.spine
    {
      list.Valid()
    }

    ghost function View(): Receiver
      reads this, list
    {
      Receiver(expectedBlock, list.frags, ended)
    }

    constructor ()
      ensures Valid() && View() == INIT().rx && fresh(list)
    {
      list := new FragList();
      expectedBlock, ended := 1, false;
    }

    /** The TFTP_DATA case; the ack returned is what SendAck puts on the network. */
    method OnData(p: Packet) returns (acked: bool)
      requires Valid() && p.Data? && !ended
      modifies this, list, list.spine
      ensures Valid() && View() == Receive(old(View()), p)
      ensures acked <==> Accepts(old(View()), p)
    {
      if p.num != expectedBlock { return false; }
      acked := true;
      list.SaveBytes(p.data);
      if |p.data| < BLOCK {
        ended := true;
      } else {
        expectedBlock := Wrap(expectedBlock + 1);
      }
    }
  }

  // ----- Reading -----

  /** The fragments from the i-th on, joined. */
  function Rest(frags: seq<seq<Byte>>, i: nat): seq<Byte>
    requires i <= |frags|
    decreases |frags| - i
  {
    if i == |frags| then [] else frags[i] + Rest(frags, i + 1)
  }

  lemma {:induction false} RestIsConcat(frags: seq<seq<Byte>>, i: nat)
    requires i <= |frags|
    ensures Rest(frags, i) == Concat(frags[i..])
    decreases |frags| - i
  {
    if i < |frags| {
      assert frags[i..][1..] == frags[i + 1..];
      RestIsConcat(frags, i + 1);
    }
  }

  /** From the first fragment on, that is what the receiver saved. */
  lemma RestIsAll(frags: seq<seq<Byte>>)
    ensures Rest(frags, 0) == Concat(frags)
  {
    RestIsConcat(frags, 0);
    assert frags[0..] == frags;
  }

  /** What is left to read from `off` bytes into fragment i. */
  function LeftOf(frags: seq<seq<Byte>>, i: nat, off: nat): seq<Byte>
    requires i <= |frags| && off <= if i < |frags| then |frags[i]| else 0
  {
    if i == |frags| then [] else frags[i][off..] + Rest(frags, i + 1)
  }

  lemma LeftAdvance(frags: seq<seq<Byte>>, i: nat)
    requires i < |frags|
    ensures LeftOf(frags, i + 1, 0) == LeftOf(frags, i, |frags[i]|)
  {
    if i + 1 < |frags| { assert frags[i + 1][0..] == frags[i + 1]; }
  }

  lemma LeftTake(frags: seq<seq<Byte>>, i: nat, off: nat, n: nat)
    requires i < |frags| && off + n <= |frags[i]|
    ensures frags[i][off..off + n] + LeftOf(frags, i, off + n) == LeftOf(frags, i, off)
  {
    SliceJoin(frags[i], off, n);
    Reassociate(frags[i][off..off + n], frags[i][off + n..], Rest(frags, i + 1));
  }

  lemma SliceJoin(s: seq<Byte>, off: nat, n: nat)
    requires off + n <= |s|
    ensures s[off..off + n] + s[off + n..] == s[off..]
  {}

  /** No carriage return except perhaps as the last byte. */
  predicate OneLine(bytes: seq<Byte>) { forall i :: 0 <= i < |bytes| - 1 ==> bytes[i] != CR }

  predicate EndsLine(bytes: seq<Byte>) { bytes != [] && bytes[|bytes| - 1] == CR }

  lemma OneMore(bytes: seq<Byte>, c: Byte)
    requires OneLine(bytes) && !EndsLine(bytes)
    ensures OneLine(bytes + [c]) && (EndsLine(bytes + [c]) <==> c == CR)
  {}

  /** struct PathInfo: where an open path has got to. */
  class Cursor {
    const list: FragList
    var current: Fragment?
    var off: nat
    ghost var index: nat

    ghost predicate Valid()
      reads this, list, list.spine
    {
      && list.Valid() && index <= |list.spine| && current == list.Node(index)
      && off <= if index < |list.spine| then |list.spine[index].data| else 0
    }

    /** What has not been read yet. */
    ghost function Left(): seq<Byte>
      reads this, list, list.spine
      requires Valid()
    {
      LeftOf(list.frags, index, off)
    }

    constructor (list: FragList)
      requires list.Valid()
      ensures Valid() && this.list == list && Left() == Concat(list.frags)
    {
      this.list, current, off, index := list, list.root, 0, 0;
      new;
      RestIsAll(list.frags);
    }

    /** Skip to the next fragment when this one is used up. */
    method Advance()
      requires Valid() && current != null && off >= |current.data|
      modifies this
      ensures Valid() && Left() == old(Left()) && index == old(index) + 1
    {
      LeftAdvance(list.frags, index);
      current := current.next;
      off := 0;
      index := index + 1;
    }

    /** Consume n bytes of the current fragment. */
    method TakeBytes(n: nat) returns (bytes: seq<Byte>)
      requires Valid() && current != null && off + n <= |current.data|
      modifies this
      ensures Valid() && |bytes| == n && bytes + Left() == old(Left()) && index == old(index)
    {
      bytes := current.data[off..off + n];
      LeftTake(list.frags, index, off, n);
      off := off + n;
    }

    /** CopyBytesToBuffer for Read: one span of one fragment. */
    method Read(size: nat) returns (bytes: seq<Byte>)
      requires Valid()
      modifies this
      ensures Valid() && |bytes| <= size && bytes + Left() == old(Left())
      ensures bytes == [] <==> size == 0 || old(Left()) == []
    {
      bytes := [];
      var togo := size;
      while togo > 0
        invariant Valid() && Left() == old(Left()) && togo == size
        decreases |list.spine| - index
      {
        if current == null { return; }
        if off >= |current.data| { Advance(); continue; }
        var span := if togo < |current.data| - off then togo else |current.data| - off;
        bytes := TakeBytes(span);
        return;
      }
    }

    method TakeByte() returns (c: Byte)
      requires Valid() && current != null && off < |current.data|
      modifies this
      ensures Valid() && [c] + Left() == old(Left()) && index == old(index)
    {
      var one := TakeBytes(1);
      c := one[0];
      assert one == [c];
    }

    /** The next byte, from whichever fragment has it. */
    method NextByte() returns (got: bool, c: Byte)
      requires Valid()
      modifies this
      ensures Valid() && (got ==> [c] + Left() == old(Left())) && (!got ==> Left() == old(Left()) == [])
    {
      while current != null && off >= |current.data|
        invariant Valid() && Left() == old(Left())
        decreases |list.spine| - index
      {
        Advance();
      }
      if current == null { return false, 0; }
      c := TakeByte();
      got := true;
    }

    /** CopyBytesToBuffer for ReadLn: up to and including a carriage return, or `size` bytes, or
        the end. */
    method ReadLn(size: nat) returns (bytes: seq<Byte>)
      requires Valid()
      modifies this
      ensures Valid() && |bytes| <= size && bytes + Left() == old(Left())
      ensures OneLine(bytes)
      ensures |bytes| == size || Left() == [] || EndsLine(bytes)
    {
      bytes := [];
      ghost var start := Left();
      while |bytes| < size
        invariant Valid() && |bytes| <= size && bytes + Left() == start
        invariant OneLine(bytes) && !EndsLine(bytes)
      {
        var got, c := NextByte();
        if !got { return; }
        Reassociate(bytes, [c], Left());
        OneMore(bytes, c);
        bytes := bytes + [c];
        if c == CR { return; }
      }
    }
  }

  /** Any mix of Read and ReadLn with room for at least a byte: what they return, in order, is
      what was left of the file, up to what is left then; and they come to an end (DoRead's
      E_EOF) only when nothing is left. */
  method ReadAll(cursor: Cursor, choices: seq<bool>, size: nat) returns (all: seq<Byte>, eof: bool)
    requires cursor.Valid() && size > 0
    modifies cursor
    ensures cursor.Valid() && all + cursor.Left() == old(cursor.Left())
    ensures eof ==> cursor.Left() == []
    ensures !eof ==> |all| >= |choices|
  {
    all, eof := [], false;
    ghost var start := cursor.Left();
    for i := 0 to |choices|
      invariant cursor.Valid() && all + cursor.Left() == start && |all| >= i
    {
      var bytes := ReadOne(cursor, choices[i], size);
      if bytes == [] { return all, true; }
      Reassociate(all, bytes, cursor.Left());
      all := all + bytes;
    }
  }

  method ReadOne(cursor: Cursor, line: bool, size: nat) returns (bytes: seq<Byte>)
    requires cursor.Valid() && size > 0
    modifies cursor
    ensures cursor.Valid() && bytes + cursor.Left() == old(cursor.Left())
    ensures bytes == [] ==> cursor.Left() == []
  {
    if line { bytes := cursor.ReadLn(size); } else { bytes := cursor.Read(size); }
    assert bytes == [] ==> bytes + cursor.Left() == cursor.Left();
  }
}
