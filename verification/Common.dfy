/** Bytes and 16-bit words, and how a word is cut into bytes. */
module Bytes {
  type Byte = n: nat | n < 256
  type Word = n: nat | n < 0x1_0000

  /** The high byte of a word, counted out. */
  function Hi(w: Word): (hi: Byte)
    ensures 256 * hi <= w
    decreases w
  {
    if w < 256 then 0 else Hi(w - 256) + 1
  }

  function Lo(w: Word): Byte
    decreases w
  {
    if w < 256 then w else Lo(w - 256)
  }

  function HiLo(hi: Byte, lo: Byte): Word { hi * 256 + lo }

  /** A number as 16 bits keep it. */
  function Wrap(x: int): Word
    decreases if x < 0 then 0x1_0000 - x else x
  {
    if x < 0 then Wrap(x + 0x1_0000) else if x < 0x1_0000 then x else Wrap(x - 0x1_0000)
  }

  lemma {:induction false} WrapIs(x: int)
    ensures Wrap(x) == x % 0x1_0000
    decreases if x < 0 then 0x1_0000 - x else x
  {
    if x < 0 {
      WrapIs(x + 0x1_0000);
      OnceAround(x);
    } else if x >= 0x1_0000 {
      WrapIs(x - 0x1_0000);
      OnceAround(x - 0x1_0000);
    }
  }

  lemma OnceAround(x: int)
    ensures (x + 0x1_0000) % 0x1_0000 == x % 0x1_0000
  {
    assert x + 0x1_0000 == 0x1_0000 * (x / 0x1_0000 + 1) + x % 0x1_0000;
  }

  lemma {:induction false} WordArrives(w: Word)
    ensures HiLo(Hi(w), Lo(w)) == w
    decreases w
  {
    if w >= 256 {
      WordArrives(w - 256);
    }
  }

  lemma {:induction false} LowByte(hi: Byte, lo: Byte)
    ensures Lo(HiLo(hi, lo)) == lo
    decreases hi
  {
    if hi > 0 {
      assert HiLo(hi, lo) - 256 == HiLo(hi - 1, lo);
      LowByte(hi - 1, lo);
    }
  }
}

module Sequences {
  datatype Option<T> = None | Some(value: T)

  function Concat<T>(pieces: seq<seq<T>>): seq<T> {
    if pieces == [] then [] else pieces[0] + Concat(pieces[1..])
  }

  lemma {:induction false} ConcatSnoc<T>(pieces: seq<seq<T>>, last: seq<T>)
    ensures Concat(pieces + [last]) == Concat(pieces) + last
  {
    if pieces == [] {
      assert Concat([last]) == last + Concat([last][1..]);
    } else {
      assert (pieces + [last])[1..] == pieces[1..] + [last];
      ConcatSnoc(pieces[1..], last);
      Reassociate(pieces[0], Concat(pieces[1..]), last);
    }
  }

  lemma Reassociate<T>(a: seq<T>, b: seq<T>, c: seq<T>)
    ensures (a + b) + c == a + (b + c)
  {
  }

  /** How often c stands at the end of s, without a break. */
  function FinalRun<T(==)>(s: seq<T>, c: T): (n: nat)
    ensures n <= |s|
  {
    if s == [] then 0 else var n := FinalRun(s[1..], c); if s[0] == c && n == |s| - 1 then n + 1 else n
  }

  predicate Odd(n: nat) { n > 0 && !Odd(n - 1) }

  /** A run that ends s lies behind anything else. */
  lemma {:induction false} RunBehind<T>(s: seq<T>, k: nat, c: T)
    requires k < |s| && s[k] != c
    ensures FinalRun(s, c) == FinalRun(s[k..], c)
    decreases k
  {
    if k == 0 {
      assert s[0..] == s;
    } else {
      assert s[1..][k - 1] == s[k] && s[1..][k - 1..] == s[k..];
      RunBehind(s[1..], k - 1, c);
      assert s[k..][1..] == s[k + 1..] && FinalRun(s[k..], c) < |s[k..]|;
    }
  }

  lemma OddEachOther(n: nat)
    ensures Odd(n + 2) <==> Odd(n)
  {
    assert Odd(n + 2) <==> !Odd(n + 1);
  }

  /** What an escaping c at the front escapes goes with it. */
  lemma EscapeKeepsParity<T>(s: seq<T>, c: T)
    requires |s| >= 2 && s[0] == c
    ensures Odd(FinalRun(s, c)) <==> Odd(FinalRun(s[2..], c))
  {
    var n := FinalRun(s[2..], c);
    assert s[1..][1..] == s[2..];
    assert FinalRun(s[1..], c) == (if s[1] == c && n == |s| - 2 then n + 1 else n);
    assert FinalRun(s, c) == n + 2 || FinalRun(s, c) == n;
    OddEachOther(n);
  }

  /** No element twice. */
  predicate Distinct<T(==)>(list: seq<T>) { forall i, j :: 0 <= i < j < |list| ==> list[i] != list[j] }
}
