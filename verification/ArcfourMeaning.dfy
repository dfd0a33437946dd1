/** The key schedule and the key stream of the RC4 engine, step by step. */
module ArcfourMeaning {
  import opened Bytes
  import opened Arcfour

  // ----- The key schedule -----

  /** One table from another, the bytes at a and b changed about. */
  predicate Swapped(s: Table, t: Table, a: Byte, b: Byte) {
    t[a] == s[b] && t[b] == s[a] && forall i {:trigger t[i]} | 0 <= i < 256 && i != a && i != b :: t[i] == s[i]
  }

  /** Where the key is read at step k: it is gone through over and over. */
  function KeyPlace(key: seq<Byte>, k: nat): (i: nat)
    requires key != []
    ensures i < |key| && i <= k
  {
    if k == 0 || KeyPlace(key, k - 1) + 1 == |key| then 0 else KeyPlace(key, k - 1) + 1
  }

  /** Step k of the schedule. */
  predicate MixesAt(ts: seq<Table>, js: seq<Byte>, key: seq<Byte>, k: nat)
    requires |ts| == |js| == 257 && key != [] && k < 256
  {
    js[k + 1] == (js[k] + ts[k][k] + key[KeyPlace(key, k)]) % N && Swapped(ts[k], ts[k + 1], k, js[k + 1])
  }

  predicate Schedule(ts: seq<Table>, js: seq<Byte>, key: seq<Byte>)
    requires |ts| == |js| == 257 && key != []
  {
    js[0] == 0 && forall k {:trigger MixesAt(ts, js, key, k)} | 0 <= k < 256 :: MixesAt(ts, js, key, k)
  }

  lemma SwappedIsSwap(s: Table, t: Table, a: Byte, b: Byte)
    ensures Swapped(s, t, a, b) <==> t == Swap(s, a, b)
  {
    var u := Swap(s, a, b);
    assert u[b] == s[a] && u[a] == s[b];
    if Swapped(s, t, a, b) {
      forall i | 0 <= i < 256 ensures t[i] == u[i] {}
    }
  }

  lemma PlaceMoves(key: seq<Byte>, k: nat)
    requires key != [] && k < 255
    ensures NextIndex(key, KeyPlace(key, k)) == KeyPlace(key, k + 1)
  {
  }

  lemma MixStep(s: Table, t: Table, key: seq<Byte>, k: nat, i: nat, j: Byte, next: Byte)
    requires i < |key| && k < 256 && Swapped(s, t, k, next) && next == (j + s[k] + key[i]) % N
    ensures Mix(s, key, k, i, j) == Mix(t, key, k + 1, NextIndex(key, i), next)
  {
    SwappedIsSwap(s, t, k, next);
    AddTwice(key[i], s[k], j);
  }

  lemma AddTwice(a: Byte, b: Byte, c: Byte)
    ensures Add(Add(a, b), c) == (c + b + a) % N
  {
  }

  lemma {:induction false} MixFollows(ts: seq<Table>, js: seq<Byte>, key: seq<Byte>, k: nat)
    requires |ts| == |js| == 257 && key != [] && Schedule(ts, js, key) && k < 256
    ensures Mix(ts[k], key, k, KeyPlace(key, k), js[k]) == ts[256]
    decreases 256 - k
  {
    assert MixesAt(ts, js, key, k);
    MixStep(ts[k], ts[k + 1], key, k, KeyPlace(key, k), js[k], js[k + 1]);
    if k < 255 {
      PlaceMoves(key, k);
      MixFollows(ts, js, key, k + 1);
    }
  }

  /** The key schedule, of any key, is what mixing the key computes. */
  lemma MixesTheKey(ts: seq<Table>, js: seq<Byte>, key: seq<Byte>)
    requires |ts| == |js| == 257 && key != [] && Schedule(ts, js, key)
    ensures Mix(ts[0], key, 0, 0, 0) == ts[256]
  {
    MixFollows(ts, js, key, 0);
  }

  // ----- The key stream -----

  /** Turn i of the stream: the indexes move on, two bytes change about, and their sum picks one. */
  predicate TurnsAt(es: seq<State>, stream: seq<Byte>, i: nat)
    requires |es| == |stream| + 1 && i < |stream|
  {
    var e, f := es[i], es[i + 1];
    && f.x == (e.x + 1) % N && f.y == (e.y + e.table[f.x]) % N && Swapped(e.table, f.table, f.x, f.y)
    && stream[i] == f.table[(f.table[f.x] + f.table[f.y]) % N]
  }

  predicate Streams(es: seq<State>, stream: seq<Byte>)
    requires |es| == |stream| + 1
  {
    forall i {:trigger TurnsAt(es, stream, i)} | 0 <= i < |stream| :: TurnsAt(es, stream, i)
  }

  lemma TurnIs(es: seq<State>, stream: seq<Byte>, i: nat)
    requires |es| == |stream| + 1 && i < |stream| && TurnsAt(es, stream, i)
    ensures Turn(es[i]) == es[i + 1] && KeyByte(es[i]) == stream[i]
  {
    SwappedIsSwap(es[i].table, es[i + 1].table, es[i + 1].x, es[i + 1].y);
  }

  /** Each byte comes out as itself and the stream's byte, exclusive or, whatever the others are. */
  lemma {:induction false} CiphersWithStream(es: seq<State>, stream: seq<Byte>, buffer: seq<Byte>, k: nat, i: nat)
    requires |es| == |stream| + 1 == |buffer| + 1 && Streams(es, stream) && k <= i < |buffer|
    ensures Cipher(es[k], buffer[k..])[i - k] == Xor(buffer[i], stream[i])
    decreases i - k
  {
    assert TurnsAt(es, stream, k);
    TurnIs(es, stream, k);
    assert buffer[k..][1..] == buffer[k + 1..];
    if k < i { CiphersWithStream(es, stream, buffer, k + 1, i); }
  }

  /** The bit of a number at a place. */
  function Bit(n: nat, at: nat): nat { if at == 0 then n % 2 else Bit(n / 2, at - 1) }

  lemma {:induction false} XorBit(a: nat, b: nat, bits: nat, at: nat)
    requires at < bits
    ensures Bit(XorBits(a, b, bits), at) == (Bit(a, at) + Bit(b, at)) % 2
  {
    var r := XorBits(a / 2, b / 2, bits - 1);
    assert XorBits(a, b, bits) / 2 == r;
    if at > 0 { XorBit(a / 2, b / 2, bits - 1, at - 1); }
  }

  /** A cipher from one engine state on, byte by byte and bit by bit. */
  lemma CipherBits(es: seq<State>, stream: seq<Byte>, buffer: seq<Byte>, i: nat, at: nat)
    requires |es| == |stream| + 1 == |buffer| + 1 && Streams(es, stream) && i < |buffer| && at < 8
    ensures Bit(Cipher(es[0], buffer)[i], at) == (Bit(buffer[i], at) + Bit(stream[i], at)) % 2
  {
    assert buffer[0..] == buffer;
    CiphersWithStream(es, stream, buffer, 0, i);
    XorBit(buffer[i], stream[i], 8, at);
  }
}
