/** The RC4 engine: its state stays a permutation, and ciphering is its own inverse and may be done
    in pieces. */
module Arcfour {
  import opened Bytes
  import opened Sequences

  const N: nat := 256

  // ----- The engine as a value -----

  type Table = s: seq<Byte> | |s| == N witness Identity()

  datatype State = State(table: Table, x: Byte, y: Byte)

  function Identity(): (s: seq<Byte>)
    ensures |s| == N
  {
    seq(N, i requires 0 <= i < N => i)
  }

  predicate Permutation(s: Table) { multiset(s) == multiset(Identity()) }

  function Add(a: Byte, b: Byte): Byte { (a + b) % N }

  function Limit(bits: nat): (r: nat)
    ensures r > 0
  {
    if bits == 0 then 1 else 2 * Limit(bits - 1)
  }

  /** Exclusive or, bit by bit. */
  function XorBits(a: nat, b: nat, bits: nat): (r: nat)
    ensures r < Limit(bits)
  {
    if bits == 0 then 0 else 2 * XorBits(a / 2, b / 2, bits - 1) + if a % 2 == b % 2 then 0 else 1
  }

  function Xor(a: Byte, b: Byte): Byte {
    assert Limit(8) == 256 by { assert Limit(4) == 16 && Limit(6) == 64; }
    XorBits(a, b, 8)
  }

  lemma {:induction false} XorBitsTwice(a: nat, b: nat, bits: nat)
    requires a < Limit(bits)
    ensures XorBits(XorBits(a, b, bits), b, bits) == a
  {
    if bits > 0 {
      XorBitsTwice(a / 2, b / 2, bits - 1);
    }
  }

  lemma XorTwice(a: Byte, b: Byte)
    ensures Xor(Xor(a, b), b) == a
  {
    assert Limit(8) == 256 by { assert Limit(4) == 16 && Limit(6) == 64; }
    XorBitsTwice(a, b, 8);
  }

  function Swap(s: Table, a: Byte, b: Byte): Table { s[a := s[b]][b := s[a]] }

  /** rc4_mix_key from counter on. */
  function Mix(s: Table, key: seq<Byte>, counter: nat, index1: nat, index2: Byte): Table
    requires index1 < |key| && counter <= N
    decreases N - counter
  {
    if counter == N then s
    else
      var j := Add(Add(key[index1], s[counter]), index2);
      Mix(Swap(s, counter, j), key, counter + 1, NextIndex(key, index1), j)
  }

  /** An unsigned char that starts again at the end of the key. */
  function NextIndex(key: seq<Byte>, i: nat): nat
    requires i < |key|
  {
    var n := (i + 1) % 256;
    if n >= |key| then 0 else n
  }

  /** One turn of rc4: the engine after it, and the byte of the key stream. */
  function Turn(e: State): State {
    var x := Add(e.x, 1);
    var y := Add(e.table[x], e.y);
    State(Swap(e.table, x, y), x, y)
  }

  function KeyByte(e: State): Byte {
    var t := Turn(e);
    t.table[Add(t.table[t.x], t.table[t.y])]
  }

  function Engine(e: State, n: nat): State
    decreases n
  {
    if n == 0 then e else Engine(Turn(e), n - 1)
  }

  function Cipher(e: State, buffer: seq<Byte>): (r: seq<Byte>)
    ensures |r| == |buffer|
    decreases |buffer|
  {
    if buffer == [] then [] else [Xor(buffer[0], KeyByte(e))] + Cipher(Turn(e), buffer[1..])
  }

  // ----- The engine as the source keeps it -----

  class Rc4Engine {
    const state: array<Byte>
    var x: Byte
    var y: Byte

    ghost predicate Valid() { state.Length == N }

    ghost function Now(): State
      requires Valid()
      reads this, state
    {
      State(state[..], x, y)
    }

    constructor ()
      ensures Valid() && fresh(state) && Now() == State(Identity(), 0, 0)
    {
      state := new Byte[N](_ => 0);
      x, y := 0, 0;
      new;
      Init();
    }

    method SwapByte(a: Byte, b: Byte)
      requires Valid()
      modifies state
      ensures state[..] == Swap(old(state[..]), a, b)
    {
      var swapByte := state[a];
      state[a] := state[b];
      state[b] := swapByte;
    }

    method Init()
      requires Valid()
      modifies this, state
      ensures Now() == State(Identity(), 0, 0)
    {
      for counter := 0 to N
        invariant forall k :: 0 <= k < counter ==> state[k] == k
      {
        state[counter] := counter;
      }
      assert state[..] == Identity();
      x, y := 0, 0;
    }

    method MixKey(key: seq<Byte>)
      requires Valid() && key != []
      modifies state
      ensures Now() == old(Now()).(table := Mix(old(state[..]), key, 0, 0, 0))
    {
      var index1: nat, index2: Byte := 0, 0;
      for counter := 0 to N
        invariant index1 < |key|
        invariant Mix(state[..], key, counter, index1, index2) == Mix(old(state[..]), key, 0, 0, 0)
      {
        index2 := Add(Add(key[index1], state[counter]), index2);
        SwapByte(counter, index2);
        index1 := NextIndex(key, index1);
      }
    }

    method Rc4(buffer: array<Byte>)
      requires Valid() && buffer != state
      modifies this, state, buffer
      ensures buffer[..] == Cipher(old(Now()), old(buffer[..]))
      ensures Now() == Engine(old(Now()), buffer.Length)
    {
      ghost var e, all := Now(), buffer[..];
      for counter := 0 to buffer.Length
        invariant Now() == Engine(e, counter)
        invariant buffer[..] == Cipher(e, all[..counter]) + all[counter..]
      {
        ghost var before, done := Now(), Cipher(e, all[..counter]);
        EngineStep(e, counter);
        CipherStep(e, all, counter);
        OneByteMore(buffer[..], done, all, counter, Xor(all[counter], KeyByte(before)));
        x := Add(x, 1);
        y := Add(state[x], y);
        SwapByte(x, y);
        assert Now() == Turn(before);
        buffer[counter] := Xor(buffer[counter], state[Add(state[x], state[y])]);
      }
      assert all[..|all|] == all;
    }
  }

  // ----- What holds of it -----

  lemma {:induction false} EngineStep(e: State, n: nat)
    ensures Engine(e, n + 1) == Turn(Engine(e, n))
    decreases n
  {
    if n > 0 {
      EngineStep(Turn(e), n - 1);
    }
  }

  lemma OneByteMore(buffer: seq<Byte>, done: seq<Byte>, all: seq<Byte>, n: nat, b: Byte)
    requires |done| == n < |all| && buffer == done + all[n..]
    ensures buffer[n] == all[n] && buffer[n := b] == (done + [b]) + all[n + 1..]
  {
  }

  lemma CipherStep(e: State, all: seq<Byte>, n: nat)
    requires n < |all|
    ensures Cipher(e, all[..n + 1]) == Cipher(e, all[..n]) + [Xor(all[n], KeyByte(Engine(e, n)))]
  {
    CipherInPieces(e, all[..n], [all[n]]);
    assert all[..n + 1] == all[..n] + [all[n]];
    ghost var f := Engine(e, n);
    assert Cipher(f, [all[n]]) == [Xor(all[n], KeyByte(f))] + Cipher(Turn(f), []);
  }

  lemma SwapPermutes(s: Table, a: Byte, b: Byte)
    ensures multiset(Swap(s, a, b)) == multiset(s)
  {
  }

  lemma {:induction false} MixPermutes(s: Table, key: seq<Byte>, counter: nat, index1: nat, index2: Byte)
    requires index1 < |key| && counter <= N
    ensures multiset(Mix(s, key, counter, index1, index2)) == multiset(s)
    decreases N - counter
  {
    if counter < N {
      var j := Add(Add(key[index1], s[counter]), index2);
      SwapPermutes(s, counter, j);
      MixPermutes(Swap(s, counter, j), key, counter + 1, NextIndex(key, index1), j);
    }
  }

  lemma {:induction false} EnginePermutes(e: State, n: nat)
    ensures multiset(Engine(e, n).table) == multiset(e.table)
    decreases n
  {
    if n > 0 {
      var x := Add(e.x, 1);
      SwapPermutes(e.table, x, Add(e.table[x], e.y));
      EnginePermutes(Turn(e), n - 1);
    }
  }

  /** The calls a program makes. */
  datatype Call = Init | MixKey(key: seq<Byte>) | Rc4(length: nat)

  predicate CallOk(c: Call) { c.MixKey? ==> c.key != [] }

  function Next(e: State, c: Call): State
    requires CallOk(c)
  {
    match c
    case Init => State(Identity(), 0, 0)
    case MixKey(key) => e.(table := Mix(e.table, key, 0, 0, 0))
    case Rc4(n) => Engine(e, n)
  }

  function Called(e: State, calls: seq<Call>): State
    requires forall i {:trigger CallOk(calls[i])} :: 0 <= i < |calls| ==> CallOk(calls[i])
    decreases |calls|
  {
    if calls == [] then e else assert CallOk(calls[0]); Called(Next(e, calls[0]), calls[1..])
  }

  lemma NextPermutes(e: State, c: Call)
    requires CallOk(c) && Permutation(e.table)
    ensures Permutation(Next(e, c).table)
  {
    match c
    case Init =>
    case MixKey(key) => MixPermutes(e.table, key, 0, 0, 0);
    case Rc4(n) => EnginePermutes(e, n);
  }

  /** After any calls the state is a permutation of 0..255. */
  lemma {:induction false} AlwaysAPermutation(e: State, calls: seq<Call>)
    requires Permutation(e.table) && forall i {:trigger CallOk(calls[i])} :: 0 <= i < |calls| ==> CallOk(calls[i])
    ensures Permutation(Called(e, calls).table)
    decreases |calls|
  {
    if calls != [] {
      assert CallOk(calls[0]);
      NextPermutes(e, calls[0]);
      AlwaysAPermutation(Next(e, calls[0]), calls[1..]);
    }
  }

  /** So every byte is in the table, and in one place. */
  lemma EachByteOnce(s: Table, b: Byte)
    requires Permutation(s)
    ensures b in s && forall i, j :: 0 <= i < N && 0 <= j < N && s[i] == b && s[j] == b ==> i == j
  {
    assert Identity()[b] == b;
    assert b in multiset(Identity());
    forall i, j | 0 <= i < j < N && s[i] == b && s[j] == b ensures false {
      TwiceIsTwo(s, i, j);
      OnceInIdentity(b);
    }
  }

  lemma TwiceIsTwo(s: Table, i: nat, j: nat)
    requires i < j < N && s[i] == s[j]
    ensures multiset(s)[s[i]] >= 2
  {
    assert s == s[..i] + [s[i]] + s[i + 1..j] + [s[j]] + s[j + 1..];
  }

  lemma OnceInIdentity(b: Byte)
    ensures multiset(Identity())[b] == 1
  {
    var s, n := Identity(), b;
    assert s == s[..n] + [s[n]] + s[n + 1..];
    assert b !in s[..n] && b !in s[n + 1..];
  }

  lemma CipherFirst(e: State, b: Byte, rest: seq<Byte>, k: Byte, next: State)
    requires k == KeyByte(e) && next == Turn(e)
    ensures Cipher(e, [b] + rest) == [Xor(b, k)] + Cipher(next, rest)
  {
    assert ([b] + rest)[1..] == rest;
  }

  /** Ciphering twice from equal engines gives the buffer back. */
  lemma {:induction false} CipherIsItsInverse(e: State, buffer: seq<Byte>)
    ensures Cipher(e, Cipher(e, buffer)) == buffer
    decreases |buffer|
  {
    if buffer != [] {
      var k, next, rest := KeyByte(e), Turn(e), buffer[1..];
      assert buffer == [buffer[0]] + rest;
      CipherFirst(e, buffer[0], rest, k, next);
      CipherFirst(e, Xor(buffer[0], k), Cipher(next, rest), k, next);
      CipherIsItsInverse(next, rest);
      XorTwice(buffer[0], k);
    }
  }

  /** A buffer ciphered in two pieces comes out as ciphered whole. */
  lemma {:induction false} CipherInPieces(e: State, first: seq<Byte>, second: seq<Byte>)
    ensures Cipher(e, first + second) == Cipher(e, first) + Cipher(Engine(e, |first|), second)
    decreases |first|
  {
    if first == [] {
      assert first + second == second;
    } else {
      var k, next, rest := KeyByte(e), Turn(e), first[1..];
      assert first == [first[0]] + rest && first + second == [first[0]] + (rest + second);
      CipherFirst(e, first[0], rest, k, next);
      CipherFirst(e, first[0], rest + second, k, next);
      CipherInPieces(next, rest, second);
      Reassociate([Xor(first[0], k)], Cipher(next, rest), Cipher(Engine(next, |rest|), second));
    }
  }

  /** And so does the engine. */
  lemma {:induction false} EngineInPieces(e: State, m: nat, n: nat)
    ensures Engine(e, m + n) == Engine(Engine(e, m), n)
    decreases m
  {
    if m > 0 {
      EngineInPieces(Turn(e), m - 1, n);
    }
  }

  function CipherEach(e: State, pieces: seq<seq<Byte>>): seq<Byte>
    decreases |pieces|
  {
    if pieces == [] then [] else Cipher(e, pieces[0]) + CipherEach(Engine(e, |pieces[0]|), pieces[1..])
  }

  /** Any number of pieces. */
  lemma {:induction false} AnyPieces(e: State, pieces: seq<seq<Byte>>)
    ensures CipherEach(e, pieces) == Cipher(e, Concat(pieces))
    decreases |pieces|
  {
    if pieces != [] {
      AnyPieces(Engine(e, |pieces[0]|), pieces[1..]);
      CipherInPieces(e, pieces[0], Concat(pieces[1..]));
    }
  }
}
