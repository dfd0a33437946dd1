/**
  The TFTP fetch of fuse-tftp.c as a protocol: an RFC 1350 lock-step sender (section 2), the
  receiver of TftpGet, and a network that may drop, duplicate, delay and reorder packets.
 */
module Tftp {
  import opened Bytes
  import opened Sequences

  const BLOCK: nat := 512

  /** The 16-bit number of a block. */
  function Num(k: nat): Word { Wrap(k) }

  /** The last block is the first shorter than 512 bytes; it may be empty. */
  function Blocks(file: seq<Byte>): (n: nat)
    ensures n > 0 && BLOCK * (n - 1) <= |file| < BLOCK * n
  {
    FullBlocks(|file|) + 1
  }

  function FullBlocks(size: nat): (n: nat)
    ensures BLOCK * n <= size < BLOCK * n + BLOCK
  {
    if size < BLOCK then 0 else 1 + FullBlocks(size - BLOCK)
  }

  function BlockOf(file: seq<Byte>, k: nat): (r: seq<Byte>)
    requires 1 <= k <= Blocks(file)
    ensures |r| <= BLOCK && (|r| < BLOCK <==> k == Blocks(file))
  {
    file[BLOCK * (k - 1)..if k == Blocks(file) then |file| else BLOCK * k]
  }

  /** The first k blocks. */
  function Prefix(file: seq<Byte>, k: nat): seq<Byte>
    requires k <= Blocks(file)
  {
    file[..if k == Blocks(file) then |file| else BLOCK * k]
  }

  lemma PrefixNext(file: seq<Byte>, k: nat)
    requires 1 <= k <= Blocks(file)
    ensures Prefix(file, k) == Prefix(file, k - 1) + BlockOf(file, k)
  {}

  datatype Packet = Data(num: Word, data: seq<Byte>) | Ack(num: Word)

  /** TftpGet: blocks expected next, and the fragments saved so far. */
  datatype Receiver = Receiver(expected: Word, frags: seq<seq<Byte>>, done: bool)

  /** wire is what may still be delivered: any packet once sent and not lost, at any time, any
      number of times, or never. */
  datatype State = State(cur: nat, wire: set<Packet>, rx: Receiver)

  /** SaveBytesToFragList: an empty last packet adds no fragment. */
  function Save(frags: seq<seq<Byte>>, data: seq<Byte>): seq<seq<Byte>> { if data == [] then frags else frags + [data] }

  lemma SaveConcat(frags: seq<seq<Byte>>, data: seq<Byte>)
    ensures Concat(Save(frags, data)) == Concat(frags) + data
  {
    if data != [] { ConcatSnoc(frags, data); } else { assert Concat(frags) + data == Concat(frags); }
  }

  /** The receive loop on one DATA packet, while it runs. */
  function Receive(rx: Receiver, p: Packet): Receiver
    requires p.Data?
  {
    if rx.done || p.num != rx.expected then rx
    else if |p.data| < BLOCK then Receiver(rx.expected, Save(rx.frags, p.data), true)
    else Receiver(Wrap(rx.expected + 1), Save(rx.frags, p.data), false)
  }

  predicate Accepts(rx: Receiver, p: Packet) { p.Data? && !rx.done && p.num == rx.expected }

  datatype Step = Transmit | Deliver(p: Packet) | Lose(p: Packet)

  function INIT(): State { State(1, {}, Receiver(1, [], false)) }

  /** Transmit (or retransmit) the current block; deliver a packet that was once sent; or lose it
      for good. */
  function Next(file: seq<Byte>, s: State, step: Step): State
    requires 1 <= s.cur <= Blocks(file)
  {
    match step
    case Lose(p) => s.(wire := s.wire - {p})
    case Transmit => s.(wire := s.wire + {Data(Num(s.cur), BlockOf(file, s.cur))})
    case Deliver(p) =>
      if p !in s.wire then s
      else if p.Ack? then if p.num == Num(s.cur) && s.cur < Blocks(file) then s.(cur := s.cur + 1) else s
      else s.(rx := Receive(s.rx, p), wire := s.wire + if Accepts(s.rx, p) then {Ack(p.num)} else {})
  }

  function Exec(file: seq<Byte>, steps: seq<Step>): (s: State)
    ensures 1 <= s.cur <= Blocks(file)
  {
    if steps == [] then INIT() else Next(file, Exec(file, steps[..|steps| - 1]), steps[|steps| - 1])
  }

  /** What the receiver is meant to keep: so many whole blocks, all of them once it is done. */
  ghost predicate Right(file: seq<Byte>, rx: Receiver) {
    exists got :: RightSoFar(file, rx, got)
  }

  predicate RightSoFar(file: seq<Byte>, rx: Receiver, got: int) {
    && 0 <= got <= Blocks(file) && Concat(rx.frags) == Prefix(file, got)
    && (rx.done <==> got == Blocks(file)) && (!rx.done ==> rx.expected == Num(got + 1))
  }

  /** Two blocks with the same 16-bit number have the same contents. */
  ghost predicate NumbersIdentify(file: seq<Byte>) {
    forall j, k | 1 <= j <= Blocks(file) && 1 <= k <= Blocks(file) && Num(j) == Num(k) :: BlockOf(file, j) == BlockOf(file, k)
  }

  /** True of every file of at most 65536 blocks. */
  lemma ShortFilesAreIdentified(file: seq<Byte>)
    requires Blocks(file) <= 0x1_0000
    ensures NumbersIdentify(file)
  {
    forall j, k | 1 <= j <= Blocks(file) && 1 <= k <= Blocks(file) && Num(j) == Num(k) ensures j == k {
      WrapIs(j);
      WrapIs(k);
    }
  }

  // ----- Safety -----

  ghost predicate WireOk(file: seq<Byte>, s: State) {
    && 1 <= s.cur <= Blocks(file)
    && forall p {:trigger p in s.wire} | p in s.wire && p.Data? :: Genuine(file, s.cur, p)
  }

  ghost predicate Genuine(file: seq<Byte>, cur: nat, p: Packet)
    requires p.Data? && cur <= Blocks(file)
  {
    exists j :: 1 <= j <= cur && p == Data(Num(j), BlockOf(file, j))
  }

  lemma {:induction false} WireAlways(file: seq<Byte>, steps: seq<Step>)
    ensures WireOk(file, Exec(file, steps))
    decreases |steps|
  {
    if steps != [] {
      var s, step := Exec(file, steps[..|steps| - 1]), steps[|steps| - 1];
      WireAlways(file, steps[..|steps| - 1]);
      var s' := Next(file, s, step);
      forall p | p in s'.wire && p.Data? ensures Genuine(file, s'.cur, p) {
        if p in s.wire { assert Genuine(file, s.cur, p); }
      }
    }
  }

  lemma ReceiveRight(file: seq<Byte>, rx: Receiver, cur: nat, p: Packet, got: int)
    requires NumbersIdentify(file) && RightSoFar(file, rx, got)
    requires p.Data? && cur <= Blocks(file) && Genuine(file, cur, p)
    ensures Right(file, Receive(rx, p))
  {
    if Accepts(rx, p) {
      var j :| 1 <= j <= cur && p == Data(Num(j), BlockOf(file, j));
      assert BlockOf(file, j) == BlockOf(file, got + 1);
      AcceptRight(file, rx, p.data, got + 1);
      assert RightSoFar(file, Receive(rx, p), got + 1);
    } else {
      assert RightSoFar(file, Receive(rx, p), got);
    }
  }

  lemma {:induction false} AlwaysRight(file: seq<Byte>, steps: seq<Step>)
    requires NumbersIdentify(file)
    ensures Right(file, Exec(file, steps).rx)
    decreases |steps|
  {
    if steps == [] {
      assert RightSoFar(file, INIT().rx, 0);
    } else {
      var pre, step := steps[..|steps| - 1], steps[|steps| - 1];
      AlwaysRight(file, pre);
      var s := Exec(file, pre);
      if step.Deliver? && step.p in s.wire && step.p.Data? {
        WireAlways(file, pre);
        var got :| RightSoFar(file, s.rx, got);
        ReceiveRight(file, s.rx, s.cur, step.p, got);
      }
    }
  }

  /** When the loop ends the fragments are the file. */
  lemma DoneIsWhole(file: seq<Byte>, steps: seq<Step>)
    requires NumbersIdentify(file) && Exec(file, steps).rx.done
    ensures Concat(Exec(file, steps).rx.frags) == file
  {
    AlwaysRight(file, steps);
    var got :| RightSoFar(file, Exec(file, steps).rx, got);
    assert file[..|file|] == file;
  }

  // ----- The condition is exact -----

  /** The steps of an undisturbed transfer of the first k blocks. */
  function Smooth(file: seq<Byte>, k: nat): seq<Step>
    requires k < Blocks(file)
  {
    if k == 0 then []
    else Smooth(file, k - 1) + [Transmit] + [Deliver(Data(Num(k), BlockOf(file, k)))] + [Deliver(Ack(Num(k)))]
  }

  lemma ExecMore(file: seq<Byte>, steps: seq<Step>, step: Step)
    ensures Exec(file, steps + [step]) == Next(file, Exec(file, steps), step)
  {
    assert (steps + [step])[..|steps|] == steps;
  }

  /** After k blocks: block k + 1 is next, and every earlier packet is still somewhere. */
  ghost predicate SmoothAt(file: seq<Byte>, s: State, k: nat)
    requires k < Blocks(file)
  {
    && s.cur == k + 1 && RightSoFar(file, s.rx, k)
    && forall j {:trigger BlockOf(file, j)} | 1 <= j <= k :: Data(Num(j), BlockOf(file, j)) in s.wire
  }

  lemma SmoothStep(file: seq<Byte>, s: State, k: nat)
    requires 1 <= k < Blocks(file) && SmoothAt(file, s, k - 1)
    ensures var data := Data(Num(k), BlockOf(file, k));
            var s2 := Next(file, Next(file, s, Transmit), Deliver(data));
            && s2.cur == k && s2.wire == s.wire + {data} + {Ack(Num(k))} && RightSoFar(file, s2.rx, k)
            && SmoothAt(file, Next(file, s2, Deliver(Ack(Num(k)))), k)
  {
    var data := Data(Num(k), BlockOf(file, k));
    AcceptRight(file, s.rx, data.data, k);
  }

  /** Accepting the right block keeps the receiver right. */
  lemma AcceptRight(file: seq<Byte>, rx: Receiver, data: seq<Byte>, k: nat)
    requires 1 <= k <= Blocks(file) && RightSoFar(file, rx, k - 1) && data == BlockOf(file, k)
    ensures RightSoFar(file, Receive(rx, Data(Num(k), data)), k)
  {
    SaveConcat(rx.frags, data);
    PrefixNext(file, k);
    NumNext(k);
  }

  lemma NumNext(k: nat)
    ensures Wrap(Num(k) + 1) == Num(k + 1)
  {
    WrapIs(k);
    WrapIs(k + 1);
    WrapIs(Num(k) + 1);
  }

  lemma {:induction false} SmoothRun(file: seq<Byte>, k: nat)
    requires k < Blocks(file)
    ensures SmoothAt(file, Exec(file, Smooth(file, k)), k)
    decreases k
  {
    if k > 0 {
      SmoothRun(file, k - 1);
      var before, data := Smooth(file, k - 1), Data(Num(k), BlockOf(file, k));
      SmoothStep(file, Exec(file, before), k);
      ExecMore(file, before, Transmit);
      ExecMore(file, before + [Transmit], Deliver(data));
      ExecMore(file, before + [Transmit] + [Deliver(data)], Deliver(Ack(Num(k))));
    }
  }

  /** If a late duplicate of block j arrives where block k is due, the fragments are wrong. */
  lemma LateDuplicate(file: seq<Byte>, j: nat, k: nat)
    requires 1 <= j < k <= Blocks(file) && Num(j) == Num(k) && BlockOf(file, j) != BlockOf(file, k)
    ensures !Right(file, Exec(file, Smooth(file, k - 1) + [Deliver(Data(Num(j), BlockOf(file, j)))]).rx)
  {
    var late := Data(Num(j), BlockOf(file, j));
    SmoothRun(file, k - 1);
    var s := Exec(file, Smooth(file, k - 1));
    ExecMore(file, Smooth(file, k - 1), Deliver(late));
    assert late in s.wire;
    WrongBlock(file, s.rx, late.data, k);
  }

  lemma WrongBlock(file: seq<Byte>, rx: Receiver, data: seq<Byte>, k: nat)
    requires 1 <= k <= Blocks(file) && RightSoFar(file, rx, k - 1)
    requires |data| == BLOCK && data != BlockOf(file, k)
    ensures !Right(file, Receive(rx, Data(Num(k), data)))
  {
    SaveConcat(rx.frags, data);
    var wrong := Prefix(file, k - 1) + data;
    assert |wrong| == BLOCK * k && wrong[BLOCK * (k - 1)..] == data;
    forall got: int | 0 <= got <= Blocks(file) ensures Prefix(file, got) != wrong {
      if |Prefix(file, got)| == BLOCK * k {
        if got != k { assert got == Blocks(file) && |file| == BLOCK * k; }
        if got == k {
          PrefixNext(file, k);
          assert Prefix(file, k)[BLOCK * (k - 1)..] == BlockOf(file, k);
        } else {
          PrefixHasBlock(file, got, k);
        }
      }
    }
  }

  lemma PrefixHasBlock(file: seq<Byte>, got: nat, k: nat)
    requires 1 <= k < got <= Blocks(file)
    ensures |Prefix(file, got)| >= BLOCK * k && Prefix(file, got)[BLOCK * (k - 1)..BLOCK * k] == BlockOf(file, k)
  {}

  /** The receiver keeps only right prefixes in every run exactly when no two blocks of the file
      share a 16-bit number but differ. */
  lemma SafeExactly(file: seq<Byte>)
    ensures (forall steps :: Right(file, Exec(file, steps).rx)) <==> NumbersIdentify(file)
  {
    if NumbersIdentify(file) {
      forall steps ensures Right(file, Exec(file, steps).rx) { AlwaysRight(file, steps); }
    } else {
      var j, k :| 1 <= j <= Blocks(file) && 1 <= k <= Blocks(file) && Num(j) == Num(k) && BlockOf(file, j) != BlockOf(file, k);
      if j < k { LateDuplicate(file, j, k); } else { LateDuplicate(file, k, j); }
    }
  }

  /** Every file can be fetched: some run ends with the whole of it. */
  lemma CanFinish(file: seq<Byte>)
    ensures exists steps :: Exec(file, steps).rx.done && Concat(Exec(file, steps).rx.frags) == file
  {
    var n := Blocks(file);
    var before, data := Smooth(file, n - 1), Data(Num(n), BlockOf(file, n));
    SmoothRun(file, n - 1);
    var s := Exec(file, before);
    ExecMore(file, before, Transmit);
    ExecMore(file, before + [Transmit], Deliver(data));
    AcceptRight(file, s.rx, data.data, n);
    var steps := before + [Transmit] + [Deliver(data)];
    assert file[..|file|] == file;
    assert Exec(file, steps).rx == Receive(s.rx, data);
  }

  // ----- When it can still finish -----

  function From(file: seq<Byte>, s: State, steps: seq<Step>): State
    requires 1 <= s.cur <= Blocks(file)
    decreases |steps|
  {
    if steps == [] then s else From(file, Next(file, s, steps[0]), steps[1..])
  }

  /** Sender and receiver are at the same block or the receiver is one ahead, and only blocks that
      were received have been acknowledged. */
  ghost predicate InStep(file: seq<Byte>, s: State, got: int) {
    1 <= s.cur <= Blocks(file) && RightSoFar(file, s.rx, got) && (got == s.cur - 1 || got == s.cur) &&
    forall p {:trigger p in s.wire} :: p in s.wire ==> if p.Data? then Genuine(file, s.cur, p) else Acknowledges(p, got)
  }

  ghost predicate Acknowledges(p: Packet, got: int) { p.Ack? && exists j: nat :: 1 <= j <= got && p.num == Num(j) }

  lemma NumbersDiffer(j: nat, k: nat)
    requires j < 0x1_0000 && k < 0x1_0000
    ensures Num(j) == Num(k) ==> j == k
  {
  }

  /** An accepted block is the current one. */
  lemma AcceptsCurrent(file: seq<Byte>, s: State, got: int, p: Packet)
    requires Blocks(file) < 0x1_0000 && InStep(file, s, got) && p in s.wire && Accepts(s.rx, p)
    ensures got == s.cur - 1 && p == Data(Num(s.cur), BlockOf(file, s.cur))
  {
    var j :| 1 <= j <= s.cur && p == Data(Num(j), BlockOf(file, j));
    NumbersDiffer(j, got + 1);
  }

  lemma AcceptInStep(file: seq<Byte>, s: State, got: int, p: Packet)
    requires Blocks(file) < 0x1_0000 && InStep(file, s, got) && p in s.wire && Accepts(s.rx, p)
    ensures InStep(file, Next(file, s, Deliver(p)), s.cur)
  {
    var t := Next(file, s, Deliver(p));
    AcceptsCurrent(file, s, got, p);
    AcceptRight(file, s.rx, p.data, s.cur);
    forall q {:trigger q in t.wire} | q in t.wire ensures if q.Data? then Genuine(file, t.cur, q) else Acknowledges(q, s.cur) {
      if q in s.wire && q.Ack? { assert Acknowledges(q, got); }
    }
  }

  lemma AckInStep(file: seq<Byte>, s: State, got: int, p: Packet)
    requires Blocks(file) < 0x1_0000 && InStep(file, s, got) && p in s.wire && p.Ack?
    ensures InStep(file, Next(file, s, Deliver(p)), got)
  {
    var t := Next(file, s, Deliver(p));
    assert Acknowledges(p, got);
    if t.cur != s.cur {
      var j: nat :| 1 <= j <= got && p.num == Num(j);
      NumbersDiffer(j, s.cur);
    }
    forall q {:trigger q in t.wire} | q in t.wire ensures if q.Data? then Genuine(file, t.cur, q) else Acknowledges(q, got) {
      if q.Data? { assert Genuine(file, s.cur, q); }
    }
  }

  lemma StepInStep(file: seq<Byte>, s: State, got: int, step: Step) returns (now: int)
    requires Blocks(file) < 0x1_0000 && InStep(file, s, got)
    ensures InStep(file, Next(file, s, step), now)
    ensures now == if step.Deliver? && step.p in s.wire && Accepts(s.rx, step.p) then s.cur else got
  {
    if step.Deliver? && step.p in s.wire && Accepts(s.rx, step.p) {
      AcceptInStep(file, s, got, step.p);
      now := s.cur;
    } else {
      now := got;
      if step.Deliver? && step.p in s.wire && step.p.Ack? { AckInStep(file, s, got, step.p); }
    }
  }

  lemma {:induction false} AlwaysInStep(file: seq<Byte>, steps: seq<Step>) returns (got: int)
    requires Blocks(file) < 0x1_0000
    ensures InStep(file, Exec(file, steps), got)
    decreases |steps|
  {
    if steps == [] {
      got := 0;
    } else {
      got := AlwaysInStep(file, steps[..|steps| - 1]);
      got := StepInStep(file, Exec(file, steps[..|steps| - 1]), got, steps[|steps| - 1]);
    }
  }

  /** The receiver is ahead, and the acknowledgement the sender waits for is lost. */
  predicate AckLost(s: State) { !s.rx.done && s.rx.expected != Num(s.cur) && Ack(Num(s.cur)) !in s.wire }

  lemma LostStays(file: seq<Byte>, s: State, got: int, step: Step)
    requires Blocks(file) < 0x1_0000 && InStep(file, s, got) && AckLost(s)
    ensures AckLost(Next(file, s, step)) && InStep(file, Next(file, s, step), got)
  {
    if step.Deliver? && step.p in s.wire && Accepts(s.rx, step.p) {
      AcceptsCurrent(file, s, got, step.p);
    }
    var now := StepInStep(file, s, got, step);
  }

  lemma {:induction false} LostForGood(file: seq<Byte>, s: State, got: int, steps: seq<Step>)
    requires Blocks(file) < 0x1_0000 && InStep(file, s, got) && AckLost(s)
    ensures !From(file, s, steps).rx.done
    decreases |steps|
  {
    if steps != [] {
      LostStays(file, s, got, steps[0]);
      LostForGood(file, Next(file, s, steps[0]), got, steps[1..]);
    }
  }

  lemma {:induction false} FromJoins(file: seq<Byte>, s: State, first: seq<Step>, second: seq<Step>)
    requires 1 <= s.cur <= Blocks(file)
    ensures 1 <= From(file, s, first).cur <= Blocks(file)
    ensures From(file, s, first + second) == From(file, From(file, s, first), second)
    decreases |first|
  {
    if first == [] {
      assert first + second == second;
    } else {
      assert (first + second)[1..] == first[1..] + second;
      FromJoins(file, Next(file, s, first[0]), first[1..], second);
    }
  }

  /** The current block, sent and received. */
  lemma OneBlock(file: seq<Byte>, s: State)
    requires Blocks(file) < 0x1_0000 && InStep(file, s, s.cur - 1)
    ensures var t := From(file, s, [Transmit, Deliver(Data(Num(s.cur), BlockOf(file, s.cur)))]);
            t.cur == s.cur && InStep(file, t, s.cur) && Ack(Num(s.cur)) in t.wire
  {
    var p := Data(Num(s.cur), BlockOf(file, s.cur));
    var u := Next(file, s, Transmit);
    var a := StepInStep(file, s, s.cur - 1, Transmit);
    assert u.rx == s.rx && Accepts(u.rx, p) && p in u.wire;
    var b := StepInStep(file, u, s.cur - 1, Deliver(p));
    TwoSteps(file, s, Transmit, Deliver(p), u, Next(file, u, Deliver(p)));
  }

  lemma TwoSteps(file: seq<Byte>, s: State, a: Step, b: Step, one: State, two: State)
    requires 1 <= s.cur <= Blocks(file) && one == Next(file, s, a)
    requires 1 <= one.cur <= Blocks(file) && two == Next(file, one, b)
    ensures From(file, s, [a, b]) == two
  {
    OneStep(file, s, a, [b], one);
    OneStep(file, one, b, [], two);
    assert [a, b] == [a] + [b] && [b] == [b] + [];
  }

  lemma OneStep(file: seq<Byte>, s: State, a: Step, rest: seq<Step>, one: State)
    requires 1 <= s.cur <= Blocks(file) && one == Next(file, s, a)
    ensures 1 <= one.cur <= Blocks(file) && From(file, s, [a] + rest) == From(file, one, rest)
  {
    assert ([a] + rest)[1..] == rest;
  }

  lemma {:induction false} CanGoOn(file: seq<Byte>, s: State, got: int) returns (steps: seq<Step>)
    requires Blocks(file) < 0x1_0000 && InStep(file, s, got) && !AckLost(s)
    ensures From(file, s, steps).rx.done
    decreases Blocks(file) - s.cur, s.cur - got
  {
    if s.rx.done {
      steps := [];
    } else if got == s.cur {
      NumbersDiffer(got + 1, s.cur);
      var ack := Deliver(Ack(Num(s.cur)));
      var now := StepInStep(file, s, got, ack);
      var t := Next(file, s, ack);
      assert InStep(file, t, got);
      steps := CanGoOn(file, t, got);
      steps := [ack] + steps;
    } else {
      var first := [Transmit, Deliver(Data(Num(s.cur), BlockOf(file, s.cur)))];
      OneBlock(file, s);
      var more := CanGoOn(file, From(file, s, first), s.cur);
      FromJoins(file, s, first, more);
      steps := first + more;
    }
  }

  /** Because the receiver never acknowledges a block again, a transfer can still finish exactly if
      the receiver is done, or waits for the block being sent, or that block's acknowledgement has
      not been lost. */
  lemma FinishesUnlessAckLost(file: seq<Byte>, steps: seq<Step>)
    requires Blocks(file) < 0x1_0000
    ensures (exists more :: From(file, Exec(file, steps), more).rx.done) <==> !AckLost(Exec(file, steps))
  {
    var s := Exec(file, steps);
    var got := AlwaysInStep(file, steps);
    if AckLost(s) {
      forall more ensures !From(file, s, more).rx.done { LostForGood(file, s, got, more); }
    } else {
      var more := CanGoOn(file, s, got);
    }
  }
}
