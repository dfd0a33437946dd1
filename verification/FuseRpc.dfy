/**
  What a FUSE operation means, independently of how fusec.c achieves it: a remote
  procedure call.  A client asks, the daemon is handed that question, the daemon
  answers, the client returns with that answer.  Each call is identified by the
  kernel stack frame that holds its `struct ClientTmp`.
 */
module FuseRpc {
  import opened Bytes

  type Frame = nat

  const OP_CREATE: Byte := 1
  const OP_OPEN: Byte := 2
  const OP_CLOSE: Byte := 3
  const OP_READ: Byte := 4
  const OP_WRITE: Byte := 5
  const OP_READLN: Byte := 6
  const OP_WRITLN: Byte := 7

  // sizeof (struct FuseRequest)
  const REQUEST_SIZE: nat := 6

  /** The part of a caller's registers and memory that fusec.c touches. */
  datatype Regs = Regs(a: Byte, b: Byte, y: nat, buf: seq<Byte>)

  /** A client's question: operation, path number, registers, and (for opens) the path name. */
  datatype Ask = Ask(op: Byte, path: Byte, regs: Regs, pathname: seq<Byte>)

  /** struct FuseRequest plus the payload copied after it. */
  datatype Request = Request(op: Byte, path: Byte, a: Byte, b: Byte, size: nat, payload: seq<Byte>)

  /** struct FuseReply plus the daemon's memory after it. */
  datatype Reply = Reply(status: Byte, size: nat, payload: seq<Byte>)

  /** The first n bytes found in memory; bytes beyond what the owner supplied read as 0. */
  function Take(mem: seq<Byte>, n: nat): (r: seq<Byte>)
    ensures |r| == n
  {
    seq(n, i requires 0 <= i => if i < |mem| then mem[i] else 0)
  }

  function Min(a: nat, b: nat): nat { if a < b then a else b }

  predicate CarriesPathname(op: Byte) { op == OP_CREATE || op == OP_OPEN }
  predicate CarriesData(op: Byte) { op == OP_WRITE || op == OP_WRITLN }
  predicate FetchesData(op: Byte) { op == OP_READ || op == OP_READLN }

  /** What the daemon must find in its read buffer of `room` bytes. */
  function RequestFor(ask: Ask, room: nat): Request
    requires CarriesPathname(ask.op) || CarriesData(ask.op) ==> room > REQUEST_SIZE
  {
    var payload :=
      if CarriesPathname(ask.op) then Take(ask.pathname, Min(|ask.pathname|, room - REQUEST_SIZE))
      else if CarriesData(ask.op) then Take(ask.regs.buf, Min(ask.regs.y, room - REQUEST_SIZE))
      else [];
    Request(ask.op, ask.path, ask.regs.a, ask.regs.b,
            if FetchesData(ask.op) then ask.regs.y else |payload|, payload)
  }

  /** The registers and memory the client must find when its call returns. */
  function RegsAfter(ask: Ask, reply: Reply): Regs {
    if reply.status != 0 then ask.regs
    else if FetchesData(ask.op) then
      var n := Min(reply.size, ask.regs.y);
      ask.regs.(y := n, buf := Take(reply.payload, n) + if n <= |ask.regs.buf| then ask.regs.buf[n..] else [])
    else if CarriesData(ask.op) then ask.regs.(y := reply.size)
    else ask.regs
  }

  // ----- The same, byte by byte -----

  /** The byte at j of a memory that is zero beyond what is known of it. */
  function At(mem: seq<Byte>, j: nat): Byte { if j < |mem| then mem[j] else 0 }

  /** Create and open carry the path's name, write and writeln the caller's memory, as much as the
      daemon has room for behind the six bytes of the request; read and readln ask for a size. */
  predicate Requests(ask: Ask, room: nat, r: Request) {
    && r.op == ask.op && r.path == ask.path && r.a == ask.regs.a && r.b == ask.regs.b
    && match ask.op
       case 1 => room > 6 && CarriedFrom(ask.pathname, |ask.pathname|, room, r)
       case 2 => room > 6 && CarriedFrom(ask.pathname, |ask.pathname|, room, r)
       case 5 => room > 6 && CarriedFrom(ask.regs.buf, ask.regs.y, room, r)
       case 7 => room > 6 && CarriedFrom(ask.regs.buf, ask.regs.y, room, r)
       case 4 => r.size == ask.regs.y && r.payload == []
       case 6 => r.size == ask.regs.y && r.payload == []
       case _ => r.size == 0 && r.payload == []
  }

  predicate CarriedFrom(mem: seq<Byte>, n: nat, room: nat, r: Request)
    requires room > 6
  {
    && r.size == |r.payload| && r.size == (if n + 6 <= room then n else room - 6)
    && forall j: nat {:trigger r.payload[j]} | j < r.size :: r.payload[j] == At(mem, j)
  }

  /** A read or readln that ends well leaves the lesser of the size asked for and the reply's, and
      that many of the reply's bytes over the caller's memory; a write or writeln the reply's size.
      Nothing else changes, and nothing at all where the status is not zero. */
  predicate Leaves(ask: Ask, reply: Reply, regs: Regs) {
    && regs.a == ask.regs.a && regs.b == ask.regs.b
    && if reply.status == 0 && ask.op in [4, 6] then
         && regs.y == (if reply.size <= ask.regs.y then reply.size else ask.regs.y)
         && |regs.buf| == (if regs.y <= |ask.regs.buf| then |ask.regs.buf| else regs.y)
         && forall j: nat {:trigger regs.buf[j]} | j < |regs.buf| ::
              regs.buf[j] == if j < regs.y then At(reply.payload, j) else At(ask.regs.buf, j)
       else regs.y == (if reply.status == 0 && ask.op in [5, 7] then reply.size else ask.regs.y) && regs.buf == ask.regs.buf
  }

  lemma RequestsExactly(ask: Ask, room: nat, r: Request)
    requires CarriesPathname(ask.op) || CarriesData(ask.op) ==> room > REQUEST_SIZE
    ensures Requests(ask, room, r) <==> r == RequestFor(ask, room)
  {
  }

  lemma LeavesExactly(ask: Ask, reply: Reply, regs: Regs)
    ensures Leaves(ask, reply, regs) <==> regs == RegsAfter(ask, reply)
  {
  }

  // ----- Calls -----

  datatype Event =
    | Submit(call: Frame, pid: Byte, cli: Byte, dae: Byte, ask: Ask)
    | Deliver(call: Frame, dae: Byte, room: nat, request: Request)
    | Answer(call: Frame, dae: Byte, reply: Reply)
    | Return(call: Frame, cli: Byte, status: Byte, regs: Regs)

  datatype Stage =
    | Asked(pid: Byte, cli: Byte, dae: Byte, ask: Ask)
    | Served(pid: Byte, cli: Byte, dae: Byte, ask: Ask)
    | Answered(pid: Byte, cli: Byte, dae: Byte, ask: Ask, reply: Reply)
    | Done

  type Calls = map<Frame, Stage>

  /** The events a correct call service may produce next. */
  ghost predicate Legal(calls: Calls, e: Event) {
    match e
    case Submit(k, _, _, _, _) => k !in calls
    case Deliver(k, dae, room, request) =>
      && k in calls && calls[k].Asked? && calls[k].dae == dae
      && (CarriesPathname(calls[k].ask.op) || CarriesData(calls[k].ask.op) ==> room > REQUEST_SIZE)
      && request == RequestFor(calls[k].ask, room)
      && forall j :: j in calls && calls[j].Served? ==> calls[j].dae != dae
    case Answer(k, dae, reply) =>
      k in calls && calls[k].Served? && calls[k].dae == dae
    case Return(k, cli, status, regs) =>
      && k in calls && calls[k].Answered? && calls[k].cli == cli
      && status == calls[k].reply.status
      && regs == RegsAfter(calls[k].ask, calls[k].reply)
  }

  ghost function After(calls: Calls, e: Event): Calls
    requires Legal(calls, e)
  {
    match e
    case Submit(k, pid, cli, dae, ask) => calls[k := Asked(pid, cli, dae, ask)]
    case Deliver(k, _, _, _) => var c := calls[k]; calls[k := Served(c.pid, c.cli, c.dae, c.ask)]
    case Answer(k, _, reply) => var c := calls[k]; calls[k := Answered(c.pid, c.cli, c.dae, c.ask, reply)]
    case Return(k, _, _, _) => calls[k := Done]
  }

  /** A log is accepted when every event was legal at its place; Replay gives the calls it leaves. */
  ghost predicate Accepted(log: seq<Event>)
    decreases |log|, 0
  {
    log == [] || (Accepted(log[..|log| - 1]) && Legal(Replay(log[..|log| - 1]), log[|log| - 1]))
  }

  ghost function Replay(log: seq<Event>): Calls
    requires Accepted(log)
    decreases |log|, 1
  {
    if log == [] then map[] else After(Replay(log[..|log| - 1]), log[|log| - 1])
  }

  lemma Extend(log: seq<Event>, e: Event)
    requires Accepted(log) && Legal(Replay(log), e)
    ensures Accepted(log + [e]) && Replay(log + [e]) == After(Replay(log), e)
  {
    assert (log + [e])[..|log|] == log;
  }

  // ----- What acceptance says about positions in the log -----

  ghost predicate SubmittedAt(log: seq<Event>, a: nat, k: Frame, s: Stage)
    requires !s.Done?
  {
    a < |log| && log[a] == Submit(k, s.pid, s.cli, s.dae, s.ask)
  }

  ghost predicate DeliveredAt(log: seq<Event>, b: nat, k: Frame, s: Stage)
    requires !s.Done?
  {
    && b < |log| && log[b].Deliver? && log[b].call == k && log[b].dae == s.dae
    && Requests(s.ask, log[b].room, log[b].request)
  }

  predicate ByDaemon(e: Event, dae: Byte) { (e.Deliver? || e.Answer?) && e.dae == dae }

  /** The daemon does nothing on its path strictly between positions b and c. */
  ghost predicate QuietBetween(log: seq<Event>, dae: Byte, b: nat, c: nat) {
    forall i :: b < i < c && i < |log| ==> !ByDaemon(log[i], dae)
  }

  /** Where the log records each stage of an unfinished call. */
  ghost predicate Explained(log: seq<Event>, k: Frame, s: Stage) {
    match s
    case Asked(_, _, _, _) => exists a: nat :: SubmittedAt(log, a, k, s)
    case Served(_, _, _, _) => exists a: nat, b: nat :: ServedVia(log, a, b, k, s)
    case Answered(_, _, _, _, _) => exists a: nat, b: nat, c: nat :: AnsweredVia(log, a, b, c, k, s)
    case Done => true
  }

  ghost predicate ServedVia(log: seq<Event>, a: nat, b: nat, k: Frame, s: Stage)
    requires !s.Done?
  {
    a < b && SubmittedAt(log, a, k, s) && DeliveredAt(log, b, k, s) && QuietBetween(log, s.dae, b, |log|)
  }

  ghost predicate AnsweredVia(log: seq<Event>, a: nat, b: nat, c: nat, k: Frame, s: Stage)
    requires s.Answered?
  {
    && a < b < c < |log| && SubmittedAt(log, a, k, s) && DeliveredAt(log, b, k, s)
    && QuietBetween(log, s.dae, b, c)
    && log[c] == Answer(k, s.dae, s.reply)
  }

  lemma {:induction false} StagesExplained(log: seq<Event>, k: Frame)
    requires Accepted(log) && k in Replay(log)
    ensures Explained(log, k, Replay(log)[k])
    decreases |log|
  {
    var n := |log| - 1;
    var pre, e := log[..n], log[n];
    var calls := Replay(pre);
    if e.call != k {
      StagesExplained(pre, k);
      ExplanationPersists(log, k, calls[k]);
    } else {
      match e
      case Submit(_, _, _, _, _) => assert SubmittedAt(log, n, k, Replay(log)[k]);
      case Deliver(_, _, _, _) =>
        StagesExplained(pre, k);
        var a: nat :| SubmittedAt(pre, a, k, calls[k]);
        RequestsExactly(calls[k].ask, e.room, e.request);
        assert ServedVia(log, a, n, k, Replay(log)[k]);
      case Answer(_, _, _) =>
        StagesExplained(pre, k);
        var a: nat, b: nat :| ServedVia(pre, a, b, k, calls[k]);
        assert AnsweredVia(log, a, b, n, k, Replay(log)[k]);
      case Return(_, _, _, _) =>
    }
  }

  lemma ExplanationPersists(log: seq<Event>, k: Frame, s: Stage)
    requires |log| > 0 && Accepted(log) && log[|log| - 1].call != k
    requires k in Replay(log[..|log| - 1]) && Replay(log[..|log| - 1])[k] == s
    requires Explained(log[..|log| - 1], k, s)
    ensures Explained(log, k, s)
  {
    var pre := log[..|log| - 1];
    match s
    case Asked(_, _, _, _) =>
      var a: nat :| SubmittedAt(pre, a, k, s);
      assert SubmittedAt(log, a, k, s);
    case Served(_, _, _, _) =>
      var a: nat, b: nat :| ServedVia(pre, a, b, k, s);
      AtMostOneServed(pre);
      assert ServedVia(log, a, b, k, s);
    case Answered(_, _, _, _, _) =>
      var a: nat, b: nat, c: nat :| AnsweredVia(pre, a, b, c, k, s);
      assert AnsweredVia(log, a, b, c, k, s);
    case Done =>
  }

  ghost predicate OneServedPerDaemon(calls: Calls) {
    forall i, j | i in calls && j in calls && calls[i].Served? && calls[j].Served? && i != j ::
      calls[i].dae != calls[j].dae
  }

  lemma {:induction false} AtMostOneServed(log: seq<Event>)
    requires Accepted(log)
    ensures OneServedPerDaemon(Replay(log))
    decreases |log|
  {
    if log != [] {
      var pre, e := log[..|log| - 1], log[|log| - 1];
      AtMostOneServed(pre);
      var calls, calls' := Replay(pre), Replay(log);
      forall i, j | i in calls' && j in calls' && calls'[i].Served? && calls'[j].Served? && i != j
        ensures calls'[i].dae != calls'[j].dae
      {
        if i != e.call { assert calls'[i] == calls[i]; }
        if j != e.call { assert calls'[j] == calls[j]; }
      }
    }
  }

  /**
    Whenever a call returns, the log holds, in this order: the client's own question;
    the delivery of exactly that question to its daemon; the daemon's answer, with
    nothing done by that daemon in between; and the return carries that answer, its bytes in
    the caller's memory.
   */
  ghost predicate ReturnsOwnReply(log: seq<Event>, i: nat)
    requires i < |log| && log[i].Return?
  {
    exists a: nat, b: nat, c: nat, s: Stage ::
      && s.Answered? && AnsweredVia(log[..i], a, b, c, log[i].call, s)
      && s.cli == log[i].cli
      && log[i].status == s.reply.status && Leaves(s.ask, s.reply, log[i].regs)
  }

  lemma AcceptedReturns(log: seq<Event>, i: nat)
    requires Accepted(log) && i < |log| && log[i].Return?
    ensures ReturnsOwnReply(log, i)
  {
    AcceptedPrefix(log, i + 1);
    var pre, k := log[..i], log[i].call;
    assert log[..i + 1][..i] == pre;
    StagesExplained(pre, k);
    var s := Replay(pre)[k];
    var a: nat, b: nat, c: nat :| AnsweredVia(pre, a, b, c, k, s);
    LeavesExactly(s.ask, s.reply, log[i].regs);
  }

  lemma {:induction false} AcceptedPrefix(log: seq<Event>, n: nat)
    requires Accepted(log) && n <= |log|
    ensures Accepted(log[..n])
    decreases |log|
  {
    if n == |log| {
      assert log[..n] == log;
    } else {
      AcceptedPrefix(log[..|log| - 1], n);
      assert log[..|log| - 1][..n] == log[..n];
    }
  }

  /** Once Done, a call stays Done: so no call returns (or is answered) twice. */
  lemma {:induction false} StaysDone(log: seq<Event>, m: nat, k: Frame)
    requires Accepted(log) && m <= |log| && Accepted(log[..m])
    requires k in Replay(log[..m])
    ensures k in Replay(log)
    ensures Replay(log[..m])[k].Done? ==> Replay(log)[k].Done?
    ensures Replay(log[..m])[k].Answered? ==> Replay(log)[k].Answered? || Replay(log)[k].Done?
    decreases |log|
  {
    if m == |log| {
      assert log[..m] == log;
    } else {
      var pre := log[..|log| - 1];
      assert pre[..m] == log[..m];
      StaysDone(pre, m, k);
    }
  }

  lemma ReturnsOnce(log: seq<Event>, i: nat, j: nat)
    requires Accepted(log) && i < |log| && j < |log|
    requires log[i].Return? && log[j].Return? && log[i].call == log[j].call
    ensures i == j
  {
    if i < j { ReturnsOnceOrdered(log, i, j); }
    if j < i { ReturnsOnceOrdered(log, j, i); }
  }

  lemma ReturnsOnceOrdered(log: seq<Event>, i: nat, j: nat)
    requires Accepted(log) && i < j < |log|
    requires log[i].Return? && log[j].Return?
    ensures log[i].call != log[j].call
  {
    var k := log[i].call;
    AcceptedPrefix(log, i + 1);
    AcceptedPrefix(log, j + 1);
    AcceptedPrefix(log, j);
    assert log[..i + 1][..i] == log[..i];
    assert log[..j + 1][..j] == log[..j];
    assert log[..j][..i + 1] == log[..i + 1];
    StaysDone(log[..j], i + 1, k);
  }
}
