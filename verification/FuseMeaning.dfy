/**
  What a client's call gives, byte by byte: what its daemon finds in its buffer, and what the caller
  finds in its registers and memory, over every run.
 */
module FuseMeaning {
  import opened Bytes
  import opened FuseRpc
  import opened Fuse
  import opened FuseProofs
  import opened FuseRuns

  // ----- Where the events of a run come from -----

  /** Step j of the run added the event, at place i of the log. */
  ghost predicate Arises(steps: seq<Step>, j: nat, e: Event, i: nat) {
    && j < |steps| && Exec(steps[..j]).Next? && |Exec(steps[..j]).events| == i
    && Enabled(Exec(steps[..j]).s, steps[j]) && Apply(Exec(steps[..j]).s, steps[j]).Next?
    && Apply(Exec(steps[..j]).s, steps[j]).events == [e]
  }

  lemma {:induction false} EventArises(steps: seq<Step>, i: nat) returns (j: nat)
    requires Exec(steps).Next? && i < |Exec(steps).events|
    ensures Arises(steps, j, Exec(steps).events[i], i)
    decreases |steps|
  {
    var n := |steps| - 1;
    var pre, step := steps[..n], steps[n];
    var s, log := Exec(pre).s, Exec(pre).events;
    if i < |log| {
      j := EventArises(pre, i);
      assert pre[..j] == steps[..j];
      assert !Enabled(s, step) || Exec(steps).events == log + Apply(s, step).events;
    } else {
      RunKeeps(pre);
      StepKeeps(s, Replay(log), step);
      j := n;
    }
  }

  /** The question that a step of a client puts: that of its own path, registers and path name. */
  predicate Puts(s: State, step: Step, e: Event)
    requires e.Submit?
  {
    match step
    case DoClientOpen(pid, pd, _, pathname, regs, _) => e.pid == pid && e.cli == pd && e.ask == Ask(2, pd, regs, pathname)
    case DoClientCall(pid, pd, op, regs, _) => e.pid == pid && e.cli == pd && e.ask == Ask(op, pd, regs, [])
    case DoClose(pid, pd, _) => pd in s.paths && e.pid == pid && e.cli == pd && e.ask == Ask(3, pd, s.paths[pd].regs, [])
    case _ => false
  }

  lemma OperatePuts(s: State, pid: Byte, cli: Byte, dae: Byte, op: Byte, pathname: seq<Byte>, reserved: bool, e: Event)
    requires cli in s.paths && dae in s.paths
    requires Operate(s, pid, cli, dae, op, pathname, reserved).Next? && Operate(s, pid, cli, dae, op, pathname, reserved).events == [e]
    ensures e.Submit? && e.pid == pid && e.cli == cli && e.dae == dae && e.ask == Ask(op, cli, s.paths[cli].regs, pathname)
  {
  }

  lemma OpenPuts(s: State, step: Step, e: Event)
    requires step.DoClientOpen? && Enabled(s, step) && Apply(s, step).Next? && Apply(s, step).events == [e]
    ensures e.Submit? && Puts(s, step, e)
  {
    var s1 := s.(paths := s.paths[step.pd := PathDesc(false, 1, NULL, 0, 0, step.regs, "", 1, Reads)]);
    var dae := FindDaemon(s, step.name);
    var s2 := SetPeer(s1, step.pd, dae).s;
    OperatePuts(s2, step.pid, step.pd, dae, OP_OPEN, step.pathname, step.reserved, e);
  }

  lemma PeerPuts(s: State, pid: Byte, cli: Byte, op: Byte, reserved: bool, e: Event)
    requires cli in s.paths && OnPeer(s, pid, cli, op, reserved).Next? && OnPeer(s, pid, cli, op, reserved).events == [e]
    ensures e.Submit? && e.pid == pid && e.cli == cli && e.ask == Ask(op, cli, s.paths[cli].regs, [])
  {
    OperatePuts(s, pid, cli, s.paths[cli].peer, op, [], reserved, e);
  }

  lemma ClosePuts(s: State, step: Step, e: Event)
    requires step.DoClose? && Enabled(s, step) && Apply(s, step).Next? && Apply(s, step).events == [e]
    ensures e.Submit? && Puts(s, step, e)
  {
    var d := s.paths[step.pd];
    var s1 := s.(paths := s.paths[step.pd := d.(users := d.users - 1, linkCount := Dec(d.linkCount))]);
    var o := OnPeer(s1, step.pid, step.pd, OP_CLOSE, step.reserved);
    assert o.Next? && o.events == Apply(s, step).events;
    PeerPuts(s1, step.pid, step.pd, OP_CLOSE, step.reserved, e);
  }

  /** The step that adds a question, or an answer, is the client's call, or the daemon's write. */
  lemma StepMeans(s: State, step: Step, e: Event)
    requires Enabled(s, step) && Apply(s, step).Next? && Apply(s, step).events == [e]
    ensures e.Submit? ==> Puts(s, step, e)
    ensures e.Deliver? ==> e.dae in s.paths && e.room == s.paths[e.dae].regs.y
    ensures e.Answer? ==> step.DoDaemonWrite? && step.pd == e.dae && step.reply == e.reply
  {
    match step
    case DoClientOpen(_, _, _, _, _, _) => OpenPuts(s, step, e);
    case DoClientCall(pid, pd, op, regs, reserved) =>
      PeerPuts(s.(paths := s.paths[pd := s.paths[pd].(regs := regs)]), pid, pd, op, reserved, e);
    case DoClose(_, _, _) => ClosePuts(s, step, e);
    case DoDaemonWrite(_, _, _) =>
    case DoClientResume(_) =>
    case _ =>
  }

  // ----- Calls, over every run -----

  /** The call that returns at place i was put at a, delivered at b and answered at c, byte by byte. */
  ghost predicate CallMeans(log: seq<Event>, a: nat, b: nat, c: nat, i: nat)
    requires i < |log| && log[i].Return?
  {
    && a < b < c < i && log[a].Submit? && log[b].Deliver? && log[c].Answer?
    && log[a].call == log[b].call == log[c].call == log[i].call
    && log[a].cli == log[i].cli && log[a].dae == log[b].dae == log[c].dae
    && (forall m {:trigger ByDaemon(log[m], log[a].dae)} | b < m < c :: !ByDaemon(log[m], log[a].dae))
    && Requests(log[a].ask, log[b].room, log[b].request)
    && log[i].status == log[c].reply.status && Leaves(log[a].ask, log[c].reply, log[i].regs)
  }

  lemma CallIsMeant(log: seq<Event>, i: nat) returns (a: nat, b: nat, c: nat)
    requires Accepted(log) && i < |log| && log[i].Return?
    ensures CallMeans(log, a, b, c, i)
  {
    AcceptedReturns(log, i);
    var s: Stage;
    a, b, c, s :| && s.Answered? && AnsweredVia(log[..i], a, b, c, log[i].call, s)
                  && s.cli == log[i].cli
                  && log[i].status == s.reply.status && Leaves(s.ask, s.reply, log[i].regs);
    assert log[..i][a] == log[a] && log[..i][b] == log[b] && log[..i][c] == log[c];
    forall m {:trigger ByDaemon(log[m], log[a].dae)} | b < m < c ensures !ByDaemon(log[m], log[a].dae) {
      assert log[..i][m] == log[m];
    }
  }

  /** Any run: a call that returns was put by a client's step, with that client's registers and
      memory; the daemon found that request; then it wrote the answer; and the caller finds the
      bytes of that answer. */
  lemma CallsMean(steps: seq<Step>, i: nat)
    requires Exec(steps).Next? && i < |Exec(steps).events| && Exec(steps).events[i].Return?
    ensures exists a: nat, b: nat, c: nat, j: nat, l: nat :: RunMeans(steps, i, a, b, c, j, l)
  {
    var log := Exec(steps).events;
    RunKeeps(steps);
    var a, b, c := CallIsMeant(log, i);
    var j := EventArises(steps, a);
    var l := EventArises(steps, c);
    StepMeans(Exec(steps[..j]).s, steps[j], log[a]);
    StepMeans(Exec(steps[..l]).s, steps[l], log[c]);
    assert RunMeans(steps, i, a, b, c, j, l);
  }

  ghost predicate RunMeans(steps: seq<Step>, i: nat, a: nat, b: nat, c: nat, j: nat, l: nat)
    requires Exec(steps).Next? && i < |Exec(steps).events| && Exec(steps).events[i].Return?
  {
    var log := Exec(steps).events;
    && CallMeans(log, a, b, c, i)
    && Arises(steps, j, log[a], a) && Puts(Exec(steps[..j]).s, steps[j], log[a])
    && Arises(steps, l, log[c], c) && steps[l].DoDaemonWrite? && steps[l].pd == log[c].dae && steps[l].reply == log[c].reply
  }

  lemma RequestIsMeant(log: seq<Event>, b: nat) returns (a: nat)
    requires Accepted(log) && b < |log| && log[b].Deliver?
    ensures a < b && log[a].Submit? && log[a].call == log[b].call && log[a].dae == log[b].dae
    ensures Requests(log[a].ask, log[b].room, log[b].request)
  {
    AcceptedPrefix(log, b + 1);
    assert log[..b + 1][..b] == log[..b];
    var k := log[b].call;
    StagesExplained(log[..b], k);
    var s := Replay(log[..b])[k];
    a :| SubmittedAt(log[..b], a, k, s);
    assert log[..b][a] == log[a];
    RequestsExactly(s.ask, log[b].room, log[b].request);
  }

  /** And any request that a daemon is given, answered or not, is that of the call put to it. */
  lemma RequestsMean(steps: seq<Step>, b: nat)
    requires Exec(steps).Next? && b < |Exec(steps).events| && Exec(steps).events[b].Deliver?
    ensures exists a: nat, j: nat :: RequestMeans(steps, b, a, j)
  {
    var log := Exec(steps).events;
    RunKeeps(steps);
    var a := RequestIsMeant(log, b);
    var j := EventArises(steps, a);
    StepMeans(Exec(steps[..j]).s, steps[j], log[a]);
    assert RequestMeans(steps, b, a, j);
  }

  ghost predicate RequestMeans(steps: seq<Step>, b: nat, a: nat, j: nat)
    requires Exec(steps).Next? && b < |Exec(steps).events| && Exec(steps).events[b].Deliver?
  {
    var log := Exec(steps).events;
    && a < b && log[a].Submit? && log[a].call == log[b].call && log[a].dae == log[b].dae
    && Arises(steps, j, log[a], a) && Puts(Exec(steps[..j]).s, steps[j], log[a])
    && Requests(log[a].ask, log[b].room, log[b].request)
  }
}
