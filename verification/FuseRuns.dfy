/** The FUSE results, for every run from an empty system. */
module FuseRuns {
  import opened Bytes
  import opened FuseRpc
  import opened Fuse
  import opened FuseProofs

  /** Exactly when an assertion fires: a client finds its daemon already taken by another
      call (or left taken by a failed task reservation), a client has waited out its ticks,
      a daemon offers too small a buffer, or a daemon's name is too long. */
  predicate AssertFires(s: State, step: Step)
    requires Enabled(s, step)
  {
    match step
    case DoOpenDaemon(_, name) => FindDaemon(s, name) == NULL && |name| >= DAEMON_NAME_MAX - 1
    case DoClientOpen(_, _, name, _, _, _) =>
      var dae := FindDaemon(s, name);
      dae != NULL && s.paths[dae].linkCount < 255 && s.paths[dae].peer != NULL
    case DoClientCall(_, pd, _, _, _) => Taken(s, s.paths[pd].peer)
    case DoClose(_, pd, _) => LastClientLink(s, pd) && Taken(s, s.paths[pd].peer)
    case DoSpinTick(pid) => s.procs[pid].timeout <= 1
    case DoReadResume(pid) => NoRoom(s, s.procs[pid].dae)
    case _ => false
  }

  predicate Taken(s: State, dae: Byte) { dae in s.paths && s.paths[dae].peer != NULL }

  /** Exactly when a one-byte link count would pass 255. */
  predicate LinkWraps(s: State, step: Step)
    requires Enabled(s, step)
  {
    match step
    case DoDup(pd) => s.paths[pd].linkCount == 255
    case DoClientOpen(_, _, name, _, _, _) =>
      var dae := FindDaemon(s, name); dae != NULL && s.paths[dae].linkCount == 255
    case DoClientCall(_, pd, _, _, _) =>
      s.paths[pd].linkCount == 255 && !Taken(s, s.paths[pd].peer)
    case _ => false
  }

  lemma StepKeeps(s: State, calls: Calls, step: Step)
    requires Inv(s, calls) && Enabled(s, step)
    ensures Kept(Apply(s, step), calls)
    ensures !Apply(s, step).Wild?
    ensures Apply(s, step).Halt? <==> AssertFires(s, step)
    ensures Apply(s, step).Overflow? <==> LinkWraps(s, step)
  {
    match step
    case DoOpenDaemon(pd, name) => OpenDaemonKeeps(s, calls, pd, name);
    case DoClientOpen(pid, pd, name, pathname, regs, reserved) =>
      ClientOpenKeeps(s, calls, pid, pd, name, pathname, regs, reserved);
    case DoClientCall(pid, pd, op, regs, reserved) => ClientCallKeeps(s, calls, pid, pd, op, regs, reserved);
    case DoSpinTick(pid) => SpinTickKeeps(s, calls, pid);
    case DoClientResume(pid) => ClientResumeKeeps(s, calls, pid);
    case DoClose(pid, pd, reserved) => CloseKeeps(s, calls, pid, pd, reserved);
    case DoDup(pd) => DupKeeps(s, calls, pd);
    case DoReadBegin(pid, pd, regs) => ReadBeginKeeps(s, calls, pid, pd, regs);
    case DoReadResume(pid) => ReadResumeLegal(s, calls, pid); ReadResumeKeeps(s, calls, pid);
    case DoDaemonWrite(pid, pd, reply) =>
      DaemonWriteLegal(s, calls, pid, pd, reply); DaemonWriteKeeps(s, calls, pid, pd, reply);
  }

  /** The invariant holds after every run that has not halted, and its log is accepted. */
  lemma {:induction false} RunKeeps(steps: seq<Step>)
    requires Exec(steps).Next?
    ensures Accepted(Exec(steps).events) && Inv(Exec(steps).s, Replay(Exec(steps).events))
    decreases |steps|
  {
    if steps != [] {
      var pre, step := steps[..|steps| - 1], steps[|steps| - 1];
      RunKeeps(pre);
      var s, log := Exec(pre).s, Exec(pre).events;
      if Enabled(s, step) {
        StepKeeps(s, Replay(log), step);
        var events := Apply(s, step).events;
        if events == [] { assert log + events == log; } else {
          assert events == [events[0]];
          Extend(log, events[0]);
        }
      }
    }
  }

  /** No run ever follows a dangling pointer: neither a freed stack frame nor a closed path. */
  lemma {:induction false} NeverWild(steps: seq<Step>)
    ensures !Exec(steps).Wild?
    decreases |steps|
  {
    if steps != [] {
      var pre, step := steps[..|steps| - 1], steps[|steps| - 1];
      NeverWild(pre);
      if Exec(pre).Next? && Enabled(Exec(pre).s, step) {
        RunKeeps(pre);
        StepKeeps(Exec(pre).s, Replay(Exec(pre).events), step);
      }
    }
  }

  /** After any run, the next step halts or wraps exactly at the named guards. */
  lemma AssertsExactly(steps: seq<Step>, step: Step)
    requires Exec(steps).Next? && Enabled(Exec(steps).s, step)
    ensures Exec(steps + [step]).Halt? <==> AssertFires(Exec(steps).s, step)
    ensures Exec(steps + [step]).Overflow? <==> LinkWraps(Exec(steps).s, step)
  {
    RunKeeps(steps);
    StepKeeps(Exec(steps).s, Replay(Exec(steps).events), step);
    assert (steps + [step])[..|steps|] == steps;
  }

  /** Delivery: every client call that returns, returns the answer its daemon gave to that
      very call, and each call returns at most once. */
  lemma Delivery(steps: seq<Step>, i: nat)
    requires Exec(steps).Next? && i < |Exec(steps).events| && Exec(steps).events[i].Return?
    ensures ReturnsOwnReply(Exec(steps).events, i)
    ensures forall j: nat | j < |Exec(steps).events| && Exec(steps).events[j].Return?
              && Exec(steps).events[j].call == Exec(steps).events[i].call :: j == i
  {
    var log := Exec(steps).events;
    RunKeeps(steps);
    AcceptedReturns(log, i);
    forall j: nat | j < |log| && log[j].Return? && log[j].call == log[i].call ensures j == i {
      ReturnsOnce(log, i, j);
    }
  }

  /** No answer is lost: once a call is answered its process can resume, and resuming returns
      exactly that answer. */
  lemma NoAnswerLost(steps: seq<Step>, k: Frame)
    requires Exec(steps).Next? && Accepted(Exec(steps).events)
    requires k in Replay(Exec(steps).events) && Replay(Exec(steps).events)[k].Answered?
    ensures var s := Exec(steps).s; var c := Replay(Exec(steps).events)[k];
            && Enabled(s, DoClientResume(c.pid))
            && ClientResume(s, c.pid).Next?
            && ClientResume(s, c.pid).events == [Return(k, c.cli, c.reply.status, RegsAfter(c.ask, c.reply))]
  {
    RunKeeps(steps);
    var s, calls := Exec(steps).s, Replay(Exec(steps).events);
    assert CallOk(s, calls, k);
    assert ProcOk(s, calls, calls[k].pid);
    ClientResumeKeeps(s, calls, calls[k].pid);
  }

  /** Links: a descriptor's link count is its process links plus the peers pointing at it,
      unless it is an orphan whose daemon has since been closed. */
  lemma LinksConserved(steps: seq<Step>, d: Byte)
    requires Exec(steps).Next? && d in Exec(steps).s.paths
    ensures var paths := Exec(steps).s.paths;
            Conserved(paths, d) <==> !(Orphan(paths[d]) && Pointers(paths, d) == {})
  {
    RunKeeps(steps);
    var paths := Exec(steps).s.paths;
    assert LinkOk(paths, d);
    if Orphan(paths[d]) && Pointers(paths, d) != {} {
      var q :| q in Pointers(paths, d);
      assert |Pointers(paths, d)| == 1 by { assert |Pointers(paths, d) - {q}| == |Pointers(paths, d)| - 1; }
    }
  }

  /** At most one daemon serves a name. */
  lemma OneDaemonPerName(steps: seq<Step>, p: Byte, q: Byte)
    requires Exec(steps).Next? && p in Exec(steps).s.paths && q in Exec(steps).s.paths
    requires Exec(steps).s.paths[p].isDaemon && Exec(steps).s.paths[q].isDaemon
    requires Exec(steps).s.paths[p].name == Exec(steps).s.paths[q].name
    ensures p == q
  {
    RunKeeps(steps);
  }

  /** A daemon that writes when it has read no request never completes the write. */
  lemma WriteOutOfTurn(steps: seq<Step>, dae: Byte, reply: Reply)
    requires Exec(steps).Next? && dae in Exec(steps).s.paths
    requires Exec(steps).s.paths[dae].isDaemon && Exec(steps).s.paths[dae].turn == Reads
    ensures !DaemonWrite(Exec(steps).s, dae, reply).Next?
  {
    RunKeeps(steps);
    var s, calls := Exec(steps).s, Replay(Exec(steps).events);
    assert PathOk(s, dae);
    var cli := s.paths[dae].peer;
    if cli in s.paths {
      assert PathOk(s, cli);
      if s.paths[cli].paused in s.procs { assert ProcOk(s, calls, s.paths[cli].paused); }
    }
  }

  // ----- What a failed task reservation leaves behind -----

  /** A daemon still pointing at a client that has no call in flight. */
  predicate Jammed(s: State, dae: Byte, cli: Byte) {
    dae in s.paths && s.paths[dae].isDaemon && s.paths[dae].peer == cli && cli != NULL && !Busy(s, cli)
  }

  /** A jammed daemon serves nobody ever again: each later step leaves it jammed (or
      closes its path), delivers nothing to it, and a client that turns to it halts the system. */
  lemma JamStays(steps: seq<Step>, step: Step, dae: Byte, cli: Byte)
    requires Exec(steps).Next? && Jammed(Exec(steps).s, dae, cli) && Enabled(Exec(steps).s, step)
    requires Apply(Exec(steps).s, step).Next?
    ensures dae in Apply(Exec(steps).s, step).s.paths ==> Jammed(Apply(Exec(steps).s, step).s, dae, cli)
    ensures forall e | e in Apply(Exec(steps).s, step).events :: !ByDaemon(e, dae) && !(e.Submit? && e.dae == dae)
  {
    RunKeeps(steps);
    JamStep(Exec(steps).s, Replay(Exec(steps).events), step, dae, cli);
  }

  lemma JamStep(s: State, calls: Calls, step: Step, dae: Byte, cli: Byte)
    requires Inv(s, calls) && Jammed(s, dae, cli) && Enabled(s, step) && Apply(s, step).Next?
    ensures dae in Apply(s, step).s.paths ==> Jammed(Apply(s, step).s, dae, cli)
    ensures forall e | e in Apply(s, step).events :: !ByDaemon(e, dae) && !(e.Submit? && e.dae == dae)
  {
    assert PathOk(s, dae);
    match step
    case DoOpenDaemon(_, _) => assert Apply(s, step).s.procs == s.procs;
    case DoDup(_) => assert Apply(s, step).s.procs == s.procs;
    case DoReadBegin(pid, pd, _) => JamProcs(s, Apply(s, step).s, pid, cli);
    case DoSpinTick(pid) => assert ProcOk(s, calls, pid); JamProcs(s, Apply(s, step).s, pid, cli);
    case DoClientOpen(_, _, _, _, _, _) => JamOpen(s, calls, step, dae, cli);
    case DoClientCall(pid, pd, _, _, _) => JamCall(s, calls, step, dae, cli);
    case DoClose(_, _, _) => JamClose(s, calls, step, dae, cli);
    case DoReadResume(_) => JamDaemon(s, calls, step, dae, cli);
    case DoDaemonWrite(_, _, _) => JamDaemon(s, calls, step, dae, cli);
    case DoClientResume(_) => JamResume(s, calls, step, dae, cli);
  }

  lemma JamProcs(s: State, s': State, pid: Byte, cli: Byte)
    requires !Busy(s, cli)
    requires forall q | q in s'.procs && q != pid :: q in s.procs && s'.procs[q] == s.procs[q]
    requires pid in s'.procs ==> Path(s'.procs[pid]) != cli
    ensures !Busy(s', cli)
  {
    forall q | q in s'.procs ensures Path(s'.procs[q]) != cli { if q != pid { assert Path(s.procs[q]) != cli; } }
  }

  lemma JamOpen(s: State, calls: Calls, step: Step, dae: Byte, cli: Byte)
    requires Inv(s, calls) && Jammed(s, dae, cli) && Enabled(s, step) && step.DoClientOpen? && Apply(s, step).Next?
    ensures dae in Apply(s, step).s.paths ==> Jammed(Apply(s, step).s, dae, cli)
    ensures forall e | e in Apply(s, step).events :: !ByDaemon(e, dae) && !(e.Submit? && e.dae == dae)
  {
    assert PathOk(s, dae);
    if FindDaemon(s, step.name) != NULL {
      OpenTakes(s, step);
      JamProcs(s, Apply(s, step).s, step.pid, cli);
    }
  }

  /** An open attaches the new client to the idle daemon of its name. */
  lemma OpenTakes(s: State, step: Step)
    requires Enabled(s, step) && step.DoClientOpen? && Apply(s, step).Next? && FindDaemon(s, step.name) != NULL
    ensures var s', dae := Apply(s, step).s, FindDaemon(s, step.name);
            && s.paths[dae].peer == NULL
            && s'.paths.Keys == s.paths.Keys + {step.pd} && s'.paths[dae].peer == step.pd && !s'.paths[step.pd].isDaemon
            && (forall p | p in s.paths && p != dae :: s'.paths[p] == s.paths[p])
            && (forall q | q in s'.procs && q != step.pid :: q in s.procs && s'.procs[q] == s.procs[q])
            && (step.pid in s'.procs ==> Path(s'.procs[step.pid]) == step.pd)
            && forall e | e in Apply(s, step).events :: e.Submit? && e.dae == dae
  {
    var dae := FindDaemon(s, step.name);
    var s1 := s.(paths := s.paths[step.pd := PathDesc(false, 1, NULL, 0, 0, step.regs, "", 1, Reads)]);
    OperateTakes(SetPeer(s1, step.pd, dae).s, step.pid, step.pd, dae, OP_OPEN, step.pathname, step.reserved);
  }

  lemma JamDaemon(s: State, calls: Calls, step: Step, dae: Byte, cli: Byte)
    requires Inv(s, calls) && Jammed(s, dae, cli) && Enabled(s, step) && (step.DoReadResume? || step.DoDaemonWrite?) && Apply(s, step).Next?
    ensures dae in Apply(s, step).s.paths ==> Jammed(Apply(s, step).s, dae, cli)
    ensures forall e | e in Apply(s, step).events :: !ByDaemon(e, dae) && !(e.Submit? && e.dae == dae)
  {
    assert PathOk(s, dae);
    if step.DoReadResume? { assert ProcOk(s, calls, step.pid); } else { assert PathOk(s, step.pd); }
    JamProcs(s, Apply(s, step).s, step.pid, cli);
  }

  lemma JamResume(s: State, calls: Calls, step: Step, dae: Byte, cli: Byte)
    requires Inv(s, calls) && Jammed(s, dae, cli) && Enabled(s, step) && step.DoClientResume? && Apply(s, step).Next?
    ensures dae in Apply(s, step).s.paths ==> Jammed(Apply(s, step).s, dae, cli)
    ensures forall e | e in Apply(s, step).events :: !ByDaemon(e, dae) && !(e.Submit? && e.dae == dae)
  {
    assert PathOk(s, dae);
    assert ProcOk(s, calls, step.pid);
    JamProcs(s, Apply(s, step).s, step.pid, cli);
  }

  lemma JamCall(s: State, calls: Calls, step: Step, dae: Byte, cli: Byte)
    requires Inv(s, calls) && Jammed(s, dae, cli) && Enabled(s, step) && step.DoClientCall? && Apply(s, step).Next?
    ensures Jammed(Apply(s, step).s, dae, cli)
    ensures forall e | e in Apply(s, step).events :: !ByDaemon(e, dae) && !(e.Submit? && e.dae == dae)
  {
    assert PathOk(s, dae);
    assert PathOk(s, step.pd);
    ClientCallKeeps(s, calls, step.pid, step.pd, step.op, step.regs, step.reserved);
    JamProcs(s, Apply(s, step).s, step.pid, cli);
  }

  lemma JamClose(s: State, calls: Calls, step: Step, dae: Byte, cli: Byte)
    requires Inv(s, calls) && Jammed(s, dae, cli) && Enabled(s, step) && step.DoClose? && Apply(s, step).Next?
    ensures dae in Apply(s, step).s.paths ==> Jammed(Apply(s, step).s, dae, cli)
    ensures forall e | e in Apply(s, step).events :: !ByDaemon(e, dae) && !(e.Submit? && e.dae == dae)
  {
    assert PathOk(s, dae);
    if LastClientLink(s, step.pd) {
      JamLastClose(s, calls, step, dae, cli);
    } else {
      JamProcs(s, Apply(s, step).s, step.pid, cli);
    }
  }

  /** A client operation attaches the client to its idle daemon. */
  lemma OperateTakes(s: State, pid: Byte, cli: Byte, dae: Byte, op: Byte, pathname: seq<Byte>, reserved: bool)
    requires cli in s.paths && dae in s.paths && cli != dae && Operate(s, pid, cli, dae, op, pathname, reserved).Next?
    ensures var o := Operate(s, pid, cli, dae, op, pathname, reserved);
            && s.paths[dae].peer == NULL && o.s.paths.Keys == s.paths.Keys
            && o.s.paths[dae].peer == cli && o.s.paths[dae].isDaemon == s.paths[dae].isDaemon
            && o.s.paths[cli].peer == s.paths[cli].peer && o.s.paths[cli].isDaemon == s.paths[cli].isDaemon
            && o.s.paths[cli].linkCount == s.paths[cli].linkCount + 1
            && (forall p | p in s.paths && p != dae && p != cli :: o.s.paths[p] == s.paths[p])
            && (if reserved then pid in o.s.procs && Path(o.s.procs[pid]) == cli && o.s.procs == s.procs[pid := o.s.procs[pid]]
                else o.s.procs == s.procs)
            && forall e | e in o.events :: e.Submit? && e.dae == dae
  {}

  /** The state when the last link has been dropped. */
  function Dropped(s: State, pd: Byte): State
    requires pd in s.paths && s.paths[pd].users > 0
  {
    var d := s.paths[pd];
    s.(paths := s.paths[pd := d.(users := d.users - 1, linkCount := Dec(d.linkCount))])
  }

  /** A client's last close is one more operation; without a task number the client is detached
      again at once. */
  lemma LastCloseIs(s: State, calls: Calls, step: Step)
    requires Inv(s, calls) && Enabled(s, step) && step.DoClose? && Apply(s, step).Next? && LastClientLink(s, step.pd)
    ensures var dae := s.paths[step.pd].peer;
            && dae in s.paths && dae != step.pd && s.paths[dae].isDaemon
            && var o := Operate(Dropped(s, step.pd), step.pid, step.pd, dae, OP_CLOSE, [], step.reserved);
               && o.Next? && step.pd in o.s.paths
               && Apply(s, step) == if step.reserved then o else Unlink(o.s, step.pd)
  {
    assert PathOk(s, step.pd) && LinkOk(s.paths, step.pd);
  }

  lemma LastCloseTakes(s: State, calls: Calls, step: Step)
    requires Inv(s, calls) && Enabled(s, step) && step.DoClose? && Apply(s, step).Next? && LastClientLink(s, step.pd)
    ensures var s', dae := Apply(s, step).s, s.paths[step.pd].peer;
            && dae in s.paths && s.paths[dae].isDaemon && s.paths[dae].peer == NULL
            && s'.paths.Keys == s.paths.Keys && s'.paths[dae].peer == step.pd && s'.paths[dae].isDaemon
            && s'.paths[step.pd].peer == (if step.reserved then dae else NULL) && !s'.paths[step.pd].isDaemon
            && (forall p | p in s.paths && p != dae && p != step.pd :: s'.paths[p] == s.paths[p])
            && (if step.reserved then step.pid in s'.procs && Path(s'.procs[step.pid]) == step.pd && s'.procs == s.procs[step.pid := s'.procs[step.pid]]
                else s'.procs == s.procs)
            && forall e | e in Apply(s, step).events :: e.Submit? && e.dae == dae
  {
    LastCloseIs(s, calls, step);
    OperateTakes(Dropped(s, step.pd), step.pid, step.pd, s.paths[step.pd].peer, OP_CLOSE, [], step.reserved);
  }

  lemma JamLastClose(s: State, calls: Calls, step: Step, dae: Byte, cli: Byte)
    requires Inv(s, calls) && Jammed(s, dae, cli) && Enabled(s, step) && step.DoClose? && Apply(s, step).Next?
    requires LastClientLink(s, step.pd)
    ensures Jammed(Apply(s, step).s, dae, cli)
    ensures forall e | e in Apply(s, step).events :: !ByDaemon(e, dae) && !(e.Submit? && e.dae == dae)
  {
    LastCloseTakes(s, calls, step);
    assert PathOk(s, dae);
    JamProcs(s, Apply(s, step).s, step.pid, cli);
  }

  lemma ExecStep(steps: seq<Step>, step: Step)
    requires Exec(steps).Next? && Enabled(Exec(steps).s, step) && Apply(Exec(steps).s, step).Next?
    ensures Exec(steps + [step]).Next? && Exec(steps + [step]).s == Apply(Exec(steps).s, step).s
  {
    assert (steps + [step])[..|steps|] == steps;
  }

  /** A client opens, is answered, and closes without a task number to be had; then its daemon
      closes.  The client's descriptor keeps a link count that nothing accounts for. */
  lemma LinkCountCanLeak()
    ensures exists steps: seq<Step>, d: Byte ::
              Exec(steps).Next? && d in Exec(steps).s.paths && !Conserved(Exec(steps).s.paths, d)
  {
    var daemon := PathDesc(true, 2, 2, 0, 0, NO_REGS, "D", 1, Reads);
    var client := PathDesc(false, 2, 1, 0, 0, NO_REGS, "", 1, Reads);
    var frame := ClientTmp(OP_OPEN, [], 0, 0);
    var run: seq<Step> := [];
    assert Exec(run).s == INIT;
    ExecStep(run, DoOpenDaemon(1, "D"));
    run := run + [DoOpenDaemon(1, "D")];
    assert Exec(run).s.paths == map[1 := daemon.(linkCount := 1, peer := 0)];
    ExecStep(run, DoClientOpen(5, 2, "D", [], NO_REGS, true));
    run := run + [DoClientOpen(5, 2, "D", [], NO_REGS, true)];
    assert Exec(run).s == State(map[1 := daemon, 2 := client], map[5 := Spin(2, 1, 0, SPIN_LIMIT)], {}, map[0 := frame], 1);
    LeakMiddle(run, daemon, client, frame);
  }

  /** From there: the daemon reads the request. */
  lemma LeakMiddle(begun: seq<Step>, daemon: PathDesc, client: PathDesc, frame: ClientTmp)
    requires daemon == PathDesc(true, 2, 2, 0, 0, NO_REGS, "D", 1, Reads)
    requires client == PathDesc(false, 2, 1, 0, 0, NO_REGS, "", 1, Reads) && frame == ClientTmp(OP_OPEN, [], 0, 0)
    requires Exec(begun).Next?
    requires Exec(begun).s == State(map[1 := daemon, 2 := client], map[5 := Spin(2, 1, 0, SPIN_LIMIT)], {}, map[0 := frame], 1)
    ensures exists steps: seq<Step>, d: Byte ::
              Exec(steps).Next? && d in Exec(steps).s.paths && !Conserved(Exec(steps).s.paths, d)
  {
    var run, room := begun, Regs(0, 0, 100, []);
    ExecStep(run, DoReadBegin(6, 1, room));
    run := run + [DoReadBegin(6, 1, room)];
    var reading := daemon.(paused := 6, regs := room, turn := Sleeping);
    assert Exec(run).s == State(map[1 := reading, 2 := client], map[5 := Spin(2, 1, 0, SPIN_LIMIT), 6 := InRead(1)], {}, map[0 := frame], 1);
    LeakRead(run, daemon, reading, client, frame);
  }

  /** The client finds the daemon asleep and wakes it. */
  lemma LeakRead(begun: seq<Step>, daemon: PathDesc, reading: PathDesc, client: PathDesc, frame: ClientTmp)
    requires daemon == PathDesc(true, 2, 2, 0, 0, NO_REGS, "D", 1, Reads)
    requires reading == daemon.(paused := 6, regs := Regs(0, 0, 100, []), turn := Sleeping)
    requires client == PathDesc(false, 2, 1, 0, 0, NO_REGS, "", 1, Reads) && frame == ClientTmp(OP_OPEN, [], 0, 0)
    requires Exec(begun).Next?
    requires Exec(begun).s == State(map[1 := reading, 2 := client], map[5 := Spin(2, 1, 0, SPIN_LIMIT), 6 := InRead(1)], {}, map[0 := frame], 1)
    ensures exists steps: seq<Step>, d: Byte ::
              Exec(steps).Next? && d in Exec(steps).s.paths && !Conserved(Exec(steps).s.paths, d)
  {
    var run := begun;
    ExecStep(run, DoSpinTick(5));
    run := run + [DoSpinTick(5)];
    assert Exec(run).s == State(map[1 := reading, 2 := client.(paused := 5)], map[5 := Pause(2, 1, 0), 6 := InRead(1)], {6}, map[0 := frame], 1);
    ExecStep(run, DoReadResume(6));
    run := run + [DoReadResume(6)];
    var served := daemon.(regs := reading.regs.(y := REQUEST_SIZE), turn := Writes);
    assert Exec(run).s == State(map[1 := served, 2 := client.(paused := 5)], map[5 := Pause(2, 1, 0)], {}, map[0 := frame], 1);
    LeakTail(run, served, client, frame);
  }

  /** The second half of that run, from the daemon's answer on. */
  lemma LeakTail(run: seq<Step>, served: PathDesc, client: PathDesc, frame: ClientTmp)
    requires served == PathDesc(true, 2, 2, 0, 0, Regs(0, 0, REQUEST_SIZE, []), "D", 1, Writes)
    requires client == PathDesc(false, 2, 1, 0, 0, NO_REGS, "", 1, Reads) && frame == ClientTmp(OP_OPEN, [], 0, 0)
    requires Exec(run).Next?
    requires Exec(run).s == State(map[1 := served, 2 := client.(paused := 5)], map[5 := Pause(2, 1, 0)], {}, map[0 := frame], 1)
    ensures exists steps: seq<Step>, d: Byte ::
              Exec(steps).Next? && d in Exec(steps).s.paths && !Conserved(Exec(steps).s.paths, d)
  {
    var run := run;
    var answer := DoDaemonWrite(6, 1, Reply(0, 0, []));
    var idle := served.(peer := 0, turn := Reads);
    ExecStep(run, answer);
    run := run + [answer];
    assert Exec(run).s == State(map[1 := idle, 2 := client.(paused := 5, linkCount := 1)], map[5 := Pause(2, 1, 0)], {5}, map[0 := frame], 1);
    ExecStep(run, DoClientResume(5));
    run := run + [DoClientResume(5)];
    assert Exec(run).s == State(map[1 := idle, 2 := client.(linkCount := 1)], map[], {}, map[], 1);
    LeakEnd(run, idle, client);
  }

  /** The two closes. */
  lemma LeakEnd(run: seq<Step>, idle: PathDesc, client: PathDesc)
    requires idle == PathDesc(true, 2, 0, 0, 0, Regs(0, 0, REQUEST_SIZE, []), "D", 1, Reads)
    requires client == PathDesc(false, 2, 1, 0, 0, NO_REGS, "", 1, Reads)
    requires Exec(run).Next? && Exec(run).s == State(map[1 := idle, 2 := client.(linkCount := 1)], map[], {}, map[], 1)
    ensures exists steps: seq<Step>, d: Byte ::
              Exec(steps).Next? && d in Exec(steps).s.paths && !Conserved(Exec(steps).s.paths, d)
  {
    var run := run;
    ExecStep(run, DoClose(5, 2, false));
    run := run + [DoClose(5, 2, false)];
    var orphan := PathDesc(false, 1, 0, 0, 1, NO_REGS, "", 0, Reads);
    assert Exec(run).s.paths == map[1 := idle.(linkCount := 1, peer := 2), 2 := orphan];
    assert Exec(run).s.procs == map[];
    ExecStep(run, DoClose(6, 1, true));
    run := run + [DoClose(6, 1, true)];
    assert Exec(run).s.paths == map[2 := orphan];
    assert Pointers(map[2 := orphan], 2) == {};
    assert !Conserved(Exec(run).s.paths, 2);
  }
}
