/**
  fusec.c as the imperative program it is: one table of path descriptors updated field by
  field.  Each method is the code from one Os9Sleep to the next, proved against the
  corresponding segment of module Fuse.  Enter is the kernel and IOMan, calling whichever
  segment comes next.
 */
module FuseManager {
  import opened Bytes
  import opened FuseRpc
  import Fuse
  import opened FuseTypes = Fuse
  import opened FuseProofs
  import opened FuseRuns

  /** How a method stops: normally, at a failing assert, at a bad pointer, at a link byte's limit. */
  datatype Stop = Ok | Asserted | BadPointer | Wrapped

  class Manager {
    var paths: map<Byte, PathDesc>
    var procs: map<Byte, Proc>
    var woken: set<Byte>
    var frames: map<Frame, ClientTmp>
    var nextFrame: Frame
    ghost var log: seq<Event>

    ghost function View(): State
      reads this
    {
      State(paths, procs, woken, frames, nextFrame)
    }

    /** The method stopped as the segment says, and if it went on, in the state it says. */
    twostate predicate Did(stop: Stop, o: Outcome)
      reads this
    {
      match o
      case Next(s, events) => stop == Ok && View() == s && log == old(log) + events
      case Halt => stop == Asserted
      case Wild => stop == BadPointer
      case Overflow => stop == Wrapped
    }

    /** The log is that of correct remote calls, and the tables agree with it. */
    ghost predicate Valid()
      reads this
    {
      Accepted(log) && Inv(View(), Replay(log))
    }

    constructor ()
      ensures View() == INIT && log == [] && Valid()
    {
      paths, procs, woken, frames, nextFrame, log := map[], map[], {}, map[], 0, [];
    }

    method SetPeer(subject: Byte, target: Byte) returns (stop: Stop)
      requires subject in paths && target in paths
      modifies this
      ensures Did(stop, Fuse.SetPeer(old(View()), subject, target))
      ensures paths.Keys == old(paths.Keys)
    {
      if paths[subject].peer != NULL { return Asserted; }
      if paths[target].linkCount == 255 { return Wrapped; }
      paths := paths[target := paths[target].(linkCount := paths[target].linkCount + 1)];
      paths := paths[subject := paths[subject].(peer := target)];
      stop := Ok;
    }

    method ClearPeer(subject: Byte, target: Byte)
      requires subject in paths && target in paths
      modifies this
      ensures View() == Fuse.ClearPeer(old(View()), subject, target) && log == old(log)
    {
      paths := paths[target := paths[target].(linkCount := Dec(paths[target].linkCount))];
      paths := paths[subject := paths[subject].(peer := NULL)];
    }

    method Awaken(pd: Byte) returns (stop: Stop)
      requires pd in paths
      modifies this`woken
      ensures stop == (if paths[pd].paused == 0 then Asserted else Ok)
      ensures stop == Ok ==> woken == old(woken) + {paths[pd].paused}
    {
      if paths[pd].paused == 0 { return Asserted; }
      woken := woken + {paths[pd].paused};
      stop := Ok;
    }

    method FindDaemon(name: string) returns (got: Byte)
      ensures got == Fuse.FindDaemon(View(), name)
    {
      var i: nat := 1;
      while i < 256
        invariant 1 <= i <= 256
        invariant Fuse.FindDaemon(View(), name) == FindFrom(View(), name, i)
      {
        if i in paths && paths[i].isDaemon && paths[i].name == name { return i; }
        i := i + 1;
      }
      got := NULL;
    }

    method OpenDaemonC(pd: Byte, name: string) returns (stop: Stop)
      modifies this
      ensures Did(stop, OpenDaemon(old(View()), pd, name))
    {
      var already := FindDaemon(name);
      if already != NULL { return Ok; }
      if |name| >= DAEMON_NAME_MAX - 1 { return Asserted; }
      paths := paths[pd := PathDesc(true, 1, NULL, 0, 0, NO_REGS, name, 1, Reads)];
      stop := Ok;
    }

    method SwitchProcess(pid: Byte, cli: Byte, dae: Byte, frame: Frame, timeout: nat)
      requires cli in paths && dae in paths
      modifies this
      ensures View() == Switch(old(View()), pid, cli, dae, frame, timeout) && log == old(log)
    {
      if paths[dae].paused == 0 {
        procs := procs[pid := Spin(cli, dae, frame, timeout)];
        return;
      }
      var _ := Awaken(dae);
      paths := paths[cli := paths[cli].(paused := pid)];
      procs := procs[pid := Pause(cli, dae, frame)];
    }

    /** ClientOperationC once client and daemon are known. */
    method ClientOperation(pid: Byte, cli: Byte, dae: Byte, op: Byte, pathname: seq<Byte>, reserved: bool) returns (stop: Stop)
      requires cli in paths && dae in paths
      modifies this
      ensures Did(stop, Operate(old(View()), pid, cli, dae, op, pathname, reserved))
      ensures stop == Ok ==> cli in paths
    {
      ghost var ask := Ask(op, cli, paths[cli].regs, pathname);
      stop := SetPeer(dae, cli);
      if stop != Ok { return; }
      var k := nextFrame;
      paths := paths[cli := paths[cli].(clientTmp := k)];
      nextFrame := k + 1;
      if !reserved { return; }
      frames := frames[k := ClientTmp(op, pathname, 0, 0)];
      SwitchProcess(pid, cli, dae, k, SPIN_LIMIT);
      log := log + [Submit(k, pid, cli, dae, ask)];
    }

    method OpenC(pid: Byte, cli: Byte, name: string, pathname: seq<Byte>, regs: Regs, reserved: bool) returns (stop: Stop)
      modifies this
      ensures Did(stop, ClientOpen(old(View()), pid, cli, name, pathname, regs, reserved))
    {
      var dae := FindDaemon(name);
      if dae == NULL { return Ok; }
      paths := paths[cli := PathDesc(false, 1, NULL, 0, 0, regs, "", 1, Reads)];
      stop := SetPeer(cli, dae);
      if stop != Ok { return; }
      stop := ClientOperation(pid, cli, dae, OP_OPEN, pathname, reserved);
    }

    method OperateOnPeer(pid: Byte, cli: Byte, op: Byte, reserved: bool) returns (stop: Stop)
      requires cli in paths
      modifies this
      ensures Did(stop, OnPeer(old(View()), pid, cli, op, reserved))
      ensures stop == Ok ==> cli in paths
    {
      var dae := paths[cli].peer;
      if dae == NULL { return Asserted; }
      if dae !in paths { return BadPointer; }
      if !paths[dae].isDaemon { return Asserted; }
      stop := ClientOperation(pid, cli, dae, op, [], reserved);
    }

    method CallC(pid: Byte, cli: Byte, op: Byte, regs: Regs, reserved: bool) returns (stop: Stop)
      requires cli in paths
      modifies this
      ensures Did(stop, ClientCall(old(View()), pid, cli, op, regs, reserved))
    {
      paths := paths[cli := paths[cli].(regs := regs)];
      stop := OperateOnPeer(pid, cli, op, reserved);
    }

    method AfterTick(pid: Byte) returns (stop: Stop)
      requires pid in procs && procs[pid].Spin?
      modifies this
      ensures Did(stop, Fuse.SpinTick(old(View()), pid))
    {
      var p := procs[pid];
      if p.cli !in paths || p.dae !in paths { return BadPointer; }
      if p.timeout <= 1 { return Asserted; }
      SwitchProcess(pid, p.cli, p.dae, p.frame, p.timeout - 1);
      stop := Ok;
    }

    method UnlinkC(cli: Byte) returns (stop: Stop)
      requires cli in paths
      modifies this
      ensures Did(stop, Unlink(old(View()), cli))
    {
      var dae := paths[cli].peer;
      if dae !in paths { return BadPointer; }
      ClearPeer(cli, dae);
      if paths[cli].linkCount == 0 { paths := paths - {cli}; }
      stop := Ok;
    }

    method AfterPause(pid: Byte) returns (stop: Stop)
      requires pid in procs && procs[pid].Pause?
      modifies this
      ensures Did(stop, Fuse.ClientResume(old(View()), pid))
    {
      var p := procs[pid];
      if p.cli !in paths || p.frame !in frames { return BadPointer; }
      var t := frames[p.frame];
      paths := paths[p.cli := paths[p.cli].(paused := 0)];
      woken := woken - {pid};
      procs := procs - {pid};
      frames := frames - {p.frame};
      ghost var event := Return(p.frame, p.cli, t.status, paths[p.cli].regs);
      stop := Ok;
      if t.op == OP_CLOSE { stop := UnlinkC(p.cli); }
      if stop == Ok { log := log + [event]; }
    }

    method CloseC(pid: Byte, pd: Byte, reserved: bool) returns (stop: Stop)
      requires pd in paths && paths[pd].users > 0
      modifies this
      ensures Did(stop, Close(old(View()), pid, pd, reserved))
    {
      paths := paths[pd := paths[pd].(users := paths[pd].users - 1, linkCount := Dec(paths[pd].linkCount))];
      if paths[pd].linkCount != 0 { return Ok; }
      if paths[pd].isDaemon {
        paths := paths - {pd};
        return Ok;
      }
      stop := OperateOnPeer(pid, pd, OP_CLOSE, reserved);
      if stop == Ok && !reserved { stop := UnlinkC(pd); }
    }

    method DupC(pd: Byte) returns (stop: Stop)
      requires pd in paths
      modifies this
      ensures Did(stop, Dup(old(View()), pd))
    {
      if paths[pd].linkCount == 255 { return Wrapped; }
      paths := paths[pd := paths[pd].(users := paths[pd].users + 1, linkCount := paths[pd].linkCount + 1)];
      stop := Ok;
    }

    method DaemonReadUntilPause(pid: Byte, dae: Byte, regs: Regs) returns (stop: Stop)
      requires dae in paths
      modifies this
      ensures Did(stop, ReadBegin(old(View()), pid, dae, regs))
    {
      paths := paths[dae := paths[dae].(paused := pid, regs := regs, turn := Sleeping)];
      procs := procs[pid := InRead(dae)];
      stop := Ok;
    }

    method DaemonReadAfterPause(pid: Byte) returns (stop: Stop)
      requires pid in procs && procs[pid].InRead?
      modifies this
      ensures Did(stop, Fuse.ReadResume(old(View()), pid))
    {
      var dae := procs[pid].dae;
      if dae !in paths { return BadPointer; }
      var cli := paths[dae].peer;
      if cli == NULL { return Asserted; }
      if cli !in paths { return BadPointer; }
      if paths[cli].isDaemon || paths[cli].peer != dae { return Asserted; }
      var k := paths[cli].clientTmp;
      if k !in frames { return BadPointer; }
      var t, room := frames[k], paths[dae].regs.y;
      if (CarriesPathname(t.op) || CarriesData(t.op)) && room <= REQUEST_SIZE { return Asserted; }
      var request := RequestFor(Ask(t.op, cli, paths[cli].regs, t.pathname), room);
      var d := paths[dae];
      paths := paths[dae := d.(paused := 0, turn := Writes, regs := d.regs.(y := |request.payload| + REQUEST_SIZE))];
      woken := woken - {pid};
      procs := procs - {pid};
      log := log + [Deliver(k, dae, room, request)];
      stop := Ok;
    }

    method DaemonWriteC(dae: Byte, reply: Reply) returns (stop: Stop)
      requires dae in paths
      modifies this
      ensures Did(stop, DaemonWrite(old(View()), dae, reply))
      ensures stop == Ok ==> Answers(old(View()), dae, reply, View())
    {
      var cli := paths[dae].peer;
      if !paths[dae].isDaemon || cli == NULL { return Asserted; }
      if cli !in paths { return BadPointer; }
      if paths[cli].isDaemon || paths[cli].peer != dae { return Asserted; }
      var k := paths[cli].clientTmp;
      if k !in frames { return BadPointer; }
      var t := frames[k];
      frames := frames[k := t.(status := reply.status, size := reply.size)];
      paths := paths[cli := paths[cli].(regs := RegsAfter(Ask(t.op, cli, paths[cli].regs, t.pathname), reply))];
      ClearPeer(dae, cli);
      stop := Awaken(cli);
      if stop != Ok { return; }
      paths := paths[dae := paths[dae].(turn := Reads)];
      log := log + [Answer(k, dae, reply)];
      DaemonWriteAnswers(old(View()), dae, reply);
    }

    /** Whatever the kernel may call next keeps the tables and the log in order, follows no bad
        pointer, and stops exactly where an assertion is named to fire or a link count to wrap. */
    method Enter(step: Step) returns (stop: Stop)
      requires Valid() && Enabled(View(), step)
      modifies this
      ensures stop == Ok ==> Valid() && old(log) <= log
      ensures stop != BadPointer
      ensures stop == Asserted <==> AssertFires(old(View()), step)
      ensures stop == Wrapped <==> LinkWraps(old(View()), step)
      ensures Did(stop, Apply(old(View()), step))
      ensures stop == Ok && step.DoDaemonWrite? ==> Answers(old(View()), step.pd, step.reply, View())
    {
      match step {
        case DoOpenDaemon(pd, name) => stop := OpenDaemonC(pd, name);
        case DoClientOpen(pid, pd, name, pathname, regs, reserved) => stop := OpenC(pid, pd, name, pathname, regs, reserved);
        case DoClientCall(pid, pd, op, regs, reserved) => stop := CallC(pid, pd, op, regs, reserved);
        case DoSpinTick(pid) => stop := AfterTick(pid);
        case DoClientResume(pid) => stop := AfterPause(pid);
        case DoClose(pid, pd, reserved) => stop := CloseC(pid, pd, reserved);
        case DoDup(pd) => stop := DupC(pd);
        case DoReadBegin(pid, pd, regs) => stop := DaemonReadUntilPause(pid, pd, regs);
        case DoReadResume(pid) => stop := DaemonReadAfterPause(pid);
        case DoDaemonWrite(_, pd, reply) => stop := DaemonWriteC(pd, reply);
      }
      ReplayGrows(step);
    }

    /** The segment's event, if it made one, extends an accepted log. */
    twostate lemma ReplayGrows(step: Step)
      requires old(Valid()) && Enabled(old(View()), step)
      ensures var o := Apply(old(View()), step);
              && !o.Wild?
              && (o.Halt? <==> AssertFires(old(View()), step)) && (o.Overflow? <==> LinkWraps(old(View()), step))
              && (o.Next? && View() == o.s && log == old(log) + o.events ==> Valid())
    {
      StepKeeps(old(View()), Replay(old(log)), step);
      var o := Apply(old(View()), step);
      if o.Next? && View() == o.s && log == old(log) + o.events {
        if o.events == [] {
          assert log == old(log);
        } else {
          assert o.events == [o.events[0]];
          Extend(old(log), o.events[0]);
        }
      }
    }
  }
}
