/**
  The FUSE file manager (fusec.c) as atomic kernel segments: a process keeps the
  processor from one Os9Sleep to the next, so each function below is the code
  between two sleeps.  A failing `assert` is the outcome Halt.
 */
module Fuse {
  import opened Bytes
  import opened FuseRpc

  // The highest path number IOMan can hand out is 255; 0 is the null descriptor.
  const NULL: Byte := 0
  const SPIN_LIMIT: nat := 50
  const DAEMON_NAME_MAX: nat := 28

  /** Which call a daemon program that alternates Read and Write makes next. */
  datatype Turn = Reads | Sleeping | Writes

  /** struct PathDesc, plus two facts kept outside it: the process links IOMan
      counted into link_count (users), and the daemon program's turn. */
  datatype PathDesc = PathDesc(isDaemon: bool, linkCount: Byte, peer: Byte, paused: Byte,
                               clientTmp: Frame, regs: Regs, name: string, users: nat, turn: Turn)

  /** struct ClientTmp, living in a client's kernel stack frame. */
  datatype ClientTmp = ClientTmp(op: Byte, pathname: seq<Byte>, status: Byte, size: nat)

  /** Where a process sleeps inside the file manager, with the locals it will use. */
  datatype Proc =
    | InRead(dae: Byte)
    | Spin(cli: Byte, dae: Byte, frame: Frame, timeout: nat)
    | Pause(cli: Byte, dae: Byte, frame: Frame)

  datatype State = State(paths: map<Byte, PathDesc>, procs: map<Byte, Proc>, woken: set<Byte>,
                         frames: map<Frame, ClientTmp>, nextFrame: Frame)

  /** Next; an assertion fired; a dangling or null pointer was followed; a link byte wrapped. */
  datatype Outcome = Next(s: State, events: seq<Event>) | Halt | Wild | Overflow

  const NO_REGS := Regs(0, 0, 0, [])
  const INIT := State(map[], map[], {}, map[], 0)

  // ----- Peers and links -----

  /** A byte counted down, wrapping at zero as link_count-- does. */
  function Dec(b: Byte): Byte { if b == 0 then 255 else b - 1 }

  function SetPeer(s: State, subject: Byte, target: Byte): Outcome
    requires subject in s.paths && target in s.paths
  {
    if s.paths[subject].peer != NULL then Halt
    else if s.paths[target].linkCount == 255 then Overflow
    else
      var paths := s.paths[target := s.paths[target].(linkCount := s.paths[target].linkCount + 1)];
      Next(s.(paths := paths[subject := paths[subject].(peer := target)]), [])
  }

  function ClearPeer(s: State, subject: Byte, target: Byte): State
    requires subject in s.paths && target in s.paths
  {
    var paths := s.paths[target := s.paths[target].(linkCount := Dec(s.paths[target].linkCount))];
    s.(paths := paths[subject := paths[subject].(peer := NULL)])
  }

  // ----- Opening a daemon -----

  function FindFrom(s: State, name: string, i: nat): (r: Byte)
    requires i > 0
    ensures r != NULL ==> r in s.paths && s.paths[r].isDaemon && s.paths[r].name == name
    ensures r == NULL ==> forall p :: p in s.paths && p >= i && s.paths[p].isDaemon ==> s.paths[p].name != name
    decreases 256 - i
  {
    if i >= 256 then NULL
    else if i in s.paths && s.paths[i].isDaemon && s.paths[i].name == name then i
    else FindFrom(s, name, i + 1)
  }

  function FindDaemon(s: State, name: string): Byte { FindFrom(s, name, 1) }

  function OpenDaemon(s: State, pd: Byte, name: string): Outcome {
    if FindDaemon(s, name) != NULL then Next(s, [])
    else if |name| >= DAEMON_NAME_MAX - 1 then Halt
    else Next(s.(paths := s.paths[pd := PathDesc(true, 1, NULL, 0, 0, NO_REGS, name, 1, Reads)]), [])
  }

  // ----- Client operations -----

  /** SwitchProcess: spin while the daemon is not paused, else wake it and pause. */
  function Switch(s: State, pid: Byte, cli: Byte, dae: Byte, frame: Frame, timeout: nat): State
    requires cli in s.paths && dae in s.paths
  {
    if s.paths[dae].paused == 0 then s.(procs := s.procs[pid := Spin(cli, dae, frame, timeout)])
    else s.(woken := s.woken + {s.paths[dae].paused},
            paths := s.paths[cli := s.paths[cli].(paused := pid)],
            procs := s.procs[pid := Pause(cli, dae, frame)])
  }

  /** ClientOperationC from the daemon-to-client SetPeer on, up to its first sleep or its
      early return when no task number can be reserved. */
  function Operate(s: State, pid: Byte, cli: Byte, dae: Byte, op: Byte, pathname: seq<Byte>, reserved: bool): Outcome
    requires cli in s.paths && dae in s.paths
  {
    match SetPeer(s, dae, cli)
    case Next(s1, _) =>
      var k := s1.nextFrame;
      var s2 := s1.(paths := s1.paths[cli := s1.paths[cli].(clientTmp := k)], nextFrame := k + 1);
      if !reserved then Next(s2, [])
      else
        var s3 := s2.(frames := s2.frames[k := ClientTmp(op, pathname, 0, 0)]);
        Next(Switch(s3, pid, cli, dae, k, SPIN_LIMIT),
             [Submit(k, pid, cli, dae, Ask(op, cli, s.paths[cli].regs, pathname))])
    case other => other
  }

  function ClientOpen(s: State, pid: Byte, cli: Byte, name: string, pathname: seq<Byte>, regs: Regs, reserved: bool): Outcome
  {
    var dae := FindDaemon(s, name);
    if dae == NULL then Next(s, [])
    else
      var s1 := s.(paths := s.paths[cli := PathDesc(false, 1, NULL, 0, 0, regs, "", 1, Reads)]);
      match SetPeer(s1, cli, dae)
      case Next(s2, _) => Operate(s2, pid, cli, dae, OP_OPEN, pathname, reserved)
      case other => other
  }

  /** ClientOperationC on a path that is already open: the daemon is the client's peer. */
  function OnPeer(s: State, pid: Byte, cli: Byte, op: Byte, reserved: bool): Outcome
    requires cli in s.paths
  {
    var dae := s.paths[cli].peer;
    if dae == NULL then Halt
    else if dae !in s.paths then Wild
    else if !s.paths[dae].isDaemon then Halt
    else Operate(s, pid, cli, dae, op, [], reserved)
  }

  function ClientCall(s: State, pid: Byte, cli: Byte, op: Byte, regs: Regs, reserved: bool): Outcome
    requires cli in s.paths
  {
    OnPeer(s.(paths := s.paths[cli := s.paths[cli].(regs := regs)]), pid, cli, op, reserved)
  }

  function SpinTick(s: State, pid: Byte): Outcome
    requires pid in s.procs && s.procs[pid].Spin?
  {
    var Spin(cli, dae, k, timeout) := s.procs[pid];
    if cli !in s.paths || dae !in s.paths then Wild
    else if timeout <= 1 then Halt
    else Next(Switch(s, pid, cli, dae, k, timeout - 1), [])
  }

  /** The tail of CloseC for a client, and IOMan's release of an unlinked descriptor. */
  function Unlink(s: State, cli: Byte): Outcome
    requires cli in s.paths
  {
    var dae := s.paths[cli].peer;
    if dae !in s.paths then Wild
    else
      var s1 := ClearPeer(s, cli, dae);
      Next(if s1.paths[cli].linkCount == 0 then s1.(paths := s1.paths - {cli}) else s1, [])
  }

  function ClientResume(s: State, pid: Byte): Outcome
    requires pid in s.procs && s.procs[pid].Pause?
  {
    var Pause(cli, dae, k) := s.procs[pid];
    if cli !in s.paths || k !in s.frames then Wild
    else
      var t := s.frames[k];
      var s1 := s.(paths := s.paths[cli := s.paths[cli].(paused := 0)], woken := s.woken - {pid},
                   procs := s.procs - {pid}, frames := s.frames - {k});
      var event := Return(k, cli, t.status, s.paths[cli].regs);
      if t.op != OP_CLOSE then Next(s1, [event])
      else match Unlink(s1, cli)
           case Next(s2, _) => Next(s2, [event])
           case other => other
  }

  /** IOMan drops one process link, then CloseC runs. */
  function Close(s: State, pid: Byte, pd: Byte, reserved: bool): Outcome
    requires pd in s.paths && s.paths[pd].users > 0
  {
    var d := s.paths[pd];
    var s1 := s.(paths := s.paths[pd := d.(users := d.users - 1, linkCount := Dec(d.linkCount))]);
    if s1.paths[pd].linkCount != 0 then Next(s1, [])
    else if d.isDaemon then Next(s1.(paths := s1.paths - {pd}), [])
    else match OnPeer(s1, pid, pd, OP_CLOSE, reserved)
         case Next(s2, events) => if reserved || pd !in s2.paths then Next(s2, events) else Unlink(s2, pd)
         case other => other
  }

  function Dup(s: State, pd: Byte): Outcome
    requires pd in s.paths
  {
    var d := s.paths[pd];
    if d.linkCount == 255 then Overflow
    else Next(s.(paths := s.paths[pd := d.(users := d.users + 1, linkCount := d.linkCount + 1)]), [])
  }

  // ----- Daemon operations -----

  function ReadBegin(s: State, pid: Byte, dae: Byte, regs: Regs): Outcome
    requires dae in s.paths
  {
    Next(s.(paths := s.paths[dae := s.paths[dae].(paused := pid, regs := regs, turn := Sleeping)],
            procs := s.procs[pid := InRead(dae)]), [])
  }

  function ReadResume(s: State, pid: Byte): Outcome
    requires pid in s.procs && s.procs[pid].InRead?
  {
    var dae := s.procs[pid].dae;
    if dae !in s.paths then Wild
    else
      var cli := s.paths[dae].peer;
      if cli == NULL then Halt
      else if cli !in s.paths then Wild
      else if s.paths[cli].isDaemon || s.paths[cli].peer != dae then Halt
      else
        var k := s.paths[cli].clientTmp;
        if k !in s.frames then Wild
        else
          var op, room := s.frames[k].op, s.paths[dae].regs.y;
          if (CarriesPathname(op) || CarriesData(op)) && room <= REQUEST_SIZE then Halt
          else
            var request := RequestFor(Ask(op, cli, s.paths[cli].regs, s.frames[k].pathname), room);
            var d := s.paths[dae];
            Next(s.(paths := s.paths[dae := d.(paused := 0, turn := Writes,
                                               regs := d.regs.(y := |request.payload| + REQUEST_SIZE))],
                    woken := s.woken - {pid}, procs := s.procs - {pid}),
                 [Deliver(k, dae, room, request)])
  }

  function DaemonWrite(s: State, dae: Byte, reply: Reply): Outcome
    requires dae in s.paths
  {
    var cli := s.paths[dae].peer;
    if !s.paths[dae].isDaemon || cli == NULL then Halt
    else if cli !in s.paths then Wild
    else if s.paths[cli].isDaemon || s.paths[cli].peer != dae then Halt
    else
      var k := s.paths[cli].clientTmp;
      if k !in s.frames then Wild
      else
        var t := s.frames[k];
        var regs := RegsAfter(Ask(t.op, cli, s.paths[cli].regs, t.pathname), reply);
        var s1 := s.(frames := s.frames[k := t.(status := reply.status, size := reply.size)],
                     paths := s.paths[cli := s.paths[cli].(regs := regs)]);
        var s2 := ClearPeer(s1, dae, cli);
        if s2.paths[cli].paused == 0 then Halt
        else Next(s2.(woken := s2.woken + {s2.paths[cli].paused},
                      paths := s2.paths[dae := s2.paths[dae].(turn := Reads)]),
                  [Answer(k, dae, reply)])
  }

  // ----- Steps and runs -----

  datatype Step =
    | DoOpenDaemon(pd: Byte, name: string)
    | DoClientOpen(pid: Byte, pd: Byte, name: string, pathname: seq<Byte>, regs: Regs, reserved: bool)
    | DoClientCall(pid: Byte, pd: Byte, op: Byte, regs: Regs, reserved: bool)
    | DoSpinTick(pid: Byte)
    | DoClientResume(pid: Byte)
    | DoClose(pid: Byte, pd: Byte, reserved: bool)
    | DoDup(pd: Byte)
    | DoReadBegin(pid: Byte, pd: Byte, regs: Regs)
    | DoReadResume(pid: Byte)
    | DoDaemonWrite(pid: Byte, pd: Byte, reply: Reply)

  /** The path descriptor a sleeping process is operating on. */
  function Path(p: Proc): Byte { if p.InRead? then p.dae else p.cli }

  /** PD.CPR: some process is inside an operation on this path. */
  predicate Busy(s: State, pd: Byte) { exists pid :: pid in s.procs && Path(s.procs[pid]) == pd }

  predicate InUserMode(s: State, pid: Byte) { pid != 0 && pid !in s.procs }

  /** What the kernel and IOMan guarantee before the file manager runs: a fresh descriptor for
      an open, one operation at a time per path, a live link for a call, a wake signal for a
      sleeper; and a daemon program that alternates Read and Write. */
  predicate Enabled(s: State, step: Step) {
    match step
    case DoOpenDaemon(pd, _) => pd != NULL && pd !in s.paths
    case DoClientOpen(pid, pd, _, _, _, _) => InUserMode(s, pid) && pd != NULL && pd !in s.paths
    case DoClientCall(pid, pd, op, _, _) =>
      && InUserMode(s, pid) && pd in s.paths && !s.paths[pd].isDaemon
      && s.paths[pd].users > 0 && !Busy(s, pd) && op != OP_CLOSE
    case DoSpinTick(pid) => pid in s.procs && s.procs[pid].Spin?
    case DoClientResume(pid) => pid in s.procs && s.procs[pid].Pause? && pid in s.woken
    case DoClose(pid, pd, _) =>
      InUserMode(s, pid) && pd in s.paths && s.paths[pd].users > if Busy(s, pd) then 1 else 0
    case DoDup(pd) => pd in s.paths && s.paths[pd].users > 0
    case DoReadBegin(pid, pd, _) =>
      && InUserMode(s, pid) && pd in s.paths && s.paths[pd].isDaemon
      && s.paths[pd].users > 0 && !Busy(s, pd) && s.paths[pd].turn == Reads
    case DoReadResume(pid) => pid in s.procs && s.procs[pid].InRead? && pid in s.woken
    case DoDaemonWrite(pid, pd, _) =>
      && InUserMode(s, pid) && pd in s.paths && s.paths[pd].isDaemon
      && s.paths[pd].users > 0 && !Busy(s, pd) && s.paths[pd].turn == Writes
  }

  function Apply(s: State, step: Step): Outcome
    requires Enabled(s, step)
  {
    match step
    case DoOpenDaemon(pd, name) => OpenDaemon(s, pd, name)
    case DoClientOpen(pid, pd, name, pathname, regs, reserved) => ClientOpen(s, pid, pd, name, pathname, regs, reserved)
    case DoClientCall(pid, pd, op, regs, reserved) => ClientCall(s, pid, pd, op, regs, reserved)
    case DoSpinTick(pid) => SpinTick(s, pid)
    case DoClientResume(pid) => ClientResume(s, pid)
    case DoClose(pid, pd, reserved) => Close(s, pid, pd, reserved)
    case DoDup(pd) => Dup(s, pd)
    case DoReadBegin(pid, pd, regs) => ReadBegin(s, pid, pd, regs)
    case DoReadResume(pid) => ReadResume(s, pid)
    case DoDaemonWrite(_, pd, reply) => DaemonWrite(s, pd, reply)
  }

  /** A whole run from an empty system, with the log of everything it did.
      A step that is not enabled does not happen. */
  function Exec(steps: seq<Step>): Outcome {
    if steps == [] then Next(INIT, [])
    else
      match Exec(steps[..|steps| - 1])
      case Next(s, log) =>
        var step := steps[|steps| - 1];
        if !Enabled(s, step) then Next(s, log)
        else (match Apply(s, step)
              case Next(s', events) => Next(s', log + events)
              case other => other)
      case other => other
  }
}
