/**
  What a failed task reservation does, exactly.  While every reservation finds a task number,
  each daemon that points at a client is working for it and no descriptor is left unaccounted
  for; the first reservation that fails leaves a daemon jammed.
 */
module FuseClean {
  import opened Bytes
  import opened FuseRpc
  import opened Fuse
  import opened FuseProofs
  import opened FuseRuns

  /** The step gets as far as reserving a task number, and there is none. */
  predicate ReservationFails(s: State, step: Step)
    requires Enabled(s, step)
  {
    match step
    case DoClientOpen(_, _, name, _, _, reserved) => !reserved && FindDaemon(s, name) != NULL
    case DoClientCall(_, _, _, _, reserved) => !reserved
    case DoClose(_, pd, reserved) => !reserved && LastClientLink(s, pd)
    case _ => false
  }

  /** A daemon's peer is inside a call, and nothing is left without users and without a daemon. */
  predicate CleanPath(s: State, p: Byte)
    requires p in s.paths
  {
    && (s.paths[p].isDaemon && s.paths[p].peer != NULL ==> Busy(s, s.paths[p].peer))
    && !Orphan(s.paths[p])
  }

  ghost predicate Clean(s: State) {
    forall p {:trigger CleanPath(s, p)} | p in s.paths :: CleanPath(s, p)
  }

  lemma BusyStays(s: State, s': State, pid: Byte, pd: Byte)
    requires Busy(s, pd)
    requires forall q | q in s.procs && q != pid :: q in s'.procs && s'.procs[q] == s.procs[q]
    requires pid in s.procs && Path(s.procs[pid]) == pd ==> pid in s'.procs && Path(s'.procs[pid]) == pd
    ensures Busy(s', pd)
  {
    var q :| q in s.procs && Path(s.procs[q]) == pd;
    if q != pid { assert Path(s'.procs[q]) == pd; }
  }

  // ----- Each kind of step, its reservation made -----

  lemma CleanOpen(s: State, calls: Calls, step: Step)
    requires Inv(s, calls) && Clean(s) && step.DoClientOpen? && Enabled(s, step) && Apply(s, step).Next?
    requires !ReservationFails(s, step)
    ensures Clean(Apply(s, step).s)
  {
    var s' := Apply(s, step).s;
    var dae := FindDaemon(s, step.name);
    if dae != NULL {
      assert PathOk(s, dae);
      assert Path(s'.procs[step.pid]) == step.pd;
      forall p | p in s'.paths ensures CleanPath(s', p) {
        if p in s.paths && p != dae {
          assert CleanPath(s, p) && PathOk(s, p);
          if s.paths[p].isDaemon && s.paths[p].peer != NULL { BusyStays(s, s', step.pid, s.paths[p].peer); }
        }
      }
    }
  }

  lemma CleanCall(s: State, calls: Calls, step: Step)
    requires Inv(s, calls) && Clean(s) && step.DoClientCall? && Enabled(s, step) && Apply(s, step).Next?
    requires !ReservationFails(s, step)
    ensures Clean(Apply(s, step).s)
  {
    var s' := Apply(s, step).s;
    assert PathOk(s, step.pd);
    assert Path(s'.procs[step.pid]) == step.pd;
    forall p | p in s'.paths ensures CleanPath(s', p) {
      assert CleanPath(s, p) && PathOk(s, p);
      if p != s.paths[step.pd].peer && s.paths[p].isDaemon && s.paths[p].peer != NULL {
        BusyStays(s, s', step.pid, s.paths[p].peer);
      }
    }
  }

  lemma CleanSleeper(s: State, calls: Calls, step: Step)
    requires Inv(s, calls) && Clean(s) && (step.DoSpinTick? || step.DoReadBegin? || step.DoReadResume?)
    requires Enabled(s, step) && Apply(s, step).Next?
    ensures Clean(Apply(s, step).s)
  {
    var s' := Apply(s, step).s;
    if !step.DoReadBegin? { assert ProcOk(s, calls, step.pid); }
    forall p | p in s'.paths ensures CleanPath(s', p) {
      assert CleanPath(s, p) && PathOk(s, p);
      if s.paths[p].isDaemon && s.paths[p].peer != NULL { BusyStays(s, s', step.pid, s.paths[p].peer); }
    }
  }

  lemma CleanSameProcs(s: State, calls: Calls, step: Step)
    requires Inv(s, calls) && Clean(s) && (step.DoOpenDaemon? || step.DoDup? || step.DoDaemonWrite?)
    requires Enabled(s, step) && Apply(s, step).Next?
    ensures Clean(Apply(s, step).s)
  {
    var s' := Apply(s, step).s;
    forall p | p in s'.paths ensures CleanPath(s', p) {
      if p in s.paths {
        assert CleanPath(s, p) && PathOk(s, p);
        if s.paths[p].isDaemon && s.paths[p].peer != NULL { BusyStays(s, s', 0, s.paths[p].peer); }
      }
    }
  }

  lemma CleanResume(s: State, calls: Calls, step: Step)
    requires Inv(s, calls) && Clean(s) && step.DoClientResume? && Enabled(s, step) && Apply(s, step).Next?
    ensures Clean(Apply(s, step).s)
  {
    var s' := Apply(s, step).s;
    assert ProcOk(s, calls, step.pid);
    var cli, dae := s.procs[step.pid].cli, s.procs[step.pid].dae;
    assert PathOk(s, cli) && LinkOk(s.paths, cli);
    forall p | p in s.paths ensures s.paths[p].peer != cli {
      assert CleanPath(s, p) && PathOk(s, p) && CleanPath(s, cli);
    }
    assert Pointers(s.paths, cli) == {};
    forall p | p in s'.paths ensures CleanPath(s', p) {
      assert CleanPath(s, p) && PathOk(s, p);
      if s.paths[p].isDaemon && s.paths[p].peer != NULL { BusyStays(s, s', step.pid, s.paths[p].peer); }
    }
  }

  lemma CleanClose(s: State, calls: Calls, step: Step)
    requires Inv(s, calls) && Clean(s) && step.DoClose? && Enabled(s, step) && Apply(s, step).Next?
    requires !ReservationFails(s, step)
    ensures Clean(Apply(s, step).s)
  {
    var s' := Apply(s, step).s;
    if LastClientLink(s, step.pd) { CleanLastClose(s, calls, step); } else { CleanMidClose(s, calls, step); }
  }

  lemma CleanLastClose(s: State, calls: Calls, step: Step)
    requires Inv(s, calls) && Clean(s) && step.DoClose? && Enabled(s, step) && Apply(s, step).Next?
    requires step.reserved && LastClientLink(s, step.pd)
    ensures Clean(Apply(s, step).s)
  {
    var s' := Apply(s, step).s;
    LastCloseTakes(s, calls, step);
    assert Path(s'.procs[step.pid]) == step.pd;
    forall p | p in s'.paths ensures CleanPath(s', p) {
      assert CleanPath(s, p) && PathOk(s, p);
      if s.paths[p].isDaemon && s.paths[p].peer != NULL { BusyStays(s, s', step.pid, s.paths[p].peer); }
    }
  }

  lemma CleanMidClose(s: State, calls: Calls, step: Step)
    requires Inv(s, calls) && Clean(s) && step.DoClose? && Enabled(s, step) && Apply(s, step).Next?
    requires !LastClientLink(s, step.pd)
    ensures Clean(Apply(s, step).s)
  {
    var s' := Apply(s, step).s;
    assert PathOk(s, step.pd) && LinkOk(s.paths, step.pd);
    forall p | p in s'.paths ensures CleanPath(s', p) {
      assert CleanPath(s, p) && PathOk(s, p);
      if s.paths[p].isDaemon && s.paths[p].peer != NULL { BusyStays(s, s', step.pid, s.paths[p].peer); }
    }
  }

  lemma CleanKeeps(s: State, calls: Calls, step: Step)
    requires Inv(s, calls) && Clean(s) && Enabled(s, step) && Apply(s, step).Next? && !ReservationFails(s, step)
    ensures Clean(Apply(s, step).s)
  {
    match step
    case DoClientOpen(_, _, _, _, _, _) => CleanOpen(s, calls, step);
    case DoClientCall(_, _, _, _, _) => CleanCall(s, calls, step);
    case DoClientResume(_) => CleanResume(s, calls, step);
    case DoClose(_, _, _) => CleanClose(s, calls, step);
    case DoSpinTick(_) => CleanSleeper(s, calls, step);
    case DoReadBegin(_, _, _) => CleanSleeper(s, calls, step);
    case DoReadResume(_) => CleanSleeper(s, calls, step);
    case DoOpenDaemon(_, _) => CleanSameProcs(s, calls, step);
    case DoDup(_) => CleanSameProcs(s, calls, step);
    case DoDaemonWrite(_, _, _) => CleanSameProcs(s, calls, step);
  }

  // ----- A reservation that fails -----

  /** The daemon and the client of a step that reserves. */
  function Ends(s: State, step: Step): (Byte, Byte)
    requires Enabled(s, step) && ReservationFails(s, step)
  {
    if step.DoClientOpen? then (FindDaemon(s, step.name), step.pd) else (s.paths[step.pd].peer, step.pd)
  }

  lemma JamsAtOpen(s: State, calls: Calls, step: Step)
    requires Inv(s, calls) && Enabled(s, step) && ReservationFails(s, step) && Apply(s, step).Next? && step.DoClientOpen?
    ensures var (dae, cli) := Ends(s, step); Jammed(Apply(s, step).s, dae, cli)
  {
    var s', dae := Apply(s, step).s, FindDaemon(s, step.name);
    forall q | q in s.procs ensures Path(s.procs[q]) != step.pd { assert ProcOk(s, calls, q); }
    assert s'.procs == s.procs;
    assert PathOk(s, dae);
  }

  lemma JamsAtCall(s: State, calls: Calls, step: Step)
    requires Inv(s, calls) && Enabled(s, step) && ReservationFails(s, step) && Apply(s, step).Next? && step.DoClientCall?
    ensures var (dae, cli) := Ends(s, step); Jammed(Apply(s, step).s, dae, cli)
  {
    assert PathOk(s, step.pd);
    assert Apply(s, step).s.procs == s.procs;
  }

  lemma JamsAtClose(s: State, calls: Calls, step: Step)
    requires Inv(s, calls) && Enabled(s, step) && ReservationFails(s, step) && Apply(s, step).Next? && step.DoClose?
    ensures var (dae, cli) := Ends(s, step); Jammed(Apply(s, step).s, dae, cli)
    ensures step.pd in Apply(s, step).s.paths && Orphan(Apply(s, step).s.paths[step.pd])
  {
    assert PathOk(s, step.pd) && LinkOk(s.paths, step.pd);
    assert Apply(s, step).s.procs == s.procs;
  }

  /** A failed reservation jams the daemon, whether at an open, at a call or at a close; and at
      a close it leaves the client's descriptor behind as well. */
  lemma FailedReservationJams(steps: seq<Step>, step: Step)
    requires Exec(steps).Next? && Enabled(Exec(steps).s, step) && ReservationFails(Exec(steps).s, step)
    requires Apply(Exec(steps).s, step).Next?
    ensures var s, s' := Exec(steps).s, Apply(Exec(steps).s, step).s;
            && (var (dae, cli) := Ends(s, step); Jammed(s', dae, cli))
            && (step.DoClose? ==> step.pd in s'.paths && Orphan(s'.paths[step.pd]))
  {
    RunKeeps(steps);
    var s, calls := Exec(steps).s, Replay(Exec(steps).events);
    if step.DoClientOpen? { JamsAtOpen(s, calls, step); }
    if step.DoClientCall? { JamsAtCall(s, calls, step); }
    if step.DoClose? { JamsAtClose(s, calls, step); }
  }

  /** From a clean state, the next one is clean exactly when no reservation fails in between. */
  lemma CleanExactly(steps: seq<Step>, step: Step)
    requires Exec(steps).Next? && Clean(Exec(steps).s) && Enabled(Exec(steps).s, step)
    requires Apply(Exec(steps).s, step).Next?
    ensures Clean(Apply(Exec(steps).s, step).s) <==> !ReservationFails(Exec(steps).s, step)
  {
    RunKeeps(steps);
    var s := Exec(steps).s;
    if !ReservationFails(s, step) {
      CleanKeeps(s, Replay(Exec(steps).events), step);
    } else {
      FailedReservationJams(steps, step);
      var (dae, cli) := Ends(s, step);
      assert !CleanPath(Apply(s, step).s, dae);
    }
  }

  /** No reservation fails anywhere in the run. */
  predicate AllReserved(steps: seq<Step>) {
    steps == [] ||
    var pre, step := steps[..|steps| - 1], steps[|steps| - 1];
    AllReserved(pre) && (Exec(pre).Next? && Enabled(Exec(pre).s, step) ==> !ReservationFails(Exec(pre).s, step))
  }

  lemma {:induction false} AllReservedIsClean(steps: seq<Step>)
    requires Exec(steps).Next? && AllReserved(steps)
    ensures Clean(Exec(steps).s)
  {
    if steps != [] {
      var pre, step := steps[..|steps| - 1], steps[|steps| - 1];
      AllReservedIsClean(pre);
      if Enabled(Exec(pre).s, step) { CleanExactly(pre, step); }
    }
  }

  /** In a run whose reservations all succeed no daemon is jammed, and every descriptor's link
      count is its process links plus the peers pointing at it. */
  lemma ReservedRunsAreClean(steps: seq<Step>, p: Byte)
    requires Exec(steps).Next? && AllReserved(steps) && p in Exec(steps).s.paths
    ensures Conserved(Exec(steps).s.paths, p)
    ensures forall cli: Byte :: !Jammed(Exec(steps).s, p, cli)
  {
    AllReservedIsClean(steps);
    RunKeeps(steps);
    var s := Exec(steps).s;
    assert CleanPath(s, p) && LinkOk(s.paths, p);
  }
}
