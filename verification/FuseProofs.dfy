/**
  What every run of the FUSE file manager keeps: links are conserved, calls are
  delivered as remote procedure calls, and assertions fire only at two named guards.
 */
module FuseProofs {
  import opened Bytes
  import opened FuseRpc
  import opened Fuse

  // ----- Links -----

  ghost function Pointers(paths: map<Byte, PathDesc>, d: Byte): set<Byte> {
    set p | p in paths && paths[p].peer == d
  }

  /** A client whose close found no task number: unlinked from its daemon, used by nobody. */
  predicate Orphan(d: PathDesc) { !d.isDaemon && d.users == 0 && d.peer == NULL }

  ghost predicate Conserved(paths: map<Byte, PathDesc>, d: Byte)
    requires d in paths
  {
    paths[d].linkCount == paths[d].users + |Pointers(paths, d)|
  }

  ghost predicate LinksOk(paths: map<Byte, PathDesc>) {
    forall d {:trigger LinkOk(paths, d)} | d in paths :: LinkOk(paths, d)
  }

  // ----- Sleeping processes -----

  /** Peers are open descriptors of the other kind, and a daemon's peer points back at it
      or has been orphaned. */
  ghost predicate PeerOk(s: State, p: Byte)
    requires p in s.paths
  {
    var q := s.paths[p].peer;
    q != NULL ==>
      && q in s.paths && s.paths[q].isDaemon != s.paths[p].isDaemon
      && (s.paths[p].isDaemon ==> s.paths[q].peer == p || Orphan(s.paths[q]))
  }

  /** Client `cli` has a call in flight, in the given frame, to daemon `dae`. */
  ghost predicate Calling(s: State, calls: Calls, pid: Byte, cli: Byte, dae: Byte, k: Frame) {
    && cli in s.paths && !s.paths[cli].isDaemon && s.paths[cli].peer == dae && dae != NULL
    && dae in s.paths && s.paths[dae].isDaemon
    && s.paths[cli].clientTmp == k && k in s.frames
    && k in calls && !calls[k].Done? && calls[k].pid == pid && calls[k].cli == cli && calls[k].dae == dae
    && calls[k].ask.op == s.frames[k].op && calls[k].ask.path == cli
    && (s.frames[k].op == OP_CLOSE ==> s.paths[cli].users == 0)
    && (s.frames[k].op != OP_CLOSE ==> s.paths[cli].users > 0)
  }

  /** The question is still as asked. */
  ghost predicate Pending(s: State, calls: Calls, cli: Byte, k: Frame)
    requires cli in s.paths && k in s.frames && k in calls && !calls[k].Done?
  {
    calls[k].ask == Ask(s.frames[k].op, cli, s.paths[cli].regs, s.frames[k].pathname)
  }

  ghost predicate SpinOk(s: State, calls: Calls, pid: Byte, p: Proc)
    requires p.Spin?
  {
    && Calling(s, calls, pid, p.cli, p.dae, p.frame) && Pending(s, calls, p.cli, p.frame)
    && calls[p.frame].Asked? && s.paths[p.cli].paused == 0
    && s.paths[p.dae].peer == p.cli && s.paths[p.dae].turn != Writes && s.paths[p.dae].paused !in s.woken
  }

  ghost predicate PauseOk(s: State, calls: Calls, pid: Byte, p: Proc)
    requires p.Pause?
  {
    && Calling(s, calls, pid, p.cli, p.dae, p.frame) && s.paths[p.cli].paused == pid
    && if pid in s.woken then
         && calls[p.frame].Answered? && s.paths[p.dae].peer != p.cli
         && s.frames[p.frame].status == calls[p.frame].reply.status
         && s.paths[p.cli].regs == RegsAfter(calls[p.frame].ask, calls[p.frame].reply)
       else
         && Pending(s, calls, p.cli, p.frame) && s.paths[p.dae].peer == p.cli
         && if s.paths[p.dae].turn == Writes then calls[p.frame].Served?
            else calls[p.frame].Asked? && s.paths[p.dae].paused in s.woken
  }

  /** A client that waits, not yet answered, for this daemon. */
  ghost predicate HasCaller(s: State, dae: Byte)
    requires dae in s.paths
  {
    var cli := s.paths[dae].peer;
    && cli != NULL && cli in s.paths && s.paths[cli].peer == dae
    && s.paths[cli].paused != 0 && s.paths[cli].paused !in s.woken
    && s.paths[cli].paused in s.procs
    && s.procs[s.paths[cli].paused] == Pause(cli, dae, s.paths[cli].clientTmp)
  }

  ghost predicate InReadOk(s: State, pid: Byte, p: Proc)
    requires p.InRead?
  {
    && p.dae in s.paths && s.paths[p.dae].isDaemon && s.paths[p.dae].users > 0
    && s.paths[p.dae].paused == pid && (pid in s.woken ==> HasCaller(s, p.dae))
  }

  ghost predicate ProcOk(s: State, calls: Calls, pid: Byte) {
    && pid in s.procs
    && match s.procs[pid]
       case InRead(_) => InReadOk(s, pid, s.procs[pid])
       case Spin(_, _, _, _) => SpinOk(s, calls, pid, s.procs[pid])
       case Pause(_, _, _) => PauseOk(s, calls, pid, s.procs[pid])
  }

  ghost predicate OnePerPath(procs: map<Byte, Proc>) {
    forall p, q {:trigger Path(procs[p]), Path(procs[q])} | p in procs && q in procs && p != q ::
      Path(procs[p]) != Path(procs[q])
  }

  ghost predicate PathOk(s: State, p: Byte)
    requires p in s.paths
  {
    var d := s.paths[p];
    && PeerOk(s, p)
    && (d.paused != 0 ==> d.paused in s.procs && Path(s.procs[d.paused]) == p && !s.procs[d.paused].Spin?)
    && (d.isDaemon ==> (d.turn == Sleeping <==> d.paused != 0))
    && (d.isDaemon && d.turn == Writes ==> HasCaller(s, p))
    && (!d.isDaemon && d.users > 0 ==> d.peer != NULL)
  }

  /** Every unfinished call has its process, and frames are exactly the unfinished calls. */
  ghost predicate CallOk(s: State, calls: Calls, k: Frame)
    requires k in calls
  {
    && k < s.nextFrame
    && (calls[k].Done? <==> k !in s.frames)
    && (!calls[k].Done? ==>
          && calls[k].pid in s.procs
          && (s.procs[calls[k].pid].Spin? || s.procs[calls[k].pid].Pause?)
          && s.procs[calls[k].pid].frame == k)
  }

  ghost predicate NamesOk(paths: map<Byte, PathDesc>) {
    forall p, q {:trigger paths[p].name, paths[q].name}
      | p in paths && q in paths && paths[p].isDaemon && paths[q].isDaemon && p != q ::
      paths[p].name != paths[q].name
  }

  lemma SamePaths(procs: map<Byte, Proc>, procs': map<Byte, Proc>)
    requires OnePerPath(procs) && procs'.Keys <= procs.Keys
    requires forall q | q in procs' :: Path(procs'[q]) == Path(procs[q])
    ensures OnePerPath(procs')
  {}

  lemma SameNames(paths: map<Byte, PathDesc>, paths': map<Byte, PathDesc>)
    requires NamesOk(paths) && paths'.Keys <= paths.Keys
    requires forall p | p in paths' :: paths'[p].isDaemon == paths[p].isDaemon && paths'[p].name == paths[p].name
    ensures NamesOk(paths')
  {}

  ghost predicate Inv(s: State, calls: Calls) {
    && LinksOk(s.paths) && NULL !in s.paths && 0 !in s.procs && OnePerPath(s.procs) && NamesOk(s.paths)
    && (forall pid {:trigger ProcOk(s, calls, pid)} | pid in s.procs :: ProcOk(s, calls, pid))
    && (forall p {:trigger PathOk(s, p)} | p in s.paths :: PathOk(s, p))
    && (forall k {:trigger CallOk(s, calls, k)} | k in calls :: CallOk(s, calls, k))
    && (forall k | k in s.frames :: k in calls)
    && WokenOk(s.woken, s.procs)
  }

  /** Wake signals are only ever pending for processes asleep until signalled. */
  ghost predicate WokenOk(woken: set<Byte>, procs: map<Byte, Proc>) {
    woken <= procs.Keys && forall pid {:trigger procs[pid]} | pid in woken :: !procs[pid].Spin?
  }

  // ----- Links under each kind of update -----

  lemma PointersSame(p: map<Byte, PathDesc>, p': map<Byte, PathDesc>, d: Byte)
    requires forall q | q in p && p[q].peer == d :: q in p' && p'[q].peer == d
    requires forall q | q in p' && p'[q].peer == d :: q in p && p[q].peer == d
    ensures Pointers(p', d) == Pointers(p, d)
  {}

  lemma PointersGain(p: map<Byte, PathDesc>, p': map<Byte, PathDesc>, d: Byte, x: Byte)
    requires x in p' && p'[x].peer == d && (x in p ==> p[x].peer != d)
    requires forall q | q in p && p[q].peer == d :: q in p' && p'[q].peer == d
    requires forall q | q in p' && p'[q].peer == d && q != x :: q in p && p[q].peer == d
    ensures |Pointers(p', d)| == |Pointers(p, d)| + 1
  {
    assert Pointers(p', d) == Pointers(p, d) + {x};
  }

  ghost predicate LinkOk(paths: map<Byte, PathDesc>, d: Byte)
    requires d in paths
  {
    if Orphan(paths[d]) then paths[d].linkCount == 1 && |Pointers(paths, d)| <= 1 else Conserved(paths, d)
  }

  lemma SetPeerLinks(s: State, subject: Byte, target: Byte)
    requires subject in s.paths && target in s.paths && NULL !in s.paths && subject != target
    requires LinksOk(s.paths) && SetPeer(s, subject, target).Next?
    requires !Orphan(s.paths[target]) && !Orphan(s.paths[subject])
    ensures LinksOk(SetPeer(s, subject, target).s.paths)
  {
    var p, p' := s.paths, SetPeer(s, subject, target).s.paths;
    forall d | d in p' ensures LinkOk(p', d) {
      assert LinkOk(p, d);
      if d == target { PointersGain(p, p', d, subject); } else { PointersSame(p, p', d); }
    }
  }

  lemma ClearPeerLinks(s: State, dae: Byte, cli: Byte)
    requires dae in s.paths && cli in s.paths && NULL !in s.paths && dae != cli
    requires LinksOk(s.paths) && s.paths[dae].peer == cli
    requires s.paths[dae].isDaemon && !Orphan(s.paths[cli])
    ensures LinksOk(ClearPeer(s, dae, cli).paths)
    ensures s.paths[cli].linkCount > 0
  {
    var p, p' := s.paths, ClearPeer(s, dae, cli).paths;
    forall d | d in p' ensures LinkOk(p', d) {
      assert LinkOk(p, d);
      if d == cli { PointersGain(p', p, d, dae); } else { PointersSame(p, p', d); }
    }
    assert LinkOk(p, cli);
    PointersGain(p', p, cli, dae);
  }

  lemma UnlinkLinks(s: State, cli: Byte)
    requires cli in s.paths && NULL !in s.paths && !s.paths[cli].isDaemon
    requires var dae := s.paths[cli].peer; dae in s.paths && s.paths[dae].isDaemon
    requires LinksOk(s.paths) && s.paths[cli].users == 0 && s.paths[cli].linkCount <= 1
    ensures Unlink(s, cli).Next? && LinksOk(Unlink(s, cli).s.paths)
    ensures s.paths[cli].linkCount == 0 <==> cli !in Unlink(s, cli).s.paths
    ensures cli !in Unlink(s, cli).s.paths ==> Pointers(s.paths, cli) == {}
  {
    var dae := s.paths[cli].peer;
    var p, p' := s.paths, Unlink(s, cli).s.paths;
    assert LinkOk(p, cli);
    forall d | d in p' ensures LinkOk(p', d) {
      assert LinkOk(p, d);
      if d == dae { PointersGain(p', p, d, cli); } else { PointersSame(p, p', d); }
    }
  }

  /** Any update that leaves every peer, link count and user count alone. */
  lemma SameLinks(p: map<Byte, PathDesc>, p': map<Byte, PathDesc>)
    requires LinksOk(p) && p'.Keys == p.Keys
    requires forall d | d in p :: SameLink(p[d], p'[d])
    ensures LinksOk(p')
  {
    forall d | d in p' ensures LinkOk(p', d) {
      assert LinkOk(p, d);
      assert SameLink(p[d], p'[d]);
      forall q | q in p ensures p'[q].peer == p[q].peer { assert SameLink(p[q], p'[q]); }
      PointersSame(p, p', d);
    }
  }

  ghost predicate SameLink(d: PathDesc, d': PathDesc) {
    d'.isDaemon == d.isDaemon && d'.peer == d.peer && d'.linkCount == d.linkCount && d'.users == d.users
  }

  /** IOMan adds or drops one process link on pd. */
  lemma UserLinks(p: map<Byte, PathDesc>, pd: Byte, d': PathDesc)
    requires LinksOk(p) && pd in p && p[pd].users > 0
    requires d'.isDaemon == p[pd].isDaemon && d'.peer == p[pd].peer
    requires d'.linkCount == d'.users + p[pd].linkCount - p[pd].users
    requires !d'.isDaemon ==> d'.peer != NULL
    ensures LinksOk(p[pd := d'])
  {
    var p' := p[pd := d'];
    forall d | d in p' ensures LinkOk(p', d) {
      assert LinkOk(p, d);
      PointersSame(p, p', d);
    }
  }

  /** A fresh descriptor starts with its opener's link and nobody pointing at it. */
  lemma FreshLinks(s: State, pd: Byte, d': PathDesc)
    requires LinksOk(s.paths) && NULL !in s.paths && pd !in s.paths && pd != NULL
    requires forall q | q in s.paths :: s.paths[q].peer != pd
    requires d'.linkCount == 1 && d'.users == 1 && d'.peer == NULL
    ensures LinksOk(s.paths[pd := d'])
  {
    var p, p' := s.paths, s.paths[pd := d'];
    forall d | d in p' ensures LinkOk(p', d) {
      if d == pd { assert Pointers(p', d) == {}; } else { assert LinkOk(p, d); PointersSame(p, p', d); }
    }
  }

  /** A daemon whose link count is zero has nobody pointing at it, so it can go. */
  lemma RemoveDaemonLinks(p: map<Byte, PathDesc>, dae: Byte)
    requires LinksOk(p) && NULL !in p && dae in p && p[dae].isDaemon && p[dae].linkCount == 0
    requires p[dae].peer != NULL ==> p[dae].peer in p && !p[p[dae].peer].isDaemon
    requires p[dae].peer != NULL ==> p[p[dae].peer].peer == dae || Orphan(p[p[dae].peer])
    ensures Pointers(p, dae) == {} && LinksOk(p - {dae})
  {
    assert LinkOk(p, dae);
    var p' := p - {dae};
    forall d | d in p' ensures LinkOk(p', d) {
      assert LinkOk(p, d);
      if d == p[dae].peer {
        assert p[d].peer == dae ==> d in Pointers(p, dae);
        PointersGain(p', p, d, dae);
      } else {
        PointersSame(p, p', d);
      }
    }
  }

  // ----- Every step keeps the invariant -----

  ghost function Advance(calls: Calls, events: seq<Event>): Calls
    requires events == [] || (|events| == 1 && Legal(calls, events[0]))
  {
    if events == [] then calls else After(calls, events[0])
  }

  ghost predicate Kept(o: Outcome, calls: Calls) {
    o.Next? ==>
      && (o.events == [] || (|o.events| == 1 && Legal(calls, o.events[0])))
      && Inv(o.s, Advance(calls, o.events))
  }

  lemma OpenDaemonKeeps(s: State, calls: Calls, pd: Byte, name: string)
    requires Inv(s, calls) && Enabled(s, DoOpenDaemon(pd, name))
    ensures Kept(OpenDaemon(s, pd, name), calls)
  {
    var o := OpenDaemon(s, pd, name);
    if o.Next? && o.s != s {
      forall q | q in s.paths ensures s.paths[q].peer != pd { assert PathOk(s, q); }
      FreshLinks(s, pd, o.s.paths[pd]);
      FreshPath(s, calls, pd, o.s.paths[pd]);
    }
  }

  /** Adding a descriptor nobody refers to. */
  lemma FreshPath(s: State, calls: Calls, pd: Byte, d: PathDesc)
    requires Inv(s, calls) && pd !in s.paths && pd != NULL
    requires d.peer == NULL && d.paused == 0 && d.isDaemon && d.turn == Reads
    requires forall p | p in s.paths && s.paths[p].isDaemon :: s.paths[p].name != d.name
    requires LinksOk(s.paths[pd := d])
    ensures Inv(s.(paths := s.paths[pd := d]), calls)
  {
    var s' := s.(paths := s.paths[pd := d]);
    forall pid | pid in s'.procs ensures ProcOk(s', calls, pid) { assert ProcOk(s, calls, pid); }
    forall p | p in s'.paths ensures PathOk(s', p) { assert p != pd ==> PathOk(s, p); }
    forall k | k in calls ensures CallOk(s', calls, k) { assert CallOk(s, calls, k); }
  }

  /** IOMan changes how many processes hold pd; its link count moves with it. */
  lemma UsersKeep(s: State, calls: Calls, pd: Byte, d: PathDesc)
    requires Inv(s, calls) && pd in s.paths && s.paths[pd].users > 0
    requires d == s.paths[pd].(users := d.users, linkCount := d.linkCount)
    requires d.linkCount == d.users + s.paths[pd].linkCount - s.paths[pd].users
    requires Busy(s, pd) ==> d.users > 0
    ensures Inv(s.(paths := s.paths[pd := d]), calls)
  {
    var s' := s.(paths := s.paths[pd := d]);
    assert PathOk(s, pd);
    UserLinks(s.paths, pd, d);
    forall q | q in s'.procs ensures ProcOk(s', calls, q) { UsersProc(s, calls, pd, d, q); }
    forall p | p in s'.paths ensures PathOk(s', p) { UsersPath(s, calls, pd, d, p); }
    forall k | k in calls ensures CallOk(s', calls, k) { assert CallOk(s, calls, k); }
  }

  lemma UsersProc(s: State, calls: Calls, pd: Byte, d: PathDesc, q: Byte)
    requires Inv(s, calls) && pd in s.paths && s.paths[pd].users > 0 && q in s.procs
    requires d == s.paths[pd].(users := d.users, linkCount := d.linkCount)
    requires Busy(s, pd) ==> d.users > 0
    ensures ProcOk(s.(paths := s.paths[pd := d]), calls, q)
  {
    assert ProcOk(s, calls, q);
  }

  lemma UsersPath(s: State, calls: Calls, pd: Byte, d: PathDesc, p: Byte)
    requires Inv(s, calls) && pd in s.paths && s.paths[pd].users > 0 && p in s.paths
    requires d == s.paths[pd].(users := d.users, linkCount := d.linkCount)
    ensures PathOk(s.(paths := s.paths[pd := d]), p)
  {
    assert PathOk(s, p);
    assert PathOk(s, pd);
  }

  lemma DupKeeps(s: State, calls: Calls, pd: Byte)
    requires Inv(s, calls) && Enabled(s, DoDup(pd))
    ensures Kept(Dup(s, pd), calls)
    ensures Dup(s, pd).Next? || Dup(s, pd).Overflow?
  {
    var o := Dup(s, pd);
    if o.Next? { UsersKeep(s, calls, pd, o.s.paths[pd]); }
  }

  lemma ReadBeginProc(s: State, calls: Calls, pid: Byte, dae: Byte, regs: Regs, q: Byte)
    requires Inv(s, calls) && Enabled(s, DoReadBegin(pid, dae, regs))
    requires q in ReadBegin(s, pid, dae, regs).s.procs
    ensures ProcOk(ReadBegin(s, pid, dae, regs).s, calls, q)
  {
    assert PathOk(s, dae);
    if q != pid { assert ProcOk(s, calls, q); }
  }

  lemma ReadBeginPath(s: State, calls: Calls, pid: Byte, dae: Byte, regs: Regs, p: Byte)
    requires Inv(s, calls) && Enabled(s, DoReadBegin(pid, dae, regs))
    requires p in ReadBegin(s, pid, dae, regs).s.paths
    ensures PathOk(ReadBegin(s, pid, dae, regs).s, p)
  {
    assert PathOk(s, p);
    assert PathOk(s, dae);
  }

  lemma ReadBeginKeeps(s: State, calls: Calls, pid: Byte, dae: Byte, regs: Regs)
    requires Inv(s, calls) && Enabled(s, DoReadBegin(pid, dae, regs))
    ensures Kept(ReadBegin(s, pid, dae, regs), calls)
  {
    var s' := ReadBegin(s, pid, dae, regs).s;
    SameLinks(s.paths, s'.paths);
    forall q | q in s'.procs ensures ProcOk(s', calls, q) { ReadBeginProc(s, calls, pid, dae, regs, q); }
    forall p | p in s'.paths ensures PathOk(s', p) { ReadBeginPath(s, calls, pid, dae, regs, p); }
    forall k | k in calls ensures CallOk(s', calls, k) { assert CallOk(s, calls, k); }
  }

  /** The daemon offered no room for the payload its caller's operation carries. */
  predicate NoRoom(s: State, dae: Byte) {
    && dae in s.paths && s.paths[dae].regs.y <= REQUEST_SIZE
    && s.paths[dae].peer in s.paths && s.paths[s.paths[dae].peer].clientTmp in s.frames
    && var op := s.frames[s.paths[s.paths[dae].peer].clientTmp].op; CarriesPathname(op) || CarriesData(op)
  }

  // A daemon that was woken delivers its caller's question.

  lemma ReadResumeProc(s: State, calls: Calls, pid: Byte, q: Byte)
    requires Inv(s, calls) && Enabled(s, DoReadResume(pid))
    requires ReadResume(s, pid).Next? && q in s.procs && q != pid
    requires var e := ReadResume(s, pid).events[0]; Legal(calls, e)
    ensures ProcOk(ReadResume(s, pid).s, After(calls, ReadResume(s, pid).events[0]), q)
  {
    assert ProcOk(s, calls, pid);
    assert ProcOk(s, calls, q);
    assert ProcOk(s, calls, s.paths[s.paths[s.procs[pid].dae].peer].paused);
    if !s.procs[q].InRead? { assert PathOk(s, s.procs[q].dae); }
  }

  lemma ReadResumePath(s: State, calls: Calls, pid: Byte, p: Byte)
    requires Inv(s, calls) && Enabled(s, DoReadResume(pid))
    requires ReadResume(s, pid).Next? && p in s.paths
    ensures PathOk(ReadResume(s, pid).s, p)
  {
    assert ProcOk(s, calls, pid);
    assert PathOk(s, p);
    assert PathOk(s, s.procs[pid].dae);
  }

  lemma ReadResumeLegal(s: State, calls: Calls, pid: Byte)
    requires Inv(s, calls) && Enabled(s, DoReadResume(pid))
    ensures !ReadResume(s, pid).Wild? && !ReadResume(s, pid).Overflow?
    ensures ReadResume(s, pid).Halt? <==> NoRoom(s, s.procs[pid].dae)
    ensures ReadResume(s, pid).Next? ==> Legal(calls, ReadResume(s, pid).events[0])
  {
    assert ProcOk(s, calls, pid);
    var dae := s.procs[pid].dae;
    var cli := s.paths[dae].peer;
    assert ProcOk(s, calls, s.paths[cli].paused);
    assert PathOk(s, dae);
    forall j | j in calls && calls[j].Served? ensures calls[j].dae != dae {
      assert CallOk(s, calls, j);
      assert ProcOk(s, calls, calls[j].pid);
    }
  }

  lemma ReadResumeWoken(s: State, calls: Calls, pid: Byte)
    requires Inv(s, calls) && Enabled(s, DoReadResume(pid)) && ReadResume(s, pid).Next?
    ensures WokenOk(ReadResume(s, pid).s.woken, ReadResume(s, pid).s.procs)
    ensures OnePerPath(ReadResume(s, pid).s.procs) && NamesOk(ReadResume(s, pid).s.paths)
  {
    SamePaths(s.procs, ReadResume(s, pid).s.procs);
    SameNames(s.paths, ReadResume(s, pid).s.paths);
  }

  lemma ReadResumeKeeps(s: State, calls: Calls, pid: Byte)
    requires Inv(s, calls) && Enabled(s, DoReadResume(pid))
    ensures Kept(ReadResume(s, pid), calls)
  {
    ReadResumeLegal(s, calls, pid);
    var o := ReadResume(s, pid);
    if o.Next? {
      var s', calls' := o.s, After(calls, o.events[0]);
      SameLinks(s.paths, s'.paths);
      ReadResumeWoken(s, calls, pid);
      forall q | q in s'.procs ensures ProcOk(s', calls', q) { ReadResumeProc(s, calls, pid, q); }
      forall p | p in s'.paths ensures PathOk(s', p) { ReadResumePath(s, calls, pid, p); }
      forall k | k in calls' ensures CallOk(s', calls', k) { assert CallOk(s, calls, k); }
    }
  }

  // A daemon that writes in turn answers the call it was given.

  lemma DaemonWriteLegal(s: State, calls: Calls, pid: Byte, dae: Byte, reply: Reply)
    requires Inv(s, calls) && Enabled(s, DoDaemonWrite(pid, dae, reply))
    ensures DaemonWrite(s, dae, reply).Next? && Legal(calls, DaemonWrite(s, dae, reply).events[0])
  {
    assert PathOk(s, dae);
    assert ProcOk(s, calls, s.paths[s.paths[dae].peer].paused);
  }

  lemma DaemonWriteProc(s: State, calls: Calls, pid: Byte, dae: Byte, reply: Reply, q: Byte)
    requires Inv(s, calls) && Enabled(s, DoDaemonWrite(pid, dae, reply)) && q in s.procs
    requires DaemonWrite(s, dae, reply).Next? && Legal(calls, DaemonWrite(s, dae, reply).events[0])
    ensures ProcOk(DaemonWrite(s, dae, reply).s, After(calls, DaemonWrite(s, dae, reply).events[0]), q)
  {
    assert PathOk(s, dae);
    assert ProcOk(s, calls, q);
    assert ProcOk(s, calls, s.paths[s.paths[dae].peer].paused);
    if !s.procs[q].InRead? { assert PathOk(s, s.procs[q].dae); }
  }

  lemma DaemonWritePath(s: State, calls: Calls, pid: Byte, dae: Byte, reply: Reply, p: Byte)
    requires Inv(s, calls) && Enabled(s, DoDaemonWrite(pid, dae, reply)) && p in s.paths
    requires DaemonWrite(s, dae, reply).Next?
    ensures PathOk(DaemonWrite(s, dae, reply).s, p)
  {
    assert PathOk(s, dae);
    assert PathOk(s, p);
    assert ProcOk(s, calls, s.paths[s.paths[dae].peer].paused);
  }

  lemma DaemonWriteLinks(s: State, calls: Calls, pid: Byte, dae: Byte, reply: Reply)
    requires Inv(s, calls) && Enabled(s, DoDaemonWrite(pid, dae, reply)) && DaemonWrite(s, dae, reply).Next?
    ensures LinksOk(DaemonWrite(s, dae, reply).s.paths)
  {
    assert PathOk(s, dae);
    ClearPeerLinks(s, dae, s.paths[dae].peer);
    SameLinks(ClearPeer(s, dae, s.paths[dae].peer).paths, DaemonWrite(s, dae, reply).s.paths);
  }

  lemma DaemonWriteWoken(s: State, calls: Calls, pid: Byte, dae: Byte, reply: Reply)
    requires Inv(s, calls) && Enabled(s, DoDaemonWrite(pid, dae, reply)) && DaemonWrite(s, dae, reply).Next?
    ensures WokenOk(DaemonWrite(s, dae, reply).s.woken, s.procs) && NamesOk(DaemonWrite(s, dae, reply).s.paths)
  {
    assert PathOk(s, dae);
    SameNames(s.paths, DaemonWrite(s, dae, reply).s.paths);
  }

  lemma DaemonWriteCall(s: State, calls: Calls, pid: Byte, dae: Byte, reply: Reply, k: Frame)
    requires Inv(s, calls) && Enabled(s, DoDaemonWrite(pid, dae, reply)) && k in calls
    requires DaemonWrite(s, dae, reply).Next? && |DaemonWrite(s, dae, reply).events| == 1 && Legal(calls, DaemonWrite(s, dae, reply).events[0])
    ensures CallOk(DaemonWrite(s, dae, reply).s, After(calls, DaemonWrite(s, dae, reply).events[0]), k)
  {
    assert CallOk(s, calls, k);
  }

  lemma DaemonWriteParts(s: State, calls: Calls, pid: Byte, dae: Byte, reply: Reply, o: Outcome, calls': Calls)
    requires Inv(s, calls) && Enabled(s, DoDaemonWrite(pid, dae, reply)) && o == DaemonWrite(s, dae, reply)
    requires o.Next? && |o.events| == 1 && Legal(calls, o.events[0]) && calls' == After(calls, o.events[0])
    ensures forall q {:trigger ProcOk(o.s, calls', q)} | q in o.s.procs :: ProcOk(o.s, calls', q)
    ensures forall p {:trigger PathOk(o.s, p)} | p in o.s.paths :: PathOk(o.s, p)
    ensures forall k {:trigger CallOk(o.s, calls', k)} | k in calls' :: CallOk(o.s, calls', k)
  {
    forall q | q in o.s.procs ensures ProcOk(o.s, calls', q) { DaemonWriteProc(s, calls, pid, dae, reply, q); }
    forall p | p in o.s.paths ensures PathOk(o.s, p) { DaemonWritePath(s, calls, pid, dae, reply, p); }
    forall k | k in calls' ensures CallOk(o.s, calls', k) { DaemonWriteCall(s, calls, pid, dae, reply, k); }
  }

  /** The daemon's client has the bytes of the reply. */
  predicate Answers(s: State, dae: Byte, reply: Reply, t: State)
    requires dae in s.paths
  {
    var cli := s.paths[dae].peer;
    && cli in s.paths && cli in t.paths && s.paths[cli].clientTmp in s.frames
    && var c := s.frames[s.paths[cli].clientTmp];
       Leaves(Ask(c.op, cli, s.paths[cli].regs, c.pathname), reply, t.paths[cli].regs)
  }

  lemma DaemonWriteAnswers(s: State, dae: Byte, reply: Reply)
    requires dae in s.paths && DaemonWrite(s, dae, reply).Next?
    ensures Answers(s, dae, reply, DaemonWrite(s, dae, reply).s)
  {
    var cli := s.paths[dae].peer;
    var c := s.frames[s.paths[cli].clientTmp];
    var ask := Ask(c.op, cli, s.paths[cli].regs, c.pathname);
    LeavesExactly(ask, reply, RegsAfter(ask, reply));
  }

  lemma DaemonWriteKeeps(s: State, calls: Calls, pid: Byte, dae: Byte, reply: Reply)
    requires Inv(s, calls) && Enabled(s, DoDaemonWrite(pid, dae, reply))
    ensures Kept(DaemonWrite(s, dae, reply), calls)
    ensures DaemonWrite(s, dae, reply).Next? ==> Answers(s, dae, reply, DaemonWrite(s, dae, reply).s)
  {
    DaemonWriteLegal(s, calls, pid, dae, reply);
    if DaemonWrite(s, dae, reply).Next? { DaemonWriteAnswers(s, dae, reply); }
    DaemonWriteLinks(s, calls, pid, dae, reply);
    DaemonWriteWoken(s, calls, pid, dae, reply);
    var o := DaemonWrite(s, dae, reply);
    DaemonWriteParts(s, calls, pid, dae, reply, o, After(calls, o.events[0]));
  }

  // A client launches a call: first as if it found the daemon away, then switching to it.

  lemma SwitchProc(s: State, calls: Calls, pid: Byte, timeout: nat, q: Byte)
    requires Inv(s, calls) && pid in s.procs && s.procs[pid].Spin? && ProcOk(s, calls, pid) && q in s.procs
    ensures var p := s.procs[pid]; ProcOk(Switch(s, pid, p.cli, p.dae, p.frame, timeout), calls, q)
  {
    var p := s.procs[pid];
    assert ProcOk(s, calls, q);
    assert PathOk(s, p.dae);
    assert PathOk(s, p.cli);
    if !s.procs[q].InRead? { assert PathOk(s, s.procs[q].dae); }
  }

  lemma SwitchPath(s: State, calls: Calls, pid: Byte, timeout: nat, r: Byte)
    requires Inv(s, calls) && pid in s.procs && s.procs[pid].Spin? && ProcOk(s, calls, pid) && r in s.paths
    ensures var p := s.procs[pid]; PathOk(Switch(s, pid, p.cli, p.dae, p.frame, timeout), r)
  {
    var p := s.procs[pid];
    assert PathOk(s, r);
    assert PathOk(s, p.cli);
    assert PathOk(s, p.dae);
  }

  lemma SwitchKeeps(s: State, calls: Calls, pid: Byte, timeout: nat)
    requires Inv(s, calls) && pid in s.procs && s.procs[pid].Spin? && ProcOk(s, calls, pid)
    ensures var p := s.procs[pid]; Inv(Switch(s, pid, p.cli, p.dae, p.frame, timeout), calls)
  {
    var p := s.procs[pid];
    var s' := Switch(s, pid, p.cli, p.dae, p.frame, timeout);
    assert PathOk(s, p.dae);
    SameLinks(s.paths, s'.paths);
    SamePaths(s.procs, s'.procs);
    SameNames(s.paths, s'.paths);
    forall q | q in s'.procs ensures ProcOk(s', calls, q) { SwitchProc(s, calls, pid, timeout, q); }
    forall r | r in s'.paths ensures PathOk(s', r) { SwitchPath(s, calls, pid, timeout, r); }
    forall k | k in calls ensures CallOk(s', calls, k) { SwitchCall(s, calls, pid, timeout, k); }
    SwitchWoken(s, calls, pid, timeout);
  }

  lemma SwitchWoken(s: State, calls: Calls, pid: Byte, timeout: nat)
    requires Inv(s, calls) && pid in s.procs && s.procs[pid].Spin? && ProcOk(s, calls, pid)
    ensures var p := s.procs[pid]; var s' := Switch(s, pid, p.cli, p.dae, p.frame, timeout); WokenOk(s'.woken, s'.procs)
  {
    assert PathOk(s, s.procs[pid].dae);
  }

  lemma SwitchCall(s: State, calls: Calls, pid: Byte, timeout: nat, k: Frame)
    requires Inv(s, calls) && pid in s.procs && s.procs[pid].Spin? && ProcOk(s, calls, pid) && k in calls
    ensures var p := s.procs[pid]; CallOk(Switch(s, pid, p.cli, p.dae, p.frame, timeout), calls, k)
  {
    assert CallOk(s, calls, k);
  }

  lemma SpinTickKeeps(s: State, calls: Calls, pid: Byte)
    requires Inv(s, calls) && Enabled(s, DoSpinTick(pid))
    ensures Kept(SpinTick(s, pid), calls)
    ensures SpinTick(s, pid).Halt? <==> s.procs[pid].timeout <= 1
    ensures SpinTick(s, pid).Halt? || SpinTick(s, pid).Next?
  {
    assert ProcOk(s, calls, pid);
    SwitchKeeps(s, calls, pid, if s.procs[pid].timeout == 0 then 0 else s.procs[pid].timeout - 1);
  }

  /** The state in which a call has its frame but its process has not yet slept. */
  ghost predicate Launching(s: State, calls: Calls, pid: Byte, cli: Byte, dae: Byte, op: Byte) {
    && Inv(s, calls) && InUserMode(s, pid)
    && cli in s.paths && !s.paths[cli].isDaemon && s.paths[cli].peer == dae
    && dae in s.paths && s.paths[dae].isDaemon && s.paths[dae].peer == cli && !Busy(s, cli)
    && s.paths[dae].turn != Writes && s.paths[dae].paused !in s.woken
    && (op == OP_CLOSE <==> s.paths[cli].users == 0)
    && s.paths[cli].clientTmp < s.nextFrame && s.paths[cli].clientTmp !in calls
  }

  ghost function Launched(s: State, pid: Byte, cli: Byte, dae: Byte, op: Byte, pathname: seq<Byte>): State
    requires cli in s.paths
  {
    var k := s.paths[cli].clientTmp;
    s.(frames := s.frames[k := ClientTmp(op, pathname, 0, 0)],
       procs := s.procs[pid := Spin(cli, dae, k, SPIN_LIMIT)])
  }

  ghost function LaunchedCalls(s: State, calls: Calls, pid: Byte, cli: Byte, dae: Byte, op: Byte, pathname: seq<Byte>): Calls
    requires cli in s.paths
  {
    calls[s.paths[cli].clientTmp := Asked(pid, cli, dae, Ask(op, cli, s.paths[cli].regs, pathname))]
  }

  lemma LaunchProc(s: State, calls: Calls, pid: Byte, cli: Byte, dae: Byte, op: Byte, pathname: seq<Byte>, q: Byte)
    requires Launching(s, calls, pid, cli, dae, op) && (q in s.procs || q == pid)
    ensures ProcOk(Launched(s, pid, cli, dae, op, pathname), LaunchedCalls(s, calls, pid, cli, dae, op, pathname), q)
  {
    assert PathOk(s, cli);
    if q != pid { assert ProcOk(s, calls, q); }
  }

  lemma LaunchPath(s: State, calls: Calls, pid: Byte, cli: Byte, dae: Byte, op: Byte, pathname: seq<Byte>, p: Byte)
    requires Launching(s, calls, pid, cli, dae, op) && p in s.paths
    ensures PathOk(Launched(s, pid, cli, dae, op, pathname), p)
  {
    assert PathOk(s, p);
  }

  lemma LaunchKeeps(s: State, calls: Calls, pid: Byte, cli: Byte, dae: Byte, op: Byte, pathname: seq<Byte>)
    requires Launching(s, calls, pid, cli, dae, op)
    ensures Inv(Launched(s, pid, cli, dae, op, pathname), LaunchedCalls(s, calls, pid, cli, dae, op, pathname))
  {
    var s', calls' := Launched(s, pid, cli, dae, op, pathname), LaunchedCalls(s, calls, pid, cli, dae, op, pathname);
    forall q | q in s'.procs ensures ProcOk(s', calls', q) { LaunchProc(s, calls, pid, cli, dae, op, pathname, q); }
    forall p | p in s'.paths ensures PathOk(s', p) { LaunchPath(s, calls, pid, cli, dae, op, pathname, p); }
    forall k | k in calls' ensures CallOk(s', calls', k) { assert k in calls ==> CallOk(s, calls, k); }
  }

  // A client attaches itself to its daemon before launching.

  ghost predicate MayAttach(s: State, calls: Calls, pid: Byte, cli: Byte, dae: Byte, op: Byte) {
    && Inv(s, calls) && InUserMode(s, pid)
    && cli in s.paths && !s.paths[cli].isDaemon && s.paths[cli].peer == dae && dae != NULL && !Busy(s, cli)
    && dae in s.paths && s.paths[dae].isDaemon
    && (op == OP_CLOSE <==> s.paths[cli].users == 0)
  }

  /** Both SetPeer(dae, cli) and the frame pointer stored in the client. */
  ghost function Attached(s: State, cli: Byte, dae: Byte): State
    requires cli in s.paths && dae in s.paths && SetPeer(s, dae, cli).Next?
  {
    var s1 := SetPeer(s, dae, cli).s;
    s1.(paths := s1.paths[cli := s1.paths[cli].(clientTmp := s1.nextFrame)], nextFrame := s1.nextFrame + 1)
  }

  lemma DaemonFree(s: State, calls: Calls, dae: Byte)
    requires Inv(s, calls) && dae in s.paths && s.paths[dae].isDaemon && s.paths[dae].peer == NULL
    ensures s.paths[dae].turn != Writes && s.paths[dae].paused !in s.woken
  {
    assert PathOk(s, dae);
    if s.paths[dae].paused in s.procs { assert ProcOk(s, calls, s.paths[dae].paused); }
  }

  lemma AttachProc(s: State, calls: Calls, pid: Byte, cli: Byte, dae: Byte, op: Byte, q: Byte)
    requires MayAttach(s, calls, pid, cli, dae, op) && SetPeer(s, dae, cli).Next? && q in s.procs
    ensures ProcOk(Attached(s, cli, dae), calls, q)
  {
    assert ProcOk(s, calls, q);
    assert Path(s.procs[q]) != cli;
    DaemonFree(s, calls, dae);
  }

  lemma AttachPath(s: State, calls: Calls, pid: Byte, cli: Byte, dae: Byte, op: Byte, p: Byte)
    requires MayAttach(s, calls, pid, cli, dae, op) && SetPeer(s, dae, cli).Next? && p in s.paths
    ensures PathOk(Attached(s, cli, dae), p)
  {
    assert PathOk(s, p);
    assert PathOk(s, cli);
    DaemonFree(s, calls, dae);
  }

  lemma AttachLinks(s: State, calls: Calls, pid: Byte, cli: Byte, dae: Byte, op: Byte)
    requires MayAttach(s, calls, pid, cli, dae, op) && SetPeer(s, dae, cli).Next?
    ensures LinksOk(Attached(s, cli, dae).paths) && NamesOk(Attached(s, cli, dae).paths)
  {
    SetPeerLinks(s, dae, cli);
    SameLinks(SetPeer(s, dae, cli).s.paths, Attached(s, cli, dae).paths);
    SameNames(s.paths, Attached(s, cli, dae).paths);
  }

  lemma AttachKeeps(s: State, calls: Calls, pid: Byte, cli: Byte, dae: Byte, op: Byte)
    requires MayAttach(s, calls, pid, cli, dae, op) && SetPeer(s, dae, cli).Next?
    ensures Launching(Attached(s, cli, dae), calls, pid, cli, dae, op)
  {
    var s' := Attached(s, cli, dae);
    AttachLinks(s, calls, pid, cli, dae, op);
    DaemonFree(s, calls, dae);
    forall q | q in s'.procs ensures ProcOk(s', calls, q) { AttachProc(s, calls, pid, cli, dae, op, q); }
    forall p | p in s'.paths ensures PathOk(s', p) { AttachPath(s, calls, pid, cli, dae, op, p); }
    forall k | k in calls ensures CallOk(s', calls, k) && k != s.nextFrame { assert CallOk(s, calls, k); }
  }

  lemma OperateKeeps(s: State, calls: Calls, pid: Byte, cli: Byte, dae: Byte, op: Byte, pathname: seq<Byte>, reserved: bool)
    requires MayAttach(s, calls, pid, cli, dae, op)
    ensures var o := Operate(s, pid, cli, dae, op, pathname, reserved);
            && !o.Wild? && (o.Halt? <==> s.paths[dae].peer != NULL) && Kept(o, calls)
            && (o.Overflow? <==> s.paths[dae].peer == NULL && s.paths[cli].linkCount == 255)
  {
    if SetPeer(s, dae, cli).Next? {
      AttachKeeps(s, calls, pid, cli, dae, op);
      if reserved {
        var s2 := Attached(s, cli, dae);
        LaunchKeeps(s2, calls, pid, cli, dae, op, pathname);
        var s3 := Launched(s2, pid, cli, dae, op, pathname);
        var calls' := LaunchedCalls(s2, calls, pid, cli, dae, op, pathname);
        assert ProcOk(s3, calls', pid);
        SwitchKeeps(s3, calls', pid, SPIN_LIMIT);
        OperateIsLaunch(s, pid, cli, dae, op, pathname);
      }
    }
  }

  lemma OperateIsLaunch(s: State, pid: Byte, cli: Byte, dae: Byte, op: Byte, pathname: seq<Byte>)
    requires cli in s.paths && dae in s.paths && SetPeer(s, dae, cli).Next? && cli != dae
    ensures var o := Operate(s, pid, cli, dae, op, pathname, true);
            var s2 := Attached(s, cli, dae);
            && o.Next? && o.s == Switch(Launched(s2, pid, cli, dae, op, pathname), pid, cli, dae, s.nextFrame, SPIN_LIMIT)
            && o.events == [Submit(s.nextFrame, pid, cli, dae, Ask(op, cli, s2.paths[cli].regs, pathname))]
  {
    var s2 := Attached(s, cli, dae);
    var s3 := s2.(frames := s2.frames[s.nextFrame := ClientTmp(op, pathname, 0, 0)]);
    var l := Launched(s2, pid, cli, dae, op, pathname);
    var k := s.nextFrame;
    assert s3.procs[pid := Spin(cli, dae, k, SPIN_LIMIT)] == l.procs[pid := Spin(cli, dae, k, SPIN_LIMIT)];
    assert s3.procs[pid := Pause(cli, dae, k)] == l.procs[pid := Pause(cli, dae, k)];
  }

  // The ways a client comes to attach: an open, or a call on an open path.

  ghost function OpenedClient(s: State, cli: Byte, dae: Byte, regs: Regs): State
    requires dae in s.paths && cli !in s.paths && s.paths[dae].linkCount < 255
  {
    SetPeer(s.(paths := s.paths[cli := PathDesc(false, 1, NULL, 0, 0, regs, "", 1, Reads)]), cli, dae).s
  }

  lemma OpenedLinks(s: State, calls: Calls, cli: Byte, dae: Byte, regs: Regs)
    requires Inv(s, calls) && cli !in s.paths && cli != NULL && dae in s.paths && s.paths[dae].isDaemon
    requires s.paths[dae].linkCount < 255
    ensures var s' := OpenedClient(s, cli, dae, regs); LinksOk(s'.paths) && NamesOk(s'.paths)
  {
    var d := PathDesc(false, 1, NULL, 0, 0, regs, "", 1, Reads);
    forall q | q in s.paths ensures s.paths[q].peer != cli { assert PathOk(s, q); }
    FreshLinks(s, cli, d);
    SetPeerLinks(s.(paths := s.paths[cli := d]), cli, dae);
  }

  lemma OpenedProc(s: State, calls: Calls, cli: Byte, dae: Byte, regs: Regs, q: Byte)
    requires Inv(s, calls) && cli !in s.paths && cli != NULL && dae in s.paths && s.paths[dae].isDaemon
    requires s.paths[dae].linkCount < 255 && q in s.procs
    ensures ProcOk(OpenedClient(s, cli, dae, regs), calls, q) && Path(s.procs[q]) != cli
  {
    assert ProcOk(s, calls, q);
  }

  lemma OpenedPath(s: State, calls: Calls, cli: Byte, dae: Byte, regs: Regs, p: Byte)
    requires Inv(s, calls) && cli !in s.paths && cli != NULL && dae in s.paths && s.paths[dae].isDaemon
    requires s.paths[dae].linkCount < 255 && (p in s.paths || p == cli)
    ensures PathOk(OpenedClient(s, cli, dae, regs), p)
  {
    if p != cli { assert PathOk(s, p); }
  }

  lemma OpenedKeeps(s: State, calls: Calls, cli: Byte, dae: Byte, regs: Regs)
    requires Inv(s, calls) && cli !in s.paths && cli != NULL && dae in s.paths && s.paths[dae].isDaemon
    requires s.paths[dae].linkCount < 255
    ensures Inv(OpenedClient(s, cli, dae, regs), calls) && !Busy(OpenedClient(s, cli, dae, regs), cli)
  {
    var s' := OpenedClient(s, cli, dae, regs);
    OpenedLinks(s, calls, cli, dae, regs);
    forall q | q in s'.procs ensures ProcOk(s', calls, q) && Path(s'.procs[q]) != cli { OpenedProc(s, calls, cli, dae, regs, q); }
    forall p | p in s'.paths ensures PathOk(s', p) { OpenedPath(s, calls, cli, dae, regs, p); }
    forall k | k in calls ensures CallOk(s', calls, k) { assert CallOk(s, calls, k); }
  }

  lemma ClientOpenKeeps(s: State, calls: Calls, pid: Byte, cli: Byte, name: string, pathname: seq<Byte>, regs: Regs, reserved: bool)
    requires Inv(s, calls) && Enabled(s, DoClientOpen(pid, cli, name, pathname, regs, reserved))
    ensures var o := ClientOpen(s, pid, cli, name, pathname, regs, reserved);
            var dae := FindDaemon(s, name);
            && !o.Wild? && Kept(o, calls)
            && (o.Overflow? <==> dae != NULL && s.paths[dae].linkCount == 255)
            && (o.Halt? <==> dae != NULL && s.paths[dae].linkCount < 255 && s.paths[dae].peer != NULL)
  {
    var dae := FindDaemon(s, name);
    if dae != NULL && s.paths[dae].linkCount < 255 {
      OpenedKeeps(s, calls, cli, dae, regs);
      OperateKeeps(OpenedClient(s, cli, dae, regs), calls, pid, cli, dae, OP_OPEN, pathname, reserved);
    }
  }

  lemma RegsKeep(s: State, calls: Calls, cli: Byte, regs: Regs)
    requires Inv(s, calls) && cli in s.paths && !s.paths[cli].isDaemon && !Busy(s, cli)
    ensures Inv(s.(paths := s.paths[cli := s.paths[cli].(regs := regs)]), calls)
  {
    var s' := s.(paths := s.paths[cli := s.paths[cli].(regs := regs)]);
    SameLinks(s.paths, s'.paths);
    SameNames(s.paths, s'.paths);
    forall q | q in s'.procs ensures ProcOk(s', calls, q) { RegsProc(s, calls, cli, regs, q); }
    forall p | p in s'.paths ensures PathOk(s', p) { RegsPath(s, calls, cli, regs, p); }
    forall k | k in calls ensures CallOk(s', calls, k) { assert CallOk(s, calls, k); }
  }

  lemma RegsProc(s: State, calls: Calls, cli: Byte, regs: Regs, q: Byte)
    requires Inv(s, calls) && cli in s.paths && !s.paths[cli].isDaemon && !Busy(s, cli) && q in s.procs
    ensures ProcOk(s.(paths := s.paths[cli := s.paths[cli].(regs := regs)]), calls, q)
  {
    assert ProcOk(s, calls, q);
    assert Path(s.procs[q]) != cli;
  }

  lemma RegsPath(s: State, calls: Calls, cli: Byte, regs: Regs, p: Byte)
    requires Inv(s, calls) && cli in s.paths && p in s.paths
    ensures PathOk(s.(paths := s.paths[cli := s.paths[cli].(regs := regs)]), p)
  {
    assert PathOk(s, p);
  }

  lemma ClientCallKeeps(s: State, calls: Calls, pid: Byte, cli: Byte, op: Byte, regs: Regs, reserved: bool)
    requires Inv(s, calls) && Enabled(s, DoClientCall(pid, cli, op, regs, reserved))
    ensures var o := ClientCall(s, pid, cli, op, regs, reserved);
            var dae := s.paths[cli].peer;
            && !o.Wild? && Kept(o, calls) && dae in s.paths
            && (o.Halt? <==> s.paths[dae].peer != NULL)
            && (o.Overflow? <==> s.paths[dae].peer == NULL && s.paths[cli].linkCount == 255)
  {
    RegsKeep(s, calls, cli, regs);
    assert PathOk(s, cli);
    var s1 := s.(paths := s.paths[cli := s.paths[cli].(regs := regs)]);
    assert !Busy(s1, cli);
    OperateKeeps(s1, calls, pid, cli, s.paths[cli].peer, op, [], reserved);
  }

  // A client is unlinked from its daemon when its last link closes.

  ghost predicate MayUnlink(s: State, calls: Calls, cli: Byte) {
    && Inv(s, calls) && cli in s.paths && !s.paths[cli].isDaemon && s.paths[cli].users == 0
    && s.paths[cli].peer in s.paths && s.paths[s.paths[cli].peer].isDaemon && !Busy(s, cli)
  }

  lemma UnlinkShape(s: State, calls: Calls, cli: Byte)
    requires MayUnlink(s, calls, cli)
    ensures Unlink(s, cli).Next? && LinksOk(Unlink(s, cli).s.paths) && NamesOk(Unlink(s, cli).s.paths)
    ensures cli in Unlink(s, cli).s.paths <==> s.paths[s.paths[cli].peer].peer == cli
  {
    var dae := s.paths[cli].peer;
    assert LinkOk(s.paths, cli);
    forall d | d in Pointers(s.paths, cli) ensures d == dae { assert PathOk(s, d); }
    if s.paths[dae].peer == cli {
      assert Pointers(s.paths, cli) == {dae};
    } else {
      assert dae !in Pointers(s.paths, cli);
      assert Pointers(s.paths, cli) == {};
    }
    UnlinkLinks(s, cli);
    SameNames(s.paths, Unlink(s, cli).s.paths);
  }

  lemma UnlinkProc(s: State, calls: Calls, cli: Byte, q: Byte)
    requires MayUnlink(s, calls, cli) && Unlink(s, cli).Next? && q in s.procs
    ensures ProcOk(Unlink(s, cli).s, calls, q)
  {
    assert ProcOk(s, calls, q);
    assert Path(s.procs[q]) != cli;
  }

  lemma UnlinkPath(s: State, calls: Calls, cli: Byte, p: Byte)
    requires MayUnlink(s, calls, cli) && Unlink(s, cli).Next? && p in Unlink(s, cli).s.paths
    requires cli in Unlink(s, cli).s.paths <==> s.paths[s.paths[cli].peer].peer == cli
    ensures PathOk(Unlink(s, cli).s, p)
  {
    assert PathOk(s, p);
    assert PathOk(s, cli);
    if s.paths[p].isDaemon && s.paths[p].turn == Writes {
      assert Path(s.procs[s.paths[s.paths[p].peer].paused]) != cli;
    }
  }

  lemma UnlinkKeeps(s: State, calls: Calls, cli: Byte)
    requires MayUnlink(s, calls, cli)
    ensures Unlink(s, cli).Next? && Inv(Unlink(s, cli).s, calls)
  {
    UnlinkShape(s, calls, cli);
    var s' := Unlink(s, cli).s;
    forall q | q in s'.procs ensures ProcOk(s', calls, q) { UnlinkProc(s, calls, cli, q); }
    forall p | p in s'.paths ensures PathOk(s', p) { UnlinkPath(s, calls, cli, p); }
    forall k | k in calls ensures CallOk(s', calls, k) { assert CallOk(s, calls, k); }
  }

  // A client that was woken returns with its daemon's answer.

  ghost function Resumed(s: State, pid: Byte): State
    requires pid in s.procs && s.procs[pid].Pause? && s.procs[pid].cli in s.paths
  {
    var p := s.procs[pid];
    s.(paths := s.paths[p.cli := s.paths[p.cli].(paused := 0)], woken := s.woken - {pid},
       procs := s.procs - {pid}, frames := s.frames - {p.frame})
  }

  lemma ResumedProc(s: State, calls: Calls, pid: Byte, q: Byte)
    requires Inv(s, calls) && Enabled(s, DoClientResume(pid)) && ProcOk(s, calls, pid) && q in s.procs && q != pid
    ensures ProcOk(Resumed(s, pid), calls[s.procs[pid].frame := Done], q)
  {
    assert ProcOk(s, calls, q);
    assert Path(s.procs[q]) != Path(s.procs[pid]);
    if !s.procs[q].InRead? { assert PathOk(s, s.procs[q].dae); }
  }

  lemma ResumedPath(s: State, calls: Calls, pid: Byte, p: Byte)
    requires Inv(s, calls) && Enabled(s, DoClientResume(pid)) && ProcOk(s, calls, pid) && p in s.paths
    ensures PathOk(Resumed(s, pid), p)
  {
    assert PathOk(s, p);
  }

  lemma ResumedShape(s: State, calls: Calls, pid: Byte)
    requires Inv(s, calls) && Enabled(s, DoClientResume(pid)) && ProcOk(s, calls, pid)
    ensures var s' := Resumed(s, pid);
            LinksOk(s'.paths) && NamesOk(s'.paths) && OnePerPath(s'.procs) && WokenOk(s'.woken, s'.procs)
    ensures !Busy(Resumed(s, pid), s.procs[pid].cli)
  {
    var s' := Resumed(s, pid);
    SameLinks(s.paths, s'.paths);
    SameNames(s.paths, s'.paths);
    SamePaths(s.procs, s'.procs);
    forall q | q in s'.procs ensures Path(s'.procs[q]) != s.procs[pid].cli { assert Path(s.procs[q]) != Path(s.procs[pid]); }
  }

  lemma ResumedCall(s: State, calls: Calls, pid: Byte, k: Frame)
    requires Inv(s, calls) && Enabled(s, DoClientResume(pid)) && ProcOk(s, calls, pid)
    requires k in calls[s.procs[pid].frame := Done]
    ensures CallOk(Resumed(s, pid), calls[s.procs[pid].frame := Done], k)
  {
    assert CallOk(s, calls, k);
  }

  lemma ResumedKeeps(s: State, calls: Calls, pid: Byte)
    requires Inv(s, calls) && Enabled(s, DoClientResume(pid)) && ProcOk(s, calls, pid)
    ensures Inv(Resumed(s, pid), calls[s.procs[pid].frame := Done])
  {
    var s', calls' := Resumed(s, pid), calls[s.procs[pid].frame := Done];
    ResumedShape(s, calls, pid);
    forall q | q in s'.procs ensures ProcOk(s', calls', q) { ResumedProc(s, calls, pid, q); }
    forall p | p in s'.paths ensures PathOk(s', p) { ResumedPath(s, calls, pid, p); }
    forall k | k in calls' ensures CallOk(s', calls', k) { ResumedCall(s, calls, pid, k); }
  }

  lemma ClientResumeKeeps(s: State, calls: Calls, pid: Byte)
    requires Inv(s, calls) && Enabled(s, DoClientResume(pid))
    ensures ClientResume(s, pid).Next? && Kept(ClientResume(s, pid), calls)
  {
    assert ProcOk(s, calls, pid);
    ResumedKeeps(s, calls, pid);
    ResumedShape(s, calls, pid);
    var p := s.procs[pid];
    if s.frames[p.frame].op == OP_CLOSE { UnlinkKeeps(Resumed(s, pid), calls[p.frame := Done], p.cli); }
  }

  // IOMan closes one link to a path.

  lemma RemoveDaemonKeeps(s: State, calls: Calls, dae: Byte)
    requires Inv(s, calls) && dae in s.paths && s.paths[dae].isDaemon && s.paths[dae].linkCount == 0
    ensures Inv(s.(paths := s.paths - {dae}), calls)
  {
    var s' := s.(paths := s.paths - {dae});
    assert PathOk(s, dae);
    RemoveDaemonLinks(s.paths, dae);
    SameNames(s.paths, s'.paths);
    forall q | q in s'.procs ensures ProcOk(s', calls, q) { RemoveDaemonProc(s, calls, dae, q); }
    forall p | p in s'.paths ensures PathOk(s', p) { RemoveDaemonPath(s, calls, dae, p); }
    forall k | k in calls ensures CallOk(s', calls, k) { assert CallOk(s, calls, k); }
  }

  lemma RemoveDaemonProc(s: State, calls: Calls, dae: Byte, q: Byte)
    requires Inv(s, calls) && dae in s.paths && s.paths[dae].isDaemon && s.paths[dae].linkCount == 0
    requires Pointers(s.paths, dae) == {} && q in s.procs
    ensures ProcOk(s.(paths := s.paths - {dae}), calls, q)
  {
    assert ProcOk(s, calls, q);
    assert LinkOk(s.paths, dae);
    assert Path(s.procs[q]) in s.paths && Path(s.procs[q]) !in Pointers(s.paths, dae);
  }

  lemma RemoveDaemonPath(s: State, calls: Calls, dae: Byte, p: Byte)
    requires Inv(s, calls) && dae in s.paths && s.paths[dae].isDaemon
    requires Pointers(s.paths, dae) == {} && p in s.paths && p != dae
    ensures PathOk(s.(paths := s.paths - {dae}), p)
  {
    assert PathOk(s, p);
    assert p !in Pointers(s.paths, dae);
  }

  /** The close that reaches a client's last link asks its daemon to close, too. */
  predicate LastClientLink(s: State, pd: Byte)
    requires pd in s.paths
  {
    !s.paths[pd].isDaemon && s.paths[pd].linkCount == 1
  }

  lemma CloseKeeps(s: State, calls: Calls, pid: Byte, pd: Byte, reserved: bool)
    requires Inv(s, calls) && Enabled(s, DoClose(pid, pd, reserved))
    ensures var o := Close(s, pid, pd, reserved);
            && !o.Wild? && !o.Overflow? && Kept(o, calls)
            && (o.Halt? <==> LastClientLink(s, pd) && s.paths[pd].peer in s.paths && s.paths[s.paths[pd].peer].peer != NULL)
  {
    var d := s.paths[pd];
    assert LinkOk(s.paths, pd);
    assert PathOk(s, pd);
    var d' := d.(users := d.users - 1, linkCount := Dec(d.linkCount));
    UsersKeep(s, calls, pd, d');
    var s1 := s.(paths := s.paths[pd := d']);
    if d'.linkCount == 0 {
      if d.isDaemon {
        RemoveDaemonKeeps(s1, calls, pd);
      } else {
        assert !Busy(s1, pd);
        OperateKeeps(s1, calls, pid, pd, d.peer, OP_CLOSE, [], reserved);
        var o := OnPeer(s1, pid, pd, OP_CLOSE, reserved);
        if !reserved && o.Next? { UnlinkKeeps(o.s, calls, pd); }
      }
    }
  }
}
