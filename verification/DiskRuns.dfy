/** Runs of the remote sector device: any calls, any image, any timing. */
module DiskRuns {
  import opened Bytes
  import opened Disk
  import opened DiskProofs
  import opened Sequences

  predicate Finished(s: State) { s.host.Idle? && s.ops == [] }

  /** The reads all keep clear of the sector within which the file ends at the time. */
  predicate Safe(ops: seq<Op>, image: seq<Byte>) { SafeTo(ops, image, |ops|) }

  predicate Known(s: State, ops: seq<Op>, image: seq<Byte>) { Good(s, ops, image) || Lost(s, ops, image) }

  lemma LostIsStuck(s: State, a: Actor, ops: seq<Op>, image: seq<Byte>)
    requires Lost(s, ops, image)
    ensures !Can(s, a)
  {
    assert |All(s.down)| == 0 && |All(s.up)| == 0;
  }

  lemma KnownKeeps(s: State, a: Actor, ops: seq<Op>, image: seq<Byte>)
    requires Known(s, ops, image)
    ensures Known(Step(s, a), ops, image)
    ensures Can(s, a) && !Step(s, a).server.Panicked? ==> Left(Step(s, a)) < Left(s)
  {
    if Lost(s, ops, image) {
      LostIsStuck(s, a, ops, image);
    } else if Can(s, a) {
      StepKeeps(s, a, ops, image);
    }
  }

  lemma {:induction false} RunKeeps(s: State, schedule: seq<Actor>, ops: seq<Op>, image: seq<Byte>)
    requires Known(s, ops, image)
    ensures Known(Run(s, schedule), ops, image)
    decreases |schedule|
  {
    if schedule != [] {
      var next := Step(s, schedule[0]);
      KnownKeeps(s, schedule[0], ops, image);
      RunKeeps(next, schedule[1..], ops, image);
      assert Run(s, schedule) == Run(next, schedule[1..]);
    }
  }

  lemma StartIsGood(ops: seq<Op>, image: seq<Byte>)
    ensures Good(Start(ops, image), ops, image)
  {
    assert ops[0..] == ops;
  }

  /** Every call so far was answered as by a plain array of sectors, and whenever the driver is
      between calls the streams are empty and the image file holds exactly that array. */
  lemma ActsAsAnArray(ops: seq<Op>, image: seq<Byte>, schedule: seq<Actor>)
    ensures var s := Run(Start(ops, image), schedule);
            Answered(s.results, ops, image) &&
            (s.host.Idle? ==>
               s.up == Pipe([], []) && s.down == Pipe([], []) && s.server == AwaitFive &&
               forall lsn: nat :: SectorAt(s.image, lsn) == Held(ops[..|s.results|], image, lsn))
  {
    var s := Run(Start(ops, image), schedule);
    StartIsGood(ops, image);
    RunKeeps(Start(ops, image), schedule, ops, image);
    if s.host.Idle? {
      assert |All(s.up)| == 0 && |All(s.down)| == 0;
      forall lsn: nat ensures SectorAt(s.image, lsn) == Held(ops[..|s.results|], image, lsn) {
        AfterHolds(ops[..|s.results|], image, lsn);
      }
    }
  }

  /** The drive number makes no difference to any answer. */
  lemma {:induction false} DriveIsIgnored(ops: seq<Op>, others: seq<Op>, image: seq<Byte>, lsn: nat)
    requires |ops| == |others|
    requires forall k {:trigger ops[k]} :: 0 <= k < |ops| ==> others[k] == ops[k].(drive := others[k].drive)
    ensures Held(ops, image, lsn) == Held(others, image, lsn)
  {
    if ops != [] {
      var n := |ops| - 1;
      assert others[n] == ops[n].(drive := others[n].drive);
      forall k | 0 <= k < n ensures others[..n][k] == ops[..n][k].(drive := others[..n][k].drive) {
        assert others[k] == ops[k].(drive := others[k].drive);
      }
      DriveIsIgnored(ops[..n], others[..n], image, lsn);
    }
  }

  // ----- Progress -----

  predicate Moving(s: State) { !Finished(s) && !s.server.Panicked? }

  /** As long as calls are outstanding, one of the three can move. */
  lemma NeverDeadlocked(s: State, ops: seq<Op>, image: seq<Byte>)
    requires Good(s, ops, image) && Moving(s)
    ensures HostCan(s) || ServerCan(s) || s.up.flight != [] || s.down.flight != []
  {
    if s.up.flight == [] && s.down.flight == [] {
      assert All(s.up) == s.up.arrived && All(s.down) == s.down.arrived;
    }
  }

  ghost predicate FairRound(r: seq<Actor>) {
    HostMoves in r && ServerMoves in r && (exists n :: Up(n) in r) && (exists n :: Down(n) in r)
  }

  ghost predicate Fair(rounds: seq<seq<Actor>>) {
    forall r {:trigger r in rounds} :: r in rounds ==> FairRound(r)
  }

  lemma {:induction false} RunAppend(s: State, first: seq<Actor>, second: seq<Actor>)
    ensures Run(s, first + second) == Run(Run(s, first), second)
    decreases |first|
  {
    if first == [] {
      assert first + second == second;
    } else {
      assert (first + second)[1..] == first[1..] + second;
      RunAppend(Step(s, first[0]), first[1..], second);
    }
  }

  lemma {:induction false} RunShrinks(s: State, schedule: seq<Actor>, ops: seq<Op>, image: seq<Byte>)
    requires Known(s, ops, image)
    ensures Run(s, schedule).server.Panicked? || Left(Run(s, schedule)) <= Left(s)
    decreases |schedule|
  {
    if schedule != [] {
      var next := Step(s, schedule[0]);
      KnownKeeps(s, schedule[0], ops, image);
      RunShrinks(next, schedule[1..], ops, image);
      if next.server.Panicked? {
        PanicLasts(next, schedule[1..]);
      }
    }
  }

  lemma {:induction false} PanicLasts(s: State, schedule: seq<Actor>)
    requires s.server.Panicked?
    ensures Run(s, schedule).server.Panicked?
    decreases |schedule|
  {
    if schedule != [] {
      PanicLasts(Step(s, schedule[0]), schedule[1..]);
    }
  }

  lemma {:induction false} ChanceTaken(s: State, r: seq<Actor>, a: Actor, ops: seq<Op>, image: seq<Byte>)
    requires Good(s, ops, image) && a in r && Can(s, a)
    ensures Run(s, r).server.Panicked? || Left(Run(s, r)) < Left(s)
    decreases |r|
  {
    var next := Step(s, r[0]);
    KnownKeeps(s, r[0], ops, image);
    if Can(s, r[0]) {
      if next.server.Panicked? { PanicLasts(next, r[1..]); } else { RunShrinks(next, r[1..], ops, image); }
    } else {
      ChanceTaken(s, r[1..], a, ops, image);
    }
  }

  lemma RoundMoves(s: State, r: seq<Actor>, ops: seq<Op>, image: seq<Byte>)
    requires Good(s, ops, image) && Moving(s) && FairRound(r)
    ensures Run(s, r).server.Panicked? || Left(Run(s, r)) < Left(s)
  {
    NeverDeadlocked(s, ops, image);
    var up :| Up(up) in r;
    var down :| Down(down) in r;
    var a := if HostCan(s) then HostMoves else if ServerCan(s) then ServerMoves else if s.up.flight != [] then Up(up) else Down(down);
    ChanceTaken(s, r, a, ops, image);
  }

  lemma {:induction false} FinishedStays(s: State, schedule: seq<Actor>, ops: seq<Op>, image: seq<Byte>)
    requires Good(s, ops, image) && Finished(s)
    ensures Run(s, schedule) == s
    decreases |schedule|
  {
    assert |All(s.up)| == 0 && |All(s.down)| == 0;
    if schedule != [] {
      FinishedStays(s, schedule[1..], ops, image);
    }
  }

  lemma {:induction false} RoundsFinish(s: State, rounds: seq<seq<Actor>>, ops: seq<Op>, image: seq<Byte>)
    requires Known(s, ops, image) && Fair(rounds) && (s.server.Panicked? || |rounds| >= Left(s))
    ensures !Moving(Run(s, Concat(rounds)))
    decreases |rounds|
  {
    if s.server.Panicked? {
      PanicLasts(s, Concat(rounds));
    } else if Finished(s) {
      FinishedStays(s, Concat(rounds), ops, image);
    } else if rounds == [] {
      NeverDeadlocked(s, ops, image);
    } else {
      var r := rounds[0];
      assert r in rounds;
      assert forall q {:trigger q in rounds[1..]} :: q in rounds[1..] ==> q in rounds;
      RoundMoves(s, r, ops, image);
      RunKeeps(s, r, ops, image);
      RunAppend(s, r, Concat(rounds[1..]));
      RoundsFinish(Run(s, r), rounds[1..], ops, image);
    }
  }

  lemma EndIsExact(s: State, ops: seq<Op>, image: seq<Byte>)
    requires Known(s, ops, image) && !Moving(s)
    ensures Finished(s) <==> Safe(ops, image)
    ensures s.server.Panicked? <==> !Safe(ops, image)
  {
    if Lost(s, ops, image) {
      assert !SafeCall(ops, image, |s.results|);
    } else {
      assert s.server.Panicked? ==> !s.host.Idle? && s.ops != [];
    }
  }

  /** Given a fair share of chances to each program and to the network, every call returns if and
      only if all the reads are safe; otherwise the server panics. */
  lemma FinishesExactly(ops: seq<Op>, image: seq<Byte>, rounds: seq<seq<Actor>>)
    requires Fair(rounds) && |rounds| >= 600 * |ops|
    ensures Finished(Run(Start(ops, image), Concat(rounds))) <==> Safe(ops, image)
    ensures Run(Start(ops, image), Concat(rounds)).server.Panicked? <==> !Safe(ops, image)
  {
    var s := Run(Start(ops, image), Concat(rounds));
    StartIsGood(ops, image);
    RunKeeps(Start(ops, image), Concat(rounds), ops, image);
    RoundsFinish(Start(ops, image), rounds, ops, image);
    EndIsExact(s, ops, image);
  }

  /** An image of whole sectors makes every list of calls safe. */
  lemma WholeIsSafe(ops: seq<Op>, image: seq<Byte>)
    requires Whole(image)
    ensures Safe(ops, image)
  {
    forall k {:trigger SafeCall(ops, image, k)} | 0 <= k < |ops| ensures SafeCall(ops, image, k) {
      AfterHolds(ops[..k], image, 0);
    }
  }

  /** And only such an image does: any other has a sector that cannot be read. */
  lemma RaggedIsNot(image: seq<Byte>)
    requires !Whole(image) && |image| / SECTOR < 0x100_0000
    ensures var lsn := |image| / SECTOR;
            !Safe([Read(0, lsn / 0x1_0000, lsn % 0x1_0000)], image)
  {
    var lsn := |image| / SECTOR;
    var ops := [Read(0, lsn / 0x1_0000, lsn % 0x1_0000)];
    assert ops[..0] == [] && Lsn(ops[0]) == lsn;
    assert !SafeCall(ops, image, 0);
  }
}
