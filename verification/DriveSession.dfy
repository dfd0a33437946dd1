/** The drive session as the object the server keeps, and whole sessions of it. */
module DriveSession {
  import opened Bytes
  import opened Drives
  import opened DriveProofs
  import opened Sequences

  class Session {
    const site: Site
    var drives: array<Option<Drive>>
    var files: map<string, seq<Byte>>
    var saves: seq<Save>
    var written: nat

    constructor (site: Site, files: map<string, seq<Byte>>)
      ensures this.site == site && fresh(drives) && Now() == Fresh(files)
    {
      this.site, this.files, this.saves, this.written := site, files, [], 0;
      drives := new Option<Drive>[DRIVES](_ => None);
    }

    ghost function Now(): State
      reads this, drives
    {
      State(drives[..], files, saves, written)
    }

    method IsModelMounted(path: string) returns (twice: bool, at: Option<nat>)
      ensures twice <==> MountedTwice(Now(), path)
      ensures !twice ==> at == MountedFrom(Now(), path, 0)
    {
      at := None;
      for i := 0 to drives.Length
        invariant at.None? ==> forall e :: 0 <= e < i ==> !HasPath(Now(), e, path)
        invariant at.Some? ==> at.value < i && HasPath(Now(), at.value, path)
        invariant at.Some? ==> forall e :: 0 <= e < i && e != at.value ==> !HasPath(Now(), e, path)
      {
        assert Now().drives[i] == drives[i];
        if drives[i].Some? && drives[i].value.path == path {
          if at.Some? {
            assert HasPath(Now(), at.value, path) && HasPath(Now(), i, path);
            return true, at;
          }
          at := Some(i);
        }
      }
      twice := false;
      MountedIsFound(Now(), path, at, 0);
    }

    method CleanupOneDrive(d: nat)
      requires d < drives.Length
      modifies this`files, this`saves, drives
      ensures Now() == CleanupOne(site, old(Now()), d)
    {
      var o := drives[d];
      if o.None? || !o.value.dirty {
        return;
      }
      var save := SaveOf(site, o.value);
      if save.stored {
        files := files[TrueName(save.dest) := save.image];
      }
      saves := saves + [save];
      drives[d] := None;
    }

    method Cleanup()
      modifies this`files, this`saves, drives
      ensures Now() == CleanupFrom(site, old(Now()), 0)
    {
      for d := 0 to drives.Length
        invariant CleanupFrom(site, Now(), d) == CleanupFrom(site, old(Now()), 0)
      {
        CleanupOneDrive(d);
      }
    }

    method UnmountDrive(d: nat)
      requires d < drives.Length
      modifies this`files, this`saves, drives
      ensures Now() == Unmount(site, old(Now()), d)
    {
      CleanupOneDrive(d);
      drives[d] := None;
    }

    method UnmountAll()
      modifies this`files, this`saves, drives
      ensures Now() == UnmountFrom(site, old(Now()), 0)
    {
      for d := 0 to drives.Length
        invariant UnmountFrom(site, Now(), d) == UnmountFrom(site, old(Now()), 0)
      {
        UnmountDrive(d);
      }
    }

    method SetDrive(n: nat, path: string, floppy: bool) returns (ok: bool)
      requires n < drives.Length
      modifies this`files, this`saves, drives
      ensures (if ok then Ok(Now()) else Panic(Now())) == Drives.SetDrive(site, old(Now()), n, path, floppy)
    {
      var twice, at := IsModelMounted(path);
      if twice {
        return false;
      }
      if at == Some(n) {
        return true;
      }
      if at.Some? {
        UnmountDrive(at.value);
      }
      if drives[n].Some? {
        UnmountDrive(n);
      }
      drives[n] := Some(if floppy then NEW_DRIVE.(path := path) else NEW_DRIVE);
      ok := true;
    }

    method Sector(big: nat, req: Request, now: string) returns (ok: bool, reply: Option<seq<Byte>>)
      requires drives.Length == DRIVES
      modifies this`written, drives
      ensures (if ok then Ok(Now()) else Panic(Now()), reply) == Drives.Sector(old(Now()), big, req, now)
    {
      var d, lsn := big / PER_DRIVE, big % PER_DRIVE;
      reply := None;
      if d >= DRIVES {
        return false, None;
      }
      var loaded := Load(State(drives[..], files, saves, written), d, now);
      if loaded.None? || |loaded.value.image.value| < SIZE35 {
        return false, None;
      }
      drives[d] := loaded;
      var drive := loaded.value;
      match req {
        case ReadSector => reply := Some(drive.image.value[SECTOR * lsn..SECTOR * lsn + SECTOR]);
        case WriteSector(data) =>
          if drive.path == "" {
            drive := drive.(path := TempName(d));
          }
          drives[d] := Some(drive.(image := Some(Patched(drive.image.value, lsn, data)), dirty := true,
                                   writes := drive.writes + [Write(written, lsn, data)]));
          written := written + 1;
        case Unknown => return false, None;
      }
      ok := true;
    }
  }

  lemma {:induction false} MountedIsFound(s: State, path: string, at: Option<nat>, d: nat)
    requires at.None? ==> forall e :: d <= e < |s.drives| ==> !HasPath(s, e, path)
    requires at.Some? ==> d <= at.value < |s.drives| && HasPath(s, at.value, path)
    requires at.Some? ==> forall e :: d <= e < |s.drives| && e != at.value ==> !HasPath(s, e, path)
    ensures MountedFrom(s, path, d) == at
    decreases |s.drives| - d
  {
    if d < |s.drives| && !HasPath(s, d, path) {
      MountedIsFound(s, path, at, d + 1);
    }
  }

  function Fresh(files: map<string, seq<Byte>>): State {
    State(seq(DRIVES, _ => None), files, [], 0)
  }

  // ----- Whole sessions -----

  /** What a session asks for; now is the clock. A model's path is absolute. */
  datatype Op = Mount(n: nat, path: string, floppy: bool) | Use(big: nat, req: Request, now: string) | UnmountEverything

  predicate OpOk(op: Op) { op.Mount? ==> op.n < DRIVES && op.path != "" && op.path[0] == '/' }

  predicate AllOk(ops: seq<Op>) { forall op {:trigger OpOk(op)} :: op in ops ==> OpOk(op) }

  function Apply(site: Site, s: State, op: Op): (Outcome, Option<seq<Byte>>)
    requires |s.drives| == DRIVES && OpOk(op)
  {
    match op
    case Mount(n, path, floppy) => (Drives.SetDrive(site, s, n, path, floppy), None)
    case Use(big, req, now) => Sector(s, big, req, now)
    case UnmountEverything => (Ok(UnmountFrom(site, s, 0)), None)
  }

  lemma ApplyKeeps(site: Site, s: State, op: Op)
    requires Good(s) && OpOk(op)
    ensures Good(Apply(site, s, op).0.state)
    ensures Apply(site, s, op).0.Panic? ==> op.Use?
    ensures Apply(site, s, op).1.Some? ==> op.Use? && Answers(Apply(site, s, op).0.state, op.big, Apply(site, s, op).1.value)
  {
    match op
    case Mount(n, path, floppy) => SetDriveKeeps(site, s, n, path, floppy);
    case Use(big, req, now) => SectorKeeps(s, big, req, now);
    case UnmountEverything => UnmountAllKeeps(site, s, 0);
  }

  /** The state a session ends in, by its last request or by a panic, and how many cleanups it has
      registered by then. */
  function After(site: Site, s: State, ops: seq<Op>, registered: nat): (State, nat)
    requires Good(s) && AllOk(ops)
    decreases |ops|
  {
    if ops == [] then (s, registered)
    else
      assert OpOk(ops[0]);
      ApplyKeeps(site, s, ops[0]);
      var (o, _) := Apply(site, s, ops[0]);
      var r := if ops[0].Use? then registered + 1 else registered;
      if o.Panic? then (o.state, r) else After(site, o.state, ops[1..], r)
  }

  lemma {:induction false} AfterKeeps(site: Site, s: State, ops: seq<Op>, registered: nat)
    requires Good(s) && AllOk(ops)
    requires s.written > 0 ==> registered > 0
    ensures var (t, r) := After(site, s, ops, registered);
            Good(t) && (t.written > 0 ==> r > 0)
    decreases |ops|
  {
    if ops != [] {
      assert OpOk(ops[0]);
      ApplyKeeps(site, s, ops[0]);
      var (o, _) := Apply(site, s, ops[0]);
      WritesAreUses(site, s, ops[0]);
      if o.Ok? {
        AfterKeeps(site, o.state, ops[1..], if ops[0].Use? then registered + 1 else registered);
      }
    }
  }

  lemma WritesAreUses(site: Site, s: State, op: Op)
    requires Good(s) && OpOk(op)
    ensures Apply(site, s, op).0.state.written != s.written ==> op.Use?
  {
    match op
    case Mount(n, path, floppy) => SetDriveKeeps(site, s, n, path, floppy);
    case Use(_, _, _) =>
    case UnmountEverything => UnmountAllKeeps(site, s, 0);
  }

  lemma FreshIsGood(files: map<string, seq<Byte>>)
    ensures Good(Fresh(files))
  {
    var s := Fresh(files);
    CleanHoldsNothing(s.drives);
  }

  /** Any session, up to its end or a panic: no nonempty path is on two drives. */
  lemma NeverMountedTwice(site: Site, files: map<string, seq<Byte>>, ops: seq<Op>, path: string)
    requires AllOk(ops) && path != ""
    ensures Good(Fresh(files)) && !MountedTwice(After(site, Fresh(files), ops, 0).0, path)
  {
    FreshIsGood(files);
    AfterKeeps(site, Fresh(files), ops, 0);
    UniqueNeverTwice(After(site, Fresh(files), ops, 0).0, path);
  }

  /** Any session: once its cleanups have run, each of its sector writes is in exactly one save,
      each save is its image with all its writes, and one cleanup would have done as well. */
  lemma EverythingIsSavedOnce(site: Site, files: map<string, seq<Byte>>, ops: seq<Op>)
    requires AllOk(ops)
    ensures Good(Fresh(files))
    ensures var (s, registered) := After(site, Fresh(files), ops, 0);
            var t := Cleanups(site, s, registered);
            SavedIds(t.saves) == Below(s.written) && SavesOk(t.saves) &&
            (registered > 0 ==> t == CleanupFrom(site, s, 0))
  {
    FreshIsGood(files);
    AfterKeeps(site, Fresh(files), ops, 0);
    var (s, registered) := After(site, Fresh(files), ops, 0);
    if registered > 0 {
      AllSaved(site, s, registered);
      CleanupsAreOne(site, s, registered);
    } else {
      assert Below(0) == multiset{};
      assert SavedIds(s.saves) <= HeldIds(s.drives) + SavedIds(s.saves);
    }
  }

  // ----- What becomes of the saved files -----

  /** The files after the saves, from what they were before. */
  function Replayed(files: map<string, seq<Byte>>, saves: seq<Save>): map<string, seq<Byte>> {
    if saves == [] then files
    else
      var save, before := saves[|saves| - 1], Replayed(files, saves[..|saves| - 1]);
      if save.stored then before[TrueName(save.dest) := save.image] else before
  }

  predicate SameFile(a: Save, b: Save) { TrueName(a.dest) == TrueName(b.dest) }

  /** The last stored save to the file that save i went to. */
  function LastOf(saves: seq<Save>, i: nat): (k: nat)
    requires i < |saves| && saves[i].stored
    ensures i <= k < |saves| && saves[k].stored && SameFile(saves[k], saves[i])
    ensures forall j :: k < j < |saves| && saves[j].stored ==> !SameFile(saves[j], saves[i])
    decreases |saves|
  {
    var n := |saves| - 1;
    if saves[n].stored && SameFile(saves[n], saves[i]) then n else LastOf(saves[..n], i)
  }

  /** The file that a save went to still holds its image. */
  predicate Survives(files: map<string, seq<Byte>>, save: Save) {
    TrueName(save.dest) in files && files[TrueName(save.dest)] == save.image
  }

  lemma CleanupFiles(site: Site, s: State, d: nat, files: map<string, seq<Byte>>)
    requires s.files == Replayed(files, s.saves) && d < |s.drives|
    ensures CleanupOne(site, s, d).files == Replayed(files, CleanupOne(site, s, d).saves)
  {
    if NeedsSaving(s, d) {
      var save := SaveOf(site, s.drives[d].value);
      assert (s.saves + [save])[..|s.saves|] == s.saves;
    }
  }

  lemma {:induction false} CleanupFromFiles(site: Site, s: State, d: nat, files: map<string, seq<Byte>>)
    requires s.files == Replayed(files, s.saves)
    ensures CleanupFrom(site, s, d).files == Replayed(files, CleanupFrom(site, s, d).saves)
    decreases |s.drives| - d
  {
    if d < |s.drives| {
      CleanupFiles(site, s, d, files);
      CleanupFromFiles(site, CleanupOne(site, s, d), d + 1, files);
    }
  }

  lemma {:induction false} CleanupsFiles(site: Site, s: State, times: nat, files: map<string, seq<Byte>>)
    requires s.files == Replayed(files, s.saves)
    ensures Cleanups(site, s, times).files == Replayed(files, Cleanups(site, s, times).saves)
    decreases times
  {
    if times > 0 {
      CleanupFromFiles(site, s, 0, files);
      CleanupsFiles(site, CleanupFrom(site, s, 0), times - 1, files);
    }
  }

  lemma {:induction false} UnmountFiles(site: Site, s: State, d: nat, files: map<string, seq<Byte>>)
    requires s.files == Replayed(files, s.saves)
    ensures UnmountFrom(site, s, d).files == Replayed(files, UnmountFrom(site, s, d).saves)
    decreases |s.drives| - d
  {
    if d < |s.drives| {
      CleanupFiles(site, s, d, files);
      UnmountFiles(site, Unmount(site, s, d), d + 1, files);
    }
  }

  lemma MountFiles(site: Site, s: State, n: nat, path: string, floppy: bool, files: map<string, seq<Byte>>)
    requires n < |s.drives| && s.files == Replayed(files, s.saves)
    ensures var t := Drives.SetDrive(site, s, n, path, floppy).state; t.files == Replayed(files, t.saves)
  {
    var at := MountedFrom(s, path, 0);
    var t := if at.Some? then Unmount(site, s, at.value) else s;
    if at.Some? { CleanupFiles(site, s, at.value, files); }
    CleanupFiles(site, t, n, files);
  }

  lemma ApplyFiles(site: Site, s: State, op: Op, files: map<string, seq<Byte>>)
    requires |s.drives| == DRIVES && OpOk(op) && s.files == Replayed(files, s.saves)
    ensures Apply(site, s, op).0.state.files == Replayed(files, Apply(site, s, op).0.state.saves)
  {
    match op
    case Mount(n, path, floppy) => MountFiles(site, s, n, path, floppy, files);
    case Use(_, _, _) =>
    case UnmountEverything => UnmountFiles(site, s, 0, files);
  }

  lemma {:induction false} AfterFiles(site: Site, s: State, ops: seq<Op>, registered: nat, files: map<string, seq<Byte>>)
    requires Good(s) && AllOk(ops) && s.files == Replayed(files, s.saves)
    ensures After(site, s, ops, registered).0.files == Replayed(files, After(site, s, ops, registered).0.saves)
    decreases |ops|
  {
    if ops != [] {
      assert OpOk(ops[0]);
      ApplyKeeps(site, s, ops[0]);
      ApplyFiles(site, s, ops[0], files);
      var (o, _) := Apply(site, s, ops[0]);
      if o.Ok? {
        AfterFiles(site, o.state, ops[1..], if ops[0].Use? then registered + 1 else registered, files);
      }
    }
  }

  lemma {:induction false} LastSaveStays(files: map<string, seq<Byte>>, saves: seq<Save>, i: nat)
    requires i < |saves| && saves[i].stored
    ensures Survives(Replayed(files, saves), saves[LastOf(saves, i)])
  {
    var n := |saves| - 1;
    if !(saves[n].stored && SameFile(saves[n], saves[i])) {
      LastSaveStays(files, saves[..n], i);
    }
  }

  /** Any session, its cleanups run: an image saved is still in the file it was saved to, and not
      only listed, exactly when the last save to that file was of the same image. */
  lemma SavedFilesKept(site: Site, files: map<string, seq<Byte>>, ops: seq<Op>, i: nat)
    requires AllOk(ops)
    ensures Good(Fresh(files))
    ensures var (s, registered) := After(site, Fresh(files), ops, 0);
            var t := Cleanups(site, s, registered);
            i < |t.saves| && t.saves[i].stored ==>
            (Survives(t.files, t.saves[i]) <==> t.saves[LastOf(t.saves, i)].image == t.saves[i].image)
  {
    FreshIsGood(files);
    AfterFiles(site, Fresh(files), ops, 0, files);
    var (s, registered) := After(site, Fresh(files), ops, 0);
    var t := Cleanups(site, s, registered);
    CleanupsFiles(site, s, registered, files);
    if i < |t.saves| && t.saves[i].stored { LastSaveStays(files, t.saves, i); }
  }

  // ----- Two saves of one name -----

  /** Images loaded in one second from files of one name are saved to one file, the second over
      the first, which is lost unless they are equal. */
  lemma SameNameOverwrites(site: Site, s: State, d: nat, e: nat)
    requires Good(s) && d < e < DRIVES && NeedsSaving(s, d) && NeedsSaving(s, e)
    requires s.drives[d].value.stamp == s.drives[e].value.stamp
    requires Base(s.drives[d].value.path) == Base(s.drives[e].value.path)
    requires Dest(site.retain, s.drives[d].value) !in site.refused
    ensures var t := CleanupOne(site, CleanupOne(site, s, d), e);
            var first, second := SaveOf(site, s.drives[d].value), SaveOf(site, s.drives[e].value);
            t.saves == s.saves + [first, second] && Survives(t.files, second) &&
            (Survives(t.files, first) <==> first.image == second.image)
  {
    assert DriveOk(s.drives[e], e) && DriveOk(s.drives[d], d);
  }

  /** Two images of one name, in two directories, and a session that writes to both in the same
      second: its second save takes the place of the first. */
  function TwoImages(): map<string, seq<Byte>> { map["a/x" := Fill(SIZE35, 0), "b/x" := Fill(SIZE35, 1)] }

  function WriteToBoth(): seq<Op> {
    [Mount(0, "/a/x", true), Mount(1, "/b/x", true), Use(0, WriteSector([]), "now"), Use(PER_DRIVE, WriteSector([]), "now")]
  }

  function Holding(a: Drive, b: Drive): seq<Option<Drive>> { seq(DRIVES, _ => None)[0 := Some(a)][1 := Some(b)] }

  function Mounted(path: string): Drive { NEW_DRIVE.(path := path) }

  lemma MountsBoth(site: Site)
    ensures var o := Drives.SetDrive(site, Fresh(TwoImages()), 0, "/a/x", true);
            && o.Ok? && |o.state.drives| == DRIVES
            && Drives.SetDrive(site, o.state, 1, "/b/x", true) == Ok(Fresh(TwoImages()).(drives := Holding(Mounted("/a/x"), Mounted("/b/x"))))
  {
    var s := Fresh(TwoImages());
    MountedIsFound(s, "/a/x", None, 0);
    var t := s.(drives := s.drives[0 := Some(Mounted("/a/x"))]);
    assert Drives.SetDrive(site, s, 0, "/a/x", true) == Ok(t);
    MountedIsFound(t, "/b/x", None, 0);
  }

  /** The record of a model after a write of nothing. */
  function Touched(path: string, b: Byte, id: nat): Drive {
    Drive(path, Some(Fill(SIZE35, b)), true, "now", Fill(SIZE35, b), [Write(id, 0, [])])
  }

  lemma TouchesOne(s: State, d: nat, path: string, b: Byte)
    requires d < DRIVES == |s.drives| && s.drives[d] == Some(Mounted(path)) && path != ""
    requires TrueName(path) in s.files && s.files[TrueName(path)] == Fill(SIZE35, b)
    ensures Sector(s, d * PER_DRIVE, WriteSector([]), "now").0 ==
            Ok(s.(drives := s.drives[d := Some(Touched(path, b, s.written))], written := s.written + 1))
  {
    var image := Fill(SIZE35, b);
    var loaded := Mounted(path).(image := Some(image), stamp := "now", base := image);
    assert Load(s, d, "now") == Some(loaded);
    assert Patched(image, 0, []) == image;
    assert d * PER_DRIVE / PER_DRIVE == d && d * PER_DRIVE % PER_DRIVE == 0;
    var t := s.(drives := s.drives[d := Some(loaded)]);
    assert [] + [Write(s.written, 0, [])] == [Write(s.written, 0, [])];
    assert Written(t, d, loaded, 0, []).drives == s.drives[d := Some(Touched(path, b, s.written))];
  }

  lemma TouchesBoth(s: State)
    requires s == Fresh(TwoImages()).(drives := Holding(Mounted("/a/x"), Mounted("/b/x")))
    ensures var t := Sector(s, 0, WriteSector([]), "now").0;
            && t.Ok? && |t.state.drives| == DRIVES
            && Sector(t.state, PER_DRIVE, WriteSector([]), "now").0 ==
               Ok(s.(drives := Holding(Touched("/a/x", 0, 0), Touched("/b/x", 1, 1)), written := 2))
  {
    TouchesOne(s, 0, "/a/x", 0);
    var t := Sector(s, 0, WriteSector([]), "now").0.state;
    TouchesOne(t, 1, "/b/x", 1);
    assert Holding(Mounted("/a/x"), Mounted("/b/x"))[0 := Some(Touched("/a/x", 0, 0))][1 := Some(Touched("/b/x", 1, 1))]
        == Holding(Touched("/a/x", 0, 0), Touched("/b/x", 1, 1));
  }

  /** Both go to one file. */
  lemma BothNames(site: Site)
    ensures Dest(site.retain, Touched("/a/x", 0, 0)) == Dest(site.retain, Touched("/b/x", 1, 1)) == site.retain + "/now-x"
  {
    assert "/a/x"[1..][1..] == "/x" == "/b/x"[1..][1..] && "/x"[1..] == "x";
    assert Base("/a/x") == "x" == Base("/b/x");
    assert site.retain + "/" + "now" + "-" + "x" == site.retain + "/now-x";
  }

  lemma SavesBoth(site: Site, s: State)
    requires site.retain + "/now-x" !in site.refused
    requires s.drives == Holding(Touched("/a/x", 0, 0), Touched("/b/x", 1, 1)) && s.saves == []
    ensures var t := CleanupFrom(site, s, 0);
            && |t.saves| == 2 && t.saves[0].stored && t.saves[0].image == Fill(SIZE35, 0)
            && !Survives(t.files, t.saves[0])
  {
    var a, b := Touched("/a/x", 0, 0), Touched("/b/x", 1, 1);
    BothNames(site);
    var t := CleanupOne(site, CleanupOne(site, s, 0), 1);
    assert t.saves == [SaveOf(site, a), SaveOf(site, b)];
    assert Fill(SIZE35, 0)[0] != Fill(SIZE35, 1)[0];
    NothingToClean(site, t, 2);
  }

  lemma AfterOne(site: Site, s: State, op: Op, rest: seq<Op>, registered: nat, t: State)
    requires Good(s) && AllOk([op] + rest) && OpOk(op) && Apply(site, s, op).0 == Ok(t)
    ensures AllOk(rest) && Good(t)
    ensures After(site, s, [op] + rest, registered) == After(site, t, rest, if op.Use? then registered + 1 else registered)
  {
    assert ([op] + rest)[1..] == rest;
    forall o {:trigger OpOk(o)} | o in rest ensures OpOk(o) { assert o in [op] + rest; }
    ApplyKeeps(site, s, op);
  }

  lemma AfterBoth(site: Site, s: State, a: Op, b: Op, rest: seq<Op>, registered: nat, u: State)
    requires Good(s) && AllOk([a, b] + rest) && OpOk(a) && OpOk(b)
    requires Apply(site, s, a).0.Ok? && |Apply(site, s, a).0.state.drives| == DRIVES
    requires Apply(site, Apply(site, s, a).0.state, b).0 == Ok(u)
    requires a.Use? <==> b.Use?
    ensures AllOk(rest) && Good(u)
    ensures After(site, s, [a, b] + rest, registered) == After(site, u, rest, if a.Use? then registered + 2 else registered)
  {
    assert [a, b] + rest == [a] + ([b] + rest);
    AfterOne(site, s, a, [b] + rest, registered, Apply(site, s, a).0.state);
    AfterOne(site, Apply(site, s, a).0.state, b, rest, if a.Use? then registered + 1 else registered, u);
  }

  /** After both writes: each model with its image, touched. */
  function BothTouched(): State {
    State(Holding(Touched("/a/x", 0, 0), Touched("/b/x", 1, 1)), TwoImages(), [], 2)
  }

  function Uses(): seq<Op> { [Use(0, WriteSector([]), "now"), Use(PER_DRIVE, WriteSector([]), "now")] }

  function BothMounted(): State { State(Holding(Mounted("/a/x"), Mounted("/b/x")), TwoImages(), [], 0) }

  lemma FourOk(a: Op, b: Op, c: Op, d: Op)
    requires OpOk(a) && OpOk(b) && OpOk(c) && OpOk(d)
    ensures AllOk([a, b, c, d])
  {}

  lemma SessionMountsBoth(site: Site)
    ensures Good(Fresh(TwoImages())) && AllOk(WriteToBoth()) && Good(BothMounted()) && AllOk(Uses())
    ensures After(site, Fresh(TwoImages()), WriteToBoth(), 0) == After(site, BothMounted(), Uses(), 0)
  {
    assert WriteToBoth() == [Mount(0, "/a/x", true), Mount(1, "/b/x", true)] + Uses();
    FreshIsGood(TwoImages());
    MountsBoth(site);
    var a, b := Mount(0, "/a/x", true), Mount(1, "/b/x", true);
    FourOk(a, b, Uses()[0], Uses()[1]);
    AfterBoth(site, Fresh(TwoImages()), a, b, Uses(), 0, BothMounted());
  }

  lemma UsesTouchBoth(site: Site)
    requires Good(BothMounted()) && AllOk(Uses())
    ensures Good(BothTouched()) && After(site, BothMounted(), Uses(), 0) == (BothTouched(), 2)
  {
    TouchesBoth(BothMounted());
    assert Uses() == Uses() + [];
    AfterBoth(site, BothMounted(), Uses()[0], Uses()[1], [], 0, BothTouched());
  }

  lemma SessionLosesAnImage(site: Site)
    requires site.retain + "/now-x" !in site.refused
    ensures Good(Fresh(TwoImages())) && AllOk(WriteToBoth())
    ensures var (s, registered) := After(site, Fresh(TwoImages()), WriteToBoth(), 0);
            var t := Cleanups(site, s, registered);
            |t.saves| == 2 && t.saves[0].stored && t.saves[0].image == Fill(SIZE35, 0) && !Survives(t.files, t.saves[0])
  {
    SessionMountsBoth(site);
    UsesTouchBoth(site);
    SavesBoth(site, BothTouched());
    CleanupsAreOne(site, BothTouched(), 2);
  }
}
