/**
  What a drive gives back over a session: the bytes last written to it, or else those of the file
  that was mounted on it, or of a blank disk.
 */
module DriveReads {
  import opened Bytes
  import opened Drives
  import opened DriveProofs
  import opened DriveSession
  import opened Sequences

  // ----- Sessions, state by state -----

  predicate Step(site: Site, ss: seq<State>, ops: seq<Op>, k: nat)
    requires k < |ops| && |ss| == |ops| + 1
  {
    Good(ss[k]) && OpOk(ops[k]) && Apply(site, ss[k], ops[k]).0 == Ok(ss[k + 1])
  }

  /** A session without a panic: the state before each request, and the last. */
  predicate Runs(site: Site, ss: seq<State>, ops: seq<Op>) {
    && |ss| == |ops| + 1 && Good(ss[0])
    && forall k {:trigger Step(site, ss, ops, k)} | 0 <= k < |ops| :: Step(site, ss, ops, k)
  }

  lemma {:induction false} RunsGood(site: Site, ss: seq<State>, ops: seq<Op>, k: nat)
    requires Runs(site, ss, ops) && k <= |ops|
    ensures Good(ss[k])
  {
    if k > 0 {
      assert Step(site, ss, ops, k - 1);
      ApplyKeeps(site, ss[k - 1], ops[k - 1]);
    }
  }

  /** It is the session that After runs. */
  lemma {:induction false} RunsAreAfter(site: Site, ss: seq<State>, ops: seq<Op>, registered: nat)
    requires Runs(site, ss, ops)
    ensures AllOk(ops) && After(site, ss[0], ops, registered).0 == ss[|ops|]
    decreases |ops|
  {
    forall k | 0 <= k < |ops| ensures OpOk(ops[k]) { assert Step(site, ss, ops, k); }
    if ops != [] {
      assert Step(site, ss, ops, 0);
      RunsGood(site, ss, ops, 1);
      forall k {:trigger Step(site, ss[1..], ops[1..], k)} | 0 <= k < |ops[1..]| ensures Step(site, ss[1..], ops[1..], k) {
        assert Step(site, ss, ops, k + 1);
      }
      RunsAreAfter(site, ss[1..], ops[1..], if ops[0].Use? then registered + 1 else registered);
    }
  }

  // ----- What a drive should give -----

  predicate UsesDrive(op: Op, n: nat) { op.Use? && op.big / 630 == n }

  /** Requests that take drive n from its model: another mount on it, a mount of its path elsewhere,
      and unmounting everything. */
  predicate Disturbs(op: Op, n: nat, path: string) {
    op.UnmountEverything? || (op.Mount? && (op.n == n || op.path == path))
  }

  /** The first use of drive n at or after a place; the end, if there is none. */
  function FirstUse(ops: seq<Op>, n: nat, from: nat): (f: nat)
    requires from <= |ops|
    ensures from <= f <= |ops|
    decreases |ops| - from
  {
    if from == |ops| || UsesDrive(ops[from], n) then from else FirstUse(ops, n, from + 1)
  }

  /** The byte that the request writes at p of drive n, at most 256 from the start of its sector. */
  function WritesAt(op: Op, n: nat, p: nat): Option<Byte> {
    if UsesDrive(op, n) && op.req.WriteSector? && p / 256 == op.big % 630 && p % 256 < |op.req.data| then Some(op.req.data[p % 256])
    else None
  }

  /** The byte last written at p of drive n by the requests from a place on to another. */
  function LastWritten(ops: seq<Op>, n: nat, from: nat, end: nat, p: nat): Option<Byte>
    requires end <= |ops|
  {
    if end <= from then None
    else
      var b := WritesAt(ops[end - 1], n, p);
      if b.Some? then b else LastWritten(ops, n, from, end - 1, p)
  }

  /** The bytes of a blank disk: all FF, but for a sector of zeros and most of the next. */
  function BlankByte(p: nat): Byte { if 0x13200 <= p < 0x13300 || 0x13344 <= p < 0x13400 then 0 else 0xFF }

  lemma BlankDiskBytes(p: nat)
    requires p < 161280
    ensures BlankDisk()[p] == BlankByte(p)
  {
    var a, b, c, d := Fill(0x13200, 0xFF), Fill(0x100, 0), Fill(0x44, 0xFF), Fill(0xBC, 0);
    assert |a + b| == 0x13300 && |a + b + c| == 0x13344 && |a + b + c + d| == 0x13400;
  }

  /** What a drive of the path has to read: a file of a floppy's size, or a blank disk. */
  predicate Readable(files: map<string, seq<Byte>>, path: string) {
    path == "" || (TrueName(path) in files && |files[TrueName(path)]| in [161280, 184320, 368640])
  }

  function SourceByte(files: map<string, seq<Byte>>, path: string, p: nat): Byte
    requires Readable(files, path) && p < 161280
  {
    if path == "" then BlankByte(p) else files[TrueName(path)][p]
  }

  // ----- What a drive holds -----

  /** Not used yet. */
  predicate Waits(s: State, n: nat, path: string) {
    && n < |s.drives|
    && (s.drives[n] == Some(Drive(path, None, false, "", [], [])) || (path == "" && s.drives[n].None?))
  }

  /** Its image, with the path or the name a blank disk is given. */
  predicate Carries(s: State, n: nat, path: string, image: seq<Byte>) {
    && n < |s.drives| && s.drives[n].Some? && s.drives[n].value.image == Some(image) && 161280 <= |image|
    && (s.drives[n].value.path == path || (path == "" && n < 10 && s.drives[n].value.path == TempName(n)))
  }

  predicate Shows(image: seq<Byte>, files: map<string, seq<Byte>>, path: string, ops: seq<Op>, n: nat, from: nat, end: nat)
    requires end <= |ops|
  {
    161280 <= |image| && Readable(files, path) &&
    forall p {:trigger ShowsAt(image, files, path, ops, n, from, end, p)} | 0 <= p < 161280 :: ShowsAt(image, files, path, ops, n, from, end, p)
  }

  predicate ShowsAt(image: seq<Byte>, files: map<string, seq<Byte>>, path: string, ops: seq<Op>, n: nat, from: nat, end: nat, p: nat)
    requires end <= |ops| && p < 161280 <= |image| && Readable(files, path)
  {
    var b := LastWritten(ops, n, from, end, p);
    image[p] == if b.Some? then b.value else SourceByte(files, path, p)
  }

  lemma MountedAt(s: State, n: nat, path: string)
    requires Good(s) && path != "" && n < DRIVES && HasPath(s, n, path)
    ensures MountedFrom(s, path, 0) == Some(n)
  {
    UniqueNeverTwice(s, path);
    var at := MountedFrom(s, path, 0);
    assert at.Some? && HasPath(s, at.value, path);
  }

  /** A mount of a path that is on drive n already changes nothing. */
  lemma MountAgain(site: Site, s: State, n: nat, path: string, floppy: bool)
    requires Good(s) && n < DRIVES && path != "" && path[0] == '/' && HasPath(s, n, path)
    ensures Drives.SetDrive(site, s, n, path, floppy) == Ok(s)
  {
    UniqueNeverTwice(s, path);
    MountedAt(s, n, path);
  }

  /** The drive records after any other mount. */
  lemma MountAnew(site: Site, s: State, n: nat, path: string, floppy: bool)
    requires Good(s) && n < DRIVES && path != "" && path[0] == '/' && !HasPath(s, n, path)
    ensures var o, at := Drives.SetDrive(site, s, n, path, floppy), MountedFrom(s, path, 0);
            var ds := if at.Some? then s.drives[at.value := None] else s.drives;
            o.Ok? && o.state.drives == ds[n := Some(Drive(if floppy then path else "", None, false, "", [], []))]
  {
    UniqueNeverTwice(s, path);
    var at := MountedFrom(s, path, 0);
    if at.Some? { UnmountKeeps(site, s, at.value); }
    var t := if at.Some? then Unmount(site, s, at.value) else s;
    EmptiedFor(site, t, n, if floppy then NEW_DRIVE.(path := path) else NEW_DRIVE);
  }

  lemma EmptiedFor(site: Site, t: State, n: nat, v: Drive)
    requires Good(t) && n < DRIVES
    ensures var u := if t.drives[n].Some? then Unmount(site, t, n) else t;
            |u.drives| == DRIVES && u.drives[n := Some(v)] == t.drives[n := Some(v)]
  {
    if t.drives[n].Some? { UnmountKeeps(site, t, n); }
  }

  /** A mount leaves the drive with the model's path, not used yet, unless it has that path already. */
  lemma MountHolds(site: Site, s: State, n: nat, path: string, floppy: bool)
    requires Good(s) && n < DRIVES && path != "" && path[0] == '/'
    ensures var o := Drives.SetDrive(site, s, n, path, floppy);
            && o.Ok? && |o.state.drives| == |s.drives|
            && (if HasPath(s, n, path) then o.state == s else Waits(o.state, n, if floppy then path else ""))
  {
    if HasPath(s, n, path) {
      MountAgain(site, s, n, path, floppy);
    } else {
      MountAnew(site, s, n, path, floppy);
    }
  }

  /** Any other drive keeps its record, but for one that had the path. */
  lemma MountElsewhere(site: Site, s: State, n: nat, path: string, floppy: bool, e: nat)
    requires Good(s) && n < DRIVES && path != "" && path[0] == '/' && e < DRIVES && e != n
    ensures var t := Drives.SetDrive(site, s, n, path, floppy).state;
            |t.drives| == DRIVES && t.drives[e] == if HasPath(s, e, path) then None else s.drives[e]
  {
    if HasPath(s, n, path) {
      MountAgain(site, s, n, path, floppy);
      MountedAt(s, n, path);
    } else {
      MountAnew(site, s, n, path, floppy);
    }
    if HasPath(s, e, path) { MountedAt(s, e, path); }
  }

  lemma SectorElsewhere(s: State, big: nat, req: Request, now: string, n: nat)
    requires |s.drives| == DRIVES && n < DRIVES && big / 630 != n
    ensures var t := Sector(s, big, req, now).0.state; |t.drives| == DRIVES && t.drives[n] == s.drives[n]
  {
  }

  /** A drive of this path, or of none. */
  predicate Named(s: State, n: nat, path: string)
    requires n < |s.drives| && n < 10
  {
    s.drives[n].Some? ==> s.drives[n].value.path == path || s.drives[n].value.path == "" || s.drives[n].value.path == TempName(n)
  }

  lemma NotNamed(s: State, n: nat, path: string, other: string)
    requires n < |s.drives| && n < 10 && Named(s, n, path) && other != path && other != "" && other[0] == '/'
    ensures !HasPath(s, n, other)
  {
    assert TempName(n)[0] == 'n';
  }

  /** A request that is not for drive n leaves its record as it is. */
  lemma Elsewhere(site: Site, s: State, op: Op, n: nat, path: string)
    requires Good(s) && OpOk(op) && n < DRIVES && !UsesDrive(op, n) && !Disturbs(op, n, path) && Named(s, n, path)
    ensures var t := Apply(site, s, op).0.state; |t.drives| == DRIVES && t.drives[n] == s.drives[n]
  {
    match op
    case Mount(m, other, floppy) =>
      NotNamed(s, n, path, other);
      MountElsewhere(site, s, m, other, floppy, n);
    case Use(big, req, now) => SectorElsewhere(s, big, req, now, n);
    case UnmountEverything =>
  }

  /** The first use of a drive finds its file, or a blank disk. */
  lemma LoadsSource(s: State, n: nat, path: string, now: string)
    requires Waits(s, n, path)
    ensures Load(s, n, now).Some? <==> Readable(s.files, path)
    ensures Load(s, n, now).Some? ==>
              var image := Load(s, n, now).value.image;
              image.Some? && 161280 <= |image.value| && (forall p: nat | p < 161280 :: image.value[p] == SourceByte(s.files, path, p)) &&
              Load(s, n, now).value.path == path
  {
    if path == "" {
      forall p: nat | p < 161280 ensures BlankDisk()[p] == BlankByte(p) { BlankDiskBytes(p); }
    }
  }

  lemma LoadsAgain(s: State, n: nat, path: string, image: seq<Byte>, now: string)
    requires Carries(s, n, path, image)
    ensures Load(s, n, now) == s.drives[n]
  {
  }

  lemma PatchedByte(image: seq<Byte>, lsn: Lsn, data: seq<Byte>, p: nat)
    requires 161280 <= |image| && p < |image|
    ensures Patched(image, lsn, data)[p] == if p / 256 == lsn && p % 256 < |data| then data[p % 256] else image[p]
  {
    assert p == 256 * (p / 256) + p % 256;
  }

  /** One request for the drive, once its image is found. */
  lemma OneUse(s: State, ops: seq<Op>, k: nat, n: nat, path: string, image: seq<Byte>, files: map<string, seq<Byte>>, from: nat)
    requires |s.drives| == DRIVES && n < DRIVES && from <= k < |ops| && UsesDrive(ops[k], n)
    requires var loaded := Load(s, n, ops[k].now);
             loaded.Some? && loaded.value.image == Some(image) &&
             (loaded.value.path == path || (path == "" && loaded.value.path == TempName(n)))
    requires Shows(image, files, path, ops, n, from, k)
    requires Sector(s, ops[k].big, ops[k].req, ops[k].now).0.Ok?
    ensures var t := Sector(s, ops[k].big, ops[k].req, ops[k].now).0.state;
            exists after {:trigger Carries(t, n, path, after)} ::
              Carries(t, n, path, after) && Shows(after, files, path, ops, n, from, k + 1)
  {
    var op := ops[k];
    var t := Sector(s, op.big, op.req, op.now).0.state;
    var after := if op.req.WriteSector? then Patched(image, op.big % 630, op.req.data) else image;
    forall p {:trigger ShowsAt(after, files, path, ops, n, from, k + 1, p)} | 0 <= p < 161280
      ensures ShowsAt(after, files, path, ops, n, from, k + 1, p)
    {
      assert ShowsAt(image, files, path, ops, n, from, k, p);
      if op.req.WriteSector? { PatchedByte(image, op.big % 630, op.req.data, p); }
    }
    assert Carries(t, n, path, after);
  }

  // ----- Over a session -----

  /** From place `from` on, drive n is of the path, not used yet, and then left to it. */
  predicate Keeps(ss: seq<State>, ops: seq<Op>, n: nat, path: string, from: nat) {
    && |ss| == |ops| + 1 && from <= |ops| && n < DRIVES && Waits(ss[from], n, path) && (path == "" || path[0] == '/')
    && forall k {:trigger Disturbs(ops[k], n, path)} | from <= k < |ops| :: !Disturbs(ops[k], n, path)
  }

  /** What drive n holds before request k. */
  ghost predicate HeldAt(ss: seq<State>, ops: seq<Op>, n: nat, path: string, from: nat, k: nat)
    requires |ss| == |ops| + 1 && from <= k <= |ops|
  {
    var f := FirstUse(ops, n, from);
    if k <= f then Waits(ss[k], n, path)
    else exists image {:trigger Carries(ss[k], n, path, image)} ::
           Carries(ss[k], n, path, image) && Shows(image, ss[f].files, path, ops, n, from, k)
  }

  lemma {:induction false} FirstUseIs(ops: seq<Op>, n: nat, from: nat, k: nat)
    requires from <= k < |ops| && k <= FirstUse(ops, n, from)
    ensures UsesDrive(ops[k], n) <==> k == FirstUse(ops, n, from)
    decreases k - from
  {
    if k > from { FirstUseIs(ops, n, from + 1, k); }
  }

  lemma {:induction false} NotWritten(ops: seq<Op>, n: nat, from: nat, end: nat, p: nat)
    requires from <= |ops| && from <= end <= FirstUse(ops, n, from)
    ensures LastWritten(ops, n, from, end, p).None?
    decreases end
  {
    if end > from {
      FirstUseIs(ops, n, from, end - 1);
      NotWritten(ops, n, from, end - 1, p);
    }
  }

  lemma HeldElsewhere(site: Site, ss: seq<State>, ops: seq<Op>, n: nat, path: string, from: nat, k: nat)
    requires Keeps(ss, ops, n, path, from) && from <= k < |ops| && Step(site, ss, ops, k) && HeldAt(ss, ops, n, path, from, k)
    requires !UsesDrive(ops[k], n)
    ensures HeldAt(ss, ops, n, path, from, k + 1)
  {
    var f := FirstUse(ops, n, from);
    if k <= f { FirstUseIs(ops, n, from, k); }
    assert !Disturbs(ops[k], n, path) && Named(ss[k], n, path);
    Elsewhere(site, ss[k], ops[k], n, path);
    if k > f {
      var image :| Carries(ss[k], n, path, image) && Shows(image, ss[f].files, path, ops, n, from, k);
      ShowsOn(image, ss[f].files, path, ops, n, from, k);
      assert Carries(ss[k + 1], n, path, image);
    }
  }

  lemma ShowsOn(image: seq<Byte>, files: map<string, seq<Byte>>, path: string, ops: seq<Op>, n: nat, from: nat, k: nat)
    requires from <= k < |ops| && !UsesDrive(ops[k], n) && Shows(image, files, path, ops, n, from, k)
    ensures Shows(image, files, path, ops, n, from, k + 1)
  {
    forall p {:trigger ShowsAt(image, files, path, ops, n, from, k + 1, p)} | 0 <= p < 161280
      ensures ShowsAt(image, files, path, ops, n, from, k + 1, p)
    {
      assert ShowsAt(image, files, path, ops, n, from, k, p);
    }
  }

  /** What the first use, or a later one, finds. */
  lemma FindsHeld(ss: seq<State>, ops: seq<Op>, n: nat, path: string, from: nat, k: nat, now: string)
    requires Keeps(ss, ops, n, path, from) && from <= k <= |ops| && HeldAt(ss, ops, n, path, from, k)
    requires k <= FirstUse(ops, n, from) ==> k == FirstUse(ops, n, from)
    ensures var files, loaded := ss[FirstUse(ops, n, from)].files, Load(ss[k], n, now);
            && (loaded.Some? <==> Readable(files, path))
            && (loaded.Some? ==> loaded.value.image.Some? && Shows(loaded.value.image.value, files, path, ops, n, from, k) &&
                                 (loaded.value.path == path || (path == "" && loaded.value.path == TempName(n))))
  {
    var f := FirstUse(ops, n, from);
    if k == f {
      LoadsSource(ss[k], n, path, now);
      var loaded := Load(ss[k], n, now);
      if loaded.Some? {
        var image := loaded.value.image.value;
        forall p {:trigger ShowsAt(image, ss[f].files, path, ops, n, from, k, p)} | 0 <= p < 161280
          ensures ShowsAt(image, ss[f].files, path, ops, n, from, k, p)
        {
          NotWritten(ops, n, from, k, p);
        }
      }
    } else {
      var image :| Carries(ss[k], n, path, image) && Shows(image, ss[f].files, path, ops, n, from, k);
      LoadsAgain(ss[k], n, path, image, now);
    }
  }

  lemma HeldUsed(site: Site, ss: seq<State>, ops: seq<Op>, n: nat, path: string, from: nat, k: nat)
    requires Keeps(ss, ops, n, path, from) && from <= k < |ops| && Step(site, ss, ops, k) && HeldAt(ss, ops, n, path, from, k)
    requires UsesDrive(ops[k], n)
    ensures HeldAt(ss, ops, n, path, from, k + 1)
  {
    var f := FirstUse(ops, n, from);
    if k <= f { FirstUseIs(ops, n, from, k); }
    FindsHeld(ss, ops, n, path, from, k, ops[k].now);
    OneUse(ss[k], ops, k, n, path, Load(ss[k], n, ops[k].now).value.image.value, ss[f].files, from);
  }

  lemma {:induction false} HeldAlways(site: Site, ss: seq<State>, ops: seq<Op>, n: nat, path: string, from: nat, k: nat)
    requires Runs(site, ss, ops) && Keeps(ss, ops, n, path, from) && from <= k <= |ops|
    ensures HeldAt(ss, ops, n, path, from, k)
    decreases k - from
  {
    if from < k {
      HeldAlways(site, ss, ops, n, path, from, k - 1);
      HeldOneMore(site, ss, ops, n, path, from, k - 1);
    }
  }

  lemma HeldOneMore(site: Site, ss: seq<State>, ops: seq<Op>, n: nat, path: string, from: nat, k: nat)
    requires Runs(site, ss, ops) && Keeps(ss, ops, n, path, from) && from <= k < |ops| && HeldAt(ss, ops, n, path, from, k)
    ensures HeldAt(ss, ops, n, path, from, k + 1)
  {
    assert Step(site, ss, ops, k);
    if UsesDrive(ops[k], n) { HeldUsed(site, ss, ops, n, path, from, k); } else { HeldElsewhere(site, ss, ops, n, path, from, k); }
  }

  // ----- What a read gives -----

  /** Byte by byte: the last one written there, or else the source's. */
  predicate Gives(reply: seq<Byte>, files: map<string, seq<Byte>>, path: string, ops: seq<Op>, n: nat, from: nat, lsn: Lsn) {
    |reply| == 256 && Readable(files, path) &&
    forall j {:trigger reply[j]} | 0 <= j < 256 ::
      var b := LastWritten(ops, n, from, |ops|, 256 * lsn + j);
      reply[j] == if b.Some? then b.value else SourceByte(files, path, 256 * lsn + j)
  }

  /** A read, of a drive left to its path from a place on: it ends well if and only if there was
      something to read when the drive was first used, and gives its bytes with what was written. */
  lemma ReadGives(site: Site, ss: seq<State>, ops: seq<Op>, n: nat, path: string, from: nat, lsn: Lsn, now: string)
    requires Runs(site, ss, ops) && Keeps(ss, ops, n, path, from)
    ensures Good(ss[|ops|])
    ensures var f := FirstUse(ops, n, from);
            var (o, reply) := Sector(ss[|ops|], 630 * n + lsn, ReadSector, now);
            && (o.Ok? <==> Readable(ss[f].files, path)) && (reply.Some? <==> o.Ok?)
            && (o.Ok? ==> Gives(reply.value, ss[f].files, path, ops, n, from, lsn))
  {
    RunsGood(site, ss, ops, |ops|);
    HeldAlways(site, ss, ops, n, path, from, |ops|);
    FindsHeld(ss, ops, n, path, from, |ops|, now);
    var f, loaded := FirstUse(ops, n, from), Load(ss[|ops|], n, now);
    SectorReads(ss[|ops|], n, lsn, now, loaded);
    if loaded.Some? { ReadShown(loaded.value.image.value, ss[f].files, path, ops, n, from, lsn); }
  }

  lemma SectorReads(s: State, n: nat, lsn: Lsn, now: string, loaded: Option<Drive>)
    requires |s.drives| == DRIVES && n < DRIVES && loaded == Load(s, n, now)
    requires loaded.Some? ==> loaded.value.image.Some? && 161280 <= |loaded.value.image.value|
    ensures var (o, reply) := Sector(s, 630 * n + lsn, ReadSector, now);
            && (o.Ok? <==> loaded.Some?)
            && reply == if loaded.Some? then Some(loaded.value.image.value[256 * lsn..256 * lsn + 256]) else None
  {
    assert (630 * n + lsn) / 630 == n && (630 * n + lsn) % 630 == lsn;
  }

  lemma ReadShown(image: seq<Byte>, files: map<string, seq<Byte>>, path: string, ops: seq<Op>, n: nat, from: nat, lsn: Lsn)
    requires Shows(image, files, path, ops, n, from, |ops|)
    ensures Gives(image[256 * lsn..256 * lsn + 256], files, path, ops, n, from, lsn)
  {
    var reply := image[256 * lsn..256 * lsn + 256];
    forall j {:trigger reply[j]} | 0 <= j < 256
      ensures var b := LastWritten(ops, n, from, |ops|, 256 * lsn + j);
              reply[j] == if b.Some? then b.value else SourceByte(files, path, 256 * lsn + j)
    {
      assert ShowsAt(image, files, path, ops, n, from, |ops|, 256 * lsn + j);
    }
  }

  /** Request m mounts a floppy's path on drive n, that does not have it yet; nothing after it takes
      the drive away. */
  predicate MountsAt(ss: seq<State>, ops: seq<Op>, n: nat, path: string, m: nat)
    requires |ss| == |ops| + 1 && n < DRIVES
  {
    && m < |ops| && n < |ss[m].drives| && ops[m] == Mount(n, path, true) && !HasPath(ss[m], n, path)
    && forall k {:trigger Disturbs(ops[k], n, path)} | m < k < |ops| :: !Disturbs(ops[k], n, path)
  }

  /** Any session without a panic, in which request m mounts a path on drive n, and the drive is not
      mounted again or unmounted since: a read of it gives each byte as it was last written since,
      or else as it is in the file of that path when the drive was first used; and it panics if and
      only if that file was missing, or of no floppy's size. */
  lemma ReadsTheMountedFile(site: Site, files: map<string, seq<Byte>>, ss: seq<State>, ops: seq<Op>, n: nat, path: string, m: nat,
                            lsn: Lsn, now: string)
    requires Runs(site, ss, ops) && ss[0] == Fresh(files) && n < DRIVES && MountsAt(ss, ops, n, path, m)
    ensures AllOk(ops) && After(site, Fresh(files), ops, 0).0 == ss[|ops|] && Good(ss[|ops|])
    ensures var f := FirstUse(ops, n, m + 1);
            var (o, reply) := Sector(ss[|ops|], 630 * n + lsn, ReadSector, now);
            && (o.Ok? <==> Readable(ss[f].files, path)) && (reply.Some? <==> o.Ok?)
            && (o.Ok? ==> Gives(reply.value, ss[f].files, path, ops, n, m + 1, lsn))
  {
    RunsAreAfter(site, ss, ops, 0);
    assert Step(site, ss, ops, m);
    MountHolds(site, ss[m], n, path, true);
    ReadGives(site, ss, ops, n, path, m + 1, lsn, now);
  }

  /** A drive that nothing was mounted on reads as a blank disk, but for what was written. */
  lemma ReadsABlankDisk(site: Site, files: map<string, seq<Byte>>, ss: seq<State>, ops: seq<Op>, n: nat, lsn: Lsn, now: string)
    requires Runs(site, ss, ops) && ss[0] == Fresh(files) && n < DRIVES
    requires forall k {:trigger Disturbs(ops[k], n, "")} | 0 <= k < |ops| :: !Disturbs(ops[k], n, "")
    ensures Good(ss[|ops|])
    ensures var (o, reply) := Sector(ss[|ops|], 630 * n + lsn, ReadSector, now);
            o.Ok? && reply.Some? && |reply.value| == 256 &&
            forall j {:trigger reply.value[j]} | 0 <= j < 256 ::
              var b := LastWritten(ops, n, 0, |ops|, 256 * lsn + j);
              reply.value[j] == if b.Some? then b.value else BlankByte(256 * lsn + j)
  {
    ReadGives(site, ss, ops, n, "", 0, lsn, now);
  }
}
