/** What the drive cache keeps over any session. */
module DriveProofs {
  import opened Bytes
  import opened Drives
  import opened Sequences

  // ----- What an image holds -----

  /** The base with the writes put over it one after another. */
  function Overlay(base: seq<Byte>, writes: seq<Write>): (r: seq<Byte>)
    requires SIZE35 <= |base|
    ensures |r| == |base|
  {
    if writes == [] then base
    else
      var w := writes[|writes| - 1];
      Patched(Overlay(base, writes[..|writes| - 1]), w.lsn, w.data)
  }

  predicate Covers(w: Write, p: nat) { SECTOR * w.lsn <= p < SECTOR * w.lsn + SECTOR && p - SECTOR * w.lsn < |w.data| }

  /** The byte at p: of the last write that covers it, or else of the base. */
  function ByteAt(base: seq<Byte>, writes: seq<Write>, p: nat): Byte
    requires p < |base|
  {
    if writes == [] then base[p]
    else
      var w := writes[|writes| - 1];
      if Covers(w, p) then w.data[p - SECTOR * w.lsn] else ByteAt(base, writes[..|writes| - 1], p)
  }

  lemma {:induction false} OverlayAt(base: seq<Byte>, writes: seq<Write>, p: nat)
    requires SIZE35 <= |base| && p < |base|
    ensures Overlay(base, writes)[p] == ByteAt(base, writes, p)
  {
    if writes != [] {
      OverlayAt(base, writes[..|writes| - 1], p);
    }
  }

  // ----- The ledger of writes -----

  function Ids(writes: seq<Write>): multiset<nat> {
    if writes == [] then multiset{} else Ids(writes[..|writes| - 1]) + multiset{writes[|writes| - 1].id}
  }

  function DriveIds(d: Option<Drive>): multiset<nat> { if d.Some? then Ids(d.value.writes) else multiset{} }

  function HeldIds(drives: seq<Option<Drive>>): multiset<nat> {
    if drives == [] then multiset{} else DriveIds(drives[0]) + HeldIds(drives[1..])
  }

  function SavedIds(saves: seq<Save>): multiset<nat> {
    if saves == [] then multiset{} else SavedIds(saves[..|saves| - 1]) + Ids(saves[|saves| - 1].writes)
  }

  function Below(n: nat): multiset<nat> { if n == 0 then multiset{} else Below(n - 1) + multiset{n - 1} }

  lemma {:induction false} HeldUpdate(drives: seq<Option<Drive>>, d: nat, v: Option<Drive>)
    requires d < |drives|
    ensures HeldIds(drives[d := v]) + DriveIds(drives[d]) == HeldIds(drives) + DriveIds(v)
  {
    var after := drives[d := v];
    if d == 0 {
      assert after[1..] == drives[1..];
      Exchange(HeldIds(drives[1..]), DriveIds(drives[0]), DriveIds(v));
    } else {
      var rest := drives[1..];
      assert after[1..] == rest[d - 1 := v] && after[0] == drives[0] && rest[d - 1] == drives[d];
      HeldUpdate(rest, d - 1, v);
      AddToBoth(DriveIds(drives[0]), HeldIds(after[1..]), DriveIds(drives[d]), HeldIds(rest), DriveIds(v));
    }
  }

  lemma Exchange(rest: multiset<nat>, a: multiset<nat>, b: multiset<nat>)
    ensures (b + rest) + a == (a + rest) + b
  {
  }

  lemma AddToBoth(first: multiset<nat>, after: multiset<nat>, mine: multiset<nat>, before: multiset<nat>, its: multiset<nat>)
    requires after + mine == before + its
    ensures (first + after) + mine == (first + before) + its
  {
    assert (first + after) + mine == first + (after + mine);
    assert (first + before) + its == first + (before + its);
  }

  // ----- What every state keeps -----

  predicate PathOk(path: string, d: nat, dirty: bool) {
    path == "" || path[0] == '/' || (d < 10 && path == TempName(d) && dirty)
  }

  predicate ImageOk(drive: Drive) {
    match drive.image
    case None => !drive.dirty && drive.writes == []
    case Some(image) =>
      FloppySize(|drive.base|) && image == Overlay(drive.base, drive.writes) && (drive.dirty <==> drive.writes != [])
  }

  predicate DriveOk(o: Option<Drive>, d: nat) {
    o.Some? ==> PathOk(o.value.path, d, o.value.dirty) && ImageOk(o.value) && (o.value.path == "" ==> !o.value.dirty)
  }

  predicate SaveOk(save: Save) {
    save.writes != [] && FloppySize(|save.base|) && save.image == Overlay(save.base, save.writes)
  }

  predicate SamePath(a: Option<Drive>, b: Option<Drive>) {
    a.Some? && b.Some? && a.value.path == b.value.path != ""
  }

  predicate Unique(drives: seq<Option<Drive>>) {
    forall d, e {:trigger SamePath(drives[d], drives[e])} :: 0 <= d < e < |drives| ==> !SamePath(drives[d], drives[e])
  }

  predicate DrivesOk(drives: seq<Option<Drive>>) {
    forall d {:trigger DriveOk(drives[d], d)} :: 0 <= d < |drives| ==> DriveOk(drives[d], d)
  }

  predicate SavesOk(saves: seq<Save>) { forall i {:trigger SaveOk(saves[i])} :: 0 <= i < |saves| ==> SaveOk(saves[i]) }

  /** Every write is in exactly one drive record or exactly one save, once. */
  predicate Accounted(s: State) { HeldIds(s.drives) + SavedIds(s.saves) == Below(s.written) }

  predicate Good(s: State) {
    |s.drives| == DRIVES && DrivesOk(s.drives) && Unique(s.drives) && SavesOk(s.saves) && Accounted(s)
  }

  // ----- Each operation keeps it -----

  lemma PutKeeps(drives: seq<Option<Drive>>, d: nat, v: Option<Drive>)
    requires d < |drives| && DrivesOk(drives) && Unique(drives) && DriveOk(v, d)
    requires forall e {:trigger drives[e]} :: 0 <= e < |drives| && e != d ==> !SamePath(v, drives[e])
    ensures DrivesOk(drives[d := v]) && Unique(drives[d := v])
  {
    var after := drives[d := v];
    forall e {:trigger DriveOk(after[e], e)} | 0 <= e < |after| ensures DriveOk(after[e], e) {
      assert DriveOk(drives[e], e);
    }
    forall a, b {:trigger SamePath(after[a], after[b])} | 0 <= a < b < |after| ensures !SamePath(after[a], after[b]) {
      assert !SamePath(drives[a], drives[b]);
    }
  }

  lemma SavedAfter(saves: seq<Save>, save: Save)
    requires SavesOk(saves) && SaveOk(save)
    ensures SavesOk(saves + [save]) && SavedIds(saves + [save]) == SavedIds(saves) + Ids(save.writes)
  {
    assert (saves + [save])[..|saves|] == saves;
    forall i {:trigger SaveOk((saves + [save])[i])} | 0 <= i < |saves| + 1 ensures SaveOk((saves + [save])[i]) {
      if i < |saves| { assert SaveOk(saves[i]); }
    }
  }

  lemma MovedToSave(held: multiset<nat>, saved: multiset<nat>, mine: multiset<nat>, before: multiset<nat>, all: multiset<nat>)
    requires before + saved == all && held + mine == before + multiset{}
    ensures held + (saved + mine) == all && held + mine == before
  {
    assert held + (saved + mine) == (held + mine) + saved;
  }

  /** A saved record is gone, and its writes are the save's. */
  lemma SavingKeeps(site: Site, s: State, d: nat)
    requires Good(s) && d < |s.drives| && NeedsSaving(s, d)
    ensures Good(CleanupOne(site, s, d))
  {
    var t := CleanupOne(site, s, d);
    assert DriveOk(s.drives[d], d);
    SavedAfter(s.saves, SaveOf(site, s.drives[d].value));
    HeldUpdate(s.drives, d, None);
    PutKeeps(s.drives, d, None);
    MovedToSave(HeldIds(t.drives), SavedIds(s.saves), DriveIds(s.drives[d]), HeldIds(s.drives), Below(s.written));
  }

  lemma CleanupKeeps(site: Site, s: State, d: nat)
    requires Good(s) && d < |s.drives|
    ensures Good(CleanupOne(site, s, d)) && CleanupOne(site, s, d).written == s.written
    ensures !NeedsSaving(CleanupOne(site, s, d), d)
    ensures forall e :: 0 <= e < |s.drives| && e != d ==> CleanupOne(site, s, d).drives[e] == s.drives[e]
  {
    if NeedsSaving(s, d) {
      SavingKeeps(site, s, d);
    }
  }

  lemma Cancel(a: multiset<nat>, b: multiset<nat>, c: multiset<nat>)
    requires a + c == b + c
    ensures a == b
  {
    forall x ensures a[x] == b[x] {
      assert (a + c)[x] == (b + c)[x];
    }
  }

  /** A record may be replaced by another with the same writes. */
  lemma ReplaceKeeps(s: State, d: nat, v: Option<Drive>)
    requires Good(s) && d < |s.drives| && DriveOk(v, d) && DriveIds(v) == DriveIds(s.drives[d])
    requires forall e {:trigger s.drives[e]} :: 0 <= e < |s.drives| && e != d ==> !SamePath(v, s.drives[e])
    ensures Good(s.(drives := s.drives[d := v]))
  {
    HeldUpdate(s.drives, d, v);
    Cancel(HeldIds(s.drives[d := v]), HeldIds(s.drives), DriveIds(v));
    PutKeeps(s.drives, d, v);
  }

  lemma UnmountKeeps(site: Site, s: State, d: nat)
    requires Good(s) && d < |s.drives|
    ensures Good(Unmount(site, s, d)) && Unmount(site, s, d).written == s.written
    ensures Unmount(site, s, d).drives == s.drives[d := None]
  {
    CleanupKeeps(site, s, d);
    var t := CleanupOne(site, s, d);
    assert DriveOk(t.drives[d], d);
    ReplaceKeeps(t, d, None);
  }

  lemma UniqueNeverTwice(s: State, path: string)
    requires Unique(s.drives) && path != ""
    ensures !MountedTwice(s, path)
  {
    forall d, e | 0 <= d < e < |s.drives| && HasPath(s, d, path) && HasPath(s, e, path) ensures false {
      assert SamePath(s.drives[d], s.drives[e]);
    }
  }

  /** The first half of SetDrive: afterwards no drive has the path. */
  lemma DetachKeeps(site: Site, s: State, path: string)
    requires Good(s) && path != ""
    ensures var at := MountedFrom(s, path, 0);
            var t := if at.Some? then Unmount(site, s, at.value) else s;
            Good(t) && t.written == s.written && (forall e :: 0 <= e < |t.drives| ==> !HasPath(t, e, path)) &&
            forall e :: 0 <= e < |t.drives| && at != Some(e) ==> t.drives[e] == s.drives[e]
  {
    var at := MountedFrom(s, path, 0);
    if at.Some? {
      UnmountKeeps(site, s, at.value);
      var t := Unmount(site, s, at.value);
      UniqueNeverTwice(s, path);
      forall e | 0 <= e < |t.drives| ensures !HasPath(t, e, path) {
        assert e != at.value ==> !HasPath(s, e, path);
      }
    }
  }

  /** The second half: drive n is emptied and given its new record. */
  lemma AttachKeeps(site: Site, t: State, n: nat, path: string, floppy: bool)
    requires Good(t) && n < |t.drives| && path != "" && path[0] == '/'
    requires forall e :: 0 <= e < |t.drives| ==> !HasPath(t, e, path)
    ensures var u := if t.drives[n].Some? then Unmount(site, t, n) else t;
            var v := Some(if floppy then NEW_DRIVE.(path := path) else NEW_DRIVE);
            Good(u.(drives := u.drives[n := v])) && u.written == t.written
  {
    if t.drives[n].Some? { UnmountKeeps(site, t, n); }
    var u := if t.drives[n].Some? then Unmount(site, t, n) else t;
    var v := Some(if floppy then NEW_DRIVE.(path := path) else NEW_DRIVE);
    forall e {:trigger u.drives[e]} | 0 <= e < |u.drives| && e != n ensures !SamePath(v, u.drives[e]) {
      assert !HasPath(t, e, path);
    }
    ReplaceKeeps(u, n, v);
  }

  /** SetDrive never finds a path mounted twice. */
  lemma SetDriveKeeps(site: Site, s: State, n: nat, path: string, floppy: bool)
    requires Good(s) && n < |s.drives| && path != "" && path[0] == '/'
    ensures SetDrive(site, s, n, path, floppy).Ok? && Good(SetDrive(site, s, n, path, floppy).state)
    ensures SetDrive(site, s, n, path, floppy).state.written == s.written
  {
    UniqueNeverTwice(s, path);
    DetachKeeps(site, s, path);
    var at := MountedFrom(s, path, 0);
    if at != Some(n) {
      AttachKeeps(site, if at.Some? then Unmount(site, s, at.value) else s, n, path, floppy);
    }
  }

  lemma {:induction false} UnmountAllKeeps(site: Site, s: State, d: nat)
    requires Good(s)
    ensures Good(UnmountFrom(site, s, d)) && UnmountFrom(site, s, d).written == s.written
    decreases |s.drives| - d
  {
    if d < |s.drives| {
      UnmountKeeps(site, s, d);
      UnmountAllKeeps(site, Unmount(site, s, d), d + 1);
    }
  }

  // ----- Sector requests -----

  lemma LoadKeeps(s: State, d: nat, now: string)
    requires Good(s) && d < |s.drives|
    ensures Load(s, d, now).Some? ==>
      var drive := Load(s, d, now).value;
      drive.image.Some? && Good(s.(drives := s.drives[d := Some(drive)])) &&
      drive.path == (if s.drives[d].Some? then s.drives[d].value.path else "")
  {
    var loaded := Load(s, d, now);
    if loaded.Some? {
      assert DriveOk(s.drives[d], d);
      forall e {:trigger s.drives[e]} | 0 <= e < |s.drives| && e != d ensures !SamePath(loaded, s.drives[e]) {
        assert e < d ==> !SamePath(s.drives[e], s.drives[d]);
        assert d < e ==> !SamePath(s.drives[d], s.drives[e]);
      }
      ReplaceKeeps(s, d, loaded);
    }
  }

  /** A temporary name is no other drive's path. */
  lemma TempNameIsFree(s: State, d: nat, e: nat)
    requires Good(s) && d < |s.drives| && e < |s.drives| && d != e
    ensures !HasPath(s, e, TempName(d))
  {
    assert DriveOk(s.drives[e], e);
    assert TempName(d)[7] == Digit(d) && TempName(e)[7] == Digit(e) && TempName(d)[0] == 'n';
  }

  lemma WrittenDriveOk(s: State, d: nat, drive: Drive, lsn: Lsn, data: seq<Byte>)
    requires Good(s) && d < |s.drives| && s.drives[d] == Some(drive) && drive.image.Some? && SIZE35 <= |drive.image.value|
    ensures var v := Written(s, d, drive, lsn, data).drives[d];
            DriveOk(v, d) && DriveIds(v) == DriveIds(s.drives[d]) + multiset{s.written}
  {
    assert DriveOk(s.drives[d], d);
    var w := Write(s.written, lsn, data);
    var writes := drive.writes + [w];
    assert writes[..|writes| - 1] == drive.writes && writes[|writes| - 1] == w;
  }

  lemma WrittenUnique(s: State, d: nat, drive: Drive, lsn: Lsn, data: seq<Byte>, e: nat)
    requires Good(s) && d < |s.drives| && s.drives[d] == Some(drive) && drive.image.Some? && SIZE35 <= |drive.image.value|
    requires e < |s.drives| && e != d
    ensures !SamePath(Written(s, d, drive, lsn, data).drives[d], s.drives[e])
  {
    TempNameIsFree(s, d, e);
    assert e < d ==> !SamePath(s.drives[e], s.drives[d]);
    assert d < e ==> !SamePath(s.drives[d], s.drives[e]);
  }

  lemma Balance(held: multiset<nat>, saved: multiset<nat>, after: multiset<nat>, mine: multiset<nat>, n: nat)
    requires held + saved == Below(n) && after + mine == held + (mine + multiset{n})
    ensures after + saved == Below(n + 1)
  {
    assert after + mine == (held + multiset{n}) + mine;
    Cancel(after, held + multiset{n}, mine);
  }

  lemma WrittenKeeps(s: State, d: nat, drive: Drive, lsn: Lsn, data: seq<Byte>)
    requires Good(s) && d < |s.drives| && s.drives[d] == Some(drive) && drive.image.Some? && SIZE35 <= |drive.image.value|
    ensures Good(Written(s, d, drive, lsn, data))
  {
    var t := Written(s, d, drive, lsn, data);
    var v := t.drives[d];
    WrittenDriveOk(s, d, drive, lsn, data);
    forall e {:trigger s.drives[e]} | 0 <= e < |s.drives| && e != d ensures !SamePath(v, s.drives[e]) {
      WrittenUnique(s, d, drive, lsn, data, e);
    }
    PutKeeps(s.drives, d, v);
    HeldUpdate(s.drives, d, v);
    Balance(HeldIds(s.drives), SavedIds(s.saves), HeldIds(t.drives), DriveIds(s.drives[d]), s.written);
  }

  /** A sector request keeps it all; a read is answered with the bytes last written there, or those
      of the image as it was mounted. */
  lemma SectorKeeps(s: State, big: nat, req: Request, now: string)
    requires Good(s)
    ensures Good(Sector(s, big, req, now).0.state)
    ensures var (o, reply) := Sector(s, big, req, now);
            reply.Some? <==> o.Ok? && req.ReadSector?
    ensures Sector(s, big, req, now).1.Some? ==> Answers(Sector(s, big, req, now).0.state, big, Sector(s, big, req, now).1.value)
  {
    var d, lsn := big / PER_DRIVE, big % PER_DRIVE;
    if d < DRIVES {
      LoadKeeps(s, d, now);
      var loaded := Load(s, d, now);
      if loaded.Some? {
        var t := s.(drives := s.drives[d := loaded]);
        assert DriveOk(t.drives[d], d);
        if req.WriteSector? {
          WrittenKeeps(t, d, loaded.value, lsn, req.data);
        } else if req.ReadSector? {
          ReadAnswers(t, big);
        }
      }
    }
  }

  predicate Answers(s: State, big: nat, reply: seq<Byte>) {
    var d, lsn := big / PER_DRIVE, big % PER_DRIVE;
    d < |s.drives| && s.drives[d].Some? && |reply| == SECTOR && SECTOR * lsn + SECTOR <= |s.drives[d].value.base| &&
    forall j :: 0 <= j < SECTOR ==> reply[j] == ByteAt(s.drives[d].value.base, s.drives[d].value.writes, SECTOR * lsn + j)
  }

  lemma ReadAnswers(s: State, big: nat)
    requires big / PER_DRIVE < |s.drives| && DriveOk(s.drives[big / PER_DRIVE], big / PER_DRIVE)
    requires s.drives[big / PER_DRIVE].Some? && s.drives[big / PER_DRIVE].value.image.Some?
    ensures var at := SECTOR * (big % PER_DRIVE);
            at + SECTOR <= |s.drives[big / PER_DRIVE].value.image.value| &&
            Answers(s, big, s.drives[big / PER_DRIVE].value.image.value[at..at + SECTOR])
  {
    var drive, at := s.drives[big / PER_DRIVE].value, SECTOR * (big % PER_DRIVE);
    var reply := drive.image.value[at..at + SECTOR];
    forall j | 0 <= j < SECTOR ensures reply[j] == ByteAt(drive.base, drive.writes, at + j) {
      OverlayAt(drive.base, drive.writes, at + j);
    }
  }

  /** What a read gives, by the image that Load finds. */
  lemma ReadsImage(s: State, big: nat, now: string)
    requires Good(s) && big / PER_DRIVE < DRIVES
    ensures var loaded, at := Load(s, big / PER_DRIVE, now), SECTOR * (big % PER_DRIVE);
            if loaded.None? then Sector(s, big, ReadSector, now).1 == None
            else loaded.value.image.Some? && SIZE35 <= |loaded.value.image.value| &&
                 Sector(s, big, ReadSector, now).1 == Some(loaded.value.image.value[at..at + SECTOR])
  {
    LoadKeeps(s, big / PER_DRIVE, now);
    var loaded := Load(s, big / PER_DRIVE, now);
    if loaded.Some? {
      assert DriveOk(s.(drives := s.drives[big / PER_DRIVE := loaded]).drives[big / PER_DRIVE], big / PER_DRIVE);
    }
  }

  /** What a write leaves: the image it found, patched, in its own drive's record alone. */
  lemma WritesImage(s: State, big: nat, data: seq<Byte>, now: string)
    requires Good(s) && Sector(s, big, WriteSector(data), now).0.Ok?
    ensures var t, d := Sector(s, big, WriteSector(data), now).0.state, big / PER_DRIVE;
            d < DRIVES && Good(t) && t.files == s.files && Load(s, d, now).Some? && t.drives[d].Some? &&
            (forall e :: 0 <= e < DRIVES && e != d ==> t.drives[e] == s.drives[e]) &&
            Load(s, d, now).value.image.Some? && SIZE35 <= |Load(s, d, now).value.image.value| &&
            t.drives[d].value.image == Some(Patched(Load(s, d, now).value.image.value, big % PER_DRIVE, data))
  {
    SectorKeeps(s, big, WriteSector(data), now);
    LoadKeeps(s, big / PER_DRIVE, now);
  }

  /** Loading again finds the same image, whatever the time. */
  lemma LoadAgain(s: State, t: State, d: nat, now: string, later: string)
    requires |s.drives| == |t.drives| && d < |s.drives| && t.files == s.files && t.drives[d] == s.drives[d]
    ensures Load(s, d, now).Some? <==> Load(t, d, later).Some?
    ensures Load(s, d, now).Some? ==> Load(s, d, now).value.image == Load(t, d, later).value.image
  {
  }

  /** A write is what the next read of that sector gives, and no other sector's read changes. */
  lemma WriteThenRead(s: State, big: nat, data: seq<Byte>, other: nat, now: string, later: string)
    requires Good(s) && |data| == SECTOR && Sector(s, big, WriteSector(data), now).0.Ok? && other < PER_DRIVE * DRIVES
    ensures var t := Sector(s, big, WriteSector(data), now).0.state;
            Good(t) && Sector(t, other, ReadSector, later).1 == if other == big then Some(data) else Sector(s, other, ReadSector, later).1
  {
    WritesImage(s, big, data, now);
    var t := Sector(s, big, WriteSector(data), now).0.state;
    ReadsImage(s, other, later);
    ReadsImage(t, other, later);
    if other / PER_DRIVE == big / PER_DRIVE {
      LoadAgain(s, s, big / PER_DRIVE, now, later);
      PatchedSector(Load(s, big / PER_DRIVE, now).value.image.value, big % PER_DRIVE, data, other % PER_DRIVE);
    } else {
      LoadAgain(s, t, other / PER_DRIVE, later, later);
    }
  }

  lemma PatchedSector(image: seq<Byte>, lsn: Lsn, data: seq<Byte>, other: Lsn)
    requires SIZE35 <= |image| && |data| == SECTOR
    ensures Patched(image, lsn, data)[SECTOR * other..SECTOR * other + SECTOR] ==
            if other == lsn then data else image[SECTOR * other..SECTOR * other + SECTOR]
  {
  }

  // ----- The end of a session -----

  predicate CleanTo(s: State, d: nat) {
    forall e {:trigger NeedsSaving(s, e)} :: 0 <= e < d && e < |s.drives| ==> !NeedsSaving(s, e)
  }

  lemma CleanOneMore(site: Site, s: State, d: nat)
    requires Good(s) && d < |s.drives| && CleanTo(s, d)
    ensures Good(CleanupOne(site, s, d)) && CleanupOne(site, s, d).written == s.written && CleanTo(CleanupOne(site, s, d), d + 1)
  {
    CleanupKeeps(site, s, d);
    var t := CleanupOne(site, s, d);
    forall e {:trigger NeedsSaving(t, e)} | 0 <= e < d ensures !NeedsSaving(t, e) {
      assert !NeedsSaving(s, e);
    }
  }

  lemma {:induction false} CleanupFromKeeps(site: Site, s: State, d: nat, t: State)
    requires Good(s) && d <= |s.drives| && CleanTo(s, d) && t == CleanupFrom(site, s, d)
    ensures Good(t) && t.written == s.written && CleanTo(t, |t.drives|)
    decreases |s.drives| - d
  {
    if d < |s.drives| {
      CleanOneMore(site, s, d);
      CleanupFromKeeps(site, CleanupOne(site, s, d), d + 1, t);
    }
  }

  lemma {:induction false} NothingToClean(site: Site, s: State, d: nat)
    requires CleanTo(s, |s.drives|)
    ensures CleanupFrom(site, s, d) == s
    decreases |s.drives| - d
  {
    if d < |s.drives| {
      assert !NeedsSaving(s, d);
      NothingToClean(site, s, d + 1);
    }
  }

  /** However many cleanups the requests have registered, the first does all the work. */
  lemma {:induction false} CleanupsAreOne(site: Site, s: State, times: nat)
    requires Good(s) && times > 0
    ensures Cleanups(site, s, times) == CleanupFrom(site, s, 0)
    decreases times
  {
    if times > 1 {
      var t := CleanupFrom(site, s, 0);
      CleanupFromKeeps(site, s, 0, t);
      NothingToClean(site, t, 0);
      CleanupsAreOne(site, t, times - 1);
    }
  }

  lemma {:induction false} CleanHoldsNothing(drives: seq<Option<Drive>>)
    requires forall d {:trigger drives[d]} :: 0 <= d < |drives| ==> DriveIds(drives[d]) == multiset{}
    ensures HeldIds(drives) == multiset{}
  {
    if drives != [] {
      CleanHoldsNothing(drives[1..]);
    }
  }

  /** After the cleanups every write of the session is in exactly one save, once, and each save has
      the image it was made to, with all its writes. */
  lemma AllSaved(site: Site, s: State, times: nat)
    requires Good(s) && times > 0
    ensures var t := Cleanups(site, s, times);
            SavedIds(t.saves) == Below(s.written) && SavesOk(t.saves) && |t.saves| <= |s.saves| + DRIVES
  {
    var t := CleanupFrom(site, s, 0);
    CleanupsAreOne(site, s, times);
    CleanupFromKeeps(site, s, 0, t);
    forall d {:trigger t.drives[d]} | 0 <= d < |t.drives| ensures DriveIds(t.drives[d]) == multiset{} {
      assert DriveOk(t.drives[d], d) && !NeedsSaving(t, d);
    }
    CleanHoldsNothing(t.drives);
    SavesBounded(site, s, 0);
  }

  lemma {:induction false} SavesBounded(site: Site, s: State, d: nat)
    requires d <= |s.drives|
    ensures s.saves <= CleanupFrom(site, s, d).saves && |CleanupFrom(site, s, d).saves| <= |s.saves| + |s.drives| - d
    decreases |s.drives| - d
  {
    if d < |s.drives| {
      SavesBounded(site, CleanupOne(site, s, d), d + 1);
    }
  }
}
