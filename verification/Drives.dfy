/**
  The server's cache of drive images for HDB-DOS: mounting, reading and writing sectors, saving
  what was written, and the cleanups at the end of a session.
 */
module Drives {
  import opened Bytes
  import opened Sequences

  const SECTOR: nat := 256
  const PER_DRIVE: nat := 630         // sectors of a 35-track drive
  const DRIVES: nat := 10
  const SIZE35: nat := 161280
  const SIZE40: nat := 184320
  const SIZE80: nat := 368640

  // ----- Drive images -----

  /** One sector write; id counts the session's writes. */
  datatype Write = Write(id: nat, lsn: Lsn, data: seq<Byte>)

  type Lsn = n: nat | n < PER_DRIVE

  /** A drive record. base and writes are history: the image as it was when loaded, and what has
      been written to it since; nothing below decides by them. */
  datatype Drive = Drive(path: string, image: Option<seq<Byte>>, dirty: bool, stamp: string, base: seq<Byte>, writes: seq<Write>)

  /** One attempt to save an image, and whether the file could be written. */
  datatype Save = Save(dest: string, image: seq<Byte>, stored: bool, base: seq<Byte>, writes: seq<Write>)

  /** written counts the writes of the session. */
  datatype State = State(drives: seq<Option<Drive>>, files: map<string, seq<Byte>>, saves: seq<Save>, written: nat)

  const NEW_DRIVE := Drive("", None, false, "", [], [])

  function Fill(n: nat, b: Byte): (r: seq<Byte>)
    ensures |r| == n && forall i :: 0 <= i < n ==> r[i] == b
  {
    seq(n, _ => b)
  }

  /** EmptyDecbInitializedDiskImage. */
  function BlankDisk(): (r: seq<Byte>)
    ensures |r| == SIZE35
  {
    Fill(0x13200, 0xFF) + Fill(0x100, 0) + Fill(0x44, 0xFF) + Fill(0xBC, 0) + Fill(0x14200, 0xFF)
  }

  predicate FloppySize(n: nat) { n == SIZE35 || n == SIZE40 || n == SIZE80 }

  /** Go's copy into the slice of one sector: as much as there is, at most a sector. */
  function Patched(image: seq<Byte>, lsn: Lsn, data: seq<Byte>): (r: seq<Byte>)
    requires SIZE35 <= |image|
    ensures |r| == |image|
  {
    var n := if |data| < SECTOR then |data| else SECTOR;
    image[..SECTOR * lsn] + data[..n] + image[SECTOR * lsn + n..]
  }

  // ----- File names -----

  /** PFP.Base of a path without trailing slashes. */
  function Base(path: string): string {
    if '/' !in path || path == "" then path else Base(path[1..])
  }

  function Digit(d: nat): char requires d < 10 { ('0' as int + d) as char }

  /** NewDriveTempName. */
  function TempName(d: nat): string requires d < 10 { "new-rs0" + [Digit(d)] + ".dsk" }

  /** TruePath, up to the root it joins to: relative and absolute paths are the same there. */
  function TrueName(path: string): string {
    if path != "" && path[0] == '/' then path[1..] else path
  }

  function Dest(retain: string, d: Drive): string { retain + "/" + d.stamp + "-" + Base(d.path) }

  // ----- Saving -----

  /** What the surroundings decide: where images are retained, and which files cannot be written. */
  datatype Site = Site(retain: string, refused: set<string>)

  function SaveOf(site: Site, d: Drive): Save {
    var dest := Dest(site.retain, d);
    Save(dest, if d.image.Some? then d.image.value else [], dest !in site.refused, d.base, d.writes)
  }

  predicate NeedsSaving(s: State, d: nat) requires d < |s.drives| {
    s.drives[d].Some? && s.drives[d].value.dirty
  }

  /** HdbDosCleanupOneDrive: the record goes even when the file cannot be written. */
  function CleanupOne(site: Site, s: State, d: nat): (r: State)
    requires d < |s.drives|
    ensures |r.drives| == |s.drives|
  {
    if !NeedsSaving(s, d) then s
    else
      var save := SaveOf(site, s.drives[d].value);
      s.(drives := s.drives[d := None], saves := s.saves + [save],
         files := if save.stored then s.files[TrueName(save.dest) := save.image] else s.files)
  }

  /** HdbDosCleanup from drive d on. */
  function CleanupFrom(site: Site, s: State, d: nat): (r: State)
    ensures |r.drives| == |s.drives|
    decreases |s.drives| - d
  {
    if d >= |s.drives| then s else CleanupFrom(site, CleanupOne(site, s, d), d + 1)
  }

  /** The session's Cleanups list, one HdbDosCleanup for each sector request. */
  function Cleanups(site: Site, s: State, times: nat): State
    decreases times
  {
    if times == 0 then s else Cleanups(site, CleanupFrom(site, s, 0), times - 1)
  }

  // ----- Mounting -----

  predicate HasPath(s: State, d: nat, path: string) requires d < |s.drives| {
    s.drives[d].Some? && s.drives[d].value.path == path
  }

  predicate MountedTwice(s: State, path: string) {
    exists d, e :: 0 <= d < e < |s.drives| && HasPath(s, d, path) && HasPath(s, e, path)
  }

  /** IsModelMounted where it does not panic: the drive after d that has the path. */
  function MountedFrom(s: State, path: string, d: nat): (r: Option<nat>)
    ensures r.Some? ==> d <= r.value < |s.drives| && HasPath(s, r.value, path)
    ensures r.None? ==> forall e :: d <= e < |s.drives| ==> !HasPath(s, e, path)
    decreases |s.drives| - d
  {
    if d >= |s.drives| then None else if HasPath(s, d, path) then Some(d) else MountedFrom(s, path, d + 1)
  }

  function Unmount(site: Site, s: State, d: nat): (r: State)
    requires d < |s.drives|
    ensures |r.drives| == |s.drives|
  {
    var t := CleanupOne(site, s, d);
    t.(drives := t.drives[d := None])
  }

  datatype Outcome = Ok(state: State) | Panic(state: State)

  /** SetDrive; floppy says that the model is a file of one of the floppy sizes. */
  function SetDrive(site: Site, s: State, n: nat, path: string, floppy: bool): Outcome
    requires n < |s.drives|
  {
    if MountedTwice(s, path) then Panic(s)
    else
      var at := MountedFrom(s, path, 0);
      if at == Some(n) then Ok(s)
      else
        var t := if at.Some? then Unmount(site, s, at.value) else s;
        var u := if t.drives[n].Some? then Unmount(site, t, n) else t;
        Ok(u.(drives := u.drives[n := Some(if floppy then NEW_DRIVE.(path := path) else NEW_DRIVE)]))
  }

  /** UnmountAllAction, from drive d on. */
  function UnmountFrom(site: Site, s: State, d: nat): (r: State)
    decreases |s.drives| - d
  {
    if d >= |s.drives| then s else UnmountFrom(site, Unmount(site, s, d), d + 1)
  }

  // ----- Sectors -----

  /** The first use of a drive loads its image: None where the file is missing or no floppy. */
  function Load(s: State, d: nat, now: string): (r: Option<Drive>)
    requires d < |s.drives|
  {
    var drive := if s.drives[d].Some? then s.drives[d].value else NEW_DRIVE;
    if drive.image.Some? then Some(drive)
    else if drive.path == "" then Some(drive.(image := Some(BlankDisk()), dirty := false, stamp := now, base := BlankDisk(), writes := []))
    else
      var name := TrueName(drive.path);
      if name in s.files && FloppySize(|s.files[name]|)
      then Some(drive.(image := Some(s.files[name]), dirty := false, stamp := now, base := s.files[name], writes := []))
      else None
  }

  datatype Request = ReadSector | WriteSector(data: seq<Byte>) | Unknown

  /** HdbDosSector: the reply to a read, if any. */
  function Sector(s: State, big: nat, req: Request, now: string): (Outcome, Option<seq<Byte>>)
    requires |s.drives| == DRIVES
  {
    var d, lsn := big / PER_DRIVE, big % PER_DRIVE;
    if d >= DRIVES then (Panic(s), None)
    else
      var loaded := Load(s, d, now);
      if loaded.None? || |loaded.value.image.value| < SIZE35 then
        (Panic(s), None)
      else
        var drive, t := loaded.value, s.(drives := s.drives[d := loaded]);
        match req
        case ReadSector => (Ok(t), Some(drive.image.value[SECTOR * lsn..SECTOR * lsn + SECTOR]))
        case WriteSector(data) => (Ok(Written(t, d, drive, lsn, data)), None)
        case Unknown => (Panic(t), None)
  }

  function Written(s: State, d: nat, drive: Drive, lsn: Lsn, data: seq<Byte>): State
    requires d < |s.drives| && d < 10 && drive.image.Some? && SIZE35 <= |drive.image.value|
  {
    var named := if drive.path == "" then drive.(path := TempName(d)) else drive;
    s.(drives := s.drives[d := Some(named.(image := Some(Patched(drive.image.value, lsn, data)), dirty := true,
                                           writes := drive.writes + [Write(s.written, lsn, data)]))],
       written := s.written + 1)
  }
}
