/**
 The database of one server and its snapshot file. A save creates a temporary file, writes,
 flushes and syncs it, then renames it over the snapshot. Each of these may fail, and the
 machine may stop after any of them; what an unsynced file then holds is anyone's guess.
 */
module Storage {
  import opened Wrappers
  import opened Commands

  datatype DatabaseSnapshot = DatabaseSnapshot(db: Table, decidedIdx: nat)

  /** What a file holds: an encoded snapshot, or bytes that do not parse as one. */
  datatype Content = Json(snap: DatabaseSnapshot) | Garbage

  function Encode(snap: DatabaseSnapshot): Content {
    Json(snap)
  }

  function Decode(content: Content): Option<DatabaseSnapshot> {
    match content
    case Json(snap) => Some(snap)
    case Garbage => None
  }

  datatype File = File(content: Content, synced: bool)

  /** The snapshot file and the temporary file beside it. */
  datatype Disk = Disk(main: Option<File>, tmp: Option<File>)

  // ----- The steps of a save -----

  datatype SaveIo = CreateTmp | WriteAll | Flush | Sync | Rename

  function Remaining(io: SaveIo): nat {
    match io
    case CreateTmp => 5
    case WriteAll => 4
    case Flush => 3
    case Sync => 2
    case Rename => 1
  }

  /** One step of a save: the disk after it, and the next step unless the save has returned. */
  function SaveStep(disk: Disk, snap: DatabaseSnapshot, io: SaveIo, ok: bool): (r: (Disk, Option<SaveIo>))
    ensures r.1.Some? ==> Remaining(r.1.value) < Remaining(io)
  {
    match io
    case CreateTmp =>
      if ok then (disk.(tmp := Some(File(Garbage, false))), Some(WriteAll)) else (disk, None)
    case WriteAll =>
      if ok then (disk.(tmp := Some(File(Encode(snap), false))), Some(Flush))
      else (disk.(tmp := Some(File(Garbage, false))), None)
    case Flush =>
      (disk, if ok then Some(Sync) else None)
    case Sync =>
      if ok && disk.tmp.Some? then (disk.(tmp := Some(disk.tmp.value.(synced := true))), Some(Rename)) else (disk, None)
    case Rename =>
      if ok && disk.tmp.Some? then (Disk(disk.tmp, None), None) else (disk, None)
  }

  /** A whole save from step `io` on; `failing` names the step that fails, if one does. */
  function SaveFrom(disk: Disk, snap: DatabaseSnapshot, io: SaveIo, failing: Option<SaveIo>): Disk
    decreases Remaining(io)
  {
    var (after, next) := SaveStep(disk, snap, io, failing != Some(io));
    if next.Some? then SaveFrom(after, snap, next.value, failing) else after
  }

  /** A save cut off after the steps whose outcomes are given. */
  function SavePartly(disk: Disk, snap: DatabaseSnapshot, io: SaveIo, outcomes: seq<bool>): Disk
    decreases outcomes
  {
    if outcomes == [] then disk
    else
      var (after, next) := SaveStep(disk, snap, io, outcomes[0]);
      if next.Some? then SavePartly(after, snap, next.value, outcomes[1..]) else after
  }

  /** What a file is after a power cut: a file not synced may hold anything, or be gone. */
  function CrashFile(file: Option<File>, garble: Option<Content>): Option<File> {
    if file.None? || file.value.synced then file
    else if garble.None? then None
    else Some(File(garble.value, true))
  }

  datatype Garble = Garble(main: Option<Content>, tmp: Option<Content>)

  function Crashed(disk: Disk, garble: Garble): Disk {
    Disk(CrashFile(disk.main, garble.main), CrashFile(disk.tmp, garble.tmp))
  }

  /** What `recover` finds; `readable` is false when the file exists but reading it fails. */
  function Recovered(disk: Disk, readable: bool): Option<DatabaseSnapshot> {
    if disk.main.None? || !readable then None else Decode(disk.main.value.content)
  }

  predicate Durable(file: Option<File>) {
    file.Some? ==> file.value.synced
  }

  /** What the temporary file holds before each step of a save of `snap`. */
  predicate Staged(disk: Disk, snap: DatabaseSnapshot, io: SaveIo) {
    match io
    case CreateTmp => true
    case WriteAll => disk.tmp.Some?
    case Flush => disk.tmp.Some? && disk.tmp.value.content == Encode(snap)
    case Sync => disk.tmp.Some? && disk.tmp.value.content == Encode(snap)
    case Rename => disk.tmp == Some(File(Encode(snap), true))
  }

  lemma SaveStepStaged(disk: Disk, snap: DatabaseSnapshot, io: SaveIo, ok: bool)
    requires Durable(disk.main) && Staged(disk, snap, io)
    ensures var (after, next) := SaveStep(disk, snap, io, ok);
            && Durable(after.main)
            && (next.Some? ==> Staged(after, snap, next.value) && after.main == disk.main)
            && (after.main == if ok && io.Rename? then Some(File(Encode(snap), true)) else disk.main)
  {
  }

  predicate Completes(io: SaveIo, outcomes: seq<bool>) {
    |outcomes| >= Remaining(io) && forall i :: 0 <= i < Remaining(io) ==> outcomes[i]
  }

  lemma {:induction false} SavePartlyMain(disk: Disk, snap: DatabaseSnapshot, io: SaveIo, outcomes: seq<bool>)
    requires Durable(disk.main) && Staged(disk, snap, io)
    ensures SavePartly(disk, snap, io, outcomes).main ==
            if Completes(io, outcomes) then Some(File(Encode(snap), true)) else disk.main
    decreases outcomes
  {
    if outcomes != [] {
      SaveStepStaged(disk, snap, io, outcomes[0]);
      var (after, next) := SaveStep(disk, snap, io, outcomes[0]);
      if next.Some? {
        SavePartlyMain(after, snap, next.value, outcomes[1..]);
        assert Completes(io, outcomes) <==> Completes(next.value, outcomes[1..]);
      }
    }
  }

  /**
   A save is atomic. Whatever steps failed and wherever the machine stopped, `recover` then
   finds exactly the old snapshot or exactly the new one, the new one just when all five steps
   were done; and the snapshot file needs no further protection from the next power cut.
   */
  lemma SaveIsAtomic(disk: Disk, snap: DatabaseSnapshot, outcomes: seq<bool>, garble: Garble)
    requires Durable(disk.main)
    ensures var after := Crashed(SavePartly(disk, snap, CreateTmp, outcomes), garble);
            && Durable(after.main)
            && Recovered(after, true) == (if Completes(CreateTmp, outcomes) then Some(snap) else Recovered(disk, true))
  {
    SavePartlyMain(disk, snap, CreateTmp, outcomes);
  }

  lemma {:induction false} SaveFromMain(disk: Disk, snap: DatabaseSnapshot, io: SaveIo, failing: Option<SaveIo>)
    requires Durable(disk.main) && Staged(disk, snap, io)
    ensures Durable(SaveFrom(disk, snap, io, failing).main)
    ensures SaveFrom(disk, snap, io, failing).main ==
            if failing.None? || Remaining(failing.value) > Remaining(io) then Some(File(Encode(snap), true)) else disk.main
    decreases Remaining(io)
  {
    SaveStepStaged(disk, snap, io, failing != Some(io));
    var (after, next) := SaveStep(disk, snap, io, failing != Some(io));
    if next.Some? {
      SaveFromMain(after, snap, next.value, failing);
    }
  }

  /** Without the sync before the rename a power cut could leave a map beside a foreign index. */
  lemma RenameWithoutSyncTears(disk: Disk, snap: DatabaseSnapshot, other: DatabaseSnapshot)
    ensures var unsynced := disk.(tmp := Some(File(Encode(snap), false)));
            var renamed := SaveStep(unsynced, snap, Rename, true).0;
            Recovered(Crashed(renamed, Garble(Some(Json(other)), None)), true) == Some(other)
  {
  }

  // ----- The files and the database as objects -----

  function TmpPath(path: string): string {
    path + ".tmp"
  }

  function FileAt(files: map<string, File>, path: string): Option<File> {
    if path in files then Some(files[path]) else None
  }

  function DiskAt(files: map<string, File>, path: string): Disk {
    Disk(FileAt(files, path), FileAt(files, TmpPath(path)))
  }

  class FileSystem {
    var files: map<string, File>

    constructor ()
      ensures files == map[]
    {
      files := map[];
    }
  }

  class Database {
    var db: Table
    var snapshotPath: Option<string>

    constructor ()
      ensures db == map[] && snapshotPath == None
    {
      db, snapshotPath := map[], None;
    }

    constructor Restored(db: Table, path: string)
      ensures this.db == db && snapshotPath == Some(path)
    {
      this.db, snapshotPath := db, Some(path);
    }

    static method Recover(fs: FileSystem, path: string, readable: bool) returns (database: Database?, decidedIdx: nat)
      ensures database == null <==> Recovered(DiskAt(fs.files, path), readable) == None
      ensures database == null ==> decidedIdx == 0
      ensures database != null ==>
                && fresh(database)
                && Recovered(DiskAt(fs.files, path), readable) == Some(DatabaseSnapshot(database.db, decidedIdx))
                && database.snapshotPath == Some(path)
    {
      if path !in fs.files {
        return null, 0;
      }
      if !readable {
        return null, 0;
      }
      var parsed := Decode(fs.files[path].content);
      if parsed.None? {
        return null, 0;
      }
      database := new Database.Restored(parsed.value.db, path);
      decidedIdx := parsed.value.decidedIdx;
    }

    method SetSnapshotPath(path: string)
      modifies `snapshotPath
      ensures snapshotPath == Some(path)
    {
      snapshotPath := Some(path);
    }

    method HandleCommand(command: KVCommand) returns (read: Option<Option<string>>)
      modifies `db
      ensures db == Apply(old(db), command)
      ensures read == ReadBy(old(db), command)
    {
      match command
      case Put(key, value) =>
        db := db[key := value];
        read := None;
      case Delete(key) =>
        db := db - {key};
        read := None;
      case Get(key) =>
        read := Some(if key in db then Some(db[key]) else None);
    }

    /** `failing` is the input-output step that fails, if any: the file system decides it. */
    method SaveSnapshot(fs: FileSystem, decidedIdx: nat, failing: Option<SaveIo>)
      modifies fs
      ensures snapshotPath == None ==> fs.files == old(fs.files)
      ensures snapshotPath.Some? ==>
                && DiskAt(fs.files, snapshotPath.value) ==
                   SaveFrom(old(DiskAt(fs.files, snapshotPath.value)), DatabaseSnapshot(db, decidedIdx), CreateTmp, failing)
                && forall p :: p != snapshotPath.value && p != TmpPath(snapshotPath.value) ==>
                       FileAt(fs.files, p) == old(FileAt(fs.files, p))
      ensures snapshotPath.Some? ==>
                var before, after := old(DiskAt(fs.files, snapshotPath.value)), DiskAt(fs.files, snapshotPath.value);
                var json := Json(DatabaseSnapshot(db, decidedIdx));
                match failing
                case None => after == Disk(Some(File(json, true)), None)
                case Some(CreateTmp) => after == before
                case Some(WriteAll) => after == Disk(before.main, Some(File(Garbage, false)))
                case Some(Flush) => after == Disk(before.main, Some(File(json, false)))
                case Some(Sync) => after == Disk(before.main, Some(File(json, false)))
                case Some(Rename) => after == Disk(before.main, Some(File(json, true)))
    {
      if snapshotPath.None? {
        return;
      }
      var path := snapshotPath.value;
      var snap := DatabaseSnapshot(db, decidedIdx);
      var json := Encode(snap);
      var tmpPath := TmpPath(path);
      assert |tmpPath| != |path|;
      ghost var start := DiskAt(fs.files, path);
      if failing == Some(CreateTmp) {
        return;
      }
      fs.files := fs.files[tmpPath := File(Garbage, false)];
      assert SaveFrom(start, snap, CreateTmp, failing) == SaveFrom(DiskAt(fs.files, path), snap, WriteAll, failing);
      if failing == Some(WriteAll) {
        return;
      }
      fs.files := fs.files[tmpPath := File(json, false)];
      assert SaveFrom(start, snap, CreateTmp, failing) == SaveFrom(DiskAt(fs.files, path), snap, Flush, failing);
      if failing == Some(Flush) {
        return;
      }
      assert SaveFrom(start, snap, CreateTmp, failing) == SaveFrom(DiskAt(fs.files, path), snap, Sync, failing);
      if failing == Some(Sync) {
        return;
      }
      fs.files := fs.files[tmpPath := File(json, true)];
      assert SaveFrom(start, snap, CreateTmp, failing) == SaveFrom(DiskAt(fs.files, path), snap, Rename, failing);
      if failing == Some(Rename) {
        return;
      }
      fs.files := (fs.files - {tmpPath})[path := fs.files[tmpPath]];
    }
  }
}
