// internal/state/file_store.go as file-system operations: Save through a temporary file, Load, and
// crashes between any two operations.

module StateFile {
  import opened Wrappers

  type Bytes = string

  /** A file: its bytes as a reader sees them, and whether they have reached the disk. */
  datatype Inode = Inode(bytes: Bytes, synced: bool)

  /** inodes are never reused. path is the directory entry of the state file as processes see it;
      durable holds every entry that a loss of power may leave there; temps are the inodes that
      still have a temporary name. */
  datatype FileSystem = FileSystem(
    inodes: seq<Inode>,
    path: Option<nat>,
    durable: set<Option<nat>>,
    temps: set<nat>)
  {
    ghost predicate Valid() {
      && (path.Some? ==> path.value < |inodes|)
      && path in durable
      && forall e | e in durable && e.Some? :: e.value < |inodes|
    }

    /** The contents behind a directory entry; None is a missing file. */
    function Behind(entry: Option<nat>): Option<Bytes> {
      if entry.Some? && entry.value < |inodes| then Some(inodes[entry.value].bytes) else None
    }

    /** What a reader of the state file gets now. */
    function Contents(): Option<Bytes> {
      Behind(path)
    }
  }

  /** The operations of Save, in the order of the source; id is the temporary file's inode. */
  datatype SavePoint =
    | ToCheck(payload: Bytes)
    | ToMkdir(payload: Bytes)
    | ToRecheck(payload: Bytes)
    | ToCreate(payload: Bytes)
    | ToWrite(payload: Bytes, id: nat)
    | ToSync(payload: Bytes, id: nat)
    | ToChmod(payload: Bytes, id: nat)
    | ToClose(payload: Bytes, id: nat)
    | ToLastCheck(payload: Bytes, id: nat)
    | ToRename(payload: Bytes, id: nat)
    | ToOpenDir(payload: Bytes)
    | ToSyncDir(payload: Bytes)
    | ToAbandon(payload: Bytes, id: nat)
    | ToRemove(payload: Bytes, id: nat)
    | SaveReturned(payload: Bytes, ok: bool)

  /** The outcome of one operation: whether it succeeded and, for a failed write, how many bytes
      were written all the same. */
  datatype Outcome = Outcome(ok: bool, written: nat)

  /** Save's next operation: its effect on the file system and where Save goes from there. */
  function SaveStep(fs: FileSystem, p: SavePoint, o: Outcome): (FileSystem, SavePoint)
    requires !p.SaveReturned?
  {
    match p
    case ToCheck(payload) => (fs, if o.ok then ToMkdir(payload) else SaveReturned(payload, false))
    case ToMkdir(payload) => (fs, if o.ok then ToRecheck(payload) else SaveReturned(payload, false))
    case ToRecheck(payload) => (fs, if o.ok then ToCreate(payload) else SaveReturned(payload, false))
    case ToCreate(payload) =>
      if o.ok then (Created(fs), ToWrite(payload, |fs.inodes|)) else (fs, SaveReturned(payload, false))
    case ToWrite(payload, id) =>
      if o.ok then (Written(fs, id, payload), ToSync(payload, id))
      else (Written(fs, id, if o.written <= |payload| then payload[..o.written] else payload), ToAbandon(payload, id))
    case ToSync(payload, id) => if o.ok then (Synced(fs, id), ToChmod(payload, id)) else (fs, ToAbandon(payload, id))
    case ToChmod(payload, id) => (fs, if o.ok then ToClose(payload, id) else ToAbandon(payload, id))
    case ToClose(payload, id) => (fs, if o.ok then ToLastCheck(payload, id) else ToRemove(payload, id))
    case ToLastCheck(payload, id) => (fs, if o.ok then ToRename(payload, id) else ToRemove(payload, id))
    case ToRename(payload, id) => if o.ok then (Renamed(fs, id), ToOpenDir(payload)) else (fs, ToRemove(payload, id))
    case ToOpenDir(payload) => (fs, if o.ok then ToSyncDir(payload) else SaveReturned(payload, true))
    case ToSyncDir(payload) => (if o.ok then Flushed(fs) else fs, SaveReturned(payload, true))
    case ToAbandon(payload, id) => (fs, ToRemove(payload, id))
    case ToRemove(payload, id) => (if o.ok then fs.(temps := fs.temps - {id}) else fs, SaveReturned(payload, false))
  }

  function Created(fs: FileSystem): FileSystem {
    fs.(inodes := fs.inodes + [Inode("", false)], temps := fs.temps + {|fs.inodes|})
  }

  function Written(fs: FileSystem, id: nat, bytes: Bytes): FileSystem {
    if id < |fs.inodes| then fs.(inodes := fs.inodes[id := Inode(bytes, false)]) else fs
  }

  function Synced(fs: FileSystem, id: nat): FileSystem {
    if id < |fs.inodes| then fs.(inodes := fs.inodes[id := fs.inodes[id].(synced := true)]) else fs
  }

  function Renamed(fs: FileSystem, id: nat): FileSystem {
    fs.(path := Some(id), durable := fs.durable + {Some(id)}, temps := fs.temps - {id})
  }

  function Flushed(fs: FileSystem): FileSystem {
    fs.(durable := {fs.path})
  }

  /** Power is lost: one of the durable entries survives, and files that were not synced hold
      anything (`torn`). */
  function Lost(fs: FileSystem, entry: Option<nat>, torn: seq<Bytes>): FileSystem {
    FileSystem(
      seq(|fs.inodes|, i requires 0 <= i < |fs.inodes| =>
        if fs.inodes[i].synced then fs.inodes[i] else Inode(if i < |torn| then torn[i] else "", true)),
      entry, {entry}, fs.temps)
  }

  /** The whole Save has succeeded or failed; before that, it may still do either. */
  predicate Committed(p: SavePoint) {
    p.ToOpenDir? || p.ToSyncDir? || (p.SaveReturned? && p.ok)
  }

  /** The temporary file that Save owns, while it owns one. */
  function Owned(p: SavePoint): Option<nat> {
    match p
    case ToWrite(_, id) => Some(id)
    case ToSync(_, id) => Some(id)
    case ToChmod(_, id) => Some(id)
    case ToClose(_, id) => Some(id)
    case ToLastCheck(_, id) => Some(id)
    case ToRename(_, id) => Some(id)
    case ToAbandon(_, id) => Some(id)
    case ToRemove(_, id) => Some(id)
    case _ => None
  }

  /** Past Sync, the temporary file is complete and on disk. */
  predicate Complete(fs: FileSystem, p: SavePoint) {
    match p
    case ToWrite(payload, id) => id < |fs.inodes|
    case ToSync(payload, id) => id < |fs.inodes| && fs.inodes[id].bytes == payload
    case ToChmod(payload, id) => id < |fs.inodes| && fs.inodes[id] == Inode(payload, true)
    case ToClose(payload, id) => id < |fs.inodes| && fs.inodes[id] == Inode(payload, true)
    case ToLastCheck(payload, id) => id < |fs.inodes| && fs.inodes[id] == Inode(payload, true)
    case ToRename(payload, id) => id < |fs.inodes| && fs.inodes[id] == Inode(payload, true)
    case ToAbandon(payload, id) => id < |fs.inodes|
    case ToRemove(payload, id) => id < |fs.inodes|
    case _ => true
  }

  /** os.ReadFile: open the path, then read the file that was opened. */
  datatype Reading =
    | ToOpen
    | ToRead(id: nat)
    | LoadReturned(found: Option<Bytes>)
    | LoadFailed

  function LoadStep(fs: FileSystem, r: Reading, ok: bool): Reading
    requires r.ToOpen? || r.ToRead?
  {
    if !ok then LoadFailed
    else if r.ToOpen? then if fs.path.None? then LoadReturned(None) else ToRead(fs.path.value)
    else if r.id < |fs.inodes| then LoadReturned(Some(fs.inodes[r.id].bytes)) else LoadFailed
  }
}
