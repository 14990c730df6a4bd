// FileStore.Save and FileStore.Load as imperative code over a disk whose every operation may fail.

module FileStoreService {
  import opened Wrappers
  import C = ConfigureCall
  import opened SaveMeaning
  import opened StateFile
  import opened WholeSaves

  /** JSON encoding and decoding of the checkpoint, as far as the store relies on them. */
  datatype Codec = Codec(encode: C.State -> Bytes, decode: Bytes -> Option<C.State>)

  ghost predicate Faithful(codec: Codec) {
    forall st :: codec.decode(codec.encode(st)) == Some(st)
  }

  /** What Load makes of the file: a missing or corrupt one reads as the empty state. */
  function StateIn(codec: Codec, contents: Option<Bytes>): C.State {
    if contents.None? || codec.decode(contents.value).None? then C.EMPTY_STATE
    else codec.decode(contents.value).value
  }

  /** Every entry that may survive a loss of power leads to a complete file that is on disk. */
  ghost predicate Sound(fs: FileSystem) {
    fs.Valid() && forall e | e in fs.durable && e.Some? :: fs.inodes[e.value].synced
  }

  /** If power is lost when the file system is fs, the state file holds what it could have held
      before the Save began, or the whole new payload. */
  ghost predicate CrashSafe(start: FileSystem, payload: Bytes, fs: FileSystem) {
    Sound(fs) && forall e | e in fs.durable ::
      || (e in start.durable && fs.Behind(e) == start.Behind(e))
      || fs.Behind(e) == Some(payload)
  }

  ghost predicate OnTrack(start: FileSystem, fs: FileSystem, p: SavePoint) {
    && Sound(start) && Sound(fs) && Complete(fs, p)
    && (forall e | e in fs.durable ::
          if e in start.durable then fs.Behind(e) == start.Behind(e)
          else Committed(p) && e == fs.path && fs.Behind(e) == Some(p.payload))
    && (Owned(p).Some? ==> Owned(p) !in fs.durable)
    && fs.Contents() == (if Committed(p) then Some(p.payload) else start.Contents())
    && Tidy(start, fs, p)
  }

  /** Temporary names: only Save's own is added, and it is gone once Save has succeeded. */
  ghost predicate Tidy(start: FileSystem, fs: FileSystem, p: SavePoint) {
    && (forall t | t in start.temps :: t < |start.inodes|) && (forall t | t in fs.temps :: t < |fs.inodes|)
    && |start.inodes| <= |fs.inodes|
    && (Owned(p).Some? ==> Owned(p).value >= |start.inodes| && fs.temps == start.temps + {Owned(p).value})
    && (Owned(p).None? && !(p.SaveReturned? && !p.ok) ==> fs.temps == start.temps)
  }

  lemma SaveStepIsTidy(start: FileSystem, fs: FileSystem, p: SavePoint, o: Outcome)
    requires Tidy(start, fs, p) && !p.SaveReturned?
    ensures Tidy(start, SaveStep(fs, p, o).0, SaveStep(fs, p, o).1)
  {
    if p.ToRename? {
      assert start.temps + {p.id} - {p.id} == start.temps;
    }
  }

  lemma SaveStepStaysOnTrack(start: FileSystem, fs: FileSystem, p: SavePoint, o: Outcome)
    requires OnTrack(start, fs, p) && !p.SaveReturned?
    ensures OnTrack(start, SaveStep(fs, p, o).0, SaveStep(fs, p, o).1)
  {
    SaveStepIsTidy(start, fs, p, o);
    var (fs', p') := SaveStep(fs, p, o);
    assert p'.payload == p.payload;
    if p.ToRename? && o.ok {
      assert fs'.Behind(Some(p.id)) == Some(p.payload);
    } else {
      assert fs'.path == fs.path && fs'.durable <= fs.durable;
    }
    forall e | e in fs.durable
      ensures fs'.Behind(e) == fs.Behind(e)
      ensures e.Some? ==> fs'.inodes[e.value] == fs.inodes[e.value]
    {}
  }

  /** A whole Load on a file system that stays as it is. */
  function Read(fs: FileSystem, reached: bool, read: bool): Reading {
    var r := LoadStep(fs, ToOpen, reached);
    if r.ToRead? then LoadStep(fs, r, read) else r
  }

  /** The file system, with a monitor that follows one Save: where it stands, how its operations have
      ended, and every state of the file system it has passed through. */
  class Disk {
    var fs: FileSystem
    ghost var start: FileSystem
    ghost var at: SavePoint
    ghost var past: seq<FileSystem>
    ghost var outs: seq<Outcome>

    constructor ()
      ensures Idle()
    {
      fs := FileSystem([], None, {None}, {});
      start := FileSystem([], None, {None}, {});
      at := SaveReturned("", false);
      past, outs := [], [];
    }

    ghost predicate Idle()
      reads this
    {
      Sound(fs) && forall t | t in fs.temps :: t < |fs.inodes|
    }

    ghost predicate Saving()
      reads this
    {
      && OnTrack(start, fs, at) && past != [] && past[0] == start && past[|past| - 1] == fs
      && (forall f | f in past :: CrashSafe(start, at.payload, f))
      && Followed(fs)
    }

    /** The outcomes lead from the start to here. */
    ghost predicate Followed(now: FileSystem)
      reads this
    {
      SaveOps(start, ToCheck(at.payload), outs) == Some((now, at))
    }

    ghost method Begin(payload: Bytes)
      requires Idle()
      modifies `start, `at, `past, `outs
      ensures Saving() && start == fs && at == ToCheck(payload) && past == [fs]
    {
      start, at, past, outs := fs, ToCheck(payload), [fs], [];
    }

    /** The operation that Save was about to make has had this outcome. */
    ghost method Advance(before: FileSystem, o: Outcome)
      requires OnTrack(start, before, at) && past != [] && past[0] == start
      requires (forall f | f in past :: CrashSafe(start, at.payload, f))
      requires Followed(before) && !at.SaveReturned? && fs == SaveStep(before, at, o).0
      modifies `at, `past, `outs
      ensures Saving() && at == SaveStep(before, old(at), o).1 && past == old(past) + [fs]
    {
      SaveStepStaysOnTrack(start, before, at, o);
      assert SaveStep(before, at, o).1.payload == at.payload;
      assert (outs + [o])[..|outs|] == outs;
      at, past, outs := SaveStep(before, at, o).1, past + [fs], outs + [o];
    }

    /** An operation that leaves the files alone: a context check, MkdirAll, Chmod, Close, opening the
        directory. */
    method Plain() returns (ok: bool)
      requires Saving()
      requires at.ToCheck? || at.ToMkdir? || at.ToRecheck? || at.ToChmod? || at.ToClose? || at.ToLastCheck?
               || at.ToOpenDir? || at.ToAbandon?
      modifies this
      ensures Saving() && start == old(start) && fs == old(fs) && old(past) < past
      ensures at == SaveStep(fs, old(at), Outcome(ok, 0)).1
    {
      ok := *;
      Advance(fs, Outcome(ok, 0));
    }

    method CreateTemp() returns (ok: bool, id: nat)
      requires Saving() && at.ToCreate?
      modifies this
      ensures Saving() && start == old(start) && old(past) < past
      ensures at == if ok then ToWrite(old(at).payload, id) else SaveReturned(old(at).payload, false)
    {
      ghost var before := fs;
      ok, id := *, |fs.inodes|;
      if ok {
        fs := Created(fs);
      }
      Advance(before, Outcome(ok, 0));
    }

    method Write(id: nat, payload: Bytes) returns (ok: bool)
      requires Saving() && at == ToWrite(payload, id)
      modifies this
      ensures Saving() && start == old(start) && old(past) < past
      ensures at == if ok then ToSync(payload, id) else ToAbandon(payload, id)
    {
      ghost var before := fs;
      ok := *;
      var written :| 0 <= written <= |payload|;
      fs := Written(fs, id, if ok then payload else payload[..written]);
      Advance(before, Outcome(ok, written));
    }

    method Sync(id: nat) returns (ok: bool)
      requires Saving() && at.ToSync? && at.id == id
      modifies this
      ensures Saving() && start == old(start) && old(past) < past
      ensures at == if ok then ToChmod(old(at).payload, id) else ToAbandon(old(at).payload, id)
    {
      ghost var before := fs;
      ok := *;
      if ok {
        fs := Synced(fs, id);
      }
      Advance(before, Outcome(ok, 0));
    }

    method Rename(id: nat) returns (ok: bool)
      requires Saving() && at.ToRename? && at.id == id
      modifies this
      ensures Saving() && start == old(start) && old(past) < past
      ensures at == if ok then ToOpenDir(old(at).payload) else ToRemove(old(at).payload, id)
    {
      ghost var before := fs;
      ok := *;
      if ok {
        fs := Renamed(fs, id);
      }
      Advance(before, Outcome(ok, 0));
    }

    method SyncDir()
      requires Saving() && at.ToSyncDir?
      modifies this
      ensures Saving() && start == old(start) && old(past) < past && at == SaveReturned(old(at).payload, true)
    {
      ghost var before := fs;
      var ok := *;
      if ok {
        fs := Flushed(fs);
      }
      Advance(before, Outcome(ok, 0));
    }

    method Remove(id: nat)
      requires Saving() && at.ToRemove? && at.id == id
      modifies this
      ensures Saving() && start == old(start) && old(past) < past && at == SaveReturned(old(at).payload, false)
    {
      ghost var before := fs;
      var ok := *;
      if ok {
        fs := fs.(temps := fs.temps - {id});
      }
      Advance(before, Outcome(ok, 0));
    }
  }

  class FileStore {
    const codec: Codec
    const disk: Disk

    constructor (codec: Codec, disk: Disk)
      ensures this.codec == codec && this.disk == disk
    {
      this.codec, this.disk := codec, disk;
    }

    ghost function Stored(): C.State
      reads disk
    {
      StateIn(codec, disk.fs.Contents())
    }

    /** A Save that returns nil has replaced the checkpoint, one that fails has not touched it; and
        at every moment in between, a crash would leave the old checkpoint or the new one. It returns nil
        exactly if its first ten operations succeed; if it fails later than the fourth, the last thing it
        has done is to remove its temporary file. */
    method Save(next: C.State) returns (ok: bool)
      requires disk.Idle() && Faithful(codec)
      modifies disk
      ensures disk.Idle()
      ensures Stored() == if ok then next else old(Stored())
      ensures ok ==> disk.fs.temps == old(disk.fs.temps)
      ensures Ends(old(disk.fs), ToCheck(codec.encode(next)), disk.outs, disk.fs, ok)
      ensures ok <==> |disk.outs| > 10 && AllOk(disk.outs[..10])
      ensures !ok ==> disk.fs == old(disk.fs) || Cleaned(old(disk.fs), |old(disk.fs).inodes|, disk.outs, disk.fs)
      ensures disk.start == old(disk.fs) && disk.fs in disk.past
      ensures forall f, e | f in disk.past && e in f.durable ::
                || (e in old(disk.fs.durable) && f.Behind(e) == old(disk.fs).Behind(e))
                || StateIn(codec, f.Behind(e)) == next
    {
      var payload := codec.encode(next);
      disk.Begin(payload);
      ok := SavePayload(payload);
      NilMeans(disk.start, payload, disk.outs, disk.fs, ok);
      if !ok {
        FailureCleansUp(disk.start, payload, disk.outs, disk.fs);
      }
      forall f, e | f in disk.past && e in f.durable
        ensures || (e in old(disk.fs.durable) && f.Behind(e) == old(disk.fs).Behind(e))
                || StateIn(codec, f.Behind(e)) == next
      {
        assert CrashSafe(disk.start, payload, f);
      }
    }

    /** The body of Save: the temporary file, its cleanup on each failure, and the rename; FillTemp and
        Publish are the later stretches of it. */
    method SavePayload(payload: Bytes) returns (ok: bool)
      requires disk.Saving() && disk.at == ToCheck(payload) && disk.past == [disk.fs]
      modifies disk
      ensures disk.Saving() && disk.start == old(disk.start) && disk.at == SaveReturned(payload, ok)
    {
      var usable := disk.Plain();
      if !usable { return false; }
      var made := disk.Plain();
      if !made { return false; }
      var live := disk.Plain();
      if !live { return false; }
      var created, tmp := disk.CreateTemp();
      if !created { return false; }
      ok := FillTemp(payload, tmp);
    }

    method FillTemp(payload: Bytes, tmp: nat) returns (ok: bool)
      requires disk.Saving() && disk.at == ToWrite(payload, tmp)
      modifies disk
      ensures disk.Saving() && disk.start == old(disk.start) && disk.at == SaveReturned(payload, ok)
    {
      var written := disk.Write(tmp, payload);
      if !written {
        Abandon(payload, tmp);
        return false;
      }
      var synced := disk.Sync(tmp);
      if !synced {
        Abandon(payload, tmp);
        return false;
      }
      var changed := disk.Plain();
      if !changed {
        Abandon(payload, tmp);
        return false;
      }
      var closed := disk.Plain();
      if !closed {
        disk.Remove(tmp);
        return false;
      }
      ok := Publish(payload, tmp);
    }

    /** Close the temporary file and remove it. */
    method Abandon(payload: Bytes, tmp: nat)
      requires disk.Saving() && disk.at == ToAbandon(payload, tmp)
      modifies disk
      ensures disk.Saving() && disk.start == old(disk.start) && disk.at == SaveReturned(payload, false)
    {
      var _ := disk.Plain();
      disk.Remove(tmp);
    }

    /** The last context check, the rename and the best-effort directory sync. */
    method Publish(payload: Bytes, tmp: nat) returns (ok: bool)
      requires disk.Saving() && disk.at == ToLastCheck(payload, tmp)
      modifies disk
      ensures disk.Saving() && disk.start == old(disk.start) && disk.at == SaveReturned(payload, ok)
    {
      var live := disk.Plain();
      if !live {
        disk.Remove(tmp);
        return false;
      }
      var renamed := disk.Rename(tmp);
      if !renamed {
        disk.Remove(tmp);
        return false;
      }
      var hasDir := disk.Plain();
      if hasDir {
        disk.SyncDir();
      }
      return true;
    }

    /** Load fails if and only if one of the operations that it makes fails: reached says that the looks at
        the context and the path and the opening of the file went well (not finding it is no failure), read
        that reading it and the last look at the context did. */
    method Load() returns (found: Option<C.State>, ghost reached: bool, ghost read: bool)
      requires disk.Idle()
      ensures found == if !reached || (disk.fs.path.Some? && !read) then None else Some(Stored())
      ensures match Read(disk.fs, reached, read)
              case LoadFailed => found.None?
              case LoadReturned(contents) => found == Some(StateIn(codec, contents))
              case _ => false
    {
      var usable, openable, readable, live := *, *, *, *;
      reached, read := usable && openable, readable && live;
      if !usable { return None, reached, read; }
      if !openable { return None, reached, read; }
      if disk.fs.path.None? { return Some(C.EMPTY_STATE), reached, read; }
      if !readable { return None, reached, read; }
      var data := disk.fs.inodes[disk.fs.path.value].bytes;
      if !live { return None, reached, read; }
      match codec.decode(data)
      case None => return Some(C.EMPTY_STATE), reached, read;
      case Some(st) => return Some(st), reached, read;
    }
  }
}
