// Whole Saves, operation by operation: what one leaves behind when the directory is not synced.

module WholeSaves {
  import opened Wrappers
  import opened StateFile

  /** Where Save and the file system are after operations with these outcomes. */
  function SaveOps(fs: FileSystem, p: SavePoint, os: seq<Outcome>): Option<(FileSystem, SavePoint)> {
    if os == [] then Some((fs, p))
    else
      var before := SaveOps(fs, p, os[..|os| - 1]);
      if before.Some? && !before.value.1.SaveReturned?
      then Some(SaveStep(before.value.0, before.value.1, os[|os| - 1])) else None
  }

  ghost predicate Becomes(fs: FileSystem, p: SavePoint, fs': FileSystem, p': SavePoint) {
    exists os :: SaveOps(fs, p, os) == Some((fs', p'))
  }

  lemma Starts(fs: FileSystem, p: SavePoint)
    ensures Becomes(fs, p, fs, p)
  {
    assert SaveOps(fs, p, []) == Some((fs, p));
  }

  lemma GoesOn(fs: FileSystem, p: SavePoint, fs': FileSystem, p': SavePoint, ok: bool)
    requires Becomes(fs, p, fs', p') && !p'.SaveReturned?
    ensures
      var next := SaveStep(fs', p', Outcome(ok, 0));
      Becomes(fs, p, next.0, next.1)
  {
    var os :| SaveOps(fs, p, os) == Some((fs', p'));
    var o := Outcome(ok, 0);
    assert (os + [o])[..|os|] == os;
    assert SaveOps(fs, p, os + [o]) == Some(SaveStep(fs', p', o));
  }

  /** A file system with a new file that is complete and on disk. */
  function WithFile(fs: FileSystem, payload: Bytes): FileSystem {
    fs.(inodes := fs.inodes + [Inode(payload, true)], temps := fs.temps + {|fs.inodes|})
  }

  lemma TempFileIsMade(fs: FileSystem, payload: Bytes)
    ensures Becomes(fs, ToCheck(payload), Created(fs), ToWrite(payload, |fs.inodes|))
  {
    Starts(fs, ToCheck(payload));
    GoesOn(fs, ToCheck(payload), fs, ToCheck(payload), true);
    GoesOn(fs, ToCheck(payload), fs, ToMkdir(payload), true);
    GoesOn(fs, ToCheck(payload), fs, ToRecheck(payload), true);
    GoesOn(fs, ToCheck(payload), fs, ToCreate(payload), true);
  }

  lemma TempFileIsFilled(fs: FileSystem, payload: Bytes)
    ensures Becomes(fs, ToCheck(payload), WithFile(fs, payload), ToChmod(payload, |fs.inodes|))
  {
    var n := |fs.inodes|;
    var written := Written(Created(fs), n, payload);
    TempFileIsMade(fs, payload);
    GoesOn(fs, ToCheck(payload), Created(fs), ToWrite(payload, n), true);
    GoesOn(fs, ToCheck(payload), written, ToSync(payload, n), true);
    assert Synced(written, n).inodes == fs.inodes + [Inode(payload, true)];
  }

  lemma TempFileIsRenamed(fs: FileSystem, payload: Bytes)
    ensures Becomes(fs, ToCheck(payload), Renamed(WithFile(fs, payload), |fs.inodes|), ToOpenDir(payload))
  {
    var n, full := |fs.inodes|, WithFile(fs, payload);
    TempFileIsFilled(fs, payload);
    GoesOn(fs, ToCheck(payload), full, ToChmod(payload, n), true);
    GoesOn(fs, ToCheck(payload), full, ToClose(payload, n), true);
    GoesOn(fs, ToCheck(payload), full, ToLastCheck(payload, n), true);
    GoesOn(fs, ToCheck(payload), full, ToRename(payload, n), true);
  }

  /** The file is the new one, and every entry that could survive a loss of power still can. */
  ghost predicate Unflushed(fs: FileSystem, fs': FileSystem, payload: Bytes) {
    && fs'.Valid() && fs'.Contents() == Some(payload)
    && fs.durable <= fs'.durable && forall e | e in fs.durable :: fs'.Behind(e) == fs.Behind(e)
  }

  /** A Save can rename and then return nil without the directory having been synced. */
  lemma SavesUnflushed(fs: FileSystem, payload: Bytes) returns (fs': FileSystem)
    requires fs.Valid()
    ensures Unflushed(fs, fs', payload)
    ensures Becomes(fs, ToCheck(payload), fs', ToOpenDir(payload))
    ensures Becomes(fs, ToCheck(payload), fs', SaveReturned(payload, true))
  {
    fs' := Renamed(WithFile(fs, payload), |fs.inodes|);
    TempFileIsRenamed(fs, payload);
    GoesOn(fs, ToCheck(payload), fs', ToOpenDir(payload), false);
  }
}
