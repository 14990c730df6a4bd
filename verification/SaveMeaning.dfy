// What Save does, told from beginning to end by the outcomes of its operations.

module SaveMeaning {
  import opened Wrappers
  import opened StateFile
  import opened WholeSaves

  /** The operations with these outcomes take the file system from fs to fs' and end the Save. */
  predicate Ends(fs: FileSystem, p: SavePoint, os: seq<Outcome>, fs': FileSystem, ok: bool) {
    SaveOps(fs, p, os) == Some((fs', SaveReturned(p.payload, ok)))
  }

  /** Nothing more happens, and Save fails. */
  predicate StopsAs(fs: FileSystem, os: seq<Outcome>, fs': FileSystem, ok: bool) {
    os == [] && fs' == fs && !ok
  }

  /** The temporary file is removed, or that is tried, and Save fails. */
  predicate RemovesAs(fs: FileSystem, id: nat, os: seq<Outcome>, fs': FileSystem, ok: bool) {
    |os| == 1 && !ok && fs' == if os[0].ok then fs.(temps := fs.temps - {id}) else fs
  }

  /** Before that the file is closed, whatever comes of it. */
  predicate AbandonsAs(fs: FileSystem, id: nat, os: seq<Outcome>, fs': FileSystem, ok: bool) {
    |os| == 2 && RemovesAs(fs, id, os[1..], fs', ok)
  }

  /** The directory is synced if it can be opened, and Save succeeds either way. */
  predicate FlushesAs(fs: FileSystem, os: seq<Outcome>, fs': FileSystem, ok: bool) {
    && |os| > 0 && ok
    && if os[0].ok then |os| == 2 && fs' == (if os[1].ok then Flushed(fs) else fs) else |os| == 1 && fs' == fs
  }

  predicate RenamesAs(fs: FileSystem, id: nat, os: seq<Outcome>, fs': FileSystem, ok: bool) {
    |os| > 0 && if os[0].ok then FlushesAs(Renamed(fs, id), os[1..], fs', ok) else RemovesAs(fs, id, os[1..], fs', ok)
  }

  /** Close, and the last look at the context. */
  predicate ClosesAs(fs: FileSystem, id: nat, os: seq<Outcome>, fs': FileSystem, ok: bool) {
    |os| > 0 &&
    if !os[0].ok then RemovesAs(fs, id, os[1..], fs', ok)
    else
      |os| > 1 && if os[1].ok then RenamesAs(fs, id, os[2..], fs', ok) else RemovesAs(fs, id, os[2..], fs', ok)
  }

  /** Sync and Chmod. */
  predicate SyncsAs(fs: FileSystem, id: nat, os: seq<Outcome>, fs': FileSystem, ok: bool) {
    |os| > 0 &&
    if !os[0].ok then AbandonsAs(fs, id, os[1..], fs', ok)
    else
      && |os| > 1
      && if os[1].ok then ClosesAs(Synced(fs, id), id, os[2..], fs', ok)
         else AbandonsAs(Synced(fs, id), id, os[2..], fs', ok)
  }

  predicate WritesAs(fs: FileSystem, payload: Bytes, id: nat, os: seq<Outcome>, fs': FileSystem, ok: bool) {
    |os| > 0 &&
    if os[0].ok then SyncsAs(Written(fs, id, payload), id, os[1..], fs', ok)
    else
      var part := if os[0].written <= |payload| then payload[..os[0].written] else payload;
      AbandonsAs(Written(fs, id, part), id, os[1..], fs', ok)
  }

  predicate CreatesAs(fs: FileSystem, payload: Bytes, os: seq<Outcome>, fs': FileSystem, ok: bool) {
    |os| > 0 &&
    if os[0].ok then WritesAs(Created(fs), payload, |fs.inodes|, os[1..], fs', ok) else StopsAs(fs, os[1..], fs', ok)
  }

  /** A whole Save: two looks at the context with MkdirAll in between come first. */
  predicate SavesAs(fs: FileSystem, payload: Bytes, os: seq<Outcome>, fs': FileSystem, ok: bool) {
    |os| > 0 &&
    if !os[0].ok then StopsAs(fs, os[1..], fs', ok)
    else
      |os| > 1 &&
      if !os[1].ok then StopsAs(fs, os[2..], fs', ok)
      else |os| > 2 && if os[2].ok then CreatesAs(fs, payload, os[3..], fs', ok) else StopsAs(fs, os[3..], fs', ok)
  }

  lemma {:induction false} OpsCons(fs: FileSystem, p: SavePoint, os: seq<Outcome>)
    requires os != []
    ensures SaveOps(fs, p, os) ==
            if p.SaveReturned? then None
            else var next := SaveStep(fs, p, os[0]); SaveOps(next.0, next.1, os[1..])
  {
    var n := |os| - 1;
    if n == 0 {
      assert os[..n] == [] && os[1..] == [];
    } else {
      OpsCons(fs, p, os[..n]);
      assert os[..n][1..] == os[1..][..n - 1];
      assert os[1..][n - 1] == os[n];
    }
  }

  lemma EndsCons(fs: FileSystem, p: SavePoint, os: seq<Outcome>, fs': FileSystem, ok: bool)
    ensures p.SaveReturned? ==> (Ends(fs, p, os, fs', ok) <==> os == [] && fs' == fs && p.ok == ok)
    ensures
      !p.SaveReturned? ==>
        (Ends(fs, p, os, fs', ok) <==>
         os != [] && var next := SaveStep(fs, p, os[0]); Ends(next.0, next.1, os[1..], fs', ok))
  {
    if os != [] {
      OpsCons(fs, p, os);
      if !p.SaveReturned? {
        assert SaveStep(fs, p, os[0]).1.payload == p.payload;
      }
    }
  }

  lemma RemovesIff(fs: FileSystem, payload: Bytes, id: nat, os: seq<Outcome>, fs': FileSystem, ok: bool)
    ensures Ends(fs, ToRemove(payload, id), os, fs', ok) <==> RemovesAs(fs, id, os, fs', ok)
  {
    EndsCons(fs, ToRemove(payload, id), os, fs', ok);
    if os != [] {
      var next := SaveStep(fs, ToRemove(payload, id), os[0]);
      EndsCons(next.0, next.1, os[1..], fs', ok);
    }
  }

  lemma AbandonsIff(fs: FileSystem, payload: Bytes, id: nat, os: seq<Outcome>, fs': FileSystem, ok: bool)
    ensures Ends(fs, ToAbandon(payload, id), os, fs', ok) <==> AbandonsAs(fs, id, os, fs', ok)
  {
    EndsCons(fs, ToAbandon(payload, id), os, fs', ok);
    if os != [] {
      RemovesIff(fs, payload, id, os[1..], fs', ok);
    }
  }

  lemma FlushesIff(fs: FileSystem, payload: Bytes, os: seq<Outcome>, fs': FileSystem, ok: bool)
    ensures Ends(fs, ToOpenDir(payload), os, fs', ok) <==> FlushesAs(fs, os, fs', ok)
  {
    EndsCons(fs, ToOpenDir(payload), os, fs', ok);
    if os != [] {
      var next := SaveStep(fs, ToOpenDir(payload), os[0]);
      EndsCons(next.0, next.1, os[1..], fs', ok);
      if os[0].ok && |os| > 1 {
        var last := SaveStep(fs, ToSyncDir(payload), os[1]);
        EndsCons(last.0, last.1, os[1..][1..], fs', ok);
      }
    }
  }

  lemma RenamesIff(fs: FileSystem, payload: Bytes, id: nat, os: seq<Outcome>, fs': FileSystem, ok: bool)
    ensures Ends(fs, ToRename(payload, id), os, fs', ok) <==> RenamesAs(fs, id, os, fs', ok)
  {
    EndsCons(fs, ToRename(payload, id), os, fs', ok);
    if os != [] {
      FlushesIff(Renamed(fs, id), payload, os[1..], fs', ok);
      RemovesIff(fs, payload, id, os[1..], fs', ok);
    }
  }

  lemma ClosesIff(fs: FileSystem, payload: Bytes, id: nat, os: seq<Outcome>, fs': FileSystem, ok: bool)
    ensures Ends(fs, ToClose(payload, id), os, fs', ok) <==> ClosesAs(fs, id, os, fs', ok)
  {
    EndsCons(fs, ToClose(payload, id), os, fs', ok);
    if os != [] {
      RemovesIff(fs, payload, id, os[1..], fs', ok);
      EndsCons(fs, ToLastCheck(payload, id), os[1..], fs', ok);
      if |os| > 1 {
        assert os[1..][1..] == os[2..];
        RenamesIff(fs, payload, id, os[2..], fs', ok);
        RemovesIff(fs, payload, id, os[2..], fs', ok);
      }
    }
  }

  lemma SyncsIff(fs: FileSystem, payload: Bytes, id: nat, os: seq<Outcome>, fs': FileSystem, ok: bool)
    ensures Ends(fs, ToSync(payload, id), os, fs', ok) <==> SyncsAs(fs, id, os, fs', ok)
  {
    EndsCons(fs, ToSync(payload, id), os, fs', ok);
    if os != [] {
      AbandonsIff(fs, payload, id, os[1..], fs', ok);
      EndsCons(Synced(fs, id), ToChmod(payload, id), os[1..], fs', ok);
      if |os| > 1 {
        assert os[1..][1..] == os[2..];
        ClosesIff(Synced(fs, id), payload, id, os[2..], fs', ok);
        AbandonsIff(Synced(fs, id), payload, id, os[2..], fs', ok);
      }
    }
  }

  lemma WritesIff(fs: FileSystem, payload: Bytes, id: nat, os: seq<Outcome>, fs': FileSystem, ok: bool)
    ensures Ends(fs, ToWrite(payload, id), os, fs', ok) <==> WritesAs(fs, payload, id, os, fs', ok)
  {
    EndsCons(fs, ToWrite(payload, id), os, fs', ok);
    if os != [] {
      if os[0].ok {
        SyncsIff(Written(fs, id, payload), payload, id, os[1..], fs', ok);
      } else {
        var part := if os[0].written <= |payload| then payload[..os[0].written] else payload;
        AbandonsIff(Written(fs, id, part), payload, id, os[1..], fs', ok);
      }
    }
  }

  lemma CreatesIff(fs: FileSystem, payload: Bytes, os: seq<Outcome>, fs': FileSystem, ok: bool)
    ensures Ends(fs, ToCreate(payload), os, fs', ok) <==> CreatesAs(fs, payload, os, fs', ok)
  {
    EndsCons(fs, ToCreate(payload), os, fs', ok);
    if os != [] {
      WritesIff(Created(fs), payload, |fs.inodes|, os[1..], fs', ok);
      EndsCons(fs, SaveReturned(payload, false), os[1..], fs', ok);
    }
  }

  /** The executions of Save are exactly those. */
  lemma SavesIff(fs: FileSystem, payload: Bytes, os: seq<Outcome>, fs': FileSystem, ok: bool)
    ensures Ends(fs, ToCheck(payload), os, fs', ok) <==> SavesAs(fs, payload, os, fs', ok)
  {
    var failed := SaveReturned(payload, false);
    EndsCons(fs, ToCheck(payload), os, fs', ok);
    if os != [] {
      EndsCons(fs, failed, os[1..], fs', ok);
      EndsCons(fs, ToMkdir(payload), os[1..], fs', ok);
      if |os| > 1 {
        assert os[1..][1..] == os[2..];
        EndsCons(fs, failed, os[2..], fs', ok);
        EndsCons(fs, ToRecheck(payload), os[2..], fs', ok);
        if |os| > 2 {
          assert os[2..][1..] == os[3..];
          EndsCons(fs, failed, os[3..], fs', ok);
          CreatesIff(fs, payload, os[3..], fs', ok);
        }
      }
    }
  }

  predicate AllOk(os: seq<Outcome>) {
    forall o | o in os :: o.ok
  }

  /** From the write on: nil means that write, sync, chmod, close, the last look at the context and the
      rename all succeeded, and the new file is then complete and on disk under the state file's name. */
  lemma WritesMean(fs: FileSystem, payload: Bytes, os: seq<Outcome>, fs': FileSystem, ok: bool)
    requires WritesAs(Created(fs), payload, |fs.inodes|, os, fs', ok)
    ensures ok <==> |os| > 6 && AllOk(os[..6])
    ensures ok ==> FlushesAs(Renamed(WithFile(fs, payload), |fs.inodes|), os[6..], fs', true)
  {
    var n := |fs.inodes|;
    if os[0].ok {
      var written := Written(Created(fs), n, payload);
      assert written.inodes == fs.inodes + [Inode(payload, false)];
      SyncsMean(written, n, os[1..], fs', ok);
      assert Synced(written, n).inodes == fs.inodes + [Inode(payload, true)];
      if |os| > 6 {
        assert os[1..][..5] == os[1..6] && os[1..][5..] == os[6..];
        assert os[..6] == [os[0]] + os[1..6];
      }
    }
  }

  lemma SyncsMean(fs: FileSystem, id: nat, os: seq<Outcome>, fs': FileSystem, ok: bool)
    requires SyncsAs(fs, id, os, fs', ok)
    ensures ok <==> |os| > 5 && AllOk(os[..5])
    ensures ok ==> FlushesAs(Renamed(Synced(fs, id), id), os[5..], fs', true)
  {
    if |os| > 5 {
      assert os[..5] == [os[0], os[1], os[2], os[3], os[4]];
    }
  }

  /** Save returns nil if and only if its first ten operations succeed; what comes of the directory sync
      does not matter to the answer, only to what a loss of power can bring back. */
  lemma NilMeans(fs: FileSystem, payload: Bytes, os: seq<Outcome>, fs': FileSystem, ok: bool)
    requires Ends(fs, ToCheck(payload), os, fs', ok)
    ensures ok <==> |os| > 10 && AllOk(os[..10])
    ensures
      ok ==>
        var renamed := Renamed(WithFile(fs, payload), |fs.inodes|);
        fs' == if |os| == 12 && os[11].ok then Flushed(renamed) else renamed
  {
    SavesIff(fs, payload, os, fs', ok);
    if |os| > 3 && AllOk(os[..4]) {
      assert os[..4] == [os[0], os[1], os[2], os[3]];
      assert os[3..][1..] == os[4..];
      WritesMean(fs, payload, os[4..], fs', ok);
      if |os| > 10 {
        assert os[4..][..6] == os[4..10] && os[4..][6..] == os[10..];
        assert os[..10] == os[..4] + os[4..10];
      }
    }
  }

  /** fs' differs from fs in the temporary file id at most, which is gone unless the last operation, its
      removal, failed. */
  predicate Cleaned(fs: FileSystem, id: nat, os: seq<Outcome>, fs': FileSystem) {
    && fs'.path == fs.path && fs'.durable == fs.durable
    && |fs.inodes| <= |fs'.inodes| && fs'.inodes[..|fs.inodes|] == fs.inodes
    && |os| > 0 && fs'.temps == if os[|os| - 1].ok then fs.temps else fs.temps + {id}
  }

  lemma FailedWritesCleanUp(fs: FileSystem, payload: Bytes, os: seq<Outcome>, fs': FileSystem)
    requires WritesAs(Created(fs), payload, |fs.inodes|, os, fs', false)
    requires forall t | t in fs.temps :: t < |fs.inodes|
    ensures Cleaned(fs, |fs.inodes|, os, fs')
  {
    var n := |fs.inodes|;
    assert fs.temps + {n} - {n} == fs.temps;
  }

  /** A Save that fails leaves the state file alone. Once it has made its temporary file, the last thing
      it does is to remove it. */
  lemma FailureCleansUp(fs: FileSystem, payload: Bytes, os: seq<Outcome>, fs': FileSystem)
    requires Ends(fs, ToCheck(payload), os, fs', false)
    requires forall t | t in fs.temps :: t < |fs.inodes|
    ensures if |os| > 3 && AllOk(os[..4]) then Cleaned(fs, |fs.inodes|, os, fs') else fs' == fs
  {
    SavesIff(fs, payload, os, fs', false);
    if |os| > 3 {
      assert os[..4] == [os[0], os[1], os[2], os[3]];
      if os[3].ok {
        assert os[3..][1..] == os[4..];
        FailedWritesCleanUp(fs, payload, os[4..], fs');
      }
    }
  }
}
