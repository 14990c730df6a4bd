// Several targets over the file store, with power lost at any moment: no false sync if every Save gets
// the directory synced, whatever else fails. When it does not, a false sync is possible.

module SeveralTargets {
  import opened Wrappers
  import C = ConfigureCall
  import S = ConfigureSystem
  import opened FalseSync
  import opened StateFile
  import opened WholeSaves
  import opened FileStoreService
  import E = EngineOverFiles

  /** What is assumed of the KV bucket and of the calls, and nothing of the file system. */
  ghost predicate RecordsKept(c: E.System, l: E.Label) {
    l.Service? ==>
      var s := S.System(c.core, S.INIT.reg);
      && Honors(OwnTarget, AnyTargets, s, l.l) && Honors(FreshUuid, AnyTargets, s, l.l)
      && Honors(NamedTarget, AnyTargets, s, l.l)
  }

  /** Save has renamed and is about to open or to sync the directory. */
  predicate Flushing(op: E.FileOp) {
    op.Saving? && (op.p.ToOpenDir? || op.p.ToSyncDir?)
  }

  /** Opening and syncing the directory succeed, and the process does not die before they have. */
  predicate Syncs(c: E.System, l: E.Label) {
    Flushing(c.op) ==> (l.SaveOp? ==> l.o.ok) && !l.Crash?
  }

  ghost predicate AllKept(codec: Codec, ls: seq<E.Label>) {
    if ls == [] then true
    else
      var init, l := ls[..|ls| - 1], ls[|ls| - 1];
      AllKept(codec, init) && (E.Run(codec, E.INIT, init).Some? ==> RecordsKept(E.Run(codec, E.INIT, init).value, l))
  }

  ghost predicate AllSync(codec: Codec, ls: seq<E.Label>) {
    if ls == [] then true
    else
      var init, l := ls[..|ls| - 1], ls[|ls| - 1];
      AllSync(codec, init) && (E.Run(codec, E.INIT, init).Some? ==> Syncs(E.Run(codec, E.INIT, init).value, l))
  }

  /** Only between rename and sync can a loss of power leave another entry than the current one, and
      then it is the one before. */
  ghost predicate Flushed(c: E.System) {
    && (if Flushing(c.op) then c.fs.durable <= {c.op.start.path, c.fs.path} else c.fs.durable == {c.fs.path})
    && (c.op.Saving? ==> c.op.start.Valid() && (!Committed(c.op.p) ==> c.fs.path == c.op.start.path))
  }

  lemma StepKeepsFlushed(codec: Codec, c: E.System, s: S.System, l: E.Label)
    requires E.Related(codec, c, s) && Flushed(c) && Syncs(c, l) && E.Step(codec, c, l).Some?
    ensures Flushed(E.Step(codec, c, l).value)
  {
    if l.SaveOp? {
      assert c.op.p.ToRename? && l.o.ok ==> c.fs.durable == {c.op.start.path};
    }
  }

  /** Then a loss of power takes back no checkpoint: the entry that survives is the current one, or the
      Save that renamed has not taken effect. */
  lemma NothingTakenBack(codec: Codec, c: E.System, s: S.System, l: E.Label)
    requires E.Related(codec, c, s) && Flushed(c) && l.PowerLoss? && E.Step(codec, c, l).Some?
    ensures Honors(OneWorld, AnyTargets, s, E.Abstracted(codec, c, l)[0])
  {
    if c.op.Saving? {
      assert OnTrack(c.op.start, c.fs, c.op.p);
    }
  }

  lemma StepIsAssumed(codec: Codec, c: E.System, s: S.System, l: E.Label)
    requires E.Related(codec, c, s) && Flushed(c) && RecordsKept(c, l) && E.Step(codec, c, l).Some?
    requires E.Abstracted(codec, c, l) != []
    ensures |E.Abstracted(codec, c, l)| == 1 && Assumed(AnyTargets, s, E.Abstracted(codec, c, l)[0])
  {
    if l.PowerLoss? {
      NothingTakenBack(codec, c, s, l);
    }
  }

  /** So the assumption about power need not be made. */
  lemma {:induction false} SyncedRunsAreAssumed(codec: Codec, ls: seq<E.Label>)
    requires E.Run(codec, E.INIT, ls).Some? && AllKept(codec, ls) && AllSync(codec, ls)
    ensures Flushed(E.Run(codec, E.INIT, ls).value)
    ensures AllAssumed(AnyTargets, E.AbstractedRun(codec, E.INIT, ls))
  {
    if ls != [] {
      var init, l := ls[..|ls| - 1], ls[|ls| - 1];
      SyncedRunsAreAssumed(codec, init);
      E.EngineRefines(codec, init);
      var c, ms := E.Run(codec, E.INIT, init).value, E.AbstractedRun(codec, E.INIT, init);
      var s := S.Run(S.INIT, ms).value;
      StepKeepsFlushed(codec, c, s, l);
      if E.Abstracted(codec, c, l) == [] {
        assert ms + [] == ms;
      } else {
        StepIsAssumed(codec, c, s, l);
        AssumedSnoc(ms, s, E.Abstracted(codec, c, l)[0]);
        assert E.Abstracted(codec, c, l) == [E.Abstracted(codec, c, l)[0]];
      }
    }
  }

  lemma AssumedSnoc(ms: seq<S.Label>, s: S.System, m: S.Label)
    requires AllAssumed(AnyTargets, ms) && S.Run(S.INIT, ms) == Some(s) && Assumed(AnyTargets, s, m)
    ensures AllAssumed(AnyTargets, ms + [m])
  {
    assert (ms + [m])[..|ms|] == ms;
  }

  /** False-sync safety for any number of targets, through failures, crashes and losses of power at any
      moment, if directory syncs succeed and no process dies between a rename and the end of its sync. */
  lemma SyncedFilesDoNotLie(codec: Codec, ls: seq<E.Label>, c: E.System, l: E.Label, rec: C.Record)
    requires E.Run(codec, E.INIT, ls) == Some(c) && AllKept(codec, ls) && AllSync(codec, ls)
    requires E.Step(codec, c, l).Some? && (l.Service? || l.Finish?) && E.Abstracted(codec, c, l) != []
    requires S.DeclaredInSync(c.core, E.Abstracted(codec, c, l)[0]) == Some(rec)
    ensures Succeeded(c.core, CheckpointOf(rec))
  {
    SyncedRunsAreAssumed(codec, ls);
    E.FilesDoNotLie(codec, AnyTargets, ls, c, l, rec);
  }
}
