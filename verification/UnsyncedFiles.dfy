// The other half of SeveralTargets: a loss of power that takes back the checkpoint of a desired record
// which the device does not hold leads to a false sync, and with two targets and a directory sync that
// fails, or a process that dies before it, such a state comes about.

module UnsyncedFiles {
  import opened Wrappers
  import C = ConfigureCall
  import S = ConfigureSystem
  import opened FalseSync
  import opened StateFile
  import opened WholeSaves
  import opened FileStoreService
  import opened EngineOverFiles
  import opened SeveralTargets

  /** The schedule of the engine over files reaches c, with what is assumed of KV bucket and calls. */
  ghost predicate Leads(codec: Codec, ls: seq<Label>, c: System) {
    Run(codec, INIT, ls) == Some(c) && AllKept(codec, ls)
  }

  ghost predicate Reachable(codec: Codec, c: System) {
    exists ls :: Leads(codec, ls, c)
  }

  /** In state c, a call can declare rec in sync although the device does not hold it. */
  ghost predicate CanLie(codec: Codec, c: System, rec: C.Record) {
    && !Succeeded(c.core, CheckpointOf(rec))
    && exists l :: Step(codec, c, Service(l)).Some? && S.DeclaredInSync(c.core, l) == Some(rec)
  }

  /** A set of states that the engine does not leave. What holds of every such set holds of the reachable
      states; the lemmas below need no more than that. */
  ghost predicate Explored(codec: Codec, reach: iset<System>) {
    && INIT in reach && (forall c | c in reach :: Sound(c.fs))
    && forall c, l | c in reach && Step(codec, c, l).Some? && RecordsKept(c, l) :: Step(codec, c, l).value in reach
  }

  lemma ReachableGoesOn(codec: Codec, c: System, l: Label)
    requires Reachable(codec, c) && Step(codec, c, l).Some? && RecordsKept(c, l)
    ensures Reachable(codec, Step(codec, c, l).value)
  {
    var ls :| Leads(codec, ls, c);
    assert (ls + [l])[..|ls|] == ls;
    assert Leads(codec, ls + [l], Step(codec, c, l).value);
  }

  lemma FilesAreSound(codec: Codec, c: System)
    requires Reachable(codec, c)
    ensures Sound(c.fs)
  {
    var ls :| Leads(codec, ls, c);
    EngineRefines(codec, ls);
  }

  ghost function ReachableStates(codec: Codec): iset<System> {
    iset c | Reachable(codec, c)
  }

  lemma ReachableIsExplored(codec: Codec)
    ensures Explored(codec, ReachableStates(codec))
  {
    assert Leads(codec, [], INIT);
    forall c | Reachable(codec, c) { FilesAreSound(codec, c); }
    forall c, l | Reachable(codec, c) && Step(codec, c, l).Some? && RecordsKept(c, l) { ReachableGoesOn(codec, c, l); }
  }

  /** Nothing is under way. */
  predicate Idle(c: System) {
    c.op.NoOp? && c.core.holder.Idle? && c.core.waiting == map[]
  }

  /** What the state file says. */
  function Checkpoint(codec: Codec, c: System): C.State {
    StateIn(codec, c.fs.Contents())
  }

  lemma Takes(codec: Codec, reach: iset<System>, c: System, l: Label) returns (c': System)
    requires Explored(codec, reach) && c in reach && Step(codec, c, l).Some? && RecordsKept(c, l)
    ensures c' == Step(codec, c, l).value && c' in reach
  {
    c' := Step(codec, c, l).value;
  }

  /** A Reconcile call is issued and takes the lock. */
  lemma Locks(codec: Codec, reach: iset<System>, c: System, id: nat, target: string) returns (c': System)
    requires Explored(codec, reach) && c in reach && Idle(c) && id !in c.core.finished && target != ""
    ensures c' == c.(core := c.core.(holder := S.Holds(id, C.AtStartupState(target)))) && c' in reach
  {
    c' := Takes(codec, reach, c, Service(S.Issue(id, C.Reconcile(target))));
    c' := Takes(codec, reach, c', Service(S.Acquire(id)));
    assert c'.core.waiting == map[];
  }

  /** It loads the checkpoint. */
  lemma Loads(codec: Codec, reach: iset<System>, c: System, id: nat, target: string) returns (c': System)
    requires Explored(codec, reach) && c in reach && c.op.NoOp? && c.core.holder == S.Holds(id, C.AtStartupState(target))
    ensures c' == c.(core := c.core.(holder := S.Holds(id, C.AtStartupDesired(target, Checkpoint(codec, c)))))
    ensures c' in reach
  {
    c' := Takes(codec, reach, c, BeginLoad);
    c' := Takes(codec, reach, c', LoadOp(true));
    if c.fs.path.Some? {
      c' := Takes(codec, reach, c', LoadOp(true));
    }
    c' := Takes(codec, reach, c', Finish);
  }

  /** It finds drift and gets as far as Apply. */
  lemma Drifts(codec: Codec, reach: iset<System>, c: System, id: nat, rec: C.Record) returns (c': System)
    requires Explored(codec, reach) && c in reach && Idle(c) && id !in c.core.finished && rec.target != ""
    requires c.core.Present(rec.target) && rec == c.core.Latest(rec.target) && Checkpoint(codec, c) != CheckpointOf(rec)
    ensures c' == c.(core := c.core.(holder := S.Holds(id, C.AtProcess(C.NoticeOf(rec), rec, C.ToApply))))
    ensures c' in reach
  {
    c' := Locks(codec, reach, c, id, rec.target);
    c' := Loads(codec, reach, c', id, rec.target);
    c' := Takes(codec, reach, c', Service(S.Exchange(C.Desired(C.Found(rec)))));
    c' := Renders(codec, reach, c', id, rec);
  }

  lemma Renders(codec: Codec, reach: iset<System>, c: System, id: nat, rec: C.Record) returns (c': System)
    requires Explored(codec, reach) && c in reach && c.op.NoOp?
    requires c.core.holder == S.Holds(id, C.AtProcess(C.NoticeOf(rec), rec, C.ToRendering))
    ensures c' == c.(core := c.core.(holder := S.Holds(id, C.AtProcess(C.NoticeOf(rec), rec, C.ToApply))))
    ensures c' in reach
  {
    c' := Succeeds(codec, reach, c, id, rec, C.ToRendering);
    c' := Succeeds(codec, reach, c', id, rec, C.ToRender);
    c' := Succeeds(codec, reach, c', id, rec, C.ToRendered);
    c' := Succeeds(codec, reach, c', id, rec, C.ToApplying);
  }

  lemma Succeeds(codec: Codec, reach: iset<System>, c: System, id: nat, rec: C.Record, phase: C.Phase) returns (c': System)
    requires Explored(codec, reach) && c in reach && c.op.NoOp? && phase != C.ToApply && phase != C.ToSave
    requires c.core.holder == S.Holds(id, C.AtProcess(C.NoticeOf(rec), rec, phase))
    ensures c' == c.(core := c.core.(holder := S.Holds(id, C.Processed(C.NoticeOf(rec), rec, phase, true))))
    ensures c' in reach
  {
    c' := Takes(codec, reach, c, Service(S.Exchange(C.Ack(true))));
  }

  function Applied(core: S.Core, rec: C.Record, ok: bool): S.Core {
    core.(device := core.device[rec.target := S.Attempt(rec, ok)])
  }

  /** Its Apply fails, and the process is restarted. */
  lemma Fails(codec: Codec, reach: iset<System>, c: System, id: nat, rec: C.Record) returns (c': System)
    requires Explored(codec, reach) && c in reach && Idle(c) && id !in c.core.finished && rec.target != ""
    requires c.core.Present(rec.target) && rec == c.core.Latest(rec.target) && Checkpoint(codec, c) != CheckpointOf(rec)
    ensures c' == c.(core := Applied(c.core, rec, false)) && c' in reach
  {
    c' := Drifts(codec, reach, c, id, rec);
    c' := Takes(codec, reach, c', Service(S.Exchange(C.Ack(false))));
    c' := Takes(codec, reach, c', Crash(None));
  }

  /** The operations of a Save, as steps of the engine. */
  lemma {:induction false} Saves(codec: Codec, reach: iset<System>, c: System, os: seq<Outcome>, fs: FileSystem, p: SavePoint) returns (c': System)
    requires Explored(codec, reach) && c in reach && c.op.Saving? && SaveOps(c.fs, c.op.p, os) == Some((fs, p))
    ensures c' == c.(fs := fs, op := Saving(p, c.op.start)) && c' in reach
  {
    c' := c;
    if os != [] {
      var init, o := os[..|os| - 1], os[|os| - 1];
      var (fs', p') := SaveOps(c.fs, c.op.p, init).value;
      c' := Saves(codec, reach, c, init, fs', p');
      c' := Takes(codec, reach, c', SaveOp(o));
    }
  }

  /** Its Apply succeeds and it begins to save. */
  lemma BeginsToSave(codec: Codec, reach: iset<System>, c: System, id: nat, rec: C.Record) returns (c': System)
    requires Explored(codec, reach) && c in reach && Faithful(codec) && Idle(c) && id !in c.core.finished && rec.target != ""
    requires c.core.Present(rec.target) && rec == c.core.Latest(rec.target) && Checkpoint(codec, c) != CheckpointOf(rec)
    ensures c'.core == Applied(c.core, rec, true).(holder := S.Holds(id, C.AtProcess(C.NoticeOf(rec), rec, C.ToSave)))
    ensures c'.fs == c.fs && c'.op == Saving(ToCheck(codec.encode(CheckpointOf(rec))), c.fs) && c' in reach
  {
    c' := Drifts(codec, reach, c, id, rec);
    c' := Takes(codec, reach, c', Service(S.Exchange(C.Ack(true))));
    c' := Takes(codec, reach, c', BeginSave(codec.encode(CheckpointOf(rec))));
  }

  /** It saves without the directory being synced: because the sync fails, or because the process dies
      before it. Then the process is restarted. */
  lemma SavesWithoutSync(codec: Codec, reach: iset<System>, c: System, id: nat, rec: C.Record, dies: bool) returns (c': System)
    requires Explored(codec, reach) && c in reach && Faithful(codec) && Idle(c) && id !in c.core.finished && rec.target != ""
    requires c.core.Present(rec.target) && rec == c.core.Latest(rec.target) && Checkpoint(codec, c) != CheckpointOf(rec)
    ensures c'.core == Applied(c.core, rec, true) && Idle(c') && c' in reach
    ensures Unflushed(c.fs, c'.fs, codec.encode(CheckpointOf(rec)))
  {
    var payload := codec.encode(CheckpointOf(rec));
    var fs := SavesUnflushed(c.fs, payload);
    var p := if dies then ToOpenDir(payload) else SaveReturned(payload, true);
    var os :| SaveOps(c.fs, ToCheck(payload), os) == Some((fs, p));
    c' := BeginsToSave(codec, reach, c, id, rec);
    c' := Saves(codec, reach, c', os, fs, p);
    c' := Restarts(codec, reach, c');
  }

  /** The process is restarted, after the Save if that has returned. */
  lemma Restarts(codec: Codec, reach: iset<System>, c: System) returns (c': System)
    requires Explored(codec, reach) && c in reach && c.op.Saving?
    requires c.op.p.ToOpenDir? || (c.op.p.SaveReturned? && c.op.p.ok)
    requires S.InCall(c.core) && S.Requested(c.core).Save?
    ensures c' == System(c.core.(waiting := map[], holder := S.Idle), c.fs, NoOp) && c' in reach
  {
    c' := c;
    if c.op.p.SaveReturned? {
      c' := Takes(codec, reach, c, Finish);
    }
    c' := Takes(codec, reach, c', Crash(None));
  }

  /** Once the file holds the checkpoint of a desired record that the device does not hold, a Reconcile
      lies. */
  lemma Lies(codec: Codec, reach: iset<System>, c: System, id: nat, rec: C.Record) returns (c': System)
    requires Explored(codec, reach) && c in reach && Idle(c) && id !in c.core.finished && rec.target != ""
    requires c.core.Present(rec.target) && rec == c.core.Latest(rec.target) && Checkpoint(codec, c) == CheckpointOf(rec)
    requires !Succeeded(c.core, CheckpointOf(rec))
    ensures c' in reach && CanLie(codec, c', rec)
  {
    c' := Locks(codec, reach, c, id, rec.target);
    c' := Loads(codec, reach, c', id, rec.target);
    var l := S.Exchange(C.Desired(C.Found(rec)));
    assert Step(codec, c', Service(l)).Some? && S.DeclaredInSync(c'.core, l) == Some(rec);
  }

  lemma TakesBack(codec: Codec, reach: iset<System>, c: System, e: Option<nat>, id: nat, rec: C.Record) returns (c': System)
    requires Explored(codec, reach) && c in reach && id !in c.core.finished && rec.target != ""
    requires e in c.fs.durable && StateIn(codec, c.fs.Behind(e)) == CheckpointOf(rec)
    requires c.core.Present(rec.target) && rec == c.core.Latest(rec.target) && !Succeeded(c.core, CheckpointOf(rec))
    ensures c' in reach && CanLie(codec, c', rec)
  {
    c' := Takes(codec, reach, c, PowerLoss(None, e, []));
    c' := Lies(codec, reach, c', id, rec);
  }

  /** A loss of power leads to a false sync from every state in which some entry that may survive leads
      to the checkpoint of a desired record that the device does not hold. */
  lemma TakingBackLies(codec: Codec, before: seq<Label>, c: System, e: Option<nat>, id: nat, rec: C.Record)
      returns (ls: seq<Label>, c': System)
    requires Leads(codec, before, c) && id !in c.core.finished && rec.target != ""
    requires e in c.fs.durable && StateIn(codec, c.fs.Behind(e)) == CheckpointOf(rec)
    requires c.core.Present(rec.target) && rec == c.core.Latest(rec.target) && !Succeeded(c.core, CheckpointOf(rec))
    ensures Leads(codec, ls, c') && CanLie(codec, c', rec)
  {
    ReachableIsExplored(codec);
    c' := TakesBack(codec, ReachableStates(codec), c, e, id, rec);
    ls :| Leads(codec, ls, c');
  }

  /** Target a is configured; the process is restarted for target b, which is configured; it is restarted
      for a, whose Apply now fails; then power is lost. */
  lemma TwoTargetsLie(codec: Codec, reach: iset<System>, dies: bool, rec: C.Record) returns (c: System)
    requires Explored(codec, reach) && Faithful(codec) && rec == C.Record("a", "u", "", "first")
    ensures c in reach && CanLie(codec, c, rec)
  {
    var other := C.Record("b", "v", "", "second");
    c := Takes(codec, reach, INIT, Service(S.Put("a", rec)));
    c := Takes(codec, reach, c, Service(S.Put("b", other)));
    c := SavesWithoutSync(codec, reach, c, 0, rec, dies);
    var e := c.fs.path;
    c := SavesWithoutSync(codec, reach, c, 0, other, dies);
    c := Fails(codec, reach, c, 0, rec);
    c := TakesBack(codec, reach, c, e, 0, rec);
  }

  /** With two targets it happens, whether it is the directory sync that fails or the process that dies
      before it. */
  lemma UnsyncedFilesLie(codec: Codec, dies: bool) returns (ls: seq<Label>, c: System, rec: C.Record)
    requires Faithful(codec)
    ensures Leads(codec, ls, c) && CanLie(codec, c, rec)
  {
    ReachableIsExplored(codec);
    rec := C.Record("a", "u", "", "first");
    c := TwoTargetsLie(codec, ReachableStates(codec), dies, rec);
    ls :| Leads(codec, ls, c);
  }
}
