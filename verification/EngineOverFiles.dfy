// The configure engine over the file store, operation by operation, refines the engine over an
// atomic checkpoint register; so what holds of the latter holds of the former.

module EngineOverFiles {
  import opened Wrappers
  import C = ConfigureCall
  import S = ConfigureSystem
  import FalseSync
  import opened StateFile
  import opened FileStoreService

  /** The store operation that the lock holder is in. A Save remembers the file system it began with. */
  datatype FileOp = NoOp | Saving(p: SavePoint, start: FileSystem) | Loading(r: Reading)

  datatype System = System(core: S.Core, fs: FileSystem, op: FileOp)

  const INIT := System(S.INIT.core, FileSystem([], None, {None}, {}), NoOp)

  datatype Label =
    | Service(l: S.Label)                        // a step that does not involve the store
    | BeginSave(payload: Bytes)
    | SaveOp(o: Outcome)
    | BeginLoad
    | LoadOp(ok: bool)
    | Finish                                     // the store operation returns to the service
    | WriteBack                                  // the kernel flushes the directory
    | Crash(attempted: Option<bool>)
    | PowerLoss(attempted: Option<bool>, entry: Option<nat>, torn: seq<Bytes>)

  predicate AsksStore(core: S.Core) {
    S.InCall(core) && (S.Requested(core).LoadState? || S.Requested(core).Save?)
  }

  predicate OpReturned(op: FileOp) {
    (op.Saving? && op.p.SaveReturned?) || (op.Loading? && (op.r.LoadReturned? || op.r.LoadFailed?))
  }

  /** What the service is told when the operation is over. */
  function AnswerOf(codec: Codec, op: FileOp): C.Answer
    requires OpReturned(op)
  {
    match op
    case Saving(p, _) => C.Ack(p.ok)
    case Loading(r) => C.Loaded(if r.LoadReturned? then Some(StateIn(codec, r.found)) else None)
  }

  predicate StoreLabel(l: S.Label) {
    l.Flush? || l.Crash? || l.PowerLoss?
  }

  function Step(codec: Codec, c: System, l: Label): Option<System> {
    match l
    case Service(l) =>
      if StoreLabel(l) || (l.Exchange? && AsksStore(c.core)) then None
      else
        var core := S.NextCore(c.core, l);
        if core.Some? then Some(c.(core := core.value)) else None
    case BeginSave(payload) =>
      if c.op.NoOp? && AsksStore(c.core) && S.Requested(c.core).Save?
         && codec.decode(payload) == Some(S.Requested(c.core).next)
      then Some(c.(op := Saving(ToCheck(payload), c.fs))) else None
    case SaveOp(o) =>
      if c.op.Saving? && !c.op.p.SaveReturned? then
        var (fs, p) := SaveStep(c.fs, c.op.p, o);
        Some(c.(fs := fs, op := Saving(p, c.op.start)))
      else None
    case BeginLoad =>
      if c.op.NoOp? && AsksStore(c.core) && S.Requested(c.core).LoadState?
      then Some(c.(op := Loading(ToOpen))) else None
    case LoadOp(ok) =>
      if c.op.Loading? && (c.op.r.ToOpen? || c.op.r.ToRead?)
      then Some(c.(op := Loading(LoadStep(c.fs, c.op.r, ok)))) else None
    case Finish =>
      if !OpReturned(c.op) then None
      else
        var core := S.NextCore(c.core, S.Exchange(AnswerOf(codec, c.op)));
        if core.Some? then Some(c.(core := core.value, op := NoOp)) else None
    case WriteBack => Some(c.(fs := Flushed(c.fs)))
    case Crash(attempted) => Some(System(S.Restarted(c.core, attempted), c.fs, NoOp))
    case PowerLoss(attempted, entry, torn) =>
      if entry in c.fs.durable then Some(System(S.Restarted(c.core, attempted), Lost(c.fs, entry, torn), NoOp))
      else None
  }

  function Run(codec: Codec, c: System, ls: seq<Label>): Option<System> {
    if ls == [] then Some(c)
    else
      var before := Run(codec, c, ls[..|ls| - 1]);
      if before.Some? then Step(codec, before.value, ls[|ls| - 1]) else None
  }

  /** The step of the engine over the atomic register that this step amounts to, if any: a store
      operation counts when it returns, or when a crash cuts it short; a Save that a loss of power cuts
      short counts if its own entry survives. */
  function Abstracted(codec: Codec, c: System, l: Label): seq<S.Label> {
    match l
    case Service(l) => [l]
    case Finish => if OpReturned(c.op) then [S.Exchange(AnswerOf(codec, c.op))] else []
    case Crash(attempted) => [S.Crash(S.Interrupted(attempted, c.op.Saving? && Committed(c.op.p)))]
    case PowerLoss(attempted, entry, _) =>
      [S.PowerLoss(S.Interrupted(attempted, c.op.Saving? && Committed(c.op.p) && entry == c.fs.path),
                    StateIn(codec, c.fs.Behind(entry)))]
    case _ => []
  }

  function AbstractedRun(codec: Codec, c: System, ls: seq<Label>): seq<S.Label> {
    if ls == [] then []
    else
      var init := ls[..|ls| - 1];
      var before := Run(codec, c, init);
      AbstractedRun(codec, c, init) + if before.Some? then Abstracted(codec, before.value, ls[|ls| - 1]) else []
  }

  /** Every version that a loss of power may leave is one the register may fall back to. */
  ghost predicate Covered(codec: Codec, fs: FileSystem, reg: S.Register) {
    forall e | e in fs.durable :: StateIn(codec, fs.Behind(e)) == reg.stored || StateIn(codec, fs.Behind(e)) in reg.stale
  }

  ghost predicate Quiet(codec: Codec, fs: FileSystem, reg: S.Register) {
    && Sound(fs) && (forall t | t in fs.temps :: t < |fs.inodes|)
    && reg.stored == StateIn(codec, fs.Contents()) && Covered(codec, fs, reg)
  }

  ghost predicate Related(codec: Codec, c: System, s: S.System) {
    && s.core == c.core
    && match c.op
       case NoOp => Quiet(codec, c.fs, s.reg)
       case Loading(r) =>
         && Quiet(codec, c.fs, s.reg) && AsksStore(c.core) && S.Requested(c.core).LoadState?
         && (r.ToRead? ==> c.fs.Behind(Some(r.id)) == c.fs.Contents() && r.id < |c.fs.inodes|)
         && (r.LoadReturned? ==> r.found == c.fs.Contents())
       case Saving(p, start) =>
         && Quiet(codec, start, s.reg) && OnTrack(start, c.fs, p)
         && AsksStore(c.core) && S.Requested(c.core).Save?
         && codec.decode(p.payload) == Some(S.Requested(c.core).next)
  }

  /** The service moves while no store operation is running. */
  lemma ServiceRefines(codec: Codec, c: System, s: S.System, l: S.Label)
    requires Related(codec, c, s) && Step(codec, c, Service(l)).Some?
    ensures S.Step(s, l).Some? && Related(codec, Step(codec, c, Service(l)).value, S.Step(s, l).value)
  {
    if c.op != NoOp {
      assert S.InCall(c.core) && !l.Acquire? && !l.Release? && !l.Exchange?;
    }
  }

  lemma SaveOpRefines(codec: Codec, c: System, s: S.System, o: Outcome)
    requires Related(codec, c, s) && Step(codec, c, SaveOp(o)).Some?
    ensures Related(codec, Step(codec, c, SaveOp(o)).value, s)
  {
    SaveStepStaysOnTrack(c.op.start, c.fs, c.op.p, o);
    assert SaveStep(c.fs, c.op.p, o).1.payload == c.op.p.payload;
  }

  lemma WriteBackRefines(codec: Codec, c: System, s: S.System)
    requires Related(codec, c, s)
    ensures Related(codec, Step(codec, c, WriteBack).value, s)
  {
  }

  /** A Save on track leaves only versions of the register before it, and its own once it has committed. */
  lemma SavedIsCovered(codec: Codec, start: FileSystem, fs: FileSystem, p: SavePoint, reg: S.Register, next: C.State)
    requires Quiet(codec, start, reg) && OnTrack(start, fs, p) && codec.decode(p.payload) == Some(next)
    ensures Quiet(codec, fs, if Committed(p) then S.Saved(reg, next) else reg)
  {
    forall e | e in fs.durable
      ensures || StateIn(codec, fs.Behind(e)) == reg.stored || StateIn(codec, fs.Behind(e)) in reg.stale
              || (Committed(p) && StateIn(codec, fs.Behind(e)) == next)
    {
      if e in start.durable {
        assert StateIn(codec, fs.Behind(e)) == StateIn(codec, start.Behind(e));
      }
    }
  }

  lemma FinishRefines(codec: Codec, c: System, s: S.System)
    requires Related(codec, c, s) && Step(codec, c, Finish).Some?
    ensures
      var l := S.Exchange(AnswerOf(codec, c.op));
      S.Step(s, l).Some? && Related(codec, Step(codec, c, Finish).value, S.Step(s, l).value)
  {
    if c.op.Saving? {
      SavedIsCovered(codec, c.op.start, c.fs, c.op.p, s.reg, S.Requested(c.core).next);
    }
  }

  lemma CrashRefines(codec: Codec, c: System, s: S.System, attempted: Option<bool>)
    requires Related(codec, c, s)
    ensures
      var l := Abstracted(codec, c, Crash(attempted))[0];
      S.Step(s, l).Some? && Related(codec, Step(codec, c, Crash(attempted)).value, S.Step(s, l).value)
  {
    if c.op.Saving? {
      SavedIsCovered(codec, c.op.start, c.fs, c.op.p, s.reg, S.Requested(c.core).next);
    }
  }

  lemma PowerLossRefines(codec: Codec, c: System, s: S.System, l: Label)
    requires Related(codec, c, s) && l.PowerLoss? && Step(codec, c, l).Some?
    ensures
      var l' := Abstracted(codec, c, l)[0];
      S.Step(s, l').Some? && Related(codec, Step(codec, c, l).value, S.Step(s, l').value)
  {
    assert Sound(c.fs);
    assert Lost(c.fs, l.entry, l.torn).Contents() == c.fs.Behind(l.entry);
    if c.op.Saving? {
      SavedIsCovered(codec, c.op.start, c.fs, c.op.p, s.reg, S.Requested(c.core).next);
    }
  }

  lemma StepRefines(codec: Codec, c: System, s: S.System, l: Label)
    requires Related(codec, c, s) && Step(codec, c, l).Some?
    ensures S.Run(s, Abstracted(codec, c, l)).Some?
    ensures Related(codec, Step(codec, c, l).value, S.Run(s, Abstracted(codec, c, l)).value)
  {
    match l
    case Service(m) => ServiceRefines(codec, c, s, m); OneStep(s, m);
    case SaveOp(o) => SaveOpRefines(codec, c, s, o);
    case Finish => FinishRefines(codec, c, s); OneStep(s, S.Exchange(AnswerOf(codec, c.op)));
    case WriteBack => WriteBackRefines(codec, c, s);
    case Crash(attempted) => CrashRefines(codec, c, s, attempted); OneStep(s, Abstracted(codec, c, l)[0]);
    case PowerLoss(_, _, _) => PowerLossRefines(codec, c, s, l); OneStep(s, Abstracted(codec, c, l)[0]);
    case _ =>
  }

  lemma OneStep(s: S.System, l: S.Label)
    ensures S.Run(s, [l]) == S.Step(s, l)
  {
    assert [l][..0] == [];
  }

  lemma {:induction false} RunConcat(s: S.System, ls: seq<S.Label>, ms: seq<S.Label>)
    requires S.Run(s, ls).Some?
    ensures S.Run(s, ls + ms) == S.Run(S.Run(s, ls).value, ms)
  {
    if ms == [] {
      assert ls + ms == ls;
    } else {
      var init, m := ms[..|ms| - 1], ms[|ms| - 1];
      RunConcat(s, ls, init);
      assert ls + ms == (ls + init) + [m];
      S.RunSnoc(s, ls + init, m);
    }
  }

  /** Refinement: every schedule of the engine over files is a schedule of the engine over the atomic
      register, with the same calls, KV bucket and device, and the checkpoint that the file holds. */
  lemma {:induction false} EngineRefines(codec: Codec, ls: seq<Label>)
    requires Run(codec, INIT, ls).Some?
    ensures S.Run(S.INIT, AbstractedRun(codec, INIT, ls)).Some?
    ensures Related(codec, Run(codec, INIT, ls).value, S.Run(S.INIT, AbstractedRun(codec, INIT, ls)).value)
  {
    if ls != [] {
      var init, l := ls[..|ls| - 1], ls[|ls| - 1];
      EngineRefines(codec, init);
      var c, s := Run(codec, INIT, init).value, S.Run(S.INIT, AbstractedRun(codec, INIT, init)).value;
      StepRefines(codec, c, s, l);
      RunConcat(S.INIT, AbstractedRun(codec, INIT, init), Abstracted(codec, c, l));
    }
  }

  /** False-sync safety of the engine over files: a call that declares a record in sync, on the word
      of a file that Saves, crashes and losses of power have been at, is right. */
  lemma FilesDoNotLie(codec: Codec, mode: FalseSync.Mode, ls: seq<Label>, c: System, l: Label, rec: C.Record)
    requires Run(codec, INIT, ls) == Some(c) && Step(codec, c, l).Some?
    requires FalseSync.AllAssumed(mode, AbstractedRun(codec, INIT, ls))
    requires (l.Service? || l.Finish?) && Abstracted(codec, c, l) != []
    requires S.DeclaredInSync(c.core, Abstracted(codec, c, l)[0]) == Some(rec)
    ensures FalseSync.Succeeded(c.core, FalseSync.CheckpointOf(rec))
    ensures FalseSync.UuidsIdentify(c.core, rec.target) ==> c.core.device[rec.target] == S.Attempt(rec, true)
  {
    EngineRefines(codec, ls);
    var s := S.Run(S.INIT, AbstractedRun(codec, INIT, ls)).value;
    if l.Service? {
      ServiceRefines(codec, c, s, l.l);
    } else {
      FinishRefines(codec, c, s);
    }
    FalseSync.FalseSyncSafety(mode, AbstractedRun(codec, INIT, ls), s, Abstracted(codec, c, l)[0], rec);
    if FalseSync.UuidsIdentify(c.core, rec.target) {
      FalseSync.FalseSyncSafetyOfRecords(mode, AbstractedRun(codec, INIT, ls), s, Abstracted(codec, c, l)[0], rec);
    }
  }
}
