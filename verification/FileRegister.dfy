// Any number of concurrent Saves and Loads on one state file, with crashes: they linearize as an
// atomic register, and no crash leaves a torn checkpoint.

module FileRegister {
  import opened Wrappers
  import opened StateFile

  /** The register operations in the order in which they take effect. */
  datatype Entry = Wrote(id: nat, payload: Bytes) | Saw(id: nat, found: Option<Bytes>)

  /** base is what the file held when the log was started: at the beginning, or after the last
      loss of power. used are the identities of all operations since then. */
  datatype System = System(
    fs: FileSystem,
    saves: map<nat, SavePoint>,
    loads: map<nat, Reading>,
    used: set<nat>,
    base: Option<Bytes>,
    log: seq<Entry>)

  datatype Label =
    | BeginSave(id: nat, payload: Bytes)
    | SaveOp(id: nat, o: Outcome)
    | BeginLoad(id: nat)
    | LoadOp(id: nat, ok: bool)
    | WriteBack
    | Crash
    | PowerLoss(entry: Option<nat>, torn: seq<Bytes>)

  const INIT := System(FileSystem([], None, {None}, {}), map[], map[], {}, None, [])

  function Step(s: System, l: Label): Option<System> {
    match l
    case BeginSave(id, payload) =>
      if id in s.used then None
      else Some(s.(saves := s.saves[id := ToCheck(payload)], used := s.used + {id}))
    case SaveOp(id, o) =>
      if id !in s.saves || s.saves[id].SaveReturned? then None
      else
        var (fs, p) := SaveStep(s.fs, s.saves[id], o);
        var log := if s.saves[id].ToRename? && o.ok then s.log + [Wrote(id, p.payload)] else s.log;
        Some(s.(fs := fs, saves := s.saves[id := p], log := log))
    case BeginLoad(id) =>
      if id in s.used then None
      else Some(s.(loads := s.loads[id := ToOpen], used := s.used + {id}))
    case LoadOp(id, ok) =>
      if id !in s.loads || !(s.loads[id].ToOpen? || s.loads[id].ToRead?) then None
      else
        var log := if s.loads[id].ToOpen? && ok then s.log + [Saw(id, s.fs.Contents())] else s.log;
        Some(s.(loads := s.loads[id := LoadStep(s.fs, s.loads[id], ok)], log := log))
    case WriteBack => Some(s.(fs := Flushed(s.fs)))
    case Crash => Some(s.(saves := map[], loads := map[]))
    case PowerLoss(entry, torn) =>
      if entry !in s.fs.durable then None
      else
        var fs := Lost(s.fs, entry, torn);
        Some(System(fs, map[], map[], {}, fs.Contents(), []))
  }

  function Run(s: System, ls: seq<Label>): Option<System> {
    if ls == [] then Some(s)
    else
      var before := Run(s, ls[..|ls| - 1]);
      if before.Some? then Step(before.value, ls[|ls| - 1]) else None
  }

  /** The register's value after these operations. */
  function Value(base: Option<Bytes>, log: seq<Entry>): Option<Bytes> {
    if log == [] then base
    else
      match log[|log| - 1]
      case Wrote(_, payload) => Some(payload)
      case Saw(_, _) => Value(base, log[..|log| - 1])
  }

  /** Every read returns what the register held at that moment. */
  ghost predicate Legal(base: Option<Bytes>, log: seq<Entry>) {
    forall k | 0 <= k < |log| && log[k].Saw? :: log[k].found == Value(base, log[..k])
  }

  /** Every value the register has held. */
  ghost predicate Held(base: Option<Bytes>, log: seq<Entry>, v: Option<Bytes>) {
    v == base || (v.Some? && exists id :: Wrote(id, v.value) in log)
  }

  function WritesOf(log: seq<Entry>, id: nat): seq<Bytes> {
    if log == [] then []
    else
      var e := log[|log| - 1];
      WritesOf(log[..|log| - 1], id) + if e.Wrote? && e.id == id then [e.payload] else []
  }

  function ReadsOf(log: seq<Entry>, id: nat): seq<Option<Bytes>> {
    if log == [] then []
    else
      var e := log[|log| - 1];
      ReadsOf(log[..|log| - 1], id) + if e.Saw? && e.id == id then [e.found] else []
  }

  /** No Save owns inode n. */
  ghost predicate Unowned(s: System, n: nat) {
    forall i | i in s.saves :: Owned(s.saves[i]) != Some(n)
  }

  ghost predicate FilesInv(s: System) {
    && s.fs.Valid()
    && (forall e | e in s.fs.durable && e.Some? :: s.fs.inodes[e.value].synced && Unowned(s, e.value))
    && (forall i | i in s.saves :: Complete(s.fs, s.saves[i]))
    && (forall i, j | i in s.saves && j in s.saves && i != j && Owned(s.saves[i]).Some? ::
          Owned(s.saves[i]) != Owned(s.saves[j]))
    && (forall i | i in s.loads && s.loads[i].ToRead? ::
          s.loads[i].id < |s.fs.inodes| && Unowned(s, s.loads[i].id))
  }

  /** The reads in the log of the Load with this identity agree with how far it has got. */
  ghost predicate ReadMatches(s: System, id: nat, r: Reading) {
    match r
    case ToOpen => ReadsOf(s.log, id) == []
    case ToRead(n) => ReadsOf(s.log, id) == [s.fs.Behind(Some(n))]
    case LoadReturned(found) => ReadsOf(s.log, id) == [found]
    case LoadFailed => |ReadsOf(s.log, id)| <= 1
  }

  /** So do the writes of the Save with this identity: one once it has committed, none before. */
  ghost predicate WriteMatches(s: System, id: nat, p: SavePoint) {
    WritesOf(s.log, id) == if Committed(p) then [p.payload] else []
  }

  ghost predicate LogInv(s: System) {
    && s.fs.Contents() == Value(s.base, s.log)
    && (forall e | e in s.fs.durable :: Held(s.base, s.log, s.fs.Behind(e)))
    && Legal(s.base, s.log)
    && (forall i: nat | i !in s.used :: WritesOf(s.log, i) == [] && ReadsOf(s.log, i) == [])
    && (forall i | i in s.saves :: i in s.used && WriteMatches(s, i, s.saves[i]))
    && (forall i | i in s.loads :: i in s.used && ReadMatches(s, i, s.loads[i]))
    && s.saves.Keys !! s.loads.Keys
  }

  ghost predicate Inv(s: System) {
    FilesInv(s) && LogInv(s)
  }

  lemma LogSnoc(base: Option<Bytes>, log: seq<Entry>, e: Entry)
    requires Legal(base, log) && (e.Saw? ==> e.found == Value(base, log))
    ensures Legal(base, log + [e])
    ensures Value(base, log + [e]) == if e.Wrote? then Some(e.payload) else Value(base, log)
    ensures forall v | Held(base, log, v) :: Held(base, log + [e], v)
  {
    assert (log + [e])[..|log|] == log;
    forall k | 0 <= k < |log| + 1 && (log + [e])[k].Saw?
      ensures (log + [e])[k].found == Value(base, (log + [e])[..k])
    {
      if k < |log| {
        assert (log + [e])[..k] == log[..k];
      }
    }
    forall v | Held(base, log, v)
      ensures Held(base, log + [e], v)
    {
      if v != base {
        var id :| Wrote(id, v.value) in log;
        assert Wrote(id, v.value) in log + [e];
      }
    }
  }

  /** Only operation id of the Saves has moved, and no file changed except the one it owns. */
  ghost predicate Private(s: System, s': System, id: nat) {
    && id in s.saves && id in s'.saves && s' == s.(fs := s'.fs, saves := s.saves[id := s'.saves[id]])
    && s'.fs.path == s.fs.path && s'.fs.durable <= s.fs.durable && s.fs.path in s'.fs.durable
    && |s.fs.inodes| <= |s'.fs.inodes|
    && (forall n | 0 <= n < |s.fs.inodes| && Owned(s.saves[id]) != Some(n) :: s'.fs.inodes[n] == s.fs.inodes[n])
    && Committed(s'.saves[id]) == Committed(s.saves[id]) && s'.saves[id].payload == s.saves[id].payload
    && Complete(s'.fs, s'.saves[id])
    && (Owned(s'.saves[id]).None? || Owned(s'.saves[id]) == Owned(s.saves[id])
        || Owned(s'.saves[id]) == Some(|s.fs.inodes|))
  }

  lemma PrivateKeepsFiles(s: System, s': System, id: nat)
    requires FilesInv(s) && Private(s, s', id)
    ensures FilesInv(s')
  {
    forall n: nat | n < |s.fs.inodes| && Unowned(s, n)
      ensures Unowned(s', n)
    {
      assert Owned(s.saves[id]) != Some(n);
    }
    forall i | i in s.saves && i != id
      ensures Complete(s'.fs, s'.saves[i])
      ensures Owned(s.saves[i]).Some? ==> Owned(s.saves[i]).value < |s.fs.inodes|
    {
      assert Complete(s.fs, s.saves[i]);
    }
  }

  lemma PrivateKeepsReads(s: System, s': System, id: nat, i: nat)
    requires FilesInv(s) && Private(s, s', id) && i in s.loads && ReadMatches(s, i, s.loads[i])
    ensures ReadMatches(s', i, s.loads[i])
  {
    if s.loads[i].ToRead? {
      assert Owned(s.saves[id]) != Some(s.loads[i].id);
    }
  }

  lemma PrivateKeepsLog(s: System, s': System, id: nat)
    requires FilesInv(s) && LogInv(s) && Private(s, s', id)
    ensures LogInv(s')
  {
    forall e | e in s.fs.durable
      ensures s'.fs.Behind(e) == s.fs.Behind(e)
    {
      if e.Some? {
        assert Owned(s.saves[id]) != Some(e.value);
      }
    }
    forall i | i in s.saves
      ensures WriteMatches(s', i, s'.saves[i])
    {
      assert WriteMatches(s, i, s.saves[i]);
    }
    forall i | i in s.loads
      ensures ReadMatches(s', i, s.loads[i])
    {
      PrivateKeepsReads(s, s', id, i);
    }
  }

  lemma SaveStepIsPrivate(fs: FileSystem, p: SavePoint, o: Outcome)
    requires fs.Valid() && Complete(fs, p) && !p.SaveReturned? && !(p.ToRename? && o.ok)
    ensures
      var (fs', p') := SaveStep(fs, p, o);
      && fs'.path == fs.path && fs'.durable <= fs.durable && fs.path in fs'.durable
      && |fs.inodes| <= |fs'.inodes|
      && (forall n | 0 <= n < |fs.inodes| && Owned(p) != Some(n) :: fs'.inodes[n] == fs.inodes[n])
      && Committed(p') == Committed(p) && p'.payload == p.payload && Complete(fs', p')
      && (Owned(p').None? || Owned(p') == Owned(p) || Owned(p') == Some(|fs.inodes|))
  {
  }

  lemma SaveOpIsPrivate(s: System, id: nat, o: Outcome)
    requires FilesInv(s) && Step(s, SaveOp(id, o)).Some? && !(s.saves[id].ToRename? && o.ok)
    ensures Private(s, Step(s, SaveOp(id, o)).value, id)
  {
    SaveStepIsPrivate(s.fs, s.saves[id], o);
  }

  lemma RenameKeepsFiles(s: System, id: nat, o: Outcome)
    requires Inv(s) && Step(s, SaveOp(id, o)).Some? && s.saves[id].ToRename? && o.ok
    ensures FilesInv(Step(s, SaveOp(id, o)).value)
  {
    var s' := Step(s, SaveOp(id, o)).value;
    assert Complete(s.fs, s.saves[id]);
    forall m: nat | Unowned(s, m) || m == s.saves[id].id
      ensures Unowned(s', m)
    {}
  }

  function AfterRename(s: System, id: nat): System
    requires id in s.saves && s.saves[id].ToRename?
  {
    var ToRename(payload, n) := s.saves[id];
    s.(fs := Renamed(s.fs, n), saves := s.saves[id := ToOpenDir(payload)], log := s.log + [Wrote(id, payload)])
  }

  lemma EntryShows(log: seq<Entry>, e: Entry, id: nat)
    ensures WritesOf(log + [e], id) == WritesOf(log, id) + if e.Wrote? && e.id == id then [e.payload] else []
    ensures ReadsOf(log + [e], id) == ReadsOf(log, id) + if e.Saw? && e.id == id then [e.found] else []
  {
    assert (log + [e])[..|log|] == log;
  }

  /** The moment a Save takes effect. */
  lemma RenameWritesRegister(s: System, id: nat)
    requires s.fs.Contents() == Value(s.base, s.log) && Legal(s.base, s.log)
    requires forall e | e in s.fs.durable :: Held(s.base, s.log, s.fs.Behind(e))
    requires id in s.saves && s.saves[id].ToRename? && Complete(s.fs, s.saves[id])
    ensures
      var s' := AfterRename(s, id);
      && s'.fs.Contents() == Some(s.saves[id].payload) == Value(s'.base, s'.log)
      && (forall e | e in s'.fs.durable :: Held(s'.base, s'.log, s'.fs.Behind(e)))
      && Legal(s'.base, s'.log)
  {
    var payload := s.saves[id].payload;
    var s' := AfterRename(s, id);
    LogSnoc(s.base, s.log, Wrote(id, payload));
    assert s'.log[|s.log|] == Wrote(id, payload);
    assert Held(s'.base, s'.log, Some(payload));
    forall e | e in s'.fs.durable
      ensures Held(s'.base, s'.log, s'.fs.Behind(e))
    {
      assert e in s.fs.durable || e == Some(s.saves[id].id);
    }
  }

  /** Of the operations' entries in the log, a rename adds the one of its own Save. */
  lemma RenameKeepsMatches(s: System, id: nat, i: nat)
    requires id in s.saves && s.saves[id].ToRename?
    requires i in s.saves ==> WriteMatches(s, i, s.saves[i])
    requires i in s.loads ==> i != id && ReadMatches(s, i, s.loads[i])
    ensures
      var s' := AfterRename(s, id);
      && (i in s.saves ==> WriteMatches(s', i, s'.saves[i]))
      && (i in s.loads ==> ReadMatches(s', i, s.loads[i]))
      && (i != id ==> WritesOf(s'.log, i) == WritesOf(s.log, i)) && ReadsOf(s'.log, i) == ReadsOf(s.log, i)
  {
    EntryShows(s.log, Wrote(id, s.saves[id].payload), i);
  }

  lemma RenameKeepsLog(s: System, id: nat, o: Outcome)
    requires Inv(s) && Step(s, SaveOp(id, o)).Some? && s.saves[id].ToRename? && o.ok
    ensures LogInv(Step(s, SaveOp(id, o)).value)
  {
    assert Step(s, SaveOp(id, o)).value == AfterRename(s, id);
    RenameWritesRegister(s, id);
    forall i: nat { RenameKeepsMatches(s, id, i); }
  }

  lemma LoadOpKeepsFiles(s: System, id: nat, ok: bool)
    requires Inv(s) && Step(s, LoadOp(id, ok)).Some?
    ensures FilesInv(Step(s, LoadOp(id, ok)).value)
  {
    var s' := Step(s, LoadOp(id, ok)).value;
    forall n: nat | Unowned(s, n)
      ensures Unowned(s', n)
    {}
  }

  /** A Load moves on without having opened the file just now. */
  lemma ReadKeepsLog(s: System, id: nat, r: Reading)
    requires LogInv(s) && id in s.loads && ReadMatches(s, id, r)
    ensures LogInv(s.(loads := s.loads[id := r]))
  {
    var s' := s.(loads := s.loads[id := r]);
    forall i | i in s.saves
      ensures WriteMatches(s', i, s.saves[i])
    {
      assert WriteMatches(s, i, s.saves[i]);
    }
    forall i | i in s.loads
      ensures ReadMatches(s', i, s'.loads[i])
    {
      assert ReadMatches(s, i, s.loads[i]);
    }
  }

  function AfterOpen(s: System, id: nat): System {
    s.(loads := s.loads[id := LoadStep(s.fs, ToOpen, true)], log := s.log + [Saw(id, s.fs.Contents())])
  }

  /** Of the operations' entries in the log, opening the file adds the one of its own Load. */
  lemma OpenKeepsMatches(s: System, id: nat, i: nat)
    requires id in s.loads && s.loads[id].ToOpen? && s.fs.Valid()
    requires i in s.saves ==> i != id && WriteMatches(s, i, s.saves[i])
    requires i in s.loads ==> ReadMatches(s, i, s.loads[i])
    ensures
      var s' := AfterOpen(s, id);
      && (i in s.saves ==> WriteMatches(s', i, s.saves[i]))
      && (i in s'.loads ==> ReadMatches(s', i, s'.loads[i]))
      && WritesOf(s'.log, i) == WritesOf(s.log, i) && (i != id ==> ReadsOf(s'.log, i) == ReadsOf(s.log, i))
  {
    EntryShows(s.log, Saw(id, s.fs.Contents()), i);
  }

  /** The moment a Load takes effect. */
  lemma OpenKeepsLog(s: System, id: nat)
    requires Inv(s) && id in s.loads && s.loads[id].ToOpen?
    ensures LogInv(AfterOpen(s, id))
  {
    LogSnoc(s.base, s.log, Saw(id, s.fs.Contents()));
    forall i: nat { OpenKeepsMatches(s, id, i); }
  }

  lemma LoadOpKeepsLog(s: System, id: nat, ok: bool)
    requires Inv(s) && Step(s, LoadOp(id, ok)).Some?
    ensures LogInv(Step(s, LoadOp(id, ok)).value)
  {
    var r := LoadStep(s.fs, s.loads[id], ok);
    assert ReadMatches(s, id, s.loads[id]);
    if s.loads[id].ToOpen? && ok {
      OpenKeepsLog(s, id);
    } else {
      ReadKeepsLog(s, id, r);
    }
  }

  lemma BeginKeepsInv(s: System, l: Label)
    requires Inv(s) && (l.BeginSave? || l.BeginLoad?) && Step(s, l).Some?
    ensures Inv(Step(s, l).value)
  {
    var s' := Step(s, l).value;
    forall n: nat | Unowned(s, n)
      ensures Unowned(s', n)
    {}
    forall i | i in s'.saves
      ensures WriteMatches(s', i, s'.saves[i]) && Complete(s'.fs, s'.saves[i])
    {
      assert i in s.saves ==> WriteMatches(s, i, s.saves[i]) && Complete(s.fs, s.saves[i]);
    }
    forall i | i in s'.loads
      ensures ReadMatches(s', i, s'.loads[i])
    {
      assert i in s.loads ==> ReadMatches(s, i, s.loads[i]);
    }
  }

  /** Whatever entry survives a loss of power, it is one of the register's values, undamaged. */
  lemma PowerLossKeepsContents(s: System, entry: Option<nat>, torn: seq<Bytes>)
    requires Inv(s) && entry in s.fs.durable
    ensures Lost(s.fs, entry, torn).Contents() == s.fs.Behind(entry)
    ensures Held(s.base, s.log, s.fs.Behind(entry))
    ensures Inv(Step(s, PowerLoss(entry, torn)).value)
  {
    var s' := Step(s, PowerLoss(entry, torn)).value;
    assert s'.log == [];
  }

  lemma WriteBackKeepsInv(s: System)
    requires Inv(s)
    ensures Inv(Step(s, WriteBack).value)
  {
    var s' := Step(s, WriteBack).value;
    assert forall n: nat | Unowned(s, n) :: Unowned(s', n);
    assert forall i | i in s.saves :: WriteMatches(s, i, s.saves[i]) ==> WriteMatches(s', i, s.saves[i]);
    assert forall i | i in s.loads :: ReadMatches(s, i, s.loads[i]) ==> ReadMatches(s', i, s.loads[i]);
  }

  lemma CrashKeepsInv(s: System)
    requires Inv(s)
    ensures Inv(Step(s, Crash).value)
  {
    assert forall n: nat :: Unowned(Step(s, Crash).value, n);
  }

  lemma StepKeepsInv(s: System, l: Label)
    requires Inv(s) && Step(s, l).Some?
    ensures Inv(Step(s, l).value)
  {
    var s' := Step(s, l).value;
    match l
    case BeginSave(_, _) => BeginKeepsInv(s, l);
    case BeginLoad(_) => BeginKeepsInv(s, l);
    case SaveOp(id, o) =>
      if s.saves[id].ToRename? && o.ok {
        RenameKeepsFiles(s, id, o);
        RenameKeepsLog(s, id, o);
      } else {
        SaveOpIsPrivate(s, id, o);
        PrivateKeepsFiles(s, s', id);
        PrivateKeepsLog(s, s', id);
      }
    case LoadOp(id, ok) => LoadOpKeepsFiles(s, id, ok); LoadOpKeepsLog(s, id, ok);
    case WriteBack => WriteBackKeepsInv(s);
    case Crash => CrashKeepsInv(s);
    case PowerLoss(entry, torn) => PowerLossKeepsContents(s, entry, torn);
  }

  lemma {:induction false} RunsKeepInv(ls: seq<Label>)
    requires Run(INIT, ls).Some?
    ensures Inv(Run(INIT, ls).value)
  {
    if ls == [] {
      assert INIT.log == [];
    } else {
      RunsKeepInv(ls[..|ls| - 1]);
      StepKeepsInv(Run(INIT, ls[..|ls| - 1]).value, ls[|ls| - 1]);
    }
  }

  /** An operation is in the log at most once, and only as what it is. */
  ghost predicate LoggedOnce(s: System, id: nat) {
    && |WritesOf(s.log, id)| + |ReadsOf(s.log, id)| <= 1
    && (id in s.saves ==> ReadsOf(s.log, id) == [])
    && (id in s.loads ==> WritesOf(s.log, id) == [])
  }

  lemma SaveOpKeepsLoggedOnce(s: System, l: Label, id: nat)
    requires Inv(s) && LoggedOnce(s, id) && l.SaveOp? && Step(s, l).Some?
    ensures LoggedOnce(Step(s, l).value, id)
  {
    if s.saves[l.id].ToRename? && l.o.ok {
      assert WriteMatches(s, l.id, s.saves[l.id]);
      EntryShows(s.log, Wrote(l.id, s.saves[l.id].payload), id);
      assert Step(s, l).value == AfterRename(s, l.id);
    }
  }

  lemma LoadOpKeepsLoggedOnce(s: System, l: Label, id: nat)
    requires Inv(s) && LoggedOnce(s, id) && l.LoadOp? && Step(s, l).Some?
    ensures LoggedOnce(Step(s, l).value, id)
  {
    if s.loads[l.id].ToOpen? && l.ok {
      assert ReadMatches(s, l.id, s.loads[l.id]);
      EntryShows(s.log, Saw(l.id, s.fs.Contents()), id);
    }
  }

  lemma StepKeepsLoggedOnce(s: System, l: Label, id: nat)
    requires Inv(s) && LoggedOnce(s, id) && Step(s, l).Some?
    ensures LoggedOnce(Step(s, l).value, id)
  {
    match l
    case SaveOp(_, _) => SaveOpKeepsLoggedOnce(s, l, id);
    case LoadOp(_, _) => LoadOpKeepsLoggedOnce(s, l, id);
    case _ =>
  }

  lemma {:induction false} RunsKeepLoggedOnce(ls: seq<Label>, id: nat)
    requires Run(INIT, ls).Some?
    ensures LoggedOnce(Run(INIT, ls).value, id)
  {
    if ls != [] {
      RunsKeepInv(ls[..|ls| - 1]);
      RunsKeepLoggedOnce(ls[..|ls| - 1], id);
      StepKeepsLoggedOnce(Run(INIT, ls[..|ls| - 1]).value, ls[|ls| - 1], id);
    }
  }

  /** Linearizability: in every schedule the log is a legal history of an atomic register whose value
      is the file's contents; a Save that returned nil is in it exactly once, one that returned an
      error is not in it, and a Load that returned is in it exactly once, with what it returned; one that
      is under way, or died in a crash, is in it at most once. */
  lemma Linearizable(ls: seq<Label>, s: System)
    requires Run(INIT, ls) == Some(s)
    ensures Legal(s.base, s.log) && s.fs.Contents() == Value(s.base, s.log)
    ensures forall i | i in s.saves && s.saves[i].SaveReturned? ::
              WritesOf(s.log, i) == if s.saves[i].ok then [s.saves[i].payload] else []
    ensures forall i | i in s.loads && s.loads[i].LoadReturned? :: ReadsOf(s.log, i) == [s.loads[i].found]
    ensures forall i: nat :: |WritesOf(s.log, i)| + |ReadsOf(s.log, i)| <= 1
  {
    RunsKeepInv(ls);
    forall i: nat
      ensures |WritesOf(s.log, i)| + |ReadsOf(s.log, i)| <= 1
    {
      RunsKeepLoggedOnce(ls, i);
    }
    assert forall i | i in s.saves :: WriteMatches(s, i, s.saves[i]);
    assert forall i | i in s.loads :: ReadMatches(s, i, s.loads[i]);
  }

  /** Crash atomicity: whenever power is lost, the state file holds the complete contents of some
      Save that took effect, or what it held to begin with. */
  lemma CrashAtomicity(ls: seq<Label>, s: System, entry: Option<nat>, torn: seq<Bytes>)
    requires Run(INIT, ls) == Some(s) && entry in s.fs.durable
    ensures Held(s.base, s.log, Lost(s.fs, entry, torn).Contents())
  {
    RunsKeepInv(ls);
    PowerLossKeepsContents(s, entry, torn);
  }

  /** Once the entry of the state file has been flushed, a loss of power takes nothing back. */
  lemma FlushedIsDurable(ls: seq<Label>, s: System, entry: Option<nat>, torn: seq<Bytes>)
    requires Run(INIT, ls) == Some(s) && s.fs.durable == {s.fs.path} && entry in s.fs.durable
    ensures Lost(s.fs, entry, torn).Contents() == s.fs.Contents()
  {
    RunsKeepInv(ls);
    PowerLossKeepsContents(s, entry, torn);
  }

  /** This file is complete, on disk, and nobody's temporary file. */
  ghost predicate Frozen(s: System, n: nat, bytes: Bytes) {
    n < |s.fs.inodes| && s.fs.inodes[n] == Inode(bytes, true) && Unowned(s, n)
  }

  lemma StepKeepsFrozen(s: System, l: Label, n: nat, bytes: Bytes)
    requires FilesInv(s) && Frozen(s, n, bytes) && Step(s, l).Some?
    ensures Frozen(Step(s, l).value, n, bytes)
  {
    if l.SaveOp? {
      assert Complete(s.fs, s.saves[l.id]) && Owned(s.saves[l.id]) != Some(n);
    }
  }

  /** A file that has once been given the state file's name is never written again. */
  lemma {:induction false} PublishedFilesAreFrozen(s: System, n: nat, ls: seq<Label>)
    requires Inv(s) && Some(n) in s.fs.durable && Run(s, ls).Some?
    ensures Inv(Run(s, ls).value) && Frozen(Run(s, ls).value, n, s.fs.inodes[n].bytes)
  {
    if ls != [] {
      PublishedFilesAreFrozen(s, n, ls[..|ls| - 1]);
      StepKeepsInv(Run(s, ls[..|ls| - 1]).value, ls[|ls| - 1]);
      StepKeepsFrozen(Run(s, ls[..|ls| - 1]).value, ls[|ls| - 1], n, s.fs.inodes[n].bytes);
    }
  }
}
