// What the log of register operations says about time: operations that do not overlap keep their
// order, and a loss of power does not reach behind the last flush of the directory.

module FileHistory {
  import opened Wrappers
  import opened StateFile
  import opened FileRegister
  import opened WholeSaves

  predicate PowerStaysOn(ls: seq<Label>) {
    ls == [] || (PowerStaysOn(ls[..|ls| - 1]) && !ls[|ls| - 1].PowerLoss?)
  }

  /** The operation has returned, or died with its process. */
  predicate Over(s: System, id: nat) {
    && id in s.used
    && (id in s.saves ==> s.saves[id].SaveReturned?)
    && (id in s.loads ==> s.loads[id].LoadReturned? || s.loads[id].LoadFailed?)
  }

  /** A step logs at most one entry, of an operation that is under way. */
  lemma StepGrowsLog(s: System, l: Label)
    requires Inv(s) && Step(s, l).Some? && !l.PowerLoss?
    ensures
      var s' := Step(s, l).value;
      && s.used <= s'.used
      && (s'.log == s.log || (|s'.log| == |s.log| + 1 && s'.log[..|s.log|] == s.log && !Over(s, s'.log[|s.log|].id)))
  {
  }

  lemma StepKeepsOver(s: System, l: Label, id: nat)
    requires Inv(s) && Over(s, id) && Step(s, l).Some? && !l.PowerLoss?
    ensures Over(Step(s, l).value, id)
  {
  }

  lemma {:induction false} LogGrows(s: System, ls: seq<Label>)
    requires Inv(s) && Run(s, ls).Some? && PowerStaysOn(ls)
    ensures Inv(Run(s, ls).value) && s.log <= Run(s, ls).value.log
  {
    if ls != [] {
      var init, l := ls[..|ls| - 1], ls[|ls| - 1];
      LogGrows(s, init);
      StepGrowsLog(Run(s, init).value, l);
      StepKeepsInv(Run(s, init).value, l);
    }
  }

  lemma {:induction false} NothingLoggedOnceOver(s: System, ls: seq<Label>, id: nat)
    requires Inv(s) && Over(s, id) && Run(s, ls).Some? && PowerStaysOn(ls)
    ensures Over(Run(s, ls).value, id)
    ensures forall m | |s.log| <= m < |Run(s, ls).value.log| :: Run(s, ls).value.log[m].id != id
  {
    if ls != [] {
      var t, l := Run(s, ls[..|ls| - 1]).value, ls[|ls| - 1];
      NothingLoggedOnceOver(s, ls[..|ls| - 1], id);
      LogGrows(s, ls[..|ls| - 1]);
      NothingMoreLogged(s, t, l, id);
    }
  }

  lemma NothingMoreLogged(s: System, t: System, l: Label, id: nat)
    requires s.log <= t.log && Inv(t) && Over(t, id) && Step(t, l).Some? && !l.PowerLoss?
    requires forall m | |s.log| <= m < |t.log| :: t.log[m].id != id
    ensures var t' := Step(t, l).value;
            Over(t', id) && forall m | |s.log| <= m < |t'.log| :: t'.log[m].id != id
  {
    var t' := Step(t, l).value;
    StepGrowsLog(t, l);
    StepKeepsOver(t, l, id);
    forall m | |s.log| <= m < |t'.log|
      ensures t'.log[m].id != id
    {
      assert m < |t.log| ==> t'.log[..|t.log|][m] == t.log[m];
      assert m >= |t.log| ==> !Over(t, t'.log[m].id);
    }
  }

  lemma {:induction false} EntriesShow(log: seq<Entry>, id: nat, k: nat)
    requires k < |log| && log[k].id == id
    ensures WritesOf(log, id) != [] || ReadsOf(log, id) != []
  {
    if k < |log| - 1 {
      EntriesShow(log[..|log| - 1], id, k);
    }
  }

  lemma NothingLoggedBefore(s: System, id: nat)
    requires Inv(s) && id !in s.used
    ensures forall k | 0 <= k < |s.log| :: s.log[k].id != id
  {
    forall k | 0 <= k < |s.log|
      ensures s.log[k].id != id
    {
      if s.log[k].id == id {
        EntriesShow(s.log, id, k);
      }
    }
  }

  /** Real-time order, which with Linearizable makes the history of the file linearizable: if operation
      i is over before operation j begins, i's entry in the log comes before j's. */
  lemma RealTimeOrder(before: seq<Label>, s: System, ls: seq<Label>, t: System, i: nat, j: nat, k: nat, m: nat)
    requires Run(INIT, before) == Some(s) && Over(s, i) && j !in s.used
    requires Run(s, ls) == Some(t) && PowerStaysOn(ls)
    requires k < |t.log| && m < |t.log| && t.log[k].id == i && t.log[m].id == j
    ensures k < |s.log| <= m
  {
    RunsKeepInv(before);
    LogGrows(s, ls);
    NothingLoggedOnceOver(s, ls, i);
    NothingLoggedBefore(s, j);
    assert forall n | 0 <= n < |s.log| :: t.log[n].id != j;
  }

  /** The directory is flushed, by the kernel or by a Save's directory sync. */
  predicate Flushes(s: System, l: Label) {
    l.WriteBack? || (l.SaveOp? && l.id in s.saves && s.saves[l.id].ToSyncDir? && l.o.ok)
  }

  lemma FlushLeavesOneEntry(s: System, l: Label)
    requires Flushes(s, l) && Step(s, l).Some?
    ensures Step(s, l).value.fs.durable == {Step(s, l).value.fs.path}
  {
  }

  /** Entries that a loss of power may leave keep their contents; a new one is made by a rename. */
  lemma DurableEntries(t: System, l: Label, e: Option<nat>)
    requires Inv(t) && Step(t, l).Some? && !l.PowerLoss? && e in Step(t, l).value.fs.durable
    ensures
      var t' := Step(t, l).value;
      || (e in t.fs.durable && t'.fs.Behind(e) == t.fs.Behind(e))
      || (|t'.log| > 0 && t'.log[|t'.log| - 1].Wrote? && |t'.log| == |t.log| + 1
          && t'.fs.Behind(e) == Some(t'.log[|t'.log| - 1].payload))
  {
    if e in t.fs.durable && e.Some? {
      StepKeepsFrozen(t, l, e.value, t.fs.inodes[e.value].bytes);
    } else if l.SaveOp? {
      assert Complete(t.fs, t.saves[l.id]);
    }
  }

  /** What may be left in state t is what the file held in state s or what has been written since. */
  ghost predicate NoOlderThan(s: System, t: System) {
    && s.log <= t.log
    && forall e | e in t.fs.durable :: Held(s.fs.Contents(), t.log[|s.log|..], t.fs.Behind(e))
  }

  lemma EntryIsNoOlder(s: System, t: System, l: Label, e: Option<nat>)
    requires NoOlderThan(s, t) && Inv(t) && Step(t, l).Some? && !l.PowerLoss? && e in Step(t, l).value.fs.durable
    ensures s.log <= Step(t, l).value.log
    ensures Held(s.fs.Contents(), Step(t, l).value.log[|s.log|..], Step(t, l).value.fs.Behind(e))
  {
    var log, log' := t.log, Step(t, l).value.log;
    StepGrowsLog(t, l);
    DurableEntries(t, l, e);
    assert log <= log';
    if e in t.fs.durable && Step(t, l).value.fs.Behind(e) == t.fs.Behind(e) {
      assert log[|s.log|..] <= log'[|s.log|..];
      HeldLonger(s.fs.Contents(), log[|s.log|..], log'[|s.log|..], t.fs.Behind(e));
    } else {
      assert log'[|s.log|..][|log| - |s.log|] == log'[|log|];
    }
  }

  lemma StepKeepsNoOlder(s: System, t: System, l: Label)
    requires NoOlderThan(s, t) && Inv(t) && Step(t, l).Some? && !l.PowerLoss?
    ensures NoOlderThan(s, Step(t, l).value)
  {
    StepGrowsLog(t, l);
    forall e | e in Step(t, l).value.fs.durable { EntryIsNoOlder(s, t, l, e); }
  }

  lemma HeldLonger(base: Option<Bytes>, log: seq<Entry>, log': seq<Entry>, v: Option<Bytes>)
    requires log <= log' && Held(base, log, v)
    ensures Held(base, log', v)
  {
    if v != base {
      var id :| Wrote(id, v.value) in log;
      assert Wrote(id, v.value) in log';
    }
  }

  lemma {:induction false} RunKeepsNoOlder(s: System, ls: seq<Label>)
    requires Inv(s) && s.fs.durable == {s.fs.path} && Run(s, ls).Some? && PowerStaysOn(ls)
    ensures Inv(Run(s, ls).value) && NoOlderThan(s, Run(s, ls).value)
  {
    if ls != [] {
      var init, l := ls[..|ls| - 1], ls[|ls| - 1];
      RunKeepsNoOlder(s, init);
      StepKeepsNoOlder(s, Run(s, init).value, l);
      StepKeepsInv(Run(s, init).value, l);
    }
  }

  /** Crash atomicity with durability: a loss of power leaves what the file held at the last flush of
      the directory, or the complete contents of a Save that has taken effect since. */
  lemma PowerLossReachesTheLastFlush(before: seq<Label>, s: System, flush: Label, s': System, ls: seq<Label>, t: System,
                                     entry: Option<nat>, torn: seq<Bytes>)
    requires Run(INIT, before) == Some(s) && Flushes(s, flush) && Step(s, flush) == Some(s')
    requires Run(s', ls) == Some(t) && PowerStaysOn(ls) && entry in t.fs.durable
    ensures s'.log <= t.log
    ensures Held(s'.fs.Contents(), t.log[|s'.log|..], Lost(t.fs, entry, torn).Contents())
  {
    RunsKeepInv(before);
    StepKeepsInv(s, flush);
    FlushLeavesOneEntry(s, flush);
    RunKeepsNoOlder(s', ls);
    PowerLossKeepsContents(t, entry, torn);
  }

  ghost predicate NeverFlushes(s: System, ls: seq<Label>) {
    if ls == [] then true
    else
      var init, l := ls[..|ls| - 1], ls[|ls| - 1];
      NeverFlushes(s, init) && (Run(s, init).Some? ==> !Flushes(Run(s, init).value, l))
  }

  /** The old entry of the state file: its contents stay, and it never becomes current again. */
  ghost predicate Superseded(t: System, e: Option<nat>, contents: Option<Bytes>) {
    && t.fs.path != e && t.fs.Behind(e) == contents
    && (e.Some? ==> contents.Some? && Frozen(t, e.value, contents.value))
  }

  predicate Renames(t: System, l: Label) {
    l.SaveOp? && l.id in t.saves && t.saves[l.id].ToRename? && l.o.ok
  }

  /** Only a rename changes the current entry, and only a flush removes entries. */
  lemma EntriesAfter(t: System, l: Label)
    requires Step(t, l).Some? && !l.PowerLoss?
    ensures
      var fs, fs' := t.fs, Step(t, l).value.fs;
      if Renames(t, l) then fs'.path == Some(t.saves[l.id].id) && fs'.durable == fs.durable + {fs'.path}
      else fs'.path == fs.path && fs'.durable == if Flushes(t, l) then {fs.path} else fs.durable
  {
  }

  lemma StepKeepsSuperseded(t: System, l: Label, e: Option<nat>, contents: Option<Bytes>)
    requires Inv(t) && Superseded(t, e, contents) && Step(t, l).Some? && !l.PowerLoss?
    ensures Superseded(Step(t, l).value, e, contents)
    ensures e in Step(t, l).value.fs.durable <==> e in t.fs.durable && !Flushes(t, l)
  {
    EntriesAfter(t, l);
    if e.Some? {
      StepKeepsFrozen(t, l, e.value, contents.value);
    }
    if Renames(t, l) {
      assert Owned(t.saves[l.id]) != e;
    }
  }

  lemma {:induction false} RunKeepsSuperseded(s: System, ls: seq<Label>, e: Option<nat>, contents: Option<Bytes>)
    requires Inv(s) && Superseded(s, e, contents) && e in s.fs.durable && Run(s, ls).Some? && PowerStaysOn(ls)
    ensures Inv(Run(s, ls).value) && Superseded(Run(s, ls).value, e, contents)
    ensures e in Run(s, ls).value.fs.durable <==> NeverFlushes(s, ls)
  {
    if ls != [] {
      var init, l := ls[..|ls| - 1], ls[|ls| - 1];
      RunKeepsSuperseded(s, init, e, contents);
      StepKeepsSuperseded(Run(s, init).value, l, e, contents);
      StepKeepsInv(Run(s, init).value, l);
    }
  }

  lemma RenameSupersedes(s: System, id: nat, o: Outcome)
    requires Inv(s) && Step(s, SaveOp(id, o)).Some? && s.saves[id].ToRename? && o.ok
    ensures
      var s' := Step(s, SaveOp(id, o)).value;
      Superseded(s', s.fs.path, s.fs.Contents()) && s.fs.path in s'.fs.durable
  {
    if s.fs.path.Some? {
      StepKeepsFrozen(s, SaveOp(id, o), s.fs.path.value, s.fs.Contents().value);
    }
  }

  /** When a Save can be undone: what the file held before its rename is what a loss of power can leave
      if and only if the directory has not been flushed since. */
  lemma UndoneIffNeverFlushed(before: seq<Label>, s: System, id: nat, o: Outcome, s': System, ls: seq<Label>, t: System,
                              torn: seq<Bytes>)
    requires Run(INIT, before) == Some(s) && Step(s, SaveOp(id, o)) == Some(s') && s.saves[id].ToRename? && o.ok
    requires Run(s', ls) == Some(t) && PowerStaysOn(ls)
    ensures s.fs.path in t.fs.durable <==> NeverFlushes(s', ls)
    ensures Lost(t.fs, s.fs.path, torn).Contents() == s.fs.Contents()
  {
    RunsKeepInv(before);
    StepKeepsInv(s, SaveOp(id, o));
    RenameSupersedes(s, id, o);
    RunKeepsSuperseded(s', ls, s.fs.path, s.fs.Contents());
  }

  /** The operations of one Save, as steps of the system. */
  lemma {:induction false} SaveRuns(s: System, id: nat, os: seq<Outcome>, fs: FileSystem, p: SavePoint)
      returns (ls: seq<Label>, t: System)
    requires id in s.saves && SaveOps(s.fs, s.saves[id], os) == Some((fs, p))
    ensures Run(s, ls) == Some(t) && t.fs == fs && id in t.saves && t.saves[id] == p
  {
    if os == [] {
      ls, t := [], s;
    } else {
      var init, o := os[..|os| - 1], os[|os| - 1];
      var (fs', p') := SaveOps(s.fs, s.saves[id], init).value;
      var before, t' := SaveRuns(s, id, init, fs', p');
      ls := before + [SaveOp(id, o)];
      assert ls[..|before|] == before;
      t := Step(t', SaveOp(id, o)).value;
    }
  }

  /** And it does happen: Save has returned nil, and a loss of power leaves no state file. */
  lemma SaveCanBeUndone(payload: Bytes) returns (ls: seq<Label>, s: System)
    ensures Run(INIT, ls) == Some(s) && 0 in s.saves && s.saves[0] == SaveReturned(payload, true)
    ensures s.fs.Contents() == Some(payload)
    ensures None in s.fs.durable && Lost(s.fs, None, []).Contents() == None
  {
    var begun := Step(INIT, BeginSave(0, payload)).value;
    var fs := SavesUnflushed(begun.fs, payload);
    var os :| SaveOps(begun.fs, ToCheck(payload), os) == Some((fs, SaveReturned(payload, true)));
    var after, t := SaveRuns(begun, 0, os, fs, SaveReturned(payload, true));
    ls, s := [BeginSave(0, payload)] + after, t;
    assert Run(INIT, []) == Some(INIT) && [BeginSave(0, payload)][..0] == [];
    assert Run(INIT, [BeginSave(0, payload)]) == Some(begun);
    RunConcat(INIT, [BeginSave(0, payload)], after);
  }

  lemma {:induction false} RunConcat(s: System, ls: seq<Label>, ms: seq<Label>)
    requires Run(s, ls).Some?
    ensures Run(s, ls + ms) == Run(Run(s, ls).value, ms)
  {
    if ms == [] {
      assert ls + ms == ls;
    } else {
      var init := ms[..|ms| - 1];
      RunConcat(s, ls, init);
      assert (ls + ms)[..|ls + ms| - 1] == ls + init;
    }
  }
}
