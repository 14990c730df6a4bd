// Each thing the false-sync theorem relies on is needed: without it, schedules make the service declare
// a record in sync that the device does not hold.

module FalseSyncNecessity {
  import opened Wrappers
  import opened ConfigureCall
  import opened ConfigureSystem
  import opened FalseSync

  /** The step honors everything but `a`. */
  ghost predicate HonorsOthers(a: Reliance, s: System, l: Label) {
    forall b | b != a :: Honors(b, AnyTargets, s, l)
  }

  ghost predicate AllHonorOthers(a: Reliance, ls: seq<Label>) {
    if ls == [] then true
    else
      var init, l := ls[..|ls| - 1], ls[|ls| - 1];
      AllHonorOthers(a, init) && (Run(INIT, init).Some? ==> HonorsOthers(a, Run(INIT, init).value, l))
  }

  /** The schedule honors everything but `a` and reaches s. */
  ghost predicate Leads(a: Reliance, ls: seq<Label>, s: System) {
    Run(INIT, ls) == Some(s) && AllHonorOthers(a, ls)
  }

  ghost predicate ReachableWithout(a: Reliance, s: System) {
    exists ls :: Leads(a, ls, s)
  }

  /** In state s, a call can declare rec in sync although the device does not hold it. */
  ghost predicate CanLie(s: System, rec: Record) {
    && !Succeeded(s.core, CheckpointOf(rec))
    && exists l :: Step(s, l).Some? && DeclaredInSync(s.core, l) == Some(rec)
  }

  /** A set of states that steps which honor everything but `a` do not leave. What holds of every such set
      holds of the reachable states; most lemmas below need no more than that. */
  ghost predicate Explored(a: Reliance, reach: iset<System>) {
    INIT in reach && forall s, l | s in reach && Step(s, l).Some? && HonorsOthers(a, s, l) :: Step(s, l).value in reach
  }

  ghost function ReachableStates(a: Reliance): iset<System> {
    iset s | ReachableWithout(a, s)
  }

  lemma ReachableIsExplored(a: Reliance)
    ensures Explored(a, ReachableStates(a))
  {
    assert Leads(a, [], INIT);
    forall s, l | ReachableWithout(a, s) && Step(s, l).Some? && HonorsOthers(a, s, l)
      ensures ReachableWithout(a, Step(s, l).value)
    {
      var ls :| Leads(a, ls, s);
      RunSnoc(INIT, ls, l);
      assert (ls + [l])[..|ls|] == ls;
      assert Leads(a, ls + [l], Step(s, l).value);
    }
  }

  lemma Takes(a: Reliance, reach: iset<System>, s: System, l: Label) returns (s': System)
    requires Explored(a, reach) && s in reach && Step(s, l).Some? && HonorsOthers(a, s, l)
    ensures s' == Step(s, l).value && s' in reach
  {
    s' := Step(s, l).value;
  }

  /** The process dies and is restarted. */
  lemma Restarts(a: Reliance, reach: iset<System>, s: System) returns (s': System)
    requires Explored(a, reach) && s in reach
    ensures s' == System(s.core.(waiting := map[], holder := Idle), s.reg) && s' in reach
  {
    s' := Takes(a, reach, s, Crash(Interrupted(None, false)));
  }

  /** The holder takes one answer that reaches neither the device nor the store. */
  lemma Answers(a: Reliance, reach: iset<System>, s: System, ans: Answer) returns (s': System)
    requires Explored(a, reach) && s in reach && InCall(s.core) && Fits(Requested(s.core), ans)
    requires !Requested(s.core).Apply? && !Requested(s.core).Save?
    requires Truthful(s.core, Requested(s.core), ans)
    requires Requested(s.core).LoadState? ==> ans.state == Some(s.reg.stored)
    ensures s' == System(s.core.(holder := Holds(s.core.holder.id, Resume(s.core.holder.point, ans))), s.reg)
    ensures s' in reach
  {
    s' := Takes(a, reach, s, Exchange(ans));
  }

  /** A Reconcile call is issued, takes the lock and loads the checkpoint. */
  lemma Opens(a: Reliance, reach: iset<System>, s: System, id: nat, target: string) returns (s': System)
    requires Explored(a, reach) && s in reach && s.core.holder.Idle? && !s.core.Known(id)
    requires a == NamedTarget || target != ""
    ensures s' == System(s.core.(holder := Holds(id, AtStartupDesired(target, s.reg.stored))), s.reg)
    ensures s' in reach
  {
    s' := Takes(a, reach, s, Issue(id, Reconcile(target)));
    s' := Takes(a, reach, s', Acquire(id));
    assert s'.core.waiting == s.core.waiting;
    s' := Answers(a, reach, s', Loaded(Some(s.reg.stored)));
  }

  /** It then finds drift and gets as far as Apply. */
  lemma Drifts(a: Reliance, reach: iset<System>, s: System, id: nat, target: string, rec: Record) returns (s': System)
    requires Explored(a, reach) && s in reach && s.core.holder.Idle? && !s.core.Known(id) && target != ""
    requires s.core.Present(target) && rec == s.core.Latest(target) && s.reg.stored != State(target, rec.uuid)
    ensures s' == System(s.core.(holder := Holds(id, AtProcess(NoticeOf(rec), rec, ToApply))), s.reg)
    ensures s' in reach
  {
    s' := Opens(a, reach, s, id, target);
    s' := Answers(a, reach, s', Desired(Found(rec)));
    s' := Answers(a, reach, s', Ack(true));
    s' := Answers(a, reach, s', Ack(true));
    s' := Answers(a, reach, s', Ack(true));
    s' := Answers(a, reach, s', Ack(true));
  }

  /** It reports, successfully, and returns. */
  lemma Reports(a: Reliance, reach: iset<System>, s: System) returns (s': System)
    requires Explored(a, reach) && s in reach && s.core.holder.Holds?
    requires s.core.holder.point.AtAppliedStatus? || s.core.holder.point.AtFailStatus?
    ensures s' in reach && s'.reg == s.reg
    ensures s'.core == s.core.(holder := Idle, finished := s'.core.finished)
    ensures s'.core.finished.Keys == s.core.finished.Keys + {s.core.holder.id}
  {
    s' := Answers(a, reach, s, Ack(true));
    s' := Answers(a, reach, s', Ack(true));
    s' := Takes(a, reach, s', Release);
  }

  /** A whole pass in which Apply answers ok, and everything else succeeds. */
  lemma Passes(a: Reliance, reach: iset<System>, s: System, id: nat, target: string, rec: Record, ok: bool) returns (s': System)
    requires Explored(a, reach) && s in reach && s.core.holder.Idle? && !s.core.Known(id) && target != ""
    requires s.core.Present(target) && rec == s.core.Latest(target) && s.reg.stored != State(target, rec.uuid)
    ensures s' in reach
    ensures s'.core == s.core.(device := s.core.device[rec.target := Attempt(rec, ok)], finished := s'.core.finished)
    ensures s'.core.finished.Keys == s.core.finished.Keys + {id}
    ensures s'.reg == if ok then Saved(s.reg, CheckpointOf(rec)) else s.reg
  {
    s' := Drifts(a, reach, s, id, target, rec);
    s' := Takes(a, reach, s', Exchange(Ack(ok)));
    if ok {
      s' := Takes(a, reach, s', Exchange(Ack(true)));
    }
    s' := Reports(a, reach, s');
  }

  lemma Lies(a: Reliance, reach: iset<System>, s: System, id: nat, target: string, rec: Record) returns (s': System)
    requires Explored(a, reach) && s in reach && s.core.holder.Idle? && !s.core.Known(id) && (a == NamedTarget || target != "")
    requires s.core.Present(target) && rec == s.core.Latest(target) && s.reg.stored == State(target, rec.uuid)
    requires !Succeeded(s.core, CheckpointOf(rec))
    ensures s' in reach && CanLie(s', rec)
  {
    s' := Opens(a, reach, s, id, target);
    var l := Exchange(Desired(Found(rec)));
    assert Step(s', l).Some? && DeclaredInSync(s'.core, l) == Some(rec);
  }

  /** The state in which a UUID must not be put back: the checkpoint still names it and the device has
      left it. */
  ghost predicate PutBackWouldLie(s: System, rec: Record) {
    rec.target != "" && s.reg.stored == CheckpointOf(rec) && !Succeeded(s.core, CheckpointOf(rec))
  }

  lemma PutsBack(reach: iset<System>, s: System, id: nat, rec: Record) returns (s': System)
    requires Explored(FreshUuid, reach) && s in reach && id !in s.core.finished && PutBackWouldLie(s, rec)
    ensures s' in reach && CanLie(s', rec)
  {
    s' := Restarts(FreshUuid, reach, s);
    s' := Takes(FreshUuid, reach, s', Put(rec.target, rec));
    s' := Lies(FreshUuid, reach, s', id, rec.target, rec);
  }

  /** Putting the UUID back leads to a false sync from every such state. */
  lemma PutBackLies(before: seq<Label>, s: System, id: nat, rec: Record) returns (ls: seq<Label>, s': System)
    requires Leads(FreshUuid, before, s) && id !in s.core.finished && PutBackWouldLie(s, rec)
    ensures Leads(FreshUuid, ls, s') && CanLie(s', rec)
  {
    ReachableIsExplored(FreshUuid);
    s' := PutsBack(ReachableStates(FreshUuid), s, id, rec);
    ls :| Leads(FreshUuid, ls, s');
  }

  lemma LeavesUuid(reach: iset<System>, rec: Record) returns (s: System)
    requires Explored(FreshUuid, reach) && rec == Record("vyos", "u1", "", "first")
    ensures s in reach && s.core.finished.Keys == {0, 1} && PutBackWouldLie(s, rec)
  {
    var other := Record("vyos", "u2", "", "second");
    s := Takes(FreshUuid, reach, INIT, Put("vyos", rec));
    s := Passes(FreshUuid, reach, s, 0, "vyos", rec, true);
    s := Takes(FreshUuid, reach, s, Put("vyos", other));
    s := Passes(FreshUuid, reach, s, 1, "vyos", other, false);
  }

  /** Such a state comes about when a UUID is replaced and the Apply for its successor fails. */
  lemma FreshUuidIsNeeded() returns (ls: seq<Label>, s: System, rec: Record)
    ensures Leads(FreshUuid, ls, s) && CanLie(s, rec)
  {
    ReachableIsExplored(FreshUuid);
    rec := Record("vyos", "u1", "", "first");
    s := LeavesUuid(ReachableStates(FreshUuid), rec);
    s := PutsBack(ReachableStates(FreshUuid), s, 2, rec);
    ls :| Leads(FreshUuid, ls, s);
  }

  /** The checkpoint names the desired record of its target. */
  ghost predicate Vouched(s: System, rec: Record) {
    && rec.target != "" && s.core.Present(rec.target) && rec == s.core.Latest(rec.target)
    && s.reg.stored == CheckpointOf(rec)
  }

  lemma Misfiles(reach: iset<System>, s: System, id: nat, id': nat, key: string, misfiled: Record, rec: Record) returns (s': System)
    requires Explored(OwnTarget, reach) && s in reach && id !in s.core.finished && id' !in s.core.finished && id != id'
    requires Vouched(s, rec) && misfiled.target == rec.target && key != rec.target && key != ""
    requires Honors(FreshUuid, AnyTargets, s, Put(key, misfiled))
    ensures s' in reach && CanLie(s', rec)
  {
    s' := Restarts(OwnTarget, reach, s);
    s' := Takes(OwnTarget, reach, s', Put(key, misfiled));
    s' := Passes(OwnTarget, reach, s', id, key, misfiled, false);
    s' := Lies(OwnTarget, reach, s', id', rec.target, rec);
  }

  /** Reconcile does not check the record's target: filing a record under another target's key leads to a
      false sync from every state in which the checkpoint names the desired record of its own target, for
      an Apply for the misfiled record can fail behind the back of that checkpoint. */
  lemma MisfilingLies(before: seq<Label>, s: System, id: nat, id': nat, key: string, misfiled: Record, rec: Record) returns (ls: seq<Label>, s': System)
    requires Leads(OwnTarget, before, s) && id !in s.core.finished && id' !in s.core.finished && id != id'
    requires Vouched(s, rec) && misfiled.target == rec.target && key != rec.target && key != ""
    requires Honors(FreshUuid, AnyTargets, s, Put(key, misfiled))
    ensures Leads(OwnTarget, ls, s') && CanLie(s', rec)
  {
    ReachableIsExplored(OwnTarget);
    s' := Misfiles(ReachableStates(OwnTarget), s, id, id', key, misfiled, rec);
    ls :| Leads(OwnTarget, ls, s');
  }

  lemma Configures(a: Reliance, reach: iset<System>, rec: Record) returns (s: System)
    requires Explored(a, reach) && rec.target != ""
    ensures s in reach && s.core.finished.Keys == {0} && s.core.waiting == map[] && Vouched(s, rec)
    ensures forall key | key != rec.target :: s.core.History(key) == []
    ensures s.core.holder.Idle?
  {
    s := Takes(a, reach, INIT, Put(rec.target, rec));
    s := Passes(a, reach, s, 0, rec.target, rec, true);
  }

  lemma OwnTargetIsNeeded() returns (ls: seq<Label>, s: System, rec: Record)
    ensures Leads(OwnTarget, ls, s) && CanLie(s, rec)
  {
    ReachableIsExplored(OwnTarget);
    var misfiled := Record("b", "u", "", "misfiled");
    rec := Record("b", "v", "", "own");
    s := Configures(OwnTarget, ReachableStates(OwnTarget), rec);
    s := Misfiles(ReachableStates(OwnTarget), s, 1, 2, "a", misfiled, rec);
    ls :| Leads(OwnTarget, ls, s);
  }

  lemma PutsNameless(reach: iset<System>, s: System, id: nat, rec: Record) returns (s': System)
    requires Explored(NamedTarget, reach) && s in reach && id !in s.core.finished
    requires s.reg.stored == CheckpointOf(rec) == EMPTY_STATE && !Succeeded(s.core, EMPTY_STATE)
    requires Honors(FreshUuid, AnyTargets, s, Put("", rec))
    ensures s' in reach && CanLie(s', rec)
  {
    s' := Restarts(NamedTarget, reach, s);
    s' := Takes(NamedTarget, reach, s', Put("", rec));
    s' := Lies(NamedTarget, reach, s', id, "", rec);
  }

  /** A missing state file reads as the checkpoint of the empty target and the empty UUID: from every
      state without a checkpoint, a Reconcile of the empty target finds a nameless record in sync. */
  lemma NamelessLies(before: seq<Label>, s: System, id: nat, rec: Record) returns (ls: seq<Label>, s': System)
    requires Leads(NamedTarget, before, s) && id !in s.core.finished
    requires s.reg.stored == CheckpointOf(rec) == EMPTY_STATE && !Succeeded(s.core, EMPTY_STATE)
    requires Honors(FreshUuid, AnyTargets, s, Put("", rec))
    ensures Leads(NamedTarget, ls, s') && CanLie(s', rec)
  {
    ReachableIsExplored(NamedTarget);
    s' := PutsNameless(ReachableStates(NamedTarget), s, id, rec);
    ls :| Leads(NamedTarget, ls, s');
  }

  lemma NamedTargetIsNeeded() returns (ls: seq<Label>, s: System, rec: Record)
    ensures Leads(NamedTarget, ls, s) && CanLie(s, rec)
  {
    ReachableIsExplored(NamedTarget);
    rec := Record("", "", "", "anything");
    s := PutsNameless(ReachableStates(NamedTarget), INIT, 0, rec);
    ls :| Leads(NamedTarget, ls, s);
  }

  /** The state in which a loss of power must not take back this checkpoint: it names the desired record
      of some target, and the device does not hold that record. */
  ghost predicate TakingBackWouldLie(s: System, rec: Record) {
    && rec.target != "" && s.core.Present(rec.target) && rec == s.core.Latest(rec.target)
    && CheckpointOf(rec) in s.reg.stale && !Succeeded(s.core, CheckpointOf(rec))
  }

  lemma TakesBack(reach: iset<System>, s: System, id: nat, rec: Record) returns (s': System)
    requires Explored(OneWorld, reach) && s in reach && id !in s.core.finished && TakingBackWouldLie(s, rec)
    ensures s' in reach && CanLie(s', rec)
  {
    s' := Takes(OneWorld, reach, s, PowerLoss(Interrupted(None, false), CheckpointOf(rec)));
    s' := Lies(OneWorld, reach, s', id, rec.target, rec);
  }

  /** A loss of power leads to a false sync from every such state. */
  lemma TakingBackLies(before: seq<Label>, s: System, id: nat, rec: Record) returns (ls: seq<Label>, s': System)
    requires Leads(OneWorld, before, s) && id !in s.core.finished && TakingBackWouldLie(s, rec)
    ensures Leads(OneWorld, ls, s') && CanLie(s', rec)
  {
    ReachableIsExplored(OneWorld);
    s' := TakesBack(ReachableStates(OneWorld), s, id, rec);
    ls :| Leads(OneWorld, ls, s');
  }

  /** Target a is configured; then the process is restarted for target b, and b is configured. */
  lemma TwoTargets(reach: iset<System>, rec: Record, other: Record) returns (s: System)
    requires Explored(OneWorld, reach)
    requires rec == Record("a", "u", "", "first") && other == Record("b", "v", "", "second")
    ensures s in reach && s.core.holder.Idle? && s.core.finished.Keys == {0, 1} && s.core.waiting == map[]
    ensures s.core.Present("a") && s.core.Latest("a") == rec
    ensures s.reg.stored == CheckpointOf(other) && CheckpointOf(rec) in s.reg.stale
  {
    s := Configures(OneWorld, reach, rec);
    s := Takes(OneWorld, reach, s, Put("b", other));
    s := Restarts(OneWorld, reach, s);
    s := Passes(OneWorld, reach, s, 1, "b", other, true);
  }

  /** With two targets, such a state comes about when the process is restarted for the first target again
      and an Apply for it then fails. UnsyncedFiles shows it of the files. */
  lemma OneWorldIsNeeded() returns (ls: seq<Label>, s: System, rec: Record)
    ensures Leads(OneWorld, ls, s) && CanLie(s, rec)
  {
    ReachableIsExplored(OneWorld);
    var reach := ReachableStates(OneWorld);
    rec := Record("a", "u", "", "first");
    s := TwoTargets(reach, rec, Record("b", "v", "", "second"));
    s := Restarts(OneWorld, reach, s);
    s := Passes(OneWorld, reach, s, 2, "a", rec, false);
    s := TakesBack(reach, s, 3, rec);
    ls :| Leads(OneWorld, ls, s);
  }
}
