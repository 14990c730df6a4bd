// What every interleaving of Execute calls, reapers and exiting children keeps.

module RttySafety {
  import opened Wrappers
  import opened Rtty

  predicate HoldsEmu(pc: Pc) {
    !pc.ExecLock? && !pc.Returned?
  }

  /** Each mutex is held by exactly the goroutine that is in its critical section. */
  ghost predicate MutexInv(s: System) {
    && (forall i | i in s.calls :: HoldsMu(s.calls[i]) <==> s.mu == Some(ByCall(i)))
    && (forall h | 0 <= h < |s.children| :: ReaperHoldsMu(s.children[h].reaper) <==> s.mu == Some(ByReaper(h)))
    && (s.mu.Some? ==>
          match s.mu.value
          case ByCall(i) => i in s.calls
          case ByReaper(h) => h < |s.children|)
    && (forall i | i in s.calls :: HoldsEmu(s.calls[i]) <==> s.emu == Some(i))
    && (s.emu.Some? ==> s.emu.value in s.calls)
  }

  /** A reaper gets past Wait only when its child has exited, and closes its channel exactly then. */
  ghost predicate ChildInv(s: System) {
    && (forall h | 0 <= h < |s.children| :: ExitSent(s, h) ==> !s.children[h].alive)
    && (forall h: nat :: h in s.closed <==> ExitSent(s, h) && !s.children[h].reaper.ReapClose?)
    && (forall h | 0 <= h < |s.children| :: s.children[h].pid != 0)
    && (s.session.Some? ==> s.session.value < |s.children|)
  }

  /** The fields name this child, all three of them, or nothing. */
  ghost predicate Names(s: System, c: Option<nat>) {
    match c
    case None => s.fields == CLEAR
    case Some(h) => h < |s.children| && s.fields == Fields(s.children[h].pid, c, c)
  }

  /** The call has taken the session out of the fields and not put a new one in. */
  predicate Detached(pc: Pc) {
    match pc
    case KillTerm(_, _) => true
    case KillWait(_, _) => true
    case KillForce(_, _) => true
    case KillConfirm(_, _) => true
    case KillCancelled(_) => true
    case StartLock => true
    case _ => false
  }

  predicate SessionDetached(s: System) {
    s.emu.Some? && s.emu.value in s.calls && Detached(s.calls[s.emu.value])
  }

  /** The fields when nobody is in the middle of changing them. */
  ghost predicate Settled(s: System) {
    if SessionDetached(s) then s.fields == CLEAR else Names(s, s.session)
  }

  /** The fields, the session and the locals while a call is at pc. */
  ghost predicate CallInv(s: System, pc: Pc) {
    match pc
    case KillTake => Names(s, s.session)
    case KillClearCmd(cmd, done) => cmd == done == s.session && Names(s, s.session)
    case KillClearDone(cmd, done) => cmd == done == s.session && s.fields.cmd.None?
    case KillClearPid(cmd, done) => cmd == done == s.session && s.fields.cmd.None? && s.fields.done.None?
    case KillUnlock(cmd, done) => cmd == done == s.session && s.fields == CLEAR
    case KillTerm(h, done) => s.session == done == Some(h)
    case KillWait(h, done) => s.session == done == Some(h) && h in s.terminated
    case KillForce(h, done) => s.session == done == Some(h) && h in s.terminated
    case KillConfirm(h, done) => s.session == done == Some(h) && h in s.terminated && h in s.killed
    case KillCancelled(h) => s.session == Some(h) && h in s.terminated
    case StartLock => s.session.None?
    case StartSpawn => s.session.None? && s.fields == CLEAR
    case StartSetPid(h) => NewChild(s, h) && s.fields == CLEAR
    case StartSetCmd(h) => NewChild(s, h) && s.fields == Fields(s.children[h].pid, None, None)
    case StartSetDone(h) => NewChild(s, h) && s.fields == Fields(s.children[h].pid, Some(h), None)
    case StartReaper(h) => NewChild(s, h) && Names(s, Some(h))
    case StartWatch(h) => s.session == Some(h) && Names(s, s.session)
    case StartUnlock(ok) => Names(s, s.session) && StartedIff(s, ok)
    case _ => true
  }

  /** Start has succeeded, and its child is the session; or it has failed, and no child of it is running. */
  ghost predicate StartedIff(s: System, ok: bool) {
    if ok then s.session.Some?
    else s.session.Some? ==> s.session.value < |s.children| && !s.children[s.session.value].alive
  }

  ghost predicate NewChild(s: System, h: nat) {
    h < |s.children| && s.session == Some(h) && s.children[h].reaper.NotSpawned?
  }

  /** The fields while reaper h is clearing them. */
  ghost predicate ReaperInv(s: System, h: nat)
    requires h < |s.children|
  {
    match s.children[h].reaper
    case ReapClearPid => s.session.Some? && Names(s, s.session) && s.fields.pid == s.children[h].pid && !SessionDetached(s)
    case ReapClearCmd => s.session.Some? && s.fields == Fields(0, s.session, s.session) && !SessionDetached(s)
    case ReapClearDone => s.session.Some? && s.fields == Fields(0, None, s.session) && !SessionDetached(s)
    case ReapTest => Settled(s)
    case ReapUnlock => Settled(s)
    case _ => true
  }

  ghost predicate FieldInv(s: System) {
    && (s.mu.None? ==> Settled(s))
    && (forall i | i in s.calls :: CallInv(s, s.calls[i]))
    && (forall h | 0 <= h < |s.children| :: ReaperInv(s, h))
  }

  ghost predicate Inv(s: System) {
    MutexInv(s) && ChildInv(s) && FieldInv(s)
  }

  lemma GoHolds(pc: Pc, f: Fields, choice: Choice, spawned: nat)
    requires !pc.Returned?
    ensures HoldsMu(NextPc(pc, f, choice, spawned)) <==> LocksMu(pc) || (HoldsMu(pc) && !UnlocksMu(pc))
    ensures HoldsEmu(NextPc(pc, f, choice, spawned)) <==> !pc.ExecUnlock?
  {
  }

  /** Only spawning a child and its reaper touches the children. */
  lemma GoChildren(s: System, id: nat, choice: Choice, pid: nat)
    requires Inv(s) && CanGo(s, id, choice, pid)
    ensures
      var s' := Advance(s, id, choice, pid);
      && |s.children| <= |s'.children| <= |s.children| + 1
      && (forall h | 0 <= h < |s.children| ::
            && s'.children[h] == s.children[h].(reaper := s'.children[h].reaper)
            && (s'.children[h].reaper == s.children[h].reaper
                || (s.calls[id] == StartReaper(h) && s.children[h].reaper.NotSpawned? && s'.children[h].reaper.ReapWait?)))
      && (|s'.children| > |s.children| ==>
            s.calls[id].StartSpawn? && s'.children[|s.children|] == Child(pid, true, NotSpawned))
  {
    assert CallInv(s, s.calls[id]);
  }

  lemma GoKeepsMutex(s: System, id: nat, choice: Choice, pid: nat)
    requires Inv(s) && CanGo(s, id, choice, pid)
    ensures MutexInv(Advance(s, id, choice, pid))
  {
    var pc, s' := s.calls[id], Advance(s, id, choice, pid);
    GoHolds(pc, s.fields, choice, |s.children|);
    GoChildren(s, id, choice, pid);
    assert HoldsMu(pc) <==> s.mu == Some(ByCall(id));
    forall h | 0 <= h < |s'.children|
      ensures ReaperHoldsMu(s'.children[h].reaper) <==> s'.mu == Some(ByReaper(h))
    {
      assert h < |s.children| ==> (ReaperHoldsMu(s.children[h].reaper) <==> s.mu == Some(ByReaper(h)));
    }
  }

  lemma GoKeepsChildren(s: System, id: nat, choice: Choice, pid: nat)
    requires Inv(s) && CanGo(s, id, choice, pid)
    ensures ChildInv(Advance(s, id, choice, pid))
  {
    GoChildren(s, id, choice, pid);
    assert CallInv(s, s.calls[id]);
  }

  /** The mover's own invariant. */
  lemma GoKeepsCall(s: System, id: nat, choice: Choice, pid: nat)
    requires Inv(s) && CanGo(s, id, choice, pid)
    ensures CallInv(Advance(s, id, choice, pid), Advance(s, id, choice, pid).calls[id])
  {
    var pc := s.calls[id];
    GoChildren(s, id, choice, pid);
    assert CallInv(s, pc);
    assert HoldsMu(pc) <==> s.mu == Some(ByCall(id));
    assert HoldsEmu(pc) <==> s.emu == Some(id);
  }

  /** What the mover leaves behind when nobody holds mu, or a reaper does. */
  lemma GoKeepsSettled(s: System, id: nat, choice: Choice, pid: nat)
    requires Inv(s) && CanGo(s, id, choice, pid) && !HoldsMu(Advance(s, id, choice, pid).calls[id])
    requires HoldsMu(s.calls[id]) || Settled(s)
    ensures Settled(Advance(s, id, choice, pid))
  {
    var pc := s.calls[id];
    GoHolds(pc, s.fields, choice, |s.children|);
    assert CallInv(s, pc);
    assert HoldsEmu(pc) <==> s.emu == Some(id);
  }

  lemma GoKeepsReapers(s: System, id: nat, choice: Choice, pid: nat, h: nat)
    requires Inv(s) && CanGo(s, id, choice, pid) && h < |Advance(s, id, choice, pid).children|
    ensures ReaperInv(Advance(s, id, choice, pid), h)
  {
    var pc, s' := s.calls[id], Advance(s, id, choice, pid);
    GoChildren(s, id, choice, pid);
    if h < |s.children| && ReaperHoldsMu(s.children[h].reaper) {
      assert s.mu == Some(ByReaper(h)) && !HoldsMu(pc) && !LocksMu(pc);
      assert HoldsEmu(pc) <==> s.emu == Some(id);
      GoHolds(pc, s.fields, choice, |s.children|);
      assert ReaperInv(s, h) && CallInv(s, pc);
      if s.children[h].reaper.ReapTest? || s.children[h].reaper.ReapUnlock? {
        GoKeepsSettled(s, id, choice, pid);
      }
    }
  }

  lemma GoKeepsInv(s: System, id: nat, choice: Choice, pid: nat)
    requires Inv(s) && CanGo(s, id, choice, pid)
    ensures Inv(Advance(s, id, choice, pid))
  {
    var s' := Advance(s, id, choice, pid);
    GoKeepsMutex(s, id, choice, pid);
    GoKeepsChildren(s, id, choice, pid);
    GoKeepsCall(s, id, choice, pid);
    forall i | i in s'.calls
      ensures CallInv(s', s'.calls[i])
    {
      if i != id {
        assert HoldsEmu(s'.calls[i]) <==> s'.emu == Some(i);
        assert HoldsEmu(s.calls[i]) <==> s.emu == Some(i);
        assert HoldsEmu(s.calls[id]) <==> s.emu == Some(id);
      }
    }
    forall h | 0 <= h < |s'.children| ensures ReaperInv(s', h) { GoKeepsReapers(s, id, choice, pid, h); }
    if s'.mu.None? {
      GoHolds(s.calls[id], s.fields, choice, |s.children|);
      assert HoldsMu(s.calls[id]) <==> s.mu == Some(ByCall(id));
      GoKeepsSettled(s, id, choice, pid);
    }
  }

  /** A reaper touches nothing of the calls, and of the children only its own progress. */
  lemma ReapKeepsCalls(s: System, h: nat, i: nat)
    requires Inv(s) && CanReap(s, h) && i in s.calls
    ensures CallInv(Reaped(s, h), s.calls[i])
  {
    var r := s.children[h].reaper;
    assert CallInv(s, s.calls[i]) && ReaperInv(s, h);
    assert HoldsMu(s.calls[i]) <==> s.mu == Some(ByCall(i));
    assert HoldsEmu(s.calls[i]) <==> s.emu == Some(i);
    assert ReaperHoldsMu(r) <==> s.mu == Some(ByReaper(h));
  }

  lemma ReapKeepsReapers(s: System, h: nat, k: nat)
    requires Inv(s) && CanReap(s, h) && k < |s.children|
    ensures ReaperInv(Reaped(s, h), k)
    ensures Reaped(s, h).mu.None? ==> Settled(Reaped(s, h))
  {
    var r := s.children[h].reaper;
    assert ReaperInv(s, h) && ReaperInv(s, k);
    assert ReaperHoldsMu(r) <==> s.mu == Some(ByReaper(h));
    assert ReaperHoldsMu(s.children[k].reaper) <==> s.mu == Some(ByReaper(k));
  }

  lemma ReapKeepsInv(s: System, h: nat)
    requires Inv(s) && CanReap(s, h)
    ensures Inv(Reaped(s, h))
  {
    var s' := Reaped(s, h);
    assert ReaperHoldsMu(s'.children[h].reaper) <==>
           s.children[h].reaper.ReapLock? || (ReaperHoldsMu(s.children[h].reaper) && !s.children[h].reaper.ReapUnlock?);
    assert ReaperHoldsMu(s.children[h].reaper) <==> s.mu == Some(ByReaper(h));
    assert MutexInv(s');
    assert ChildInv(s');
    forall i | i in s'.calls ensures CallInv(s', s'.calls[i]) { ReapKeepsCalls(s, h, i); }
    forall k | 0 <= k < |s'.children| ensures ReaperInv(s', k) { ReapKeepsReapers(s, h, k); }
    ReapKeepsReapers(s, h, h);
  }

  lemma CallKeepsInv(s: System, id: nat)
    requires Inv(s) && Step(s, Call(id)).Some?
    ensures Inv(Step(s, Call(id)).value)
  {
    var s' := Step(s, Call(id)).value;
    assert forall i | i in s.calls :: CallInv(s, s.calls[i]) ==> CallInv(s', s'.calls[i]);
    assert forall h | 0 <= h < |s.children| :: ReaperInv(s, h) ==> ReaperInv(s', h);
  }

  lemma ExitKeepsInv(s: System, h: nat)
    requires Inv(s) && Step(s, Exit(h)).Some?
    ensures Inv(Step(s, Exit(h)).value)
  {
    var s' := Step(s, Exit(h)).value;
    assert forall i | i in s.calls :: CallInv(s, s.calls[i]) ==> CallInv(s', s'.calls[i]);
    assert forall k | 0 <= k < |s.children| :: ReaperInv(s, k) ==> ReaperInv(s', k);
  }

  lemma StepKeepsInv(s: System, l: Label)
    requires Inv(s) && Step(s, l).Some?
    ensures Inv(Step(s, l).value)
  {
    match l
    case Go(id, choice, pid) => GoKeepsInv(s, id, choice, pid);
    case Reap(h) => ReapKeepsInv(s, h);
    case Call(id) => CallKeepsInv(s, id);
    case Exit(h) => ExitKeepsInv(s, h);
  }

  lemma {:induction false} RunsKeepInv(ls: seq<Label>)
    requires Run(INIT, ls).Some?
    ensures Inv(Run(INIT, ls).value)
  {
    if ls != [] {
      RunsKeepInv(ls[..|ls| - 1]);
      StepKeepsInv(Run(INIT, ls[..|ls| - 1]).value, ls[|ls| - 1]);
    }
  }

  /** Whenever mu is free, the three fields are all clear or all name the same child. */
  lemma Coherence(ls: seq<Label>, s: System)
    requires Run(INIT, ls) == Some(s) && s.mu.None?
    ensures s.fields == CLEAR || exists h :: 0 <= h < |s.children| && s.fields == Fields(s.children[h].pid, Some(h), Some(h))
    ensures s.fields.cmd.Some? ==> s.fields.cmd == s.session
  {
    RunsKeepInv(ls);
  }

  /** SIGKILL is only ever sent to a child that was sent SIGTERM before. */
  lemma {:induction false} Escalation(ls: seq<Label>)
    requires Run(INIT, ls).Some?
    ensures Run(INIT, ls).value.killed <= Run(INIT, ls).value.terminated
  {
    if ls != [] {
      var s, l := Run(INIT, ls[..|ls| - 1]).value, ls[|ls| - 1];
      Escalation(ls[..|ls| - 1]);
      RunsKeepInv(ls[..|ls| - 1]);
      assert l.Go? ==> CallInv(s, s.calls[l.id]);
    }
  }

  /** Each exit channel is closed once, by its own reaper, after the child has exited. */
  lemma ChannelsCloseOnce(ls: seq<Label>, s: System, l: Label, h: nat)
    requires Run(INIT, ls) == Some(s) && Step(s, l).Some?
    ensures s.closed <= Step(s, l).value.closed
    ensures h in Step(s, l).value.closed && h !in s.closed ==>
              l == Reap(h) && s.children[h].reaper.ReapClose? && !s.children[h].alive
    ensures l == Reap(h) && s.children[h].reaper.ReapClose? ==> h !in s.closed && h in Step(s, l).value.closed
  {
    RunsKeepInv(ls);
  }

  /** When Start is about to give back mu with an error, the fields are clear or name a child that has
      exited; otherwise they name its child. */
  lemma FailedStartsLeaveNoChild(ls: seq<Label>, s: System, id: nat, ok: bool)
    requires Run(INIT, ls) == Some(s) && id in s.calls && s.calls[id] == StartUnlock(ok)
    ensures if ok then s.fields.cmd.Some?
            else s.fields.cmd.Some? ==> s.fields.cmd.value < |s.children| && !s.children[s.fields.cmd.value].alive
    ensures s.fields.cmd == s.session
  {
    RunsKeepInv(ls);
    assert CallInv(s, s.calls[id]);
  }

  /** How many more steps a reaper makes once its child has exited. */
  function ToReap(r: ReaperPc): nat {
    match r
    case NotSpawned => 9
    case ReapWait => 8
    case ReapClose => 7
    case ReapLock => 6
    case ReapTest => 5
    case ReapClearPid => 4
    case ReapClearCmd => 3
    case ReapClearDone => 2
    case ReapUnlock => 1
    case ReapGone => 0
  }

  /** The call is on its way from making child h to starting its reaper. */
  predicate IsMaking(pc: Pc, h: nat) {
    pc == StartSetPid(h) || pc == StartSetCmd(h) || pc == StartSetDone(h) || pc == StartReaper(h)
  }

  /** A child without a reaper is only just being made, under mu. */
  ghost predicate ReapedInv(s: System) {
    forall h | 0 <= h < |s.children| && s.children[h].reaper.NotSpawned? ::
      s.mu.Some? && s.mu.value.ByCall? && s.mu.value.id in s.calls && IsMaking(s.calls[s.mu.value.id], h)
  }

  lemma GoKeepsReaped(s: System, id: nat, choice: Choice, pid: nat)
    requires Inv(s) && ReapedInv(s) && CanGo(s, id, choice, pid)
    ensures ReapedInv(Advance(s, id, choice, pid))
  {
    GoChildren(s, id, choice, pid);
    assert HoldsMu(s.calls[id]) <==> s.mu == Some(ByCall(id));
  }

  lemma {:induction false} RunsKeepReaped(ls: seq<Label>)
    requires Run(INIT, ls).Some?
    ensures ReapedInv(Run(INIT, ls).value)
  {
    if ls != [] {
      var s, l := Run(INIT, ls[..|ls| - 1]).value, ls[|ls| - 1];
      RunsKeepReaped(ls[..|ls| - 1]);
      RunsKeepInv(ls[..|ls| - 1]);
      match l
      case Go(id, choice, pid) => GoKeepsReaped(s, id, choice, pid);
      case Reap(h) => assert ReaperInv(s, h);
      case _ =>
    }
  }

  /** Whenever mu is free, the reaper of every child that has exited is through or can go on, and every
      step brings it closer to its end. So in the end every exit is told. */
  lemma ReapersGoOn(ls: seq<Label>, s: System, h: nat)
    requires Run(INIT, ls) == Some(s) && s.mu.None? && h < |s.children| && !s.children[h].alive
    ensures s.children[h].reaper.ReapGone? ==> h in s.closed
    ensures !s.children[h].reaper.ReapGone? ==>
              CanReap(s, h) && ToReap(Reaped(s, h).children[h].reaper) < ToReap(s.children[h].reaper)
  {
    RunsKeepInv(ls);
    RunsKeepReaped(ls);
    assert s.children[h].reaper.ReapGone? ==> ExitSent(s, h);
  }

  /** In every reachable state with an unfinished call some goroutine can move, counting timeouts. */
  lemma NoDeadlock(ls: seq<Label>, s: System, id: nat) returns (l: Label)
    requires Run(INIT, ls) == Some(s) && id in s.calls && !s.calls[id].Returned?
    ensures Step(s, l).Some? && (l.Go? || l.Reap?)
  {
    RunsKeepInv(ls);
    if s.mu.Some? && s.mu.value.ByReaper? {
      l := Reap(s.mu.value.h);
    } else {
      var i := if s.mu.Some? then s.mu.value.id else if s.emu.Some? then s.emu.value else id;
      l := Go(i, if s.calls[i].StartWatch? || s.calls[i].Validate? then Good else Timeout, 0);
    }
  }

  /** How many more steps of its own a call can make. */
  function Remaining(pc: Pc): nat {
    match pc
    case ExecLock => 21
    case Validate => 20
    case KillLock => 19
    case KillTake => 18
    case KillClearCmd(_, _) => 17
    case KillClearDone(_, _) => 16
    case KillClearPid(_, _) => 15
    case KillUnlock(_, _) => 14
    case KillTerm(_, _) => 13
    case KillWait(_, _) => 12
    case KillForce(_, _) => 11
    case KillConfirm(_, _) => 10
    case KillCancelled(_) => 11
    case StartLock => 9
    case StartSpawn => 8
    case StartSetPid(_) => 7
    case StartSetCmd(_) => 6
    case StartSetDone(_) => 5
    case StartReaper(_) => 4
    case StartWatch(_) => 3
    case StartUnlock(_) => 2
    case ExecUnlock(_) => 1
    case Returned(_) => 0
  }

  /** Every step of a call brings it closer to returning, and no other call's step sets it back. */
  lemma CallsMakeProgress(s: System, l: Label, id: nat)
    requires Step(s, l).Some? && id in s.calls
    ensures
      var pc' := Step(s, l).value.calls[id];
      if l.Go? && l.id == id then Remaining(pc') < Remaining(s.calls[id]) else pc' == s.calls[id]
  {
  }
}
