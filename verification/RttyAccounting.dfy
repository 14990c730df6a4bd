// How many children can be alive. This needs that the operating system does not give a PID to a new
// child while the reaper of an old child with that PID is still on its way to mu.

module RttyAccounting {
  import opened Wrappers
  import opened Rtty
  import opened RttyKilling
  import opened RttySafety

  ghost predicate NoReuse(s: System, l: Label) {
    l.Go? && l.id in s.calls && s.calls[l.id].StartSpawn? && l.choice.Good? ==>
      forall c | c in s.children && !c.reaper.ReapGone? :: c.pid != l.pid
  }

  ghost predicate AllFresh(ls: seq<Label>) {
    if ls == [] then true
    else
      var init, l := ls[..|ls| - 1], ls[|ls| - 1];
      AllFresh(init) && (Run(INIT, init).Some? ==> NoReuse(Run(INIT, init).value, l))
  }

  /** Children whose reaper is not through have different PIDs. */
  ghost predicate PidsDiffer(s: System) {
    forall h, k | 0 <= h < k < |s.children| && !s.children[h].reaper.ReapGone? && !s.children[k].reaper.ReapGone? ::
      s.children[h].pid != s.children[k].pid
  }

  /** The reaper of a session that is in the fields still has to look at them, and the one that
      clears the fields is the session's own. */
  ghost predicate ReapersInv(s: System) {
    && (s.session.Some? && !SessionDetached(s) && s.session.value < |s.children| ==>
          !s.children[s.session.value].reaper.ReapUnlock? && !s.children[s.session.value].reaper.ReapGone?)
    && forall h | 0 <= h < |s.children| && Clearing(s.children[h].reaper) :: s.session == Some(h)
  }

  predicate Clearing(r: ReaperPc) {
    r.ReapClearPid? || r.ReapClearCmd? || r.ReapClearDone?
  }

  /** Every running child is the session or was given up on, and those were sent SIGKILL. */
  ghost predicate Accounted(s: System) {
    && (forall h | h in Live(s) :: s.session == Some(h) || h in s.orphans)
    && s.orphans <= s.killed && |s.orphans| <= s.killErrors
  }

  lemma GoKeepsAccount(s: System, id: nat, choice: Choice, pid: nat)
    requires Inv(s) && CanGo(s, id, choice, pid) && Accounted(s)
    ensures Accounted(Advance(s, id, choice, pid))
  {
    var pc, s' := s.calls[id], Advance(s, id, choice, pid);
    assert CallInv(s, pc);
    GoChildren(s, id, choice, pid);
    if pc.StartSpawn? && choice.Good? {
      assert s.session.None?;
    }
    forall h | h in Live(s')
      ensures s'.session == Some(h) || h in s'.orphans
    {
      if h < |s.children| {
        assert h in Live(s);
        if (pc.KillWait? || pc.KillConfirm?) && choice.Good? {
          assert ExitSent(s, pc.h);
        }
      }
    }
  }

  lemma GoKeepsClearing(s: System, id: nat, choice: Choice, pid: nat, h: nat)
    requires Inv(s) && CanGo(s, id, choice, pid) && ReapersInv(s)
    requires h < |s.children| && Clearing(s.children[h].reaper)
    ensures Advance(s, id, choice, pid).session == Some(h)
  {
    assert CallInv(s, s.calls[id]);
    assert HoldsEmu(s.calls[id]) <==> s.emu == Some(id);
    assert HoldsMu(s.calls[id]) <==> s.mu == Some(ByCall(id));
    assert ReaperHoldsMu(s.children[h].reaper) && ReaperInv(s, h);
  }

  lemma GoKeepsReapersInv(s: System, id: nat, choice: Choice, pid: nat)
    requires Inv(s) && CanGo(s, id, choice, pid) && ReapersInv(s)
    ensures ReapersInv(Advance(s, id, choice, pid))
  {
    var pc, s' := s.calls[id], Advance(s, id, choice, pid);
    GoChildren(s, id, choice, pid);
    forall h | 0 <= h < |s'.children| && Clearing(s'.children[h].reaper)
      ensures s'.session == Some(h)
    {
      GoKeepsClearing(s, id, choice, pid, h);
    }
    assert CallInv(s, pc);
    assert HoldsEmu(pc) <==> s.emu == Some(id);
  }

  lemma GoKeepsPids(s: System, id: nat, choice: Choice, pid: nat)
    requires Inv(s) && CanGo(s, id, choice, pid) && PidsDiffer(s) && NoReuse(s, Go(id, choice, pid))
    ensures PidsDiffer(Advance(s, id, choice, pid))
  {
    GoChildren(s, id, choice, pid);
    assert forall h | 0 <= h < |s.children| :: s.children[h] in s.children;
  }

  /** The reaper that finds its PID in the fields is the session's own. */
  lemma OwnPid(s: System, h: nat)
    requires Inv(s) && PidsDiffer(s) && ReapersInv(s) && CanReap(s, h)
    requires s.children[h].reaper.ReapTest? && s.fields.pid == s.children[h].pid
    ensures s.session == Some(h) && !SessionDetached(s)
  {
    assert ReaperInv(s, h);
    assert s.children[h].pid != 0;
    var x := s.session.value;
    if x != h {
      assert false;
    }
  }

  lemma ReapKeepsAll(s: System, h: nat)
    requires Inv(s) && CanReap(s, h) && PidsDiffer(s) && ReapersInv(s) && Accounted(s)
    ensures PidsDiffer(Reaped(s, h)) && ReapersInv(Reaped(s, h)) && Accounted(Reaped(s, h))
  {
    var s' := Reaped(s, h);
    assert Live(s') == Live(s);
    if s.children[h].reaper.ReapTest? && s.fields.pid == s.children[h].pid {
      OwnPid(s, h);
    }
    if s.children[h].reaper.ReapTest? && s.fields.pid != s.children[h].pid {
      assert ReaperInv(s, h);
    }
    if s.children[h].reaper.ReapClearDone? {
      assert ExitSent(s, h) && !s.children[h].alive;
      assert forall k | 0 <= k < |s.children| && k != h :: !ReaperHoldsMu(s.children[k].reaper);
    }
  }

  lemma StepKeepsAll(s: System, l: Label)
    requires Inv(s) && PidsDiffer(s) && ReapersInv(s) && Accounted(s) && NoReuse(s, l) && Step(s, l).Some?
    ensures PidsDiffer(Step(s, l).value) && ReapersInv(Step(s, l).value) && Accounted(Step(s, l).value)
  {
    match l
    case Go(id, choice, pid) =>
      GoKeepsAccount(s, id, choice, pid);
      GoKeepsReapersInv(s, id, choice, pid);
      GoKeepsPids(s, id, choice, pid);
    case Reap(h) => ReapKeepsAll(s, h);
    case Call(id) => assert Live(Step(s, l).value) == Live(s);
    case Exit(h) => assert Live(Step(s, l).value) <= Live(s);
  }

  lemma {:induction false} RunsKeepAll(ls: seq<Label>)
    requires Run(INIT, ls).Some? && AllFresh(ls)
    ensures var s := Run(INIT, ls).value; Inv(s) && PidsDiffer(s) && ReapersInv(s) && Accounted(s)
  {
    RunsKeepInv(ls);
    if ls != [] {
      var init := ls[..|ls| - 1];
      RunsKeepAll(init);
      StepKeepsAll(Run(INIT, init).value, ls[|ls| - 1]);
    }
  }

  /** Terminal-session accounting. The running children are one session, which the fields name
      whenever no call is under way, and at most one more for each call whose KillExisting gave up;
      such a call has failed or is about to, and the children it left were sent SIGKILL. Hence at most
      one is running if no KillExisting ever failed. */
  lemma SessionAccounting(ls: seq<Label>, s: System)
    requires Run(INIT, ls) == Some(s) && AllFresh(ls)
    ensures |Live(s)| <= 1 + |GaveUp(ls)|
    ensures Failing(s, GaveUp(ls))
    ensures forall h | h in Live(s) :: s.session == Some(h) || (h in s.orphans && h in s.killed)
    ensures s.emu.None? && s.mu.None? ==> s.session == s.fields.cmd
  {
    RunsKeepAll(ls);
    GivingUpFails(ls, s);
    var bound := s.orphans + if s.session.Some? then {s.session.value} else {};
    assert Live(s) <= bound;
    Cardinality(Live(s), bound);
    Cardinality(bound - s.orphans, if s.session.Some? then {s.session.value} else {});
    assert bound == s.orphans + (bound - s.orphans);
  }

  lemma {:induction false} Cardinality(a: set<nat>, b: set<nat>)
    requires a <= b
    ensures |a| <= |b|
  {
    if a != {} {
      var x :| x in a;
      Cardinality(a - {x}, b - {x});
    }
  }

  /** A reaper never clears a newer child than its own. */
  lemma ReapersClearTheirOwn(ls: seq<Label>, s: System, h: nat)
    requires Run(INIT, ls) == Some(s) && AllFresh(ls) && CanReap(s, h) && Clearing(Reaped(s, h).children[h].reaper)
    ensures s.session == Some(h) && !s.children[h].alive
  {
    RunsKeepAll(ls);
    if s.children[h].reaper.ReapTest? {
      OwnPid(s, h);
    }
    assert ExitSent(s, h);
  }

  /** Without the assumption on PIDs: a reaper goes on to clear the fields of another child exactly
      when that child was given the same PID. */
  lemma WrongClearsNeedReuse(ls: seq<Label>, s: System, h: nat, x: nat)
    requires Run(INIT, ls) == Some(s) && CanReap(s, h) && s.children[h].reaper.ReapTest?
    requires s.fields.cmd == Some(x)
    ensures x < |s.children|
    ensures Clearing(Reaped(s, h).children[h].reaper) <==> s.children[h].pid == s.children[x].pid
  {
    RunsKeepInv(ls);
    assert ReaperInv(s, h);
  }
}
