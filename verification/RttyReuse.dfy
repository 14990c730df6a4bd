// What happens without the assumption on PIDs: a reaper that takes another child for its own clears the
// fields, and the next Execute starts a second session beside the first, with no KillExisting failing.

module RttyReuse {
  import opened Wrappers
  import opened Rtty

  ghost predicate Reachable(s: System) {
    exists ls :: Run(INIT, ls) == Some(s)
  }

  /** A set of states that steps do not leave. What holds of every such set holds of the reachable
      states; most lemmas below need no more than that. */
  ghost predicate Explored(reach: iset<System>) {
    INIT in reach && forall s, l | s in reach && Step(s, l).Some? :: Step(s, l).value in reach
  }

  lemma ReachableIsExplored() returns (reach: iset<System>)
    ensures Explored(reach) && forall s :: s in reach <==> Reachable(s)
  {
    reach := iset s | Reachable(s);
    assert Run(INIT, []) == Some(INIT);
    forall s, l | Reachable(s) && Step(s, l).Some?
      ensures Reachable(Step(s, l).value)
    {
      var ls :| Run(INIT, ls) == Some(s);
      assert (ls + [l])[..|ls|] == ls;
      assert Run(INIT, ls + [l]) == Step(s, l);
    }
  }

  lemma Takes(reach: iset<System>, s: System, l: Label) returns (s': System)
    requires Explored(reach) && s in reach && Step(s, l).Some?
    ensures s' == Step(s, l).value && s' in reach
  {
    s' := Step(s, l).value;
  }

  /** Nobody is in Execute, and there is no session or it has ended. */
  predicate Quiet(s: System) {
    && s.emu.None? && s.mu.None?
    && (s.fields == CLEAR || (s.fields.cmd.Some? && s.fields.done == s.fields.cmd && s.fields.cmd.value in s.closed))
  }

  /** The call has left the bookkeeping and the children as they were. */
  predicate Alike(s: System, s': System) {
    s'.children == s.children && s'.closed == s.closed && s'.orphans == s.orphans && s'.killErrors == s.killErrors
  }

  /** Execute gets to the section that looks for a session. */
  lemma Enters(reach: iset<System>, s: System, id: nat) returns (s': System)
    requires Explored(reach) && s in reach && Quiet(s) && id !in s.calls
    ensures s' in reach && Alike(s, s') && s'.fields == s.fields && s'.session == s.session
    ensures s'.emu == Some(id) && s'.mu == Some(ByCall(id)) && s'.calls == s.calls[id := KillTake]
  {
    s' := Takes(reach, s, Call(id));
    s' := Takes(reach, s', Go(id, Good, 0));
    s' := Takes(reach, s', Go(id, Good, 0));
    s' := Takes(reach, s', Go(id, Good, 0));
    assert s'.calls == s.calls[id := KillTake];
  }

  /** It clears the fields. */
  lemma Clears(reach: iset<System>, s: System, id: nat) returns (s': System)
    requires Explored(reach) && s in reach && id in s.calls && s.calls[id].KillTake? && s.mu == Some(ByCall(id))
    ensures s' in reach && Alike(s, s') && s'.fields == CLEAR && s'.session == s.session
    ensures s'.emu == s.emu && s'.mu == s.mu && s'.calls == s.calls[id := KillUnlock(s.fields.cmd, s.fields.done)]
  {
    s' := Takes(reach, s, Go(id, Good, 0));
    s' := Takes(reach, s', Go(id, Good, 0));
    s' := Takes(reach, s', Go(id, Good, 0));
    s' := Takes(reach, s', Go(id, Good, 0));
    assert s'.calls == s.calls[id := KillUnlock(s.fields.cmd, s.fields.done)];
  }

  /** If it has found a child, that has ended already. */
  lemma Settles(reach: iset<System>, s: System, id: nat) returns (s': System)
    requires Explored(reach) && s in reach && id in s.calls && s.calls[id].KillUnlock? && s.mu == Some(ByCall(id))
    requires s.calls[id].cmd.Some? ==> s.calls[id].done.Some? && s.calls[id].done.value in s.closed
    ensures s' in reach && Alike(s, s') && s'.fields == s.fields
    ensures s'.emu == s.emu && s'.mu == None && s'.calls == s.calls[id := StartLock]
  {
    s' := Takes(reach, s, Go(id, Good, 0));
    if s.calls[id].cmd.Some? {
      s' := Takes(reach, s', Go(id, Good, 0));
      s' := Takes(reach, s', Go(id, Good, 0));
    }
    assert s'.calls == s.calls[id := StartLock];
  }

  /** It starts a new child, */
  lemma Spawns(reach: iset<System>, s: System, id: nat, pid: nat) returns (s': System)
    requires Explored(reach) && s in reach && id in s.calls && s.calls[id].StartLock? && s.mu.None? && PidFree(s, pid)
    ensures s' in reach && s'.children == s.children + [Child(pid, true, NotSpawned)] && s'.fields == s.fields
    ensures s'.closed == s.closed && s'.killErrors == s.killErrors
    ensures s'.emu == s.emu && s'.mu == Some(ByCall(id)) && s'.calls == s.calls[id := StartSetPid(|s.children|)]
  {
    s' := Takes(reach, s, Go(id, Good, 0));
    s' := Takes(reach, s', Go(id, Good, pid));
    assert s'.calls == s.calls[id := StartSetPid(|s.children|)];
  }

  /** puts it into the fields, */
  lemma Tracks(reach: iset<System>, s: System, id: nat, h: nat) returns (s': System)
    requires Explored(reach) && s in reach && id in s.calls && s.calls[id] == StartSetPid(h) && h < |s.children|
    ensures s' in reach && s'.fields == Fields(s.children[h].pid, Some(h), Some(h))
    ensures s'.children == s.children[h := s.children[h].(reaper := ReapWait)]
    ensures s'.closed == s.closed && s'.killErrors == s.killErrors
    ensures s'.emu == s.emu && s'.mu == s.mu && s'.calls == s.calls[id := StartWatch(h)]
  {
    s' := Takes(reach, s, Go(id, Good, 0));
    s' := Takes(reach, s', Go(id, Good, 0));
    s' := Takes(reach, s', Go(id, Good, 0));
    s' := Takes(reach, s', Go(id, Good, 0));
    assert s'.calls == s.calls[id := StartWatch(h)];
  }

  /** and returns. */
  lemma Leaves(reach: iset<System>, s: System, id: nat) returns (s': System)
    requires Explored(reach) && s in reach && id in s.calls && s.calls[id].StartWatch? && s.mu == Some(ByCall(id))
    ensures s' in reach && Alike(s, s') && s'.fields == s.fields
    ensures s'.emu == None && s'.mu == None && s'.calls == s.calls[id := Returned(true)]
  {
    s' := Takes(reach, s, Go(id, Good, 0));
    s' := Takes(reach, s', Go(id, Good, 0));
    s' := Takes(reach, s', Go(id, Good, 0));
    assert s'.calls == s.calls[id := Returned(true)];
  }

  /** A whole Execute: one more child, which the fields name. */
  lemma Executes(reach: iset<System>, s: System, id: nat, pid: nat) returns (s': System)
    requires Explored(reach) && s in reach && Quiet(s) && id !in s.calls && PidFree(s, pid)
    ensures s' in reach && s'.emu.None? && s'.mu.None? && s'.calls.Keys == s.calls.Keys + {id}
    ensures s'.children == s.children + [Child(pid, true, ReapWait)] && s'.closed == s.closed
    ensures s'.fields == Fields(pid, Some(|s.children|), Some(|s.children|)) && s'.killErrors == s.killErrors
  {
    s' := Enters(reach, s, id);
    s' := Clears(reach, s', id);
    s' := Settles(reach, s', id);
    s' := Spawns(reach, s', id, pid);
    s' := Tracks(reach, s', id, |s.children|);
    s' := Leaves(reach, s', id);
    assert s'.children == s.children + [Child(pid, true, ReapWait)];
  }

  /** Whenever the fields are clear while a child is running, the next Execute can start another one. */
  lemma UntrackedChildIsLeft(s: System, x: nat, id: nat, pid: nat) returns (s': System)
    requires Reachable(s) && s.emu.None? && s.mu.None? && s.fields == CLEAR && x in Live(s)
    requires id !in s.calls && PidFree(s, pid)
    ensures Reachable(s') && s'.killErrors == s.killErrors && {x, |s.children|} <= Live(s')
  {
    var reach := ReachableIsExplored();
    s' := Executes(reach, s, id, pid);
  }

  /** Child 0 exits; its reaper is on its way to mu while a new child is started under the same PID. */
  lemma ReusesPid(reach: iset<System>) returns (s: System)
    requires Explored(reach)
    ensures s in reach && s.emu.None? && s.mu.None? && s.calls.Keys == {0, 1} && s.killErrors == 0
    ensures s.children == [Child(1, false, ReapLock), Child(1, true, ReapWait)] && s.fields == Fields(1, Some(1), Some(1))
  {
    s := Executes(reach, INIT, 0, 1);
    s := Takes(reach, s, Exit(0));
    s := Takes(reach, s, Reap(0));
    s := Takes(reach, s, Reap(0));
    assert s.children == [Child(1, false, ReapLock)];
    s := Executes(reach, s, 1, 1);
  }

  /** The reaper of child 0 takes child 1 for its own. */
  lemma ClearsWrongly(reach: iset<System>, s: System) returns (s': System)
    requires Explored(reach) && s in reach && s.mu.None? && s.fields.pid == 1
    requires s.children == [Child(1, false, ReapLock), Child(1, true, ReapWait)]
    ensures s' in reach && s'.mu.None? && s'.emu == s.emu && s'.calls == s.calls && s'.killErrors == s.killErrors
    ensures s'.children == [Child(1, false, ReapGone), Child(1, true, ReapWait)] && s'.fields == CLEAR
  {
    s' := Takes(reach, s, Reap(0));
    s' := Takes(reach, s', Reap(0));
    s' := Takes(reach, s', Reap(0));
    s' := Takes(reach, s', Reap(0));
    s' := Takes(reach, s', Reap(0));
    s' := Takes(reach, s', Reap(0));
    assert s'.children == [Child(1, false, ReapGone), Child(1, true, ReapWait)];
  }

  /** So the accounting needs the assumption: two children run, and no KillExisting has failed. */
  lemma NoReuseIsNeeded() returns (s: System)
    ensures Reachable(s) && s.killErrors == 0 && |Live(s)| == 2
  {
    var reach := ReachableIsExplored();
    s := ReusesPid(reach);
    s := ClearsWrongly(reach, s);
    s := Executes(reach, s, 2, 2);
    assert Live(s) == {1, 2};
  }
}
