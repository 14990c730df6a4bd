// Only reconnect passes are waited for. When the reconcile that Start itself runs can still be running
// as client.Close is called, and when it cannot.

module StartupReconcile {
  import opened Wrappers
  import opened Lifecycle
  import opened LifecycleSafety

  /** In the body of Start, up to and including its reconcile. */
  predicate InBody(pc: Pc) {
    pc.StartHandlers? || pc.StartClient? || pc.StartStatus? || pc.StartReconcile?
  }

  /** Let into the body of Start, and not done with what comes after it in Start and Run. */
  predicate Ran(pc: Pc) {
    || Starter(pc) || InBody(pc) || pc.AwaitShutdown?
    || pc.CloseLock? || pc.CloseTest? || pc.CloseUnlock? || pc.CloseCancel? || pc.CloseWait? || pc.CloseClient?
  }

  /** Nobody calls Close directly, as in the agent's own main function. */
  predicate OnlyRuns(ls: seq<Label>) {
    ls == [] || (OnlyRuns(ls[..|ls| - 1]) && var l := ls[|ls| - 1]; l.Begin? ==> !l.pc.CloseLock?)
  }

  /** Whoever is in Start's body or closes is the one goroutine that was let in. */
  ghost predicate OneRunner(s: System) {
    && (forall i | i in s.threads && Ran(s.threads[i]) ::
          s.fields.started && s.clientCloses == 0 && forall j | j in s.threads && Ran(s.threads[j]) :: j == i)
    && (s.clientCloses > 0 ==> s.fields.started)
  }

  lemma GoKeepsOneRunner(s: System, id: nat, ok: bool)
    requires OneRunner(s) && CanGo(s, id, ok)
    ensures OneRunner(Advance(s, id, ok))
  {
    var pc, s' := s.threads[id], Advance(s, id, ok);
    assert Ran(s'.threads[id]) ==> Ran(pc) || (pc.StartTest? && !s.fields.started);
    assert s.fields.started ==> s'.fields.started;
    assert pc.CloseClient? ==> Ran(pc) && !Ran(s'.threads[id]);
  }

  lemma {:induction false} RunsKeepOneRunner(ls: seq<Label>)
    requires Run(INIT, ls).Some? && OnlyRuns(ls)
    ensures OneRunner(Run(INIT, ls).value)
  {
    if ls != [] {
      var s, l := Run(INIT, ls[..|ls| - 1]).value, ls[|ls| - 1];
      RunsKeepOneRunner(ls[..|ls| - 1]);
      if l.Go? {
        GoKeepsOneRunner(s, l.id, l.ok);
      }
    }
  }

  /** If nobody calls Close directly, then once client.Close has been called nobody is in the body of
      Start, nor ever will be. */
  lemma RunsDoNotOverlap(ls: seq<Label>, s: System, i: nat)
    requires Run(INIT, ls) == Some(s) && OnlyRuns(ls) && s.clientCloses > 0 && i in s.threads
    ensures !InBody(s.threads[i])
  {
    RunsKeepOneRunner(ls);
    assert Ran(s.threads[i]) ==> s.clientCloses == 0;
  }

  ghost predicate Leads(s: System, t: System) {
    exists ls :: Run(s, ls) == Some(t)
  }

  /** From s, client.Close can come to be called while goroutine i is in Start's reconcile. */
  ghost predicate CanOutlive(s: System, i: nat) {
    exists t :: Leads(s, t) && i in t.threads && t.threads[i].StartReconcile? && t.clientCloses > 0
  }

  lemma RunSnoc(s: System, ls: seq<Label>, l: Label)
    ensures Run(s, ls + [l]) == if Run(s, ls).Some? then Step(Run(s, ls).value, l) else None
  {
    assert (ls + [l])[..|ls|] == ls;
  }

  lemma {:induction false} RunConcat(s: System, ls: seq<Label>, ms: seq<Label>)
    requires Run(s, ls).Some?
    ensures Run(s, ls + ms) == Run(Run(s, ls).value, ms)
  {
    if ms == [] {
      assert ls + ms == ls;
    } else {
      var init, m := ms[..|ms| - 1], ms[|ms| - 1];
      RunConcat(s, ls, init);
      assert ls + ms == (ls + init) + [m];
      RunSnoc(s, ls + init, m);
    }
  }

  lemma Stays(s: System)
    ensures Leads(s, s)
  {
    assert Run(s, []) == Some(s);
  }

  lemma Takes(s: System, l: Label, t: System, u: System)
    requires Step(s, l) == Some(t) && Leads(t, u)
    ensures Leads(s, u)
  {
    RunSnoc(s, [], l);
    assert Run(s, [l]) == Some(t);
    LeadsOn(s, t, u);
  }

  lemma LeadsOn(s: System, t: System, u: System)
    requires Leads(s, t) && Leads(t, u)
    ensures Leads(s, u)
  {
    var ls :| Run(s, ls) == Some(t);
    var ms :| Run(t, ms) == Some(u);
    RunConcat(s, ls, ms);
  }

  /** Goroutine i is in the body of Start while goroutine j is closing the runtime. */
  ghost predicate Racing(t: System, i: nat, j: nat) {
    && Inv(t) && t.clientCloses == 0
    && i in t.threads && InBody(t.threads[i]) && j in t.threads && Winner(t.threads[j])
  }

  /** Steps that need no lock, and that nobody has to wait for. */
  predicate Free(pc: Pc) {
    || pc.ReconnectUnlock? || pc.Pass? || pc.PassDone?
    || pc.StartHandlers? || pc.StartClient? || pc.StartStatus? || (pc.CloseUnlock? && !pc.already) || pc.CloseCancel?
  }

  lemma FreeStepsGoOn(pc: Pc, f: Fields)
    requires Free(pc)
    ensures InBody(pc) ==> InBody(NextPc(pc, f, true))
    ensures Winner(pc) ==> Winner(NextPc(pc, f, true))
  {
  }

  lemma Moves(t: System, i: nat, j: nat, id: nat) returns (u: System)
    requires Racing(t, i, j) && id in t.threads && Free(t.threads[id])
    ensures Step(t, Go(id, true)) == Some(u) && Racing(u, i, j)
    ensures u.threads == t.threads[id := NextPc(t.threads[id], t.fields, true)]
    ensures u.admitted == if t.threads[id].PassDone? then t.admitted - {id} else t.admitted
  {
    u := Advance(t, id, true);
    FreeStepsGoOn(t.threads[id], t.fields);
    StepKeepsInv(t, Go(id, true));
  }

  /** An admitted pass can always finish. */
  lemma {:induction false} PassFinishes(t: System, i: nat, j: nat, p: nat) returns (u: System)
    requires Racing(t, i, j) && p in t.admitted
    ensures Leads(t, u) && Racing(u, i, j) && u.admitted == t.admitted - {p}
    decreases if p in t.threads then Remaining(t.threads[p]) else 0
  {
    var next := Moves(t, i, j, p);
    if t.threads[p].PassDone? {
      u := next;
      Stays(u);
    } else {
      u := PassFinishes(next, i, j, p);
    }
    Takes(t, Go(p, true), next, u);
  }

  lemma {:induction false} PassesFinish(t: System, i: nat, j: nat) returns (u: System)
    requires Racing(t, i, j)
    ensures Leads(t, u) && Racing(u, i, j) && u.admitted == {}
    decreases t.admitted
  {
    u := t;
    Stays(t);
    if p :| p in t.admitted {
      var next := PassFinishes(t, i, j, p);
      u := PassesFinish(next, i, j);
      LeadsOn(t, next, u);
    }
  }

  /** Nothing but the program counter of goroutine i has moved. */
  predicate OnlyMoved(t: System, u: System, i: nat) {
    i in t.threads && i in u.threads && u == t.(threads := t.threads[i := u.threads[i]])
  }

  lemma BodyMoves(t: System, i: nat) returns (u: System)
    requires Inv(t) && i in t.threads && InBody(t.threads[i]) && !t.threads[i].StartReconcile?
    ensures Step(t, Go(i, true)) == Some(u) && Inv(u) && OnlyMoved(t, u, i)
    ensures InBody(u.threads[i]) && Remaining(u.threads[i]) < Remaining(t.threads[i])
  {
    u := Advance(t, i, true);
    StepKeepsInv(t, Go(i, true));
  }

  /** Start can always get as far as its reconcile. */
  lemma {:induction false} StartArrives(t: System, i: nat) returns (u: System)
    requires Inv(t) && i in t.threads && InBody(t.threads[i])
    ensures Leads(t, u) && Inv(u) && OnlyMoved(t, u, i) && u.threads[i].StartReconcile?
    decreases if i in t.threads then Remaining(t.threads[i]) else 0
  {
    u := t;
    Stays(t);
    if !t.threads[i].StartReconcile? {
      var next := BodyMoves(t, i);
      u := StartArrives(next, i);
      Takes(t, Go(i, true), next, u);
    }
  }

  lemma WaitCanEnd(t: System, j: nat)
    requires Inv(t) && j in t.threads && t.threads[j].CloseWait? && t.admitted == {}
    ensures t.waiting && t.fields.wg == 0
  {
  }

  /** With no pass left, Wait returns and the closing goroutine goes on. */
  lemma WaitEnds(t: System, i: nat, j: nat) returns (u: System)
    requires Racing(t, i, j) && t.admitted == {} && t.threads[j].CloseWait?
    ensures Leads(t, u) && Racing(u, i, j) && u.threads == t.threads[j := CloseClient(t.threads[j].failed)]
  {
    WaitCanEnd(t, j);
    var next := t.(done := true);
    assert Step(t, WaitReturns) == Some(next);
    StepKeepsInv(t, WaitReturns);
    u := Advance(next, j, true);
    StepKeepsInv(next, Go(j, true));
    Stays(u);
    Takes(next, Go(j, true), u, u);
    Takes(t, WaitReturns, next, u);
  }

  /** The closing goroutine can always get as far as client.Close. */
  lemma {:induction false} CloserArrives(t: System, i: nat, j: nat) returns (u: System)
    requires Racing(t, i, j) && t.admitted == {} && t.threads[i].StartReconcile?
    ensures Leads(t, u) && Racing(u, i, j) && u.threads[i].StartReconcile? && u.threads[j].CloseClient?
    decreases Remaining(t.threads[j])
  {
    if t.threads[j].CloseClient? {
      u := t;
      Stays(t);
    } else if t.threads[j].CloseWait? {
      u := WaitEnds(t, i, j);
    } else {
      var next := Moves(t, i, j, j);
      u := CloserArrives(next, i, j);
      Takes(t, Go(j, true), next, u);
    }
  }

  /** Then client.Close is called while Start's reconcile runs. */
  lemma CloseOvertakes(s: System, t: System, i: nat, j: nat)
    requires Leads(s, t) && Racing(t, i, j) && t.threads[i].StartReconcile? && t.threads[j].CloseClient?
    ensures CanOutlive(s, i)
  {
    var u := Advance(t, j, true);
    assert Step(t, Go(j, true)) == Some(u);
    Stays(u);
    Takes(t, Go(j, true), u, u);
    LeadsOn(s, t, u);
  }

  lemma {:induction false} SomeIdIsNew(ids: set<nat>) returns (n: nat)
    ensures forall i | i in ids :: i < n
  {
    n := 0;
    if ids != {} {
      var i :| i in ids;
      var rest := ids - {i};
      n := SomeIdIsNew(rest);
      n := if i < n then n else i + 1;
      assert ids == rest + {i};
    }
  }

  /** With mu free, someone can call Close and set closed. */
  lemma CloseIsCalled(t: System, i: nat) returns (u: System, j: nat)
    requires Inv(t) && i in t.threads && InBody(t.threads[i]) && !t.fields.closed && t.mu.None?
    ensures Leads(t, u) && Racing(u, i, j)
  {
    j := SomeIdIsNew(t.threads.Keys);
    var called := t.(threads := t.threads[j := CloseLock(false)]);
    assert Step(t, Begin(j, CloseLock(false))) == Some(called);
    StepKeepsInv(t, Begin(j, CloseLock(false)));
    var locked := Advance(called, j, true);
    StepKeepsInv(called, Go(j, true));
    u := Advance(locked, j, true);
    StepKeepsInv(locked, Go(j, true));
    Stays(u);
    Takes(locked, Go(j, true), u, u);
    Takes(called, Go(j, true), locked, u);
    Takes(t, Begin(j, CloseLock(false)), called, u);
  }

  /** Whoever holds mu can give it back, and may set closed before. */
  lemma {:induction false} ClosingBegins(t: System, i: nat) returns (u: System, j: nat)
    requires Inv(t) && i in t.threads && InBody(t.threads[i]) && !t.fields.closed
    ensures Leads(t, u) && Racing(u, i, j)
    decreases if t.mu.Some? && t.mu.value in t.threads then 1 + Remaining(t.threads[t.mu.value]) else 0
  {
    if t.mu.None? {
      u, j := CloseIsCalled(t, i);
    } else {
      var k := t.mu.value;
      assert Held(t.threads[k]);
      var next := Advance(t, k, true);
      StepKeepsInv(t, Go(k, true));
      if next.fields.closed {
        u, j := next, k;
        Stays(u);
      } else {
        HolderGoesOn(t, k);
        u, j := ClosingBegins(next, i);
      }
      Takes(t, Go(k, true), next, u);
    }
  }

  lemma HolderGoesOn(t: System, k: nat)
    requires Inv(t) && t.mu == Some(k)
    ensures k in t.threads && CanGo(t, k, true)
    ensures
      var next := Advance(t, k, true);
      next.mu.Some? ==> next.mu == Some(k) && Remaining(next.threads[k]) < Remaining(t.threads[k])
  {
  }

  lemma RacingOutlives(s: System, t: System, i: nat, j: nat)
    requires Leads(s, t) && Racing(t, i, j)
    ensures CanOutlive(s, i)
  {
    var drained := PassesFinish(t, i, j);
    LeadsOn(s, t, drained);
    var arrived := StartArrives(drained, i);
    LeadsOn(s, drained, arrived);
    var closing := CloserArrives(arrived, i, j);
    LeadsOn(s, arrived, closing);
    CloseOvertakes(s, closing, i, j);
  }

  /** When someone is in the body of Start, client.Close can come to be called during Start's reconcile,
      or has been called before it, unless a goroutine has set closed and given up. */
  lemma OutlivesIffStillClosing(ls: seq<Label>, s: System, i: nat)
    requires Run(INIT, ls) == Some(s) && i in s.threads && InBody(s.threads[i])
    ensures CanOutlive(s, i) <==> !s.fields.closed || s.clientCloses > 0 || exists j :: j in s.threads && Winner(s.threads[j])
  {
    RunsKeepInv(ls);
    Stays(s);
    if s.clientCloses > 0 {
      var u := StartArrives(s, i);
    } else if !s.fields.closed {
      var t, j := ClosingBegins(s, i);
      RacingOutlives(s, t, i, j);
    } else if j :| j in s.threads && Winner(s.threads[j]) {
      RacingOutlives(s, s, i, j);
    } else {
      forall ms | Run(s, ms).Some? { TimedOutCloseIsFinal(s, ms); }
    }
  }

  /** Goroutine 0 has called Start and stands at pc. */
  function Starting(pc: Pc, started: bool, mu: Option<nat>, bodies: nat): System {
    INIT.(fields := Fields(started, false, 0), mu := mu, threads := map[0 := pc], bodies := bodies)
  }

  /** Goroutine 0 is in the body of Start, goroutine 1 has called Close and stands at pc. */
  function Closing(pc: Pc, closed: bool, mu: Option<nat>): System {
    INIT.(fields := Fields(true, closed, 0), mu := mu, threads := map[0 := StartHandlers(false), 1 := pc], bodies := 1)
  }

  /** A schedule in which a direct Close finds Start in its body. */
  function Scene(n: nat): System {
    if n == 0 then INIT
    else if n == 1 then Starting(StartLock(false), false, None, 0)
    else if n == 2 then Starting(StartTest(false), false, Some(0), 0)
    else if n == 3 then Starting(StartUnlock(false, Granted), true, Some(0), 0)
    else if n == 4 then Starting(StartHandlers(false), true, None, 1)
    else if n == 5 then Closing(CloseLock(false), false, None)
    else if n == 6 then Closing(CloseTest(false), false, Some(1))
    else Closing(CloseUnlock(false, false), true, Some(1))
  }

  function Cue(n: nat): Label {
    if n == 0 then Begin(0, StartLock(false))
    else if n < 4 then Go(0, true)
    else if n == 4 then Begin(1, CloseLock(false))
    else Go(1, true)
  }

  lemma StartSceneFollows(n: nat)
    requires n < 4
    ensures Step(Scene(n), Cue(n)) == Some(Scene(n + 1))
  {
    assert Scene(n).threads[0 := Scene(n + 1).threads[0]] == Scene(n + 1).threads;
  }

  lemma CloseSceneFollows(n: nat)
    requires 4 <= n < 7
    ensures Step(Scene(n), Cue(n)) == Some(Scene(n + 1))
  {
    assert Scene(n).threads[1 := Scene(n + 1).threads[1]] == Scene(n + 1).threads;
  }

  lemma {:induction false} ScenesFollow(n: nat) returns (ls: seq<Label>)
    requires n <= 7
    ensures Run(INIT, ls) == Some(Scene(n))
  {
    ls := [];
    if n > 0 {
      var before := ScenesFollow(n - 1);
      if n <= 4 { StartSceneFollows(n - 1); } else { CloseSceneFollows(n - 1); }
      ls := before + [Cue(n - 1)];
      assert ls[..|before|] == before;
    }
  }

  /** With a direct Close it does happen: the reconcile that Start runs is still running when
      client.Close is called. */
  lemma StartupReconcileCanOutliveClient() returns (ls: seq<Label>, s: System)
    ensures Run(INIT, ls) == Some(s) && s.clientCloses > 0 && 0 in s.threads && s.threads[0].StartReconcile?
  {
    var before := ScenesFollow(7);
    OutlivesIffStillClosing(before, Scene(7), 0);
    assert Winner(Scene(7).threads[1]);
    var t :| Leads(Scene(7), t) && 0 in t.threads && t.threads[0].StartReconcile? && t.clientCloses > 0;
    var after :| Run(Scene(7), after) == Some(t);
    RunConcat(INIT, before, after);
    ls, s := before + after, t;
  }
}
