// What every interleaving of Start, Run, Close and reconnect callbacks keeps.

module LifecycleSafety {
  import opened Wrappers
  import opened Lifecycle

  /** The pass of this goroutine is counted in wg. */
  predicate Counted(pc: Pc) {
    pc.ReconnectUnlock? || pc.Pass? || pc.PassDone?
  }

  /** This goroutine won the race to close the runtime, and is not done closing. */
  predicate Winner(pc: Pc) {
    (pc.CloseUnlock? && !pc.already) || pc.CloseCancel? || pc.CloseWait? || pc.CloseClient?
  }

  predicate Starter(pc: Pc) {
    pc.StartUnlock? && pc.verdict.Granted?
  }

  /** mu is held by exactly the goroutine that is in a critical section. */
  ghost predicate MutexInv(s: System) {
    && (forall i | i in s.threads :: Held(s.threads[i]) <==> s.mu == Some(i))
    && (s.mu.Some? ==> s.mu.value in s.threads)
  }

  /** wg counts the admitted passes, and none is being admitted once closed is set. */
  ghost predicate PassInv(s: System) {
    && (forall i :: i in s.admitted <==> i in s.threads && Counted(s.threads[i]))
    && s.fields.wg == |s.admitted|
    && (forall i | i in s.threads :: s.threads[i].ReconnectAdd? ==> !s.fields.closed)
    && (s.waiting ==> s.fields.closed && s.cancelled) && (s.done ==> s.waiting && s.admitted == {})
  }

  /** At most one goroutine closes, only it calls client.Close, and only after the wait. */
  ghost predicate CloseInv(s: System) {
    && (forall i | i in s.threads && Winner(s.threads[i]) ::
          s.fields.closed && s.clientCloses == 0 && forall j | j in s.threads && Winner(s.threads[j]) :: j == i)
    && (forall i | i in s.threads && s.threads[i].CloseClient? :: s.done)
    && (forall i | i in s.threads && s.threads[i].CloseWait? :: s.waiting)
    && s.clientCloses <= 1 && (s.clientCloses == 1 ==> s.done && s.fields.closed)
  }

  /** At most one goroutine was ever let into the body of Start. */
  ghost predicate StartInv(s: System) {
    && (forall i | i in s.threads && Starter(s.threads[i]) ::
          s.fields.started && s.bodies == 0 && forall j | j in s.threads && Starter(s.threads[j]) :: j == i)
    && s.bodies <= 1 && (s.bodies == 1 ==> s.fields.started)
  }

  ghost predicate Inv(s: System) {
    MutexInv(s) && PassInv(s) && CloseInv(s) && StartInv(s)
  }

  lemma GoKeepsMutex(s: System, id: nat, ok: bool)
    requires MutexInv(s) && CanGo(s, id, ok)
    ensures MutexInv(Advance(s, id, ok))
  {
    var pc := s.threads[id];
    assert Held(NextPc(pc, s.fields, ok)) <==> Locks(pc) || (Held(pc) && !Unlocks(pc));
  }

  lemma GoKeepsPasses(s: System, id: nat, ok: bool)
    requires MutexInv(s) && PassInv(s) && CanGo(s, id, ok) && (s.threads[id].CloseCancel? ==> s.fields.closed)
    ensures PassInv(Advance(s, id, ok))
  {
    var pc, s' := s.threads[id], Advance(s, id, ok);
    assert Counted(s'.threads[id]) <==> pc.ReconnectAdd? || (Counted(pc) && !pc.PassDone?);
    assert s'.threads[id].ReconnectAdd? ==> pc.ReconnectTest? && !s.fields.closed;
    if pc.PassDone? {
      assert id in s.admitted;
    }
    if pc.CloseTest? {
      assert s.mu == Some(id);
    }
  }

  lemma GoKeepsClosing(s: System, id: nat, ok: bool)
    requires CloseInv(s) && CanGo(s, id, ok)
    ensures CloseInv(Advance(s, id, ok))
  {
    var pc, s' := s.threads[id], Advance(s, id, ok);
    assert Winner(s'.threads[id]) ==> Winner(pc) || (pc.CloseTest? && !s.fields.closed);
    assert s'.threads[id].CloseClient? ==> pc.CloseWait? && s.done;
    assert s.fields.closed ==> s'.fields.closed;
    assert pc.CloseClient? ==> Winner(pc) && !Winner(s'.threads[id]);
  }

  lemma GoKeepsStart(s: System, id: nat, ok: bool)
    requires StartInv(s) && CanGo(s, id, ok)
    ensures StartInv(Advance(s, id, ok))
  {
    var pc, s' := s.threads[id], Advance(s, id, ok);
    assert Starter(s'.threads[id]) ==> pc.StartTest? && !s.fields.started;
    assert s.fields.started ==> s'.fields.started;
  }

  lemma StepKeepsInv(s: System, l: Label)
    requires Inv(s) && Step(s, l).Some?
    ensures Inv(Step(s, l).value)
  {
    match l
    case Go(id, ok) =>
      GoKeepsMutex(s, id, ok);
      assert s.threads[id].CloseCancel? ==> Winner(s.threads[id]);
      GoKeepsPasses(s, id, ok);
      GoKeepsClosing(s, id, ok);
      GoKeepsStart(s, id, ok);
    case Begin(id, pc) =>
    case WaitReturns =>
      assert s.admitted == {};
  }

  lemma {:induction false} RunsKeepInv(ls: seq<Label>)
    requires Run(INIT, ls).Some?
    ensures Inv(Run(INIT, ls).value)
  {
    if ls != [] {
      RunsKeepInv(ls[..|ls| - 1]);
      StepKeepsInv(Run(INIT, ls[..|ls| - 1]).value, ls[|ls| - 1]);
    }
  }

  /** Shutdown safety. Once closed is set no reconnect pass is admitted and the WaitGroup is never
      incremented; Wait only begins after closed is set and the passes are cancelled; and when client.Close is called, and ever
      after, no admitted pass is running. */
  lemma ShutdownSafety(ls: seq<Label>, s: System, l: Label)
    requires Run(INIT, ls) == Some(s) && Step(s, l).Some?
    ensures
      var s' := Step(s, l).value;
      && (s.fields.closed ==> s'.admitted <= s.admitted && s'.fields.wg <= s.fields.wg)
      && (s'.waiting ==> s'.fields.closed && s'.cancelled)
      && (s'.clientCloses > 0 ==>
            s.admitted == {} && s'.admitted == {} && forall i | i in s'.threads :: !Counted(s'.threads[i]))
  {
    RunsKeepInv(ls);
    StepKeepsInv(s, l);
    if s.fields.closed && l.Go? {
      assert !s.threads[l.id].ReconnectAdd?;
    }
  }

  lemma FlagsMoveForward(s: System, l: Label)
    requires Step(s, l).Some?
    ensures
      var s' := Step(s, l).value;
      && (s.fields.started ==> s'.fields.started) && (s.fields.closed ==> s'.fields.closed)
      && (s.cancelled ==> s'.cancelled) && (s.done ==> s'.done)
      && (s'.fields.started && !s.fields.started ==> !s.fields.closed)
  {
  }

  /** Single use: the body of Start runs at most once, and never if closed was set first; client.Close
      is called at most once; the flags only move forward. */
  lemma SingleUse(ls: seq<Label>, s: System, l: Label)
    requires Run(INIT, ls) == Some(s) && Step(s, l).Some?
    ensures
      var s' := Step(s, l).value;
      && s'.bodies <= 1 && s'.clientCloses <= 1
      && (s.fields.started ==> s'.fields.started) && (s.fields.closed ==> s'.fields.closed)
      && (s.cancelled ==> s'.cancelled) && (s.done ==> s'.done)
      && (s'.fields.started && !s.fields.started ==> !s.fields.closed)
      && (s'.bodies > 0 ==> s'.fields.started)
  {
    RunsKeepInv(ls);
    StepKeepsInv(s, l);
    FlagsMoveForward(s, l);
  }

  /** closed is set, the goroutine that set it has given up or finished, so nobody is closing any more. */
  predicate Abandoned(s: System) {
    s.fields.closed && forall i | i in s.threads :: !Winner(s.threads[i])
  }

  /** A Close that times out leaves the client open for good: later Closes return nil at once. */
  lemma {:induction false} TimedOutCloseIsFinal(s: System, ls: seq<Label>)
    requires Abandoned(s) && Run(s, ls).Some?
    ensures Abandoned(Run(s, ls).value) && Run(s, ls).value.clientCloses == s.clientCloses
  {
    if ls != [] {
      TimedOutCloseIsFinal(s, ls[..|ls| - 1]);
    }
  }

  /** Where a Close stands that finds the runtime closed. */
  predicate ClosesInVain(pc: Pc) {
    pc == CloseLock(false) || pc == CloseTest(false) || pc == CloseUnlock(false, true) || pc == Finished(true)
  }

  lemma StepStaysInVain(s: System, l: Label, id: nat)
    requires s.fields.closed && id in s.threads && ClosesInVain(s.threads[id]) && Step(s, l).Some?
    ensures id in Step(s, l).value.threads && ClosesInVain(Step(s, l).value.threads[id])
  {
  }

  /** Every Close that is called after a Close has timed out returns nil, having done nothing. */
  lemma {:induction false} LaterClosesReturnNil(s: System, ls: seq<Label>, id: nat)
    requires Abandoned(s) && id in s.threads && ClosesInVain(s.threads[id]) && Run(s, ls).Some?
    ensures id in Run(s, ls).value.threads && ClosesInVain(Run(s, ls).value.threads[id])
  {
    if ls != [] {
      LaterClosesReturnNil(s, ls[..|ls| - 1], id);
      TimedOutCloseIsFinal(s, ls[..|ls| - 1]);
      StepStaysInVain(Run(s, ls[..|ls| - 1]).value, ls[|ls| - 1], id);
    }
  }

  lemma TimeoutAbandons(ls: seq<Label>, s: System, id: nat)
    requires Run(INIT, ls) == Some(s) && id in s.threads && s.threads[id].CloseWait?
    ensures CanGo(s, id, false) && Abandoned(Advance(s, id, false)) && Advance(s, id, false).clientCloses == 0
  {
    RunsKeepInv(ls);
  }

  /** In every reachable state with an unfinished goroutine, some goroutine can move, counting the
      timeout in Close. */
  lemma NoDeadlock(ls: seq<Label>, s: System, id: nat) returns (mover: nat)
    requires Run(INIT, ls) == Some(s) && id in s.threads && !s.threads[id].Finished?
    ensures CanGo(s, mover, false)
  {
    RunsKeepInv(ls);
    mover := if s.mu.Some? then s.mu.value else id;
  }

  /** How many more steps of its own a goroutine can make. */
  function Remaining(pc: Pc): nat {
    match pc
    case ReconnectLock => 6
    case ReconnectTest => 5
    case ReconnectAdd => 4
    case ReconnectUnlock => 3
    case ReconnectRefuse => 3
    case Pass => 2
    case PassDone => 1
    case StartLock(_) => 14
    case StartTest(_) => 13
    case StartUnlock(_, _) => 12
    case StartHandlers(_) => 11
    case StartClient(_) => 10
    case StartStatus(_) => 9
    case StartReconcile(_) => 8
    case AwaitShutdown => 7
    case CloseLock(_) => 6
    case CloseTest(_) => 5
    case CloseUnlock(_, _) => 4
    case CloseCancel(_) => 3
    case CloseWait(_) => 2
    case CloseClient(_) => 1
    case Finished(_) => 0
  }

  /** Every step brings its goroutine closer to the end and leaves the others where they are; with
      NoDeadlock, every call returns once its turn keeps coming. */
  lemma StepsMakeProgress(s: System, id: nat, ok: bool)
    requires CanGo(s, id, ok)
    ensures Remaining(Advance(s, id, ok).threads[id]) < Remaining(s.threads[id])
    ensures forall i | i in s.threads && i != id :: Advance(s, id, ok).threads[i] == s.threads[i]
  {
  }
}
