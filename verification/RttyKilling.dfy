// What KillExisting's answer means, over all schedules: told from the steps that the calls made.

module RttyKilling {
  import opened Wrappers
  import opened Rtty
  import opened RttySafety

  /** The child that call id found in the fields when it took mu in KillExisting. */
  function Taken(ls: seq<Label>, id: nat): Option<nat> {
    if ls == [] then None
    else
      var init, l := ls[..|ls| - 1], ls[|ls| - 1];
      var before := Run(INIT, init);
      if before.Some? && l.Go? && l.id == id && id in before.value.calls && before.value.calls[id].KillTake?
      then before.value.fields.cmd else Taken(init, id)
  }

  /** A KillExisting ends here without having seen the exit of its child: the 500 ms after SIGKILL are
      over, or the context is done. */
  predicate IsGivingUp(s: System, l: Label) {
    && l.Go? && l.id in s.calls
    && (s.calls[l.id].KillCancelled? || (s.calls[l.id].KillConfirm? && !l.choice.Good?))
  }

  /** The calls in which that happened. */
  function GaveUp(ls: seq<Label>): set<nat> {
    if ls == [] then {}
    else
      var init, l := ls[..|ls| - 1], ls[|ls| - 1];
      var before := Run(INIT, init);
      if before.Some? && IsGivingUp(before.value, l) then GaveUp(init) + {l.id} else GaveUp(init)
  }

  /** KillExisting has returned nil. */
  predicate KillDone(pc: Pc) {
    match pc
    case StartLock => true
    case StartSpawn => true
    case StartSetPid(_) => true
    case StartSetCmd(_) => true
    case StartSetDone(_) => true
    case StartReaper(_) => true
    case StartWatch(_) => true
    case StartUnlock(_) => true
    case ExecUnlock(ok) => ok
    case Returned(ok) => ok
    case _ => false
  }

  /** The child, if there was one, was sent SIGTERM and has exited, and its channel has said so. */
  predicate Gone(s: System, taken: Option<nat>) {
    taken.Some? ==>
      && taken.value in s.terminated
      && taken.value < |s.children| && !s.children[taken.value].alive && taken.value in s.closed
  }

  predicate TakenInv(s: System, taken: Option<nat>, pc: Pc) {
    match pc
    case KillClearCmd(cmd, done) => cmd == done == taken
    case KillClearDone(cmd, done) => cmd == done == taken
    case KillClearPid(cmd, done) => cmd == done == taken
    case KillUnlock(cmd, done) => cmd == done == taken
    case KillTerm(h, done) => Some(h) == done == taken
    case KillWait(h, done) => Some(h) == done == taken
    case KillForce(h, done) => Some(h) == done == taken
    case KillConfirm(h, done) => Some(h) == done == taken
    case KillCancelled(h) => Some(h) == taken
    case _ => KillDone(pc) ==> Gone(s, taken)
  }

  lemma ClosedChildIsGone(s: System, h: nat)
    requires ChildInv(s) && h in s.closed
    ensures h < |s.children| && !s.children[h].alive
  {
    assert ExitSent(s, h);
  }

  lemma GoKeepsTaken(s: System, id: nat, choice: Choice, pid: nat, taken: Option<nat>)
    requires Inv(s) && CanGo(s, id, choice, pid) && TakenInv(s, taken, s.calls[id])
    ensures
      var s' := Advance(s, id, choice, pid);
      TakenInv(s', if s.calls[id].KillTake? then s.fields.cmd else taken, s'.calls[id])
  {
    var pc := s.calls[id];
    assert CallInv(s, pc);
    GoChildren(s, id, choice, pid);
    if (pc.KillWait? || pc.KillConfirm?) && choice.Good? {
      ClosedChildIsGone(s, pc.done.value);
    }
  }

  lemma StepKeepsGone(s: System, l: Label, taken: Option<nat>)
    requires Inv(s) && Step(s, l).Some? && Gone(s, taken)
    ensures Gone(Step(s, l).value, taken)
  {
    if l.Go? {
      GoChildren(s, l.id, l.choice, l.pid);
    }
  }

  lemma {:induction false} CallsKeepTaken(ls: seq<Label>, s: System, id: nat)
    requires Run(INIT, ls) == Some(s) && id in s.calls
    ensures TakenInv(s, Taken(ls, id), s.calls[id])
  {
    if ls != [] {
      var init, l := ls[..|ls| - 1], ls[|ls| - 1];
      var before := Run(INIT, init).value;
      RunsKeepInv(init);
      if id in before.calls {
        CallsKeepTaken(init, before, id);
        if l.Go? && l.id == id {
          GoKeepsTaken(before, id, l.choice, l.pid, Taken(init, id));
        } else if KillDone(s.calls[id]) {
          StepKeepsGone(before, l, Taken(init, id));
        }
      }
    }
  }

  /** A call that goes on to Start found no child in the fields, or one that has been sent SIGTERM and
      has exited. */
  lemma StartNeedsTheExit(ls: seq<Label>, s: System, id: nat)
    requires Run(INIT, ls) == Some(s) && id in s.calls && KillDone(s.calls[id])
    ensures Taken(ls, id).Some? ==>
              var h := Taken(ls, id).value;
              h in s.terminated && h < |s.children| && !s.children[h].alive && h in s.closed
  {
    CallsKeepTaken(ls, s, id);
  }

  /** Either wait of KillExisting can end with the exit if and only if the channel of the child that was
      found is closed. */
  lemma WaitsSeeTheExit(ls: seq<Label>, s: System, id: nat, pid: nat)
    requires Run(INIT, ls) == Some(s) && id in s.calls && (s.calls[id].KillWait? || s.calls[id].KillConfirm?)
    ensures Taken(ls, id).Some? && (CanGo(s, id, Good, pid) <==> Taken(ls, id).value in s.closed)
  {
    CallsKeepTaken(ls, s, id);
  }

  /** These calls have failed, or are about to. */
  predicate Failing(s: System, ids: set<nat>) {
    forall id | id in ids :: id in s.calls && (s.calls[id] == ExecUnlock(false) || s.calls[id] == Returned(false))
  }

  lemma StepKeepsFailing(s: System, l: Label, ids: set<nat>)
    requires Step(s, l).Some? && Failing(s, ids)
    ensures Failing(Step(s, l).value, if IsGivingUp(s, l) then ids + {l.id} else ids)
    ensures IsGivingUp(s, l) ==> l.id !in ids
  {
  }

  lemma StepCountsErrors(s: System, l: Label)
    requires Step(s, l).Some?
    ensures Step(s, l).value.killErrors == s.killErrors + if IsGivingUp(s, l) then 1 else 0
  {
  }

  /** A call that gave up starts nothing and fails, and killErrors counts those calls. */
  lemma {:induction false} GivingUpFails(ls: seq<Label>, s: System)
    requires Run(INIT, ls) == Some(s)
    ensures Failing(s, GaveUp(ls)) && s.killErrors == |GaveUp(ls)|
  {
    if ls != [] {
      var init, l := ls[..|ls| - 1], ls[|ls| - 1];
      var before := Run(INIT, init).value;
      GivingUpFails(init, before);
      StepKeepsFailing(before, l, GaveUp(init));
      StepCountsErrors(before, l);
    }
  }

  /** Every child that was given up on was found by such a call. */
  lemma {:induction false} OrphansWereGivenUp(ls: seq<Label>, s: System, h: nat) returns (id: nat)
    requires Run(INIT, ls) == Some(s) && h in s.orphans
    ensures id in GaveUp(ls) && Taken(ls, id) == Some(h)
  {
    var init, l := ls[..|ls| - 1], ls[|ls| - 1];
    var before := Run(INIT, init).value;
    if h in before.orphans {
      id := OrphansWereGivenUp(init, before, h);
      GivingUpFails(init, before);
    } else {
      id := l.id;
      CallsKeepTaken(init, before, id);
    }
  }
}
