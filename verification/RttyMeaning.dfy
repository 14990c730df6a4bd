// What Execute does, told from beginning to end. The calls of every schedule have exactly these
// executions.

module RttyMeaning {
  import opened Wrappers
  import opened Rtty

  /** One step of a call: where it stood, the fields it saw, how the step ended, and the handle of the
      child that it made if it made one. */
  datatype Turn = Turn(pc: Pc, seen: Fields, choice: Choice, spawned: nat)

  /** Where a call that stood at pc stands after these turns; None if it would not have made them. */
  function After(pc: Pc, turns: seq<Turn>): Option<Pc>
    decreases |turns|
  {
    if turns == [] then Some(pc)
    else if pc.Returned? || turns[0].pc != pc then None
    else After(NextPc(pc, turns[0].seen, turns[0].choice, turns[0].spawned), turns[1..])
  }

  /** The turns that call id takes in a schedule. */
  function TurnsOf(id: nat, ls: seq<Label>): seq<Turn> {
    if ls == [] then []
    else
      var init, l := ls[..|ls| - 1], ls[|ls| - 1];
      var before := Run(INIT, init);
      if before.Some? && l.Go? && l.id == id && CanGo(before.value, id, l.choice, l.pid)
      then TurnsOf(id, init) + [Turn(before.value.calls[id], before.value.fields, l.choice, |before.value.children|)]
      else TurnsOf(id, init)
  }

  lemma {:induction false} AfterSnoc(pc: Pc, turns: seq<Turn>, t: Turn)
    ensures After(pc, turns + [t]) ==
            var q := After(pc, turns);
            if q.Some? && !q.value.Returned? && t.pc == q.value then Some(NextPc(q.value, t.seen, t.choice, t.spawned)) else None
    decreases |turns|
  {
    if turns == [] {
      assert (turns + [t])[1..] == [];
    } else if !pc.Returned? && turns[0].pc == pc {
      AfterSnoc(NextPc(pc, turns[0].seen, turns[0].choice, turns[0].spawned), turns[1..], t);
      assert (turns + [t])[1..] == turns[1..] + [t];
    }
  }

  /** In every schedule a call stands where its own turns have brought it. */
  lemma {:induction false} ProjectionsAreCalls(ls: seq<Label>, s: System, id: nat)
    requires Run(INIT, ls) == Some(s)
    ensures id in s.calls ==> After(ExecLock, TurnsOf(id, ls)) == Some(s.calls[id])
    ensures id !in s.calls ==> TurnsOf(id, ls) == []
  {
    if ls != [] {
      var init, l := ls[..|ls| - 1], ls[|ls| - 1];
      var before := Run(INIT, init).value;
      ProjectionsAreCalls(init, before, id);
      if l.Go? && l.id == id {
        AfterSnoc(ExecLock, TurnsOf(id, init), Turn(before.calls[id], before.fields, l.choice, |before.children|));
      }
    }
  }

  predicate Takes(turns: seq<Turn>, pc: Pc) {
    |turns| > 0 && turns[0].pc == pc
  }

  /** The executor's mutex is given back, and that is all. */
  predicate LeavesAs(turns: seq<Turn>, ok: bool) {
    |turns| == 1 && Takes(turns, ExecUnlock(ok))
  }

  predicate UnlocksAs(turns: seq<Turn>, ok: bool) {
    Takes(turns, StartUnlock(ok)) && LeavesAs(turns[1..], ok)
  }

  /** Start succeeds if and only if no exit is seen within 50 ms. */
  predicate WatchesAs(h: nat, turns: seq<Turn>, ok: bool) {
    Takes(turns, StartWatch(h)) && ok == turns[0].choice.Good? && UnlocksAs(turns[1..], ok)
  }

  /** Before that the child gets its reaper, */
  predicate ReapsAs(h: nat, turns: seq<Turn>, ok: bool) {
    Takes(turns, StartSetDone(h)) && Takes(turns[1..], StartReaper(h)) && WatchesAs(h, turns[2..], ok)
  }

  predicate NamesAs(h: nat, turns: seq<Turn>, ok: bool) {
    Takes(turns, StartSetCmd(h)) && ReapsAs(h, turns[1..], ok)
  }

  /** and is recorded in all three fields. */
  predicate RecordsAs(h: nat, turns: seq<Turn>, ok: bool) {
    Takes(turns, StartSetPid(h)) && NamesAs(h, turns[1..], ok)
  }

  predicate StartsAs(turns: seq<Turn>, ok: bool) {
    && Takes(turns, StartLock)
    && Takes(turns[1..], StartSpawn)
    && if turns[1].choice.Good? then RecordsAs(turns[1].spawned, turns[2..], ok)
       else !ok && UnlocksAs(turns[2..], false)
  }

  /** SIGKILL; only an exit seen after it lets Start begin. */
  predicate ForcesAs(h: nat, done: Option<nat>, turns: seq<Turn>, ok: bool) {
    && Takes(turns, KillForce(h, done))
    && Takes(turns[1..], KillConfirm(h, done))
    && if turns[1].choice.Good? then StartsAs(turns[2..], ok) else !ok && LeavesAs(turns[2..], false)
  }

  predicate AbandonsAs(h: nat, turns: seq<Turn>, ok: bool) {
    Takes(turns, KillCancelled(h)) && !ok && LeavesAs(turns[1..], false)
  }

  /** An exit seen after SIGTERM lets Start begin at once. */
  predicate WaitsAs(h: nat, done: Option<nat>, turns: seq<Turn>, ok: bool) {
    Takes(turns, KillWait(h, done)) &&
    match turns[0].choice
    case Good => StartsAs(turns[1..], ok)
    case Timeout => ForcesAs(h, done, turns[1..], ok)
    case Cancelled => AbandonsAs(h, turns[1..], ok)
  }

  predicate StopsAs(h: nat, done: Option<nat>, turns: seq<Turn>, ok: bool) {
    Takes(turns, KillTerm(h, done)) && WaitsAs(h, done, turns[1..], ok)
  }

  /** If no child was there, Start begins at once. */
  predicate FreesAs(cmd: Option<nat>, done: Option<nat>, turns: seq<Turn>, ok: bool) {
    && Takes(turns, KillClearPid(cmd, done))
    && Takes(turns[1..], KillUnlock(cmd, done))
    && if cmd.None? then StartsAs(turns[2..], ok) else StopsAs(cmd.value, done, turns[2..], ok)
  }

  predicate WipesAs(cmd: Option<nat>, done: Option<nat>, turns: seq<Turn>, ok: bool) {
    Takes(turns, KillClearDone(cmd, done)) && FreesAs(cmd, done, turns[1..], ok)
  }

  predicate ClearsAs(cmd: Option<nat>, done: Option<nat>, turns: seq<Turn>, ok: bool) {
    Takes(turns, KillClearCmd(cmd, done)) && WipesAs(cmd, done, turns[1..], ok)
  }

  /** The child that is dealt with is the one in the fields under mu. */
  predicate DetachesAs(turns: seq<Turn>, ok: bool) {
    && Takes(turns, KillLock)
    && Takes(turns[1..], KillTake)
    && ClearsAs(turns[1].seen.cmd, turns[1].seen.done, turns[2..], ok)
  }

  /** A whole Execute call. */
  predicate ExecutesAs(turns: seq<Turn>, ok: bool) {
    && Takes(turns, ExecLock)
    && Takes(turns[1..], Validate)
    && if turns[1].choice.Good? then DetachesAs(turns[2..], ok) else !ok && LeavesAs(turns[2..], false)
  }

  /** From pc, these turns end the call. */
  predicate Ends(pc: Pc, turns: seq<Turn>, ok: bool) {
    After(pc, turns) == Some(Returned(ok))
  }

  lemma EndsCons(pc: Pc, turns: seq<Turn>, ok: bool)
    requires !pc.Returned?
    ensures Ends(pc, turns, ok) <==>
              Takes(turns, pc) && Ends(NextPc(pc, turns[0].seen, turns[0].choice, turns[0].spawned), turns[1..], ok)
  {
  }

  lemma LeavesIff(turns: seq<Turn>, r: bool, ok: bool)
    ensures Ends(ExecUnlock(r), turns, ok) <==> r == ok && LeavesAs(turns, ok)
  {
    EndsCons(ExecUnlock(r), turns, ok);
    if |turns| > 1 {
      assert turns[1..] != [];
    }
  }

  lemma UnlocksIff(turns: seq<Turn>, r: bool, ok: bool)
    ensures Ends(StartUnlock(r), turns, ok) <==> r == ok && UnlocksAs(turns, ok)
  {
    EndsCons(StartUnlock(r), turns, ok);
    if |turns| > 0 {
      LeavesIff(turns[1..], r, ok);
    }
  }

  lemma WatchesIff(h: nat, turns: seq<Turn>, ok: bool)
    ensures Ends(StartWatch(h), turns, ok) <==> WatchesAs(h, turns, ok)
  {
    EndsCons(StartWatch(h), turns, ok);
    if Takes(turns, StartWatch(h)) {
      UnlocksIff(turns[1..], turns[0].choice.Good?, ok);
    }
  }

  lemma ReapsIff(h: nat, turns: seq<Turn>, ok: bool)
    ensures Ends(StartSetDone(h), turns, ok) <==> ReapsAs(h, turns, ok)
  {
    EndsCons(StartSetDone(h), turns, ok);
    if Takes(turns, StartSetDone(h)) {
      EndsCons(StartReaper(h), turns[1..], ok);
      if Takes(turns[1..], StartReaper(h)) {
        assert turns[1..][1..] == turns[2..];
        WatchesIff(h, turns[2..], ok);
      }
    }
  }

  lemma NamesIff(h: nat, turns: seq<Turn>, ok: bool)
    ensures Ends(StartSetCmd(h), turns, ok) <==> NamesAs(h, turns, ok)
  {
    EndsCons(StartSetCmd(h), turns, ok);
    if Takes(turns, StartSetCmd(h)) {
      ReapsIff(h, turns[1..], ok);
    }
  }

  lemma RecordsIff(h: nat, turns: seq<Turn>, ok: bool)
    ensures Ends(StartSetPid(h), turns, ok) <==> RecordsAs(h, turns, ok)
  {
    EndsCons(StartSetPid(h), turns, ok);
    if Takes(turns, StartSetPid(h)) {
      NamesIff(h, turns[1..], ok);
    }
  }

  lemma StartsIff(turns: seq<Turn>, ok: bool)
    ensures Ends(StartLock, turns, ok) <==> StartsAs(turns, ok)
  {
    EndsCons(StartLock, turns, ok);
    if |turns| > 0 {
      EndsCons(StartSpawn, turns[1..], ok);
    }
    if |turns| > 1 {
      assert turns[1..][1..] == turns[2..];
      RecordsIff(turns[1].spawned, turns[2..], ok);
      UnlocksIff(turns[2..], false, ok);
    }
  }

  lemma ForcesIff(h: nat, done: Option<nat>, turns: seq<Turn>, ok: bool)
    ensures Ends(KillForce(h, done), turns, ok) <==> ForcesAs(h, done, turns, ok)
  {
    EndsCons(KillForce(h, done), turns, ok);
    if |turns| > 0 {
      EndsCons(KillConfirm(h, done), turns[1..], ok);
    }
    if |turns| > 1 {
      assert turns[1..][1..] == turns[2..];
      StartsIff(turns[2..], ok);
      LeavesIff(turns[2..], false, ok);
    }
  }

  lemma AbandonsIff(h: nat, turns: seq<Turn>, ok: bool)
    ensures Ends(KillCancelled(h), turns, ok) <==> AbandonsAs(h, turns, ok)
  {
    EndsCons(KillCancelled(h), turns, ok);
    if |turns| > 0 {
      LeavesIff(turns[1..], false, ok);
    }
  }

  lemma WaitsIff(h: nat, done: Option<nat>, turns: seq<Turn>, ok: bool)
    ensures Ends(KillWait(h, done), turns, ok) <==> WaitsAs(h, done, turns, ok)
  {
    EndsCons(KillWait(h, done), turns, ok);
    if Takes(turns, KillWait(h, done)) {
      match turns[0].choice
      case Good => StartsIff(turns[1..], ok);
      case Timeout => ForcesIff(h, done, turns[1..], ok);
      case Cancelled => AbandonsIff(h, turns[1..], ok);
    }
  }

  lemma StopsIff(h: nat, done: Option<nat>, turns: seq<Turn>, ok: bool)
    ensures Ends(KillTerm(h, done), turns, ok) <==> StopsAs(h, done, turns, ok)
  {
    EndsCons(KillTerm(h, done), turns, ok);
    if Takes(turns, KillTerm(h, done)) {
      WaitsIff(h, done, turns[1..], ok);
    }
  }

  lemma FreesIff(cmd: Option<nat>, done: Option<nat>, turns: seq<Turn>, ok: bool)
    ensures Ends(KillClearPid(cmd, done), turns, ok) <==> FreesAs(cmd, done, turns, ok)
  {
    EndsCons(KillClearPid(cmd, done), turns, ok);
    if Takes(turns, KillClearPid(cmd, done)) {
      EndsCons(KillUnlock(cmd, done), turns[1..], ok);
      if Takes(turns[1..], KillUnlock(cmd, done)) {
        assert turns[1..][1..] == turns[2..];
        if cmd.None? { StartsIff(turns[2..], ok); } else { StopsIff(cmd.value, done, turns[2..], ok); }
      }
    }
  }

  lemma WipesIff(cmd: Option<nat>, done: Option<nat>, turns: seq<Turn>, ok: bool)
    ensures Ends(KillClearDone(cmd, done), turns, ok) <==> WipesAs(cmd, done, turns, ok)
  {
    EndsCons(KillClearDone(cmd, done), turns, ok);
    if Takes(turns, KillClearDone(cmd, done)) {
      FreesIff(cmd, done, turns[1..], ok);
    }
  }

  lemma ClearsIff(cmd: Option<nat>, done: Option<nat>, turns: seq<Turn>, ok: bool)
    ensures Ends(KillClearCmd(cmd, done), turns, ok) <==> ClearsAs(cmd, done, turns, ok)
  {
    EndsCons(KillClearCmd(cmd, done), turns, ok);
    if Takes(turns, KillClearCmd(cmd, done)) {
      WipesIff(cmd, done, turns[1..], ok);
    }
  }

  lemma DetachesIff(turns: seq<Turn>, ok: bool)
    ensures Ends(KillLock, turns, ok) <==> DetachesAs(turns, ok)
  {
    EndsCons(KillLock, turns, ok);
    if Takes(turns, KillLock) {
      EndsCons(KillTake, turns[1..], ok);
      if Takes(turns[1..], KillTake) {
        assert turns[1..][1..] == turns[2..];
        ClearsIff(turns[1].seen.cmd, turns[1].seen.done, turns[2..], ok);
      }
    }
  }

  /** The executions of a call are exactly those. */
  lemma ExecutesIff(turns: seq<Turn>, ok: bool)
    ensures After(ExecLock, turns) == Some(Returned(ok)) <==> ExecutesAs(turns, ok)
  {
    EndsCons(ExecLock, turns, ok);
    if |turns| > 0 {
      EndsCons(Validate, turns[1..], ok);
    }
    if |turns| > 1 {
      assert turns[1..][1..] == turns[2..];
      DetachesIff(turns[2..], ok);
      LeavesIff(turns[2..], false, ok);
    }
  }

  /** So every call that has returned in a schedule has done as told. */
  lemma CallsDoAsTold(ls: seq<Label>, s: System, id: nat, ok: bool)
    requires Run(INIT, ls) == Some(s) && id in s.calls && s.calls[id] == Returned(ok)
    ensures ExecutesAs(TurnsOf(id, ls), ok)
  {
    ProjectionsAreCalls(ls, s, id);
    ExecutesIff(TurnsOf(id, ls), ok);
  }
}
