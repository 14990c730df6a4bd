// What Start, Run, Close and a reconnect callback do, told from beginning to end. The goroutines of
// every schedule do exactly that.

module LifecycleMeaning {
  import opened Wrappers
  import opened Lifecycle

  /** One step of a goroutine: where it stood, the guarded fields as it found them, and how it ended. */
  datatype Turn = Turn(pc: Pc, seen: Fields, ok: bool)

  /** Where a goroutine that stood at pc stands after these turns; None if it would not have made them. */
  function After(pc: Pc, turns: seq<Turn>): Option<Pc>
    decreases |turns|
  {
    if turns == [] then Some(pc)
    else if pc.Finished? || turns[0].pc != pc then None
    else After(NextPc(pc, turns[0].seen, turns[0].ok), turns[1..])
  }

  /** How goroutine id began in a schedule. */
  function EntryOf(id: nat, ls: seq<Label>): Option<Pc> {
    if ls == [] then None
    else
      var l := ls[|ls| - 1];
      if l.Begin? && l.id == id then Some(l.pc) else EntryOf(id, ls[..|ls| - 1])
  }

  /** The turns that it takes. */
  function TurnsOf(id: nat, ls: seq<Label>): seq<Turn> {
    if ls == [] then []
    else
      var init, l := ls[..|ls| - 1], ls[|ls| - 1];
      var before := Run(INIT, init);
      if before.Some? && l.Go? && l.id == id && id in before.value.threads
      then TurnsOf(id, init) + [Turn(before.value.threads[id], before.value.fields, l.ok)]
      else TurnsOf(id, init)
  }

  lemma {:induction false} AfterSnoc(pc: Pc, turns: seq<Turn>, t: Turn)
    ensures After(pc, turns + [t]) ==
            var q := After(pc, turns);
            if q.Some? && !q.value.Finished? && t.pc == q.value then Some(NextPc(q.value, t.seen, t.ok)) else None
    decreases |turns|
  {
    if turns == [] {
      assert (turns + [t])[1..] == [];
    } else if !pc.Finished? && turns[0].pc == pc {
      AfterSnoc(NextPc(pc, turns[0].seen, turns[0].ok), turns[1..], t);
      assert (turns + [t])[1..] == turns[1..] + [t];
    }
  }

  /** In every schedule a goroutine stands where its own turns have brought it. */
  lemma {:induction false} ProjectionsAreCalls(ls: seq<Label>, s: System, id: nat)
    requires Run(INIT, ls) == Some(s)
    ensures id in s.threads ==> EntryOf(id, ls).Some? && Callable(EntryOf(id, ls).value)
    ensures id in s.threads ==> After(EntryOf(id, ls).value, TurnsOf(id, ls)) == Some(s.threads[id])
    ensures id !in s.threads ==> TurnsOf(id, ls) == []
  {
    if ls != [] {
      var init, l := ls[..|ls| - 1], ls[|ls| - 1];
      var before := Run(INIT, init).value;
      ProjectionsAreCalls(init, before, id);
      if l.Go? && l.id == id {
        AfterSnoc(EntryOf(id, init).value, TurnsOf(id, init), Turn(before.threads[id], before.fields, l.ok));
      }
    }
  }

  predicate Takes(turns: seq<Turn>, pc: Pc) {
    |turns| > 0 && turns[0].pc == pc
  }

  /** This turn is the last one. */
  predicate Last(turns: seq<Turn>, pc: Pc) {
    |turns| == 1 && Takes(turns, pc)
  }

  /** What client.Close answers is the answer, unless this was the cleanup of a failed start. */
  predicate ShutsAs(failed: bool, turns: seq<Turn>, ok: bool) {
    Last(turns, CloseClient(failed)) && ok == (turns[0].ok && !failed)
  }

  /** Only a wait that ends in time leads to client.Close. */
  predicate AwaitsAs(failed: bool, turns: seq<Turn>, ok: bool) {
    Takes(turns, CloseWait(failed)) && if turns[0].ok then ShutsAs(failed, turns[1..], ok) else !ok && |turns| == 1
  }

  predicate CancelsAs(failed: bool, turns: seq<Turn>, ok: bool) {
    Takes(turns, CloseCancel(failed)) && AwaitsAs(failed, turns[1..], ok)
  }

  /** A Close that finds closed set is over. */
  predicate MarksAs(failed: bool, turns: seq<Turn>, ok: bool) {
    && Takes(turns, CloseTest(failed))
    && Takes(turns[1..], CloseUnlock(failed, turns[0].seen.closed))
    && if turns[0].seen.closed then |turns| == 2 && ok == !failed else CancelsAs(failed, turns[2..], ok)
  }

  predicate ClosesAs(failed: bool, turns: seq<Turn>, ok: bool) {
    Takes(turns, CloseLock(failed)) && MarksAs(failed, turns[1..], ok)
  }

  /** Run waits for the shutdown and closes; its answer is that of the Close. */
  predicate WaitsAs(turns: seq<Turn>, ok: bool)
    decreases |turns|, 0
  {
    Takes(turns, AwaitShutdown) && DoesAs(CloseLock(false), turns[1..], ok)
  }

  /** Whatever the reconcile answers, the start has succeeded. */
  predicate ReconcilesAs(run: bool, turns: seq<Turn>, ok: bool)
    decreases |turns|, 0
  {
    Takes(turns, StartReconcile(run)) && if run then WaitsAs(turns[1..], ok) else |turns| == 1 && ok
  }

  /** If the startup status is not accepted, the runtime is closed and the start has failed. */
  predicate AnnouncesAs(run: bool, turns: seq<Turn>, ok: bool)
    decreases |turns|, 0
  {
    && Takes(turns, StartStatus(run))
    && if turns[0].ok then ReconcilesAs(run, turns[1..], ok) else DoesAs(CloseLock(true), turns[1..], ok)
  }

  predicate OpensAs(run: bool, turns: seq<Turn>, ok: bool)
    decreases |turns|, 0
  {
    Takes(turns, StartClient(run)) && if turns[0].ok then AnnouncesAs(run, turns[1..], ok) else !ok && |turns| == 1
  }

  predicate RegistersAs(run: bool, turns: seq<Turn>, ok: bool)
    decreases |turns|, 0
  {
    Takes(turns, StartHandlers(run)) && if turns[0].ok then OpensAs(run, turns[1..], ok) else !ok && |turns| == 1
  }

  /** Granted means that neither flag was set; a refusal for being closed comes first. */
  predicate TestsAs(run: bool, turns: seq<Turn>, ok: bool)
    decreases |turns|, 0
  {
    && Takes(turns, StartTest(run))
    && var f := turns[0].seen;
       if !f.closed && !f.started
       then Takes(turns[1..], StartUnlock(run, Granted)) && RegistersAs(run, turns[2..], ok)
       else !ok && Last(turns[1..], StartUnlock(run, if f.closed then AlreadyClosed else AlreadyStarted))
  }

  /** A whole Start, or Run. */
  predicate StartsAs(run: bool, turns: seq<Turn>, ok: bool)
    decreases |turns|, 0
  {
    Takes(turns, StartLock(run)) && TestsAs(run, turns[1..], ok)
  }

  predicate CountsAs(turns: seq<Turn>, ok: bool) {
    Takes(turns, Pass) && Last(turns[1..], PassDone) && ok
  }

  predicate AddsAs(turns: seq<Turn>, ok: bool) {
    Takes(turns, ReconnectAdd) && Takes(turns[1..], ReconnectUnlock) && CountsAs(turns[2..], ok)
  }

  /** A whole reconnect callback with its pass, if closed is not set. */
  predicate ReconnectsAs(turns: seq<Turn>, ok: bool) {
    && Takes(turns, ReconnectLock)
    && Takes(turns[1..], ReconnectTest)
    && if turns[1].seen.closed then Last(turns[2..], ReconnectRefuse) && ok else AddsAs(turns[2..], ok)
  }

  /** What begins like this does all this. */
  predicate DoesAs(entry: Pc, turns: seq<Turn>, ok: bool)
    decreases |turns|, 1
  {
    match entry
    case StartLock(run) => StartsAs(run, turns, ok)
    case CloseLock(failed) => ClosesAs(failed, turns, ok)
    case ReconnectLock => ReconnectsAs(turns, ok)
    case _ => false
  }

  /** From pc, these turns bring the goroutine to its end. */
  predicate Ends(pc: Pc, turns: seq<Turn>, ok: bool) {
    After(pc, turns) == Some(Finished(ok))
  }

  lemma EndsCons(pc: Pc, turns: seq<Turn>, ok: bool)
    ensures pc.Finished? ==> (Ends(pc, turns, ok) <==> turns == [] && pc.ok == ok)
    ensures !pc.Finished? ==>
              (Ends(pc, turns, ok) <==> Takes(turns, pc) && Ends(NextPc(pc, turns[0].seen, turns[0].ok), turns[1..], ok))
  {
  }

  lemma LastIff(pc: Pc, turns: seq<Turn>, ok: bool)
    requires !pc.Finished? && (turns != [] ==> NextPc(pc, turns[0].seen, turns[0].ok).Finished?)
    ensures Ends(pc, turns, ok) <==> Last(turns, pc) && NextPc(pc, turns[0].seen, turns[0].ok) == Finished(ok)
  {
    if turns != [] {
      EndsCons(NextPc(pc, turns[0].seen, turns[0].ok), turns[1..], ok);
    }
  }

  lemma AwaitsIff(failed: bool, turns: seq<Turn>, ok: bool)
    ensures Ends(CloseWait(failed), turns, ok) <==> AwaitsAs(failed, turns, ok)
  {
    EndsCons(CloseWait(failed), turns, ok);
    if Takes(turns, CloseWait(failed)) {
      if turns[0].ok { LastIff(CloseClient(failed), turns[1..], ok); } else { LastIff(CloseWait(failed), turns, ok); }
    }
  }

  lemma CancelsIff(failed: bool, turns: seq<Turn>, ok: bool)
    ensures Ends(CloseCancel(failed), turns, ok) <==> CancelsAs(failed, turns, ok)
  {
    EndsCons(CloseCancel(failed), turns, ok);
    if Takes(turns, CloseCancel(failed)) {
      AwaitsIff(failed, turns[1..], ok);
    }
  }

  lemma MarksIff(failed: bool, turns: seq<Turn>, ok: bool)
    ensures Ends(CloseTest(failed), turns, ok) <==> MarksAs(failed, turns, ok)
  {
    EndsCons(CloseTest(failed), turns, ok);
    if Takes(turns, CloseTest(failed)) {
      var already := turns[0].seen.closed;
      EndsCons(CloseUnlock(failed, already), turns[1..], ok);
      if Takes(turns[1..], CloseUnlock(failed, already)) {
        assert turns[1..][1..] == turns[2..];
        if already {
          EndsCons(Finished(!failed), turns[2..], ok);
        } else {
          CancelsIff(failed, turns[2..], ok);
        }
      }
    }
  }

  lemma ClosesIff(failed: bool, turns: seq<Turn>, ok: bool)
    ensures Ends(CloseLock(failed), turns, ok) <==> ClosesAs(failed, turns, ok)
  {
    EndsCons(CloseLock(failed), turns, ok);
    if Takes(turns, CloseLock(failed)) {
      MarksIff(failed, turns[1..], ok);
    }
  }

  lemma WaitsIff(turns: seq<Turn>, ok: bool)
    ensures Ends(AwaitShutdown, turns, ok) <==> WaitsAs(turns, ok)
  {
    EndsCons(AwaitShutdown, turns, ok);
    if Takes(turns, AwaitShutdown) {
      ClosesIff(false, turns[1..], ok);
    }
  }

  lemma ReconcilesIff(run: bool, turns: seq<Turn>, ok: bool)
    ensures Ends(StartReconcile(run), turns, ok) <==> ReconcilesAs(run, turns, ok)
  {
    EndsCons(StartReconcile(run), turns, ok);
    if Takes(turns, StartReconcile(run)) {
      if run { WaitsIff(turns[1..], ok); } else { LastIff(StartReconcile(run), turns, ok); }
    }
  }

  lemma AnnouncesIff(run: bool, turns: seq<Turn>, ok: bool)
    ensures Ends(StartStatus(run), turns, ok) <==> AnnouncesAs(run, turns, ok)
  {
    EndsCons(StartStatus(run), turns, ok);
    if Takes(turns, StartStatus(run)) {
      if turns[0].ok { ReconcilesIff(run, turns[1..], ok); } else { ClosesIff(true, turns[1..], ok); }
    }
  }

  lemma OpensIff(run: bool, turns: seq<Turn>, ok: bool)
    ensures Ends(StartClient(run), turns, ok) <==> OpensAs(run, turns, ok)
  {
    EndsCons(StartClient(run), turns, ok);
    if Takes(turns, StartClient(run)) {
      if turns[0].ok { AnnouncesIff(run, turns[1..], ok); } else { LastIff(StartClient(run), turns, ok); }
    }
  }

  lemma RegistersIff(run: bool, turns: seq<Turn>, ok: bool)
    ensures Ends(StartHandlers(run), turns, ok) <==> RegistersAs(run, turns, ok)
  {
    EndsCons(StartHandlers(run), turns, ok);
    if Takes(turns, StartHandlers(run)) {
      if turns[0].ok { OpensIff(run, turns[1..], ok); } else { LastIff(StartHandlers(run), turns, ok); }
    }
  }

  lemma TestsIff(run: bool, turns: seq<Turn>, ok: bool)
    ensures Ends(StartTest(run), turns, ok) <==> TestsAs(run, turns, ok)
  {
    EndsCons(StartTest(run), turns, ok);
    if Takes(turns, StartTest(run)) {
      var f := turns[0].seen;
      if !f.closed && !f.started {
        EndsCons(StartUnlock(run, Granted), turns[1..], ok);
        if turns[1..] != [] {
          assert turns[1..][1..] == turns[2..];
          RegistersIff(run, turns[2..], ok);
        }
      } else {
        LastIff(StartUnlock(run, if f.closed then AlreadyClosed else AlreadyStarted), turns[1..], ok);
      }
    }
  }

  lemma StartsIff(run: bool, turns: seq<Turn>, ok: bool)
    ensures Ends(StartLock(run), turns, ok) <==> StartsAs(run, turns, ok)
  {
    EndsCons(StartLock(run), turns, ok);
    if Takes(turns, StartLock(run)) {
      TestsIff(run, turns[1..], ok);
    }
  }

  lemma CountsIff(turns: seq<Turn>, ok: bool)
    ensures Ends(Pass, turns, ok) <==> CountsAs(turns, ok)
  {
    EndsCons(Pass, turns, ok);
    if Takes(turns, Pass) {
      LastIff(PassDone, turns[1..], ok);
    }
  }

  lemma AddsIff(turns: seq<Turn>, ok: bool)
    ensures Ends(ReconnectAdd, turns, ok) <==> AddsAs(turns, ok)
  {
    EndsCons(ReconnectAdd, turns, ok);
    if Takes(turns, ReconnectAdd) {
      EndsCons(ReconnectUnlock, turns[1..], ok);
      if turns[1..] != [] {
        assert turns[1..][1..] == turns[2..];
        CountsIff(turns[2..], ok);
      }
    }
  }

  lemma ReconnectsIff(turns: seq<Turn>, ok: bool)
    ensures Ends(ReconnectLock, turns, ok) <==> ReconnectsAs(turns, ok)
  {
    EndsCons(ReconnectLock, turns, ok);
    if Takes(turns, ReconnectLock) {
      EndsCons(ReconnectTest, turns[1..], ok);
      if Takes(turns[1..], ReconnectTest) {
        assert turns[1..][1..] == turns[2..];
        if turns[1].seen.closed { LastIff(ReconnectRefuse, turns[2..], ok); } else { AddsIff(turns[2..], ok); }
      }
    }
  }

  /** The executions of a goroutine are exactly those. */
  lemma GoroutinesIff(entry: Pc, turns: seq<Turn>, ok: bool)
    requires Callable(entry)
    ensures After(entry, turns) == Some(Finished(ok)) <==> DoesAs(entry, turns, ok)
  {
    match entry
    case StartLock(run) => StartsIff(run, turns, ok);
    case CloseLock(failed) => ClosesIff(failed, turns, ok);
    case ReconnectLock => ReconnectsIff(turns, ok);
  }

  /** So every goroutine that has finished in a schedule has done as told. */
  lemma GoroutinesDoAsTold(ls: seq<Label>, s: System, id: nat, ok: bool)
    requires Run(INIT, ls) == Some(s) && id in s.threads && s.threads[id] == Finished(ok)
    ensures EntryOf(id, ls).Some? && DoesAs(EntryOf(id, ls).value, TurnsOf(id, ls), ok)
  {
    ProjectionsAreCalls(ls, s, id);
    GoroutinesIff(EntryOf(id, ls).value, TurnsOf(id, ls), ok);
  }
}
