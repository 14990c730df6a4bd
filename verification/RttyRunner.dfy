// RealRTTYProcessRunner and VyOSRTTYExecutor of internal/actions/vyos_rtty.go as imperative code, as
// one goroutine sees them: while mu is free the fields may become anything that other goroutines leave
// behind (RttySafety.Coherence), and a child may exit or not before any timeout.

module RttyRunner {
  import opened Wrappers
  import opened Rtty

  datatype Signal = Term(h: nat) | Kill(h: nat)

  predicate Coherent(f: Fields) {
    f == CLEAR || (f.cmd.Some? && f.pid != 0 && f.done == f.cmd)
  }

  /** What KillExisting may send to the child it found. */
  predicate Escalates(cmd: Option<nat>, signals: seq<Signal>, ok: bool) {
    match cmd
    case None => ok && signals == []
    case Some(h) => signals == [Term(h), Kill(h)] || (ok && signals == [Term(h)])
  }

  /** `at`, or `reaping` in a reaper, is a monitor: where the step machine stands; `kept` are its fields.
      No step counts as made unless the fields are what the machine's step makes of them, and every
      method leaves them as the machine has them. `seen` and `left` are the fields as they were when the
      goroutine last took and gave back mu, `found` is what KillExisting took out of them, `gone` the child
      whose exit it has seen since, and `early` says that a new child exited during the startup check. */
  class Runner {
    var activePID: nat
    var activeCmd: Option<nat>
    var activeDone: Option<nat>
    ghost var at: Pc
    ghost var reaping: ReaperPc
    ghost var kept: Fields
    ghost var seen: Fields
    ghost var left: Fields
    ghost var sent: seq<Signal>
    ghost var found: Option<nat>
    ghost var gone: Option<nat>
    ghost var early: bool

    constructor ()
      ensures Kept() && kept == left == CLEAR && at == ExecLock && reaping == ReapLock && sent == []
    {
      activePID, activeCmd, activeDone := 0, None, None;
      at, reaping, kept, seen, left, sent := ExecLock, ReapLock, CLEAR, CLEAR, CLEAR, [];
      found, gone, early := None, None, false;
    }

    function Now(): Fields
      reads this
    {
      Fields(activePID, activeCmd, activeDone)
    }

    ghost predicate Kept()
      reads this
    {
      Now() == kept
    }

    /** The call has made its step; pid is the PID of the child it is about. */
    ghost method Move(choice: Choice, spawned: nat, pid: nat)
      requires !at.Returned? && Now() == NextFields(kept, at, pid)
      modifies `at, `kept
      ensures Kept() && at == NextPc(old(at), old(kept), choice, spawned)
    {
      at, kept := NextPc(at, kept, choice, spawned), Now();
    }

    /** Other goroutines have had mu. */
    method Interfere()
      requires Kept()
      modifies `activePID, `activeCmd, `activeDone, `kept
      ensures Kept() && Coherent(kept)
    {
      activePID, activeCmd := *, *;
      if activePID == 0 {
        activeCmd := None;
      } else if activeCmd == None {
        activePID := 0;
      }
      activeDone := activeCmd;
      kept := Now();
    }

    method Lock()
      requires LocksMu(at) && Kept()
      modifies `activePID, `activeCmd, `activeDone, `at, `kept, `seen
      ensures Kept() && Coherent(kept) && kept == seen && at == NextPc(old(at), CLEAR, Good, 0)
    {
      Interfere();
      seen := kept;
      Move(Good, 0, 0);
    }

    method Unlock()
      requires UnlocksMu(at) && Kept() && Coherent(kept)
      modifies `activePID, `activeCmd, `activeDone, `at, `kept, `left
      ensures Kept() && at == NextPc(old(at), CLEAR, Good, 0) && left == old(kept)
    {
      left := Now();
      Move(Good, 0, 0);
      Interfere();
    }

    method Send(sig: Signal)
      requires Kept()
      requires match sig case Term(h) => at.KillTerm? && at.h == h
                         case Kill(h) => (at.KillForce? || at.KillCancelled?) && at.h == h
      modifies `at, `kept, `sent
      ensures Kept() && at == NextPc(old(at), CLEAR, Good, 0) && sent == old(sent) + [sig]
    {
      Move(Good, 0, 0);
      sent := sent + [sig];
    }

    /** A select over the exit channel, a timer and the context. */
    method Await(done: Option<nat>) returns (choice: Choice)
      requires Kept() && (at.KillWait? || at.KillConfirm?) && at.done == done
      modifies `at, `kept, `gone
      ensures Kept() && at == NextPc(old(at), CLEAR, choice, 0)
      ensures gone == if choice.Good? then done else old(gone)
    {
      choice := *;
      if choice == Good {
        gone := done;
      }
      Move(choice, 0, 0);
    }

    /** The first section of KillExisting: the session is taken out of the fields, under mu. */
    method Detach() returns (cmd: Option<nat>, done: Option<nat>)
      requires Kept() && at.KillLock?
      modifies `activePID, `activeCmd, `activeDone, `at, `kept, `seen, `left, `found, `gone
      ensures Kept() && left == CLEAR && found == cmd == done == seen.cmd && gone.None?
      ensures at == if cmd.None? then StartLock else KillTerm(cmd.value, done)
    {
      Lock();
      cmd := activeCmd;
      done := activeDone;
      found, gone := cmd, None;
      Move(Good, 0, 0);
      Clear(cmd, done);
      Unlock();
    }

    /** KillExisting's assignments, under mu. */
    method Clear(cmd: Option<nat>, done: Option<nat>)
      requires Kept() && at == KillClearCmd(cmd, done)
      modifies `activePID, `activeCmd, `activeDone, `at, `kept
      ensures Kept() && kept == CLEAR && at == KillUnlock(cmd, done)
    {
      activeCmd := None;
      Move(Good, 0, 0);
      activeDone := None;
      Move(Good, 0, 0);
      activePID := 0;
      Move(Good, 0, 0);
    }

    /** Its child is asked to stop, then forced to; nil means that its exit has been seen. */
    method Escalate(h: nat, done: Option<nat>) returns (ok: bool)
      requires Kept() && at == KillTerm(h, done) && done == Some(h) && gone.None?
      modifies `at, `kept, `sent, `gone
      ensures Kept() && at == if ok then StartLock else ExecUnlock(false)
      ensures ok <==> gone == Some(h)
      ensures sent == old(sent) + [Term(h), Kill(h)] || (ok && sent == old(sent) + [Term(h)])
    {
      Send(Term(h));
      var exited := Await(done);
      match exited
      case Good =>
        return true;
      case Timeout =>
        Send(Kill(h));
        exited := Await(done);
        return exited == Good;
      case Cancelled =>
        Send(Kill(h));
        return false;
    }

    method KillExisting() returns (ok: bool)
      requires Kept() && at.KillLock?
      modifies this
      ensures Kept() && left == CLEAR && at == if ok then StartLock else ExecUnlock(false)
      ensures |old(sent)| <= |sent| && sent[..|old(sent)|] == old(sent)
      ensures Escalates(found, sent[|old(sent)|..], ok)
      ensures ok <==> gone == found
    {
      var cmd, done := Detach();
      if cmd == None {
        return true;
      }
      ok := Escalate(cmd.value, done);
    }

    /** Start's assignments, under mu: the new child is put into the fields. */
    method Track(h: nat, pid: nat)
      requires Kept() && at == StartSetPid(h)
      modifies `activePID, `activeCmd, `activeDone, `at, `kept
      ensures Kept() && kept == Fields(pid, Some(h), Some(h)) && at == StartWatch(h)
    {
      activePID := pid;
      Move(Good, h, pid);
      activeCmd := Some(h);
      Move(Good, h, pid);
      activeDone := Some(h);
      Move(Good, h, pid);
      Move(Good, h, pid);
    }

    /** h and pid are the child that the operating system makes, if it makes one; then it has 50 ms to
        exit. */
    method Start(spawned: bool, h: nat, pid: nat) returns (ok: bool)
      requires Kept() && at.StartLock? && pid != 0
      modifies `activePID, `activeCmd, `activeDone, `at, `kept, `seen, `left, `early
      ensures Kept() && at == ExecUnlock(ok) && ok == (spawned && !early)
      ensures left == if spawned then Fields(pid, Some(h), Some(h)) else seen
    {
      Lock();
      if !spawned {
        Move(Cancelled, h, pid);
        Unlock();
        return false;
      }
      Move(Good, h, pid);
      Track(h, pid);
      var outcome: Choice := *;
      early := outcome != Good;
      Move(outcome, h, pid);
      Unlock();
      return outcome == Good;
    }

    /** The reaper has made its step; pid is the PID of its child. */
    ghost method MoveReaper(pid: nat)
      requires Now() == ReaperFields(kept, reaping)
      modifies `reaping, `kept
      ensures Kept() && reaping == NextReaper(old(reaping), old(kept).pid == pid)
    {
      reaping, kept := NextReaper(reaping, kept.pid == pid), Now();
    }

    /** The reaper's section, under mu: only its own PID makes it clear the fields. */
    method Forget(pid: nat)
      requires Kept() && reaping.ReapLock? && pid != 0
      modifies `activePID, `activeCmd, `activeDone, `reaping, `kept, `seen, `left
      ensures Kept() && reaping.ReapGone?
      ensures left == if seen.pid == pid then CLEAR else seen
    {
      Interfere();
      seen := kept;
      MoveReaper(pid);
      MoveReaper(pid);
      if activePID == pid {
        activePID := 0;
        MoveReaper(pid);
        activeCmd := None;
        MoveReaper(pid);
        activeDone := None;
        MoveReaper(pid);
      }
      left := Now();
      MoveReaper(pid);
      Interfere();
    }

    /** valid tells whether the payload, the binary and the certificate are all right. A refused call
        sends nothing and leaves the fields; no child is started unless the old one is known to be gone. */
    method Execute(valid: bool, spawned: bool, h: nat, pid: nat) returns (ok: bool)
      requires Kept() && at.ExecLock? && pid != 0
      modifies this
      ensures Kept() && at == Returned(ok)
      ensures !valid ==> !ok && Now() == old(Now()) && left == old(left) && sent == old(sent)
      ensures |old(sent)| <= |sent| && sent[..|old(sent)|] == old(sent)
      ensures valid ==> Escalates(found, sent[|old(sent)|..], gone == found)
      ensures ok <==> valid && gone == found && spawned && !early
      ensures ok ==> left == Fields(pid, Some(h), Some(h))
    {
      Move(Good, 0, 0);
      if !valid {
        Move(Cancelled, 0, 0);
        Move(Good, 0, 0);
        return false;
      }
      Move(Good, 0, 0);
      var killed := KillExisting();
      ok := false;
      if killed {
        ok := Start(spawned, h, pid);
      }
      Move(Good, 0, 0);
    }
  }
}
