// Runtime of internal/agent as imperative code, as one goroutine sees it: while mu is free the other
// goroutines may move the flags forward and the WaitGroup either way.

module AgentRuntime {
  import opened Lifecycle

  /** What the runtime has asked for, and what came of it. */
  datatype Event =
    | Registered(ok: bool)   // the handlers
    | Opened(ok: bool)       // client.Start
    | Announced(ok: bool)    // the startup status
    | Reconciled(ok: bool)
    | Cancelled              // the context of the passes
    | Waited(ok: bool)       // for the passes, in time or not
    | Shut(ok: bool)         // client.Close

  /** Close: nothing if the runtime was closed before; otherwise its answer is nil if and only if the wait
      ended in time and client.Close succeeded. */
  predicate Closes(already: bool, events: seq<Event>, ok: bool) {
    if already then ok && events == []
    else (!ok && events == [Cancelled, Waited(false)]) || events == [Cancelled, Waited(true), Shut(ok)]
  }

  /** The start has succeeded with the first four events, whatever the reconcile has answered. */
  predicate Begins(events: seq<Event>) {
    |events| >= 4 && events[..3] == [Registered(true), Opened(true), Announced(true)] && events[3].Reconciled?
  }

  /** The body of Start. Only a failed startup status closes the runtime, and whatever comes of that, the
      start has failed. */
  predicate Starts(events: seq<Event>, ok: bool) {
    if ok then Begins(events) && |events| == 4
    else
      || events == [Registered(false)]
      || events == [Registered(true), Opened(false)]
      || (|events| >= 3 && events[..3] == [Registered(true), Opened(true), Announced(false)]
          && exists already, closed :: Closes(already, events[3..], closed))
  }

  /** `at` is a monitor: where the step machine stands; `kept` are its fields. No step counts as made
      unless the fields are what the machine's step makes of them, and every method leaves them as the
      machine has them. `seen` and `left` are the fields as they were when the goroutine last took and
      gave back mu, or counted itself out of the WaitGroup; `granted` is what beginStart decided, and
      `log` what has been asked for. */
  class Runtime {
    var started: bool
    var closed: bool
    var wg: nat
    var reconnectReconcileCount: nat
    ghost var at: Pc
    ghost var kept: Fields
    ghost var seen: Fields
    ghost var left: Fields
    ghost var granted: bool
    ghost var log: seq<Event>

    constructor (at: Pc)
      requires Callable(at)
      ensures Kept() && kept == seen == left == INIT.fields && reconnectReconcileCount == 0 && this.at == at
      ensures log == [] && !granted
    {
      started, closed, wg, reconnectReconcileCount := false, false, 0, 0;
      this.at, kept, seen, left := at, INIT.fields, INIT.fields, INIT.fields;
      granted, log := false, [];
    }

    function Now(): Fields
      reads this
    {
      Fields(started, closed, wg)
    }

    ghost predicate Kept()
      reads this
    {
      Now() == kept
    }

    /** The goroutine has made its step. */
    ghost method Move(ok: bool)
      requires !at.Finished? && Now() == NextFields(at, kept)
      modifies `at, `kept
      ensures Kept() && at == NextPc(old(at), old(kept), ok)
    {
      at, kept := NextPc(at, kept, ok), Now();
    }

    /** Other goroutines have had mu; this one may be counted in the WaitGroup. */
    method Interfere(counted: bool)
      requires Kept() && (counted ==> wg > 0)
      modifies `started, `closed, `wg, `kept
      ensures Kept() && (counted ==> wg > 0)
      ensures (old(started) ==> started) && (old(closed) ==> closed)
    {
      var begun: bool, over: bool := *, *;
      started, closed, wg := started || begun, closed || over, *;
      if counted && wg == 0 {
        wg := 1;
      }
      kept := Now();
    }

    method Lock()
      requires Locks(at) && Kept()
      modifies `started, `closed, `wg, `at, `kept, `seen
      ensures Kept() && kept == seen && (old(started) ==> seen.started) && (old(closed) ==> seen.closed)
      ensures at == NextPc(old(at), seen, true)
    {
      Interfere(false);
      seen := Now();
      Move(true);
    }

    method Unlock(counted: bool)
      requires Unlocks(at) && Kept() && (counted ==> wg > 0)
      modifies `started, `closed, `wg, `at, `kept, `left
      ensures Kept() && left == old(kept) && (left.started ==> started) && (left.closed ==> closed) && (counted ==> wg > 0)
      ensures at == NextPc(old(at), left, true)
    {
      left := Now();
      Move(true);
      Interfere(counted);
    }

    method BeginStart() returns (verdict: Verdict)
      requires Kept() && at.StartLock?
      modifies `started, `closed, `wg, `at, `kept, `seen, `left, `granted
      ensures granted == verdict.Granted?
      ensures Kept() && (left, verdict) == BeganStart(seen) && (old(closed) ==> seen.closed) && (old(started) ==> seen.started)
      ensures (left.started ==> started) && (left.closed ==> closed)
      ensures at == if verdict.Granted? then StartHandlers(old(at).run) else Finished(false)
    {
      Lock();
      if closed {
        verdict := AlreadyClosed;
      } else if started {
        verdict := AlreadyStarted;
      } else {
        started := true;
        verdict := Granted;
      }
      granted := verdict == Granted;
      Move(true);
      Unlock(false);
    }

    method MarkClosed() returns (already: bool)
      requires Kept() && at.CloseLock?
      modifies `started, `closed, `wg, `at, `kept, `seen, `left
      ensures Kept() && (left, already) == MarkedClosed(seen) && (old(closed) ==> seen.closed) && (old(started) ==> seen.started)
      ensures (left.started ==> started) && (left.closed ==> closed)
      ensures at == if already then Finished(!old(at).failed) else CloseCancel(old(at).failed)
    {
      Lock();
      already := closed;
      closed := true;
      Move(true);
      Unlock(false);
    }

    method Cancel()
      requires Kept() && at.CloseCancel?
      modifies `at, `kept, `log
      ensures Kept() && at == CloseWait(old(at).failed) && log == old(log) + [Cancelled]
    {
      log := log + [Cancelled];
      Move(true);
    }

    /** A select over the end of wg.Wait and the context. */
    method AwaitPasses() returns (finished: bool)
      requires Kept() && at.CloseWait?
      modifies `at, `kept, `log
      ensures Kept() && at == (if finished then CloseClient(old(at).failed) else Finished(false))
      ensures log == old(log) + [Waited(finished)]
    {
      finished := *;
      log := log + [Waited(finished)];
      Move(finished);
    }

    method ShutClient() returns (ok: bool)
      requires Kept() && at.CloseClient?
      modifies `at, `kept, `log
      ensures Kept() && at == Finished(ok && !old(at).failed) && log == old(log) + [Shut(ok)]
    {
      ok := *;
      log := log + [Shut(ok)];
      Move(ok);
    }

    method RegisterHandlers() returns (ok: bool)
      requires Kept() && at.StartHandlers?
      modifies `at, `kept, `log
      ensures Kept() && at == (if ok then StartClient(old(at).run) else Finished(false)) && log == old(log) + [Registered(ok)]
    {
      ok := *;
      log := log + [Registered(ok)];
      Move(ok);
    }

    method OpenClient() returns (ok: bool)
      requires Kept() && at.StartClient?
      modifies `at, `kept, `log
      ensures Kept() && at == (if ok then StartStatus(old(at).run) else Finished(false)) && log == old(log) + [Opened(ok)]
    {
      ok := *;
      log := log + [Opened(ok)];
      Move(ok);
    }

    method PublishStatus() returns (ok: bool)
      requires Kept() && at.StartStatus?
      modifies `at, `kept, `log
      ensures Kept() && at == (if ok then StartReconcile(old(at).run) else CloseLock(true)) && log == old(log) + [Announced(ok)]
    {
      ok := *;
      log := log + [Announced(ok)];
      Move(ok);
    }

    /** Whether it succeeds makes no difference. */
    method Reconcile()
      requires Kept() && at.StartReconcile?
      modifies `at, `kept, `log
      ensures Kept() && at == if old(at).run then AwaitShutdown else Finished(true)
      ensures exists ok :: log == old(log) + [Reconciled(ok)]
    {
      var ok: bool := *;
      log := log + [Reconciled(ok)];
      Move(ok);
    }

    /** Only the goroutine that sets closed cancels and waits; the answer is nil exactly if closed was set
        before, or the wait ended in time and client.Close succeeded. */
    method Close() returns (ok: bool)
      requires Kept() && at.CloseLock?
      modifies this
      ensures Kept() && closed && at == Finished(ok && !old(at).failed)
      ensures (old(closed) ==> seen.closed) && (old(started) ==> started) && left == seen.(closed := true)
      ensures old(log) <= log && Closes(seen.closed, log[|old(log)|..], ok)
      ensures granted == old(granted) && reconnectReconcileCount == old(reconnectReconcileCount)
    {
      var already := MarkClosed();
      if already {
        return true;
      }
      Cancel();
      var finished := AwaitPasses();
      if !finished {
        return false;
      }
      ok := ShutClient();
    }

    /** The body runs only if beginStart lets it: neither closed nor started. */
    method Start() returns (ok: bool)
      requires Kept() && at.StartLock?
      modifies this
      ensures Kept() && (ok ==> started) && (started || seen.closed)
      ensures (old(started) ==> started) && (old(closed) ==> closed)
      ensures old(closed) || old(started) ==> !granted
      ensures !granted ==> !ok && log == old(log) && (seen.closed || seen.started)
      ensures granted ==> old(log) <= log && Starts(log[|old(log)|..], ok)
      ensures at == if ok && old(at).run then AwaitShutdown else Finished(ok)
    {
      var verdict := BeginStart();
      if verdict != Granted {
        return false;
      }
      ok := StartBody();
    }

    /** Start once it has been granted. */
    method StartBody() returns (ok: bool)
      requires Kept() && at.StartHandlers? && started
      modifies this
      ensures Kept() && started && (old(closed) ==> closed) && granted == old(granted)
      ensures old(log) <= log && Starts(log[|old(log)|..], ok)
      ensures at == if ok && old(at).run then AwaitShutdown else Finished(ok)
    {
      var registered := RegisterHandlers();
      if !registered {
        return false;
      }
      var up := OpenClient();
      if !up {
        return false;
      }
      var announced := PublishStatus();
      ghost var events := [Registered(true), Opened(true), Announced(announced)];
      assert log == old(log) + events;
      if !announced {
        ghost var before := log;
        CleanUp(events);
        assert log[|old(log)|..] == events + log[|before|..];
        return false;
      }
      Reconcile();
      return true;
    }

    /** Start closes the runtime because the startup status has failed. */
    method CleanUp(ghost events: seq<Event>)
      requires Kept() && at == CloseLock(true) && started
      requires events == [Registered(true), Opened(true), Announced(false)]
      modifies this
      ensures Kept() && at == Finished(false) && started && closed && granted == old(granted)
      ensures old(log) <= log && Starts(events + log[|old(log)|..], false)
    {
      var closed := Close();
      ghost var all := events + log[|old(log)|..];
      assert all[..3] == events && all[3..] == log[|old(log)|..];
      assert Closes(seen.closed, all[3..], closed);
    }

    /** Run returns nil exactly if its Start and its Close both succeed. */
    method Run() returns (ok: bool)
      requires Kept() && at == StartLock(true)
      modifies this
      ensures Kept() && at == Finished(ok) && (ok ==> closed && started)
      ensures old(closed) || old(started) ==> !granted
      ensures !granted ==> !ok && log == old(log)
      ensures granted ==>
                old(log) <= log &&
                var events := log[|old(log)|..];
                if Begins(events) then Closes(seen.closed, events[4..], ok) else !ok && Starts(events, false)
    {
      ok := Start();
      if ok {
        ghost var before := log;
        Move(true);
        ok := Close();
        assert log[|old(log)|..][4..] == log[|before|..];
      }
    }

    /** The reconnect handler up to the point where it spawns the pass. */
    method Admit() returns (admitted: bool)
      requires Kept() && at.ReconnectLock?
      modifies `started, `closed, `wg, `at, `kept, `seen, `left
      ensures Kept() && admitted == !seen.closed && left == seen.(wg := seen.wg + if admitted then 1 else 0)
      ensures at == if admitted then Pass else Finished(true)
      ensures (old(closed) ==> !admitted) && (admitted ==> wg > 0)
    {
      Lock();
      Move(true);
      if closed {
        Unlock(false);
        return false;
      }
      wg := wg + 1;
      Move(true);
      Unlock(true);
      return true;
    }

    /** The spawned pass, to its deferred wg.Done; whether its reconcile succeeds makes no difference. */
    method CountPass()
      requires Kept() && wg > 0 && at.Pass?
      modifies `started, `closed, `wg, `reconnectReconcileCount, `at, `kept, `seen, `left
      ensures Kept() && seen == left.(wg := left.wg + 1) && at == Finished(true)
      ensures reconnectReconcileCount == old(reconnectReconcileCount) + 1
    {
      reconnectReconcileCount := reconnectReconcileCount + 1;
      var reconciled: bool := *;
      Move(reconciled);
      Interfere(true);
      seen := Now();
      wg := wg - 1;
      left := Now();
      Move(true);
    }
  }
}
