// The runtime's lifecycle (internal/agent/lifecycle.go and the reconnect handler of agent.go):
// Start, Run, Close and reconnect callbacks on any number of goroutines, step by step.

module Lifecycle {
  import opened Wrappers

  /** The fields that Runtime guards with mu. */
  datatype Fields = Fields(started: bool, closed: bool, wg: nat)

  datatype Verdict = Granted | AlreadyStarted | AlreadyClosed

  /** The critical section of beginStart. */
  function BeganStart(f: Fields): (Fields, Verdict) {
    if f.closed then (f, AlreadyClosed)
    else if f.started then (f, AlreadyStarted)
    else (f.(started := true), Granted)
  }

  /** The critical section of markClosed; it says whether the runtime was closed before. */
  function MarkedClosed(f: Fields): (Fields, bool) {
    (f.(closed := true), f.closed)
  }

  /** What a goroutine does next. A `Held` step is made while holding mu. The flag `run` tells Run
      from a bare Start, and `failed` the Close that cleans up after a failed start from any other. */
  datatype Pc =
    | ReconnectLock
    | ReconnectTest      // Held
    | ReconnectAdd       // Held: closed was false
    | ReconnectUnlock    // Held: the pass has been counted
    | ReconnectRefuse    // Held: closed was true
    | Pass               // the spawned goroutine reconciles
    | PassDone           // it is about to call wg.Done
    | StartLock(run: bool)
    | StartTest(run: bool)                       // Held
    | StartUnlock(run: bool, verdict: Verdict)   // Held
    | StartHandlers(run: bool)
    | StartClient(run: bool)
    | StartStatus(run: bool)
    | StartReconcile(run: bool)
    | AwaitShutdown
    | CloseLock(failed: bool)
    | CloseTest(failed: bool)                    // Held
    | CloseUnlock(failed: bool, already: bool)   // Held
    | CloseCancel(failed: bool)
    | CloseWait(failed: bool)
    | CloseClient(failed: bool)
    | Finished(ok: bool)

  predicate Held(pc: Pc) {
    pc.ReconnectTest? || pc.ReconnectAdd? || pc.ReconnectUnlock? || pc.ReconnectRefuse?
    || pc.StartTest? || pc.StartUnlock? || pc.CloseTest? || pc.CloseUnlock?
  }

  predicate Locks(pc: Pc) {
    pc.ReconnectLock? || pc.StartLock? || pc.CloseLock?
  }

  /** done is the channel that the waiter closes when wg.Wait returns. admitted are the reconnect
      passes that have been counted and have not called wg.Done; bodies counts how often the body of
      Start began, clientCloses how often client.Close was called. */
  datatype System = System(
    fields: Fields,
    mu: Option<nat>,
    threads: map<nat, Pc>,
    cancelled: bool,
    waiting: bool,
    done: bool,
    admitted: set<nat>,
    bodies: nat,
    clientCloses: nat)

  const INIT := System(Fields(false, false, 0), None, map[], false, false, false, {}, 0, 0)

  /** Begin: a callback fires, or someone calls Start, Run or Close. Go: goroutine id makes its next
      step; ok is the outcome where there is one, and for the select in Close whether done wins over
      the timeout. */
  datatype Label = Begin(id: nat, pc: Pc) | Go(id: nat, ok: bool) | WaitReturns

  predicate Callable(pc: Pc) {
    Locks(pc) && pc != CloseLock(true)
  }

  predicate CanGo(s: System, id: nat, ok: bool) {
    id in s.threads &&
    match s.threads[id]
    case Finished(_) => false
    case CloseWait(_) => ok ==> s.done
    case pc => Locks(pc) ==> s.mu.None?
  }

  /** The goroutine's own control flow. */
  function NextPc(pc: Pc, f: Fields, ok: bool): Pc
    requires !pc.Finished?
  {
    match pc
    case ReconnectLock => ReconnectTest
    case ReconnectTest => if f.closed then ReconnectRefuse else ReconnectAdd
    case ReconnectAdd => ReconnectUnlock
    case ReconnectUnlock => Pass
    case ReconnectRefuse => Finished(true)
    case Pass => PassDone
    case PassDone => Finished(true)
    case StartLock(run) => StartTest(run)
    case StartTest(run) => StartUnlock(run, BeganStart(f).1)
    case StartUnlock(run, verdict) => if verdict.Granted? then StartHandlers(run) else Finished(false)
    case StartHandlers(run) => if ok then StartClient(run) else Finished(false)
    case StartClient(run) => if ok then StartStatus(run) else Finished(false)
    case StartStatus(run) => if ok then StartReconcile(run) else CloseLock(true)
    case StartReconcile(run) => if run then AwaitShutdown else Finished(true)
    case AwaitShutdown => CloseLock(false)
    case CloseLock(failed) => CloseTest(failed)
    case CloseTest(failed) => CloseUnlock(failed, MarkedClosed(f).1)
    case CloseUnlock(failed, already) => if already then Finished(!failed) else CloseCancel(failed)
    case CloseCancel(failed) => CloseWait(failed)
    case CloseWait(failed) => if ok then CloseClient(failed) else Finished(false)
    case CloseClient(failed) => Finished(ok && !failed)
  }

  /** Its effect on the guarded fields. */
  function NextFields(pc: Pc, f: Fields): Fields {
    match pc
    case ReconnectAdd => f.(wg := f.wg + 1)
    case PassDone => f.(wg := if f.wg > 0 then f.wg - 1 else 0)
    case StartTest(_) => BeganStart(f).0
    case CloseTest(_) => MarkedClosed(f).0
    case _ => f
  }

  predicate Unlocks(pc: Pc) {
    pc.ReconnectUnlock? || pc.ReconnectRefuse? || pc.StartUnlock? || pc.CloseUnlock?
  }

  function Advance(s: System, id: nat, ok: bool): System
    requires CanGo(s, id, ok)
  {
    var pc := s.threads[id];
    System(
      NextFields(pc, s.fields),
      if Locks(pc) then Some(id) else if Unlocks(pc) then None else s.mu,
      s.threads[id := NextPc(pc, s.fields, ok)],
      s.cancelled || pc.CloseCancel?,
      s.waiting || pc.CloseCancel?,
      s.done,
      if pc.ReconnectAdd? then s.admitted + {id} else if pc.PassDone? then s.admitted - {id} else s.admitted,
      s.bodies + if pc.StartUnlock? && pc.verdict.Granted? then 1 else 0,
      s.clientCloses + if pc.CloseClient? then 1 else 0)
  }

  function Step(s: System, l: Label): Option<System> {
    match l
    case Begin(id, pc) => if id in s.threads || !Callable(pc) then None else Some(s.(threads := s.threads[id := pc]))
    case Go(id, ok) => if CanGo(s, id, ok) then Some(Advance(s, id, ok)) else None
    case WaitReturns => if s.waiting && s.fields.wg == 0 then Some(s.(done := true)) else None
  }

  function Run(s: System, ls: seq<Label>): Option<System> {
    if ls == [] then Some(s)
    else
      var before := Run(s, ls[..|ls| - 1]);
      if before.Some? then Step(before.value, ls[|ls| - 1]) else None
  }
}
