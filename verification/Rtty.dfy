// The remote-terminal supervisor (internal/actions/vyos_rtty.go), step by step: Execute calls behind
// the executor's mutex, KillExisting and Start behind the runner's, one reaper goroutine per child.

module Rtty {
  import opened Wrappers

  /** What the reaper of a child does next. A `R...` step that holds mu is marked. */
  datatype ReaperPc =
    | NotSpawned
    | ReapWait       // cmd.Wait
    | ReapClose      // the exit has been sent to Start; close(exitCh)
    | ReapLock
    | ReapTest       // holds mu
    | ReapClearPid   // holds mu: activePID was this child's
    | ReapClearCmd   // holds mu
    | ReapClearDone  // holds mu
    | ReapUnlock     // holds mu
    | ReapGone

  /** A child process; handles (indices) are unique, PIDs need not be. */
  datatype Child = Child(pid: nat, alive: bool, reaper: ReaperPc)

  /** What an Execute call does next. cmd and done are KillExisting's locals, h is Start's child. All
      but the first and the last step hold the executor's mutex; those marked hold mu as well. */
  datatype Pc =
    | ExecLock
    | Validate                                         // payload, binary, certificate
    | KillLock
    | KillTake                                         // holds mu
    | KillClearCmd(cmd: Option<nat>, done: Option<nat>)   // holds mu
    | KillClearDone(cmd: Option<nat>, done: Option<nat>)  // holds mu
    | KillClearPid(cmd: Option<nat>, done: Option<nat>)   // holds mu
    | KillUnlock(cmd: Option<nat>, done: Option<nat>)     // holds mu
    | KillTerm(h: nat, done: Option<nat>)              // send SIGTERM
    | KillWait(h: nat, done: Option<nat>)              // 200 ms
    | KillForce(h: nat, done: Option<nat>)             // send SIGKILL
    | KillConfirm(h: nat, done: Option<nat>)           // 500 ms
    | KillCancelled(h: nat)                            // context done: send SIGKILL and give up
    | StartLock
    | StartSpawn                                       // holds mu
    | StartSetPid(h: nat)                              // holds mu
    | StartSetCmd(h: nat)                              // holds mu
    | StartSetDone(h: nat)                             // holds mu
    | StartReaper(h: nat)                              // holds mu
    | StartWatch(h: nat)                               // holds mu, 50 ms
    | StartUnlock(ok: bool)                            // holds mu
    | ExecUnlock(ok: bool)
    | Returned(ok: bool)

  datatype Owner = ByCall(id: nat) | ByReaper(h: nat)

  /** The runner's fields; a PID of 0 and None stand for unset. */
  datatype Fields = Fields(pid: nat, cmd: Option<nat>, done: Option<nat>)

  const CLEAR := Fields(0, None, None)

  /** closed are the exit channels that have been closed. session, orphans and killErrors are
      bookkeeping: the child that the supervisor answers for, the children that a failed KillExisting
      gave up on, and how many KillExisting calls failed. */
  datatype System = System(
    emu: Option<nat>,
    mu: Option<Owner>,
    fields: Fields,
    children: seq<Child>,
    calls: map<nat, Pc>,
    closed: set<nat>,
    terminated: set<nat>,    // sent SIGTERM
    killed: set<nat>,        // sent SIGKILL
    session: Option<nat>,
    orphans: set<nat>,
    killErrors: nat)

  const INIT := System(None, None, CLEAR, [], map[], {}, {}, {}, None, {}, 0)

  /** How a step with several outcomes ends: success (or the awaited channel), a timeout, or a
      cancelled context (or a failure). */
  datatype Choice = Good | Timeout | Cancelled

  /** pid is the one the operating system gives to a child spawned in this step. */
  datatype Label = Call(id: nat) | Go(id: nat, choice: Choice, pid: nat) | Reap(h: nat) | Exit(h: nat)

  predicate HoldsMu(pc: Pc) {
    match pc
    case KillTake => true
    case KillClearCmd(_, _) => true
    case KillClearDone(_, _) => true
    case KillClearPid(_, _) => true
    case KillUnlock(_, _) => true
    case StartSpawn => true
    case StartSetPid(_) => true
    case StartSetCmd(_) => true
    case StartSetDone(_) => true
    case StartReaper(_) => true
    case StartWatch(_) => true
    case StartUnlock(_) => true
    case _ => false
  }

  predicate ReaperHoldsMu(r: ReaperPc) {
    r.ReapTest? || r.ReapClearPid? || r.ReapClearCmd? || r.ReapClearDone? || r.ReapUnlock?
  }

  predicate LocksMu(pc: Pc) {
    pc.KillLock? || pc.StartLock?
  }

  predicate UnlocksMu(pc: Pc) {
    pc.KillUnlock? || pc.StartUnlock?
  }

  /** The operating system gives a PID back only after the child has been waited for. */
  predicate PidFree(s: System, pid: nat) {
    pid != 0 && forall c | c in s.children && (c.reaper.NotSpawned? || c.reaper.ReapWait?) :: c.pid != pid
  }

  predicate ExitSent(s: System, h: nat) {
    h < |s.children| && !s.children[h].reaper.NotSpawned? && !s.children[h].reaper.ReapWait?
  }

  predicate CanGo(s: System, id: nat, choice: Choice, pid: nat) {
    id in s.calls &&
    var pc := s.calls[id];
    match pc
    case Returned(_) => false
    case ExecLock => s.emu.None?
    case KillWait(_, done) => choice.Good? ==> done.Some? && done.value in s.closed
    case KillConfirm(_, done) => choice.Good? ==> done.Some? && done.value in s.closed
    case StartSpawn => choice.Good? ==> PidFree(s, pid)
    case StartWatch(h) => choice.Good? || ExitSent(s, h)
    case _ => LocksMu(pc) ==> s.mu.None?
  }

  /** The call's own control flow; spawned is the handle of a child spawned in this step. */
  function NextPc(pc: Pc, f: Fields, choice: Choice, spawned: nat): Pc
    requires !pc.Returned?
  {
    match pc
    case ExecLock => Validate
    case Validate => if choice.Good? then KillLock else ExecUnlock(false)
    case KillLock => KillTake
    case KillTake => KillClearCmd(f.cmd, f.done)
    case KillClearCmd(cmd, done) => KillClearDone(cmd, done)
    case KillClearDone(cmd, done) => KillClearPid(cmd, done)
    case KillClearPid(cmd, done) => KillUnlock(cmd, done)
    case KillUnlock(cmd, done) => if cmd.None? then StartLock else KillTerm(cmd.value, done)
    case KillTerm(h, done) => KillWait(h, done)
    case KillWait(h, done) => (
      match choice
      case Good => StartLock
      case Timeout => KillForce(h, done)
      case Cancelled => KillCancelled(h))
    case KillForce(h, done) => KillConfirm(h, done)
    case KillConfirm(h, done) => if choice.Good? then StartLock else ExecUnlock(false)
    case KillCancelled(h) => ExecUnlock(false)
    case StartLock => StartSpawn
    case StartSpawn => if choice.Good? then StartSetPid(spawned) else StartUnlock(false)
    case StartSetPid(h) => StartSetCmd(h)
    case StartSetCmd(h) => StartSetDone(h)
    case StartSetDone(h) => StartReaper(h)
    case StartReaper(h) => StartWatch(h)
    case StartWatch(h) => StartUnlock(choice.Good?)
    case StartUnlock(ok) => ExecUnlock(ok)
    case ExecUnlock(ok) => Returned(ok)
  }

  function PidOf(s: System, h: nat): nat {
    if h < |s.children| then s.children[h].pid else 0
  }

  /** The PID that a call about to record one records. */
  function PidAt(s: System, pc: Pc): nat {
    if pc.StartSetPid? then PidOf(s, pc.h) else 0
  }

  /** The call's effect on the runner's fields, one assignment a step. */
  function NextFields(f: Fields, pc: Pc, pid: nat): Fields {
    match pc
    case KillClearCmd(_, _) => f.(cmd := None)
    case KillClearDone(_, _) => f.(done := None)
    case KillClearPid(_, _) => f.(pid := 0)
    case StartSetPid(h) => f.(pid := pid)
    case StartSetCmd(h) => f.(cmd := Some(h))
    case StartSetDone(h) => f.(done := Some(h))
    case _ => f
  }

  /** KillExisting gives up on this child in this step. */
  predicate GivesUp(pc: Pc, choice: Choice) {
    (pc.KillConfirm? && !choice.Good?) || pc.KillCancelled?
  }

  function NextChildren(s: System, pc: Pc, choice: Choice, pid: nat): seq<Child> {
    if pc.StartSpawn? && choice.Good? then s.children + [Child(pid, true, NotSpawned)]
    else if pc.StartReaper? && pc.h < |s.children| then s.children[pc.h := s.children[pc.h].(reaper := ReapWait)]
    else s.children
  }

  function NextSession(s: System, pc: Pc, choice: Choice): Option<nat> {
    if pc.StartSpawn? && choice.Good? then Some(|s.children|)
    else if GivesUp(pc, choice) then None
    else if (pc.KillWait? || pc.KillConfirm?) && choice.Good? then None
    else s.session
  }

  function Advance(s: System, id: nat, choice: Choice, pid: nat): System
    requires CanGo(s, id, choice, pid)
  {
    var pc := s.calls[id];
    System(
      if pc.ExecLock? then Some(id) else if pc.ExecUnlock? then None else s.emu,
      if LocksMu(pc) then Some(ByCall(id)) else if UnlocksMu(pc) then None else s.mu,
      NextFields(s.fields, pc, PidAt(s, pc)),
      NextChildren(s, pc, choice, pid),
      s.calls[id := NextPc(pc, s.fields, choice, |s.children|)],
      s.closed,
      if pc.KillTerm? then s.terminated + {pc.h} else s.terminated,
      if pc.KillForce? || pc.KillCancelled? then s.killed + {pc.h} else s.killed,
      NextSession(s, pc, choice),
      if GivesUp(pc, choice) then s.orphans + {pc.h} else s.orphans,
      s.killErrors + if GivesUp(pc, choice) then 1 else 0)
  }

  predicate CanReap(s: System, h: nat) {
    h < |s.children| &&
    match s.children[h].reaper
    case NotSpawned => false
    case ReapWait => !s.children[h].alive
    case ReapLock => s.mu.None?
    case ReapGone => false
    case _ => true
  }

  function NextReaper(r: ReaperPc, owns: bool): ReaperPc {
    match r
    case NotSpawned => NotSpawned
    case ReapWait => ReapClose
    case ReapClose => ReapLock
    case ReapLock => ReapTest
    case ReapTest => if owns then ReapClearPid else ReapUnlock
    case ReapClearPid => ReapClearCmd
    case ReapClearCmd => ReapClearDone
    case ReapClearDone => ReapUnlock
    case ReapUnlock => ReapGone
    case ReapGone => ReapGone
  }

  /** The reaper's effect on the runner's fields. */
  function ReaperFields(f: Fields, r: ReaperPc): Fields {
    match r
    case ReapClearPid => f.(pid := 0)
    case ReapClearCmd => f.(cmd := None)
    case ReapClearDone => f.(done := None)
    case _ => f
  }

  function Reaped(s: System, h: nat): System
    requires CanReap(s, h)
  {
    var r := s.children[h].reaper;
    s.(mu := if r.ReapLock? then Some(ByReaper(h)) else if r.ReapUnlock? then None else s.mu,
       fields := ReaperFields(s.fields, r),
       children := s.children[h := s.children[h].(reaper := NextReaper(r, s.fields.pid == s.children[h].pid))],
       closed := if r.ReapClose? then s.closed + {h} else s.closed,
       session := if r.ReapClearDone? then None else s.session)
  }

  function Step(s: System, l: Label): Option<System> {
    match l
    case Call(id) => if id in s.calls then None else Some(s.(calls := s.calls[id := ExecLock]))
    case Go(id, choice, pid) => if CanGo(s, id, choice, pid) then Some(Advance(s, id, choice, pid)) else None
    case Reap(h) => if CanReap(s, h) then Some(Reaped(s, h)) else None
    case Exit(h) =>
      if h < |s.children| && s.children[h].alive
      then Some(s.(children := s.children[h := s.children[h].(alive := false)])) else None
  }

  function Run(s: System, ls: seq<Label>): Option<System> {
    if ls == [] then Some(s)
    else
      var before := Run(s, ls[..|ls| - 1]);
      if before.Some? then Step(before.value, ls[|ls| - 1]) else None
  }

  /** The children that are running. */
  function Live(s: System): set<nat> {
    set h | 0 <= h < |s.children| && s.children[h].alive
  }
}
