// The configure service in its surroundings: concurrent calls behind one mutex, the KV bucket,
// the device, the checkpoint store, crashes and restarts.

module ConfigureSystem {
  import opened Wrappers
  import opened ConfigureCall

  /** The last Apply attempted for a target, and whether it succeeded. A failed Apply leaves the
      device's configuration unknown. */
  datatype Attempt = Attempt(rec: Record, ok: bool)

  datatype Holder = Idle | Holds(id: nat, point: Point)

  /** Everything but the checkpoint store. hist holds, per KV key, every record ever put there, the
      latest last, and versions their UUIDs, the latest one not repeated when it is put again; live
      says which keys are present now. */
  datatype Core = Core(
    hist: map<string, seq<Record>>,
    versions: map<string, seq<string>>,
    live: set<string>,
    device: map<string, Attempt>,
    waiting: map<nat, Call>,
    holder: Holder,
    finished: map<nat, Return>)
  {
    function History(key: string): seq<Record> {
      if key in hist then hist[key] else []
    }

    function Versions(key: string): seq<string> {
      if key in versions then versions[key] else []
    }

    predicate Present(key: string) {
      key in live && History(key) != []
    }

    function Latest(key: string): Record
      requires Present(key)
    {
      History(key)[|History(key)| - 1]
    }

    predicate Known(id: nat) {
      id in waiting || id in finished || (holder.Holds? && holder.id == id)
    }
  }

  /** The checkpoint store as an atomic register. stale are the earlier contents that a loss of
      power may still bring back, because their replacement has not been flushed. */
  datatype Register = Register(stored: State, stale: set<State>)

  datatype System = System(core: Core, reg: Register)

  const INIT := System(Core(map[], map[], {}, map[], map[], Idle, map[]), Register(EMPTY_STATE, {}))

  /** How far a crash lets the interrupted request get: an Apply may not have begun, or have ended
      either way; a Save may or may not have taken effect. */
  datatype Interrupted = Interrupted(attempted: Option<bool>, saved: bool)

  datatype Label =
    | Issue(id: nat, call: Call)
    | Acquire(id: nat)
    | Exchange(ans: Answer)
    | Release
    | Put(key: string, rec: Record)
    | Delete(key: string)
    | Flush
    | Crash(cut: Interrupted)
    | PowerLoss(cut: Interrupted, back: State)

  predicate InCall(core: Core) {
    core.holder.Holds? && !core.holder.point.Returned?
  }

  function Requested(core: Core): Request
    requires InCall(core)
  {
    Next(core.holder.point)
  }

  /** KV reads are linearizable. */
  predicate Truthful(core: Core, req: Request, ans: Answer)
    requires Fits(req, ans)
  {
    match req
    case LoadDesired(key) => (
      match ans.lookup
      case Found(rec) => core.Present(key) && rec == core.Latest(key)
      case NotFound => !core.Present(key)
      case _ => true)
    case _ => true
  }

  /** The service takes an answer; an Apply has reached the device, whether or not it succeeded. */
  function Resumed(core: Core, ans: Answer): Core
    requires InCall(core) && Fits(Requested(core), ans)
  {
    var req := Requested(core);
    var core := core.(holder := Holds(core.holder.id, Resume(core.holder.point, ans)));
    if req.Apply? then core.(device := core.device[req.rec.target := Attempt(req.rec, ans.ok)]) else core
  }

  function WithVersion(versions: seq<string>, uuid: string): seq<string> {
    if versions != [] && versions[|versions| - 1] == uuid then versions else versions + [uuid]
  }

  /** The labels that do not involve the checkpoint store. */
  function NextCore(core: Core, l: Label): Option<Core> {
    match l
    case Issue(id, call) =>
      if core.Known(id) then None else Some(core.(waiting := core.waiting[id := call]))
    case Acquire(id) =>
      if core.holder.Idle? && id in core.waiting
      then Some(core.(waiting := core.waiting - {id}, holder := Holds(id, Entry(core.waiting[id])))) else None
    case Exchange(ans) =>
      if InCall(core) && Fits(Requested(core), ans) && Truthful(core, Requested(core), ans)
      then Some(Resumed(core, ans)) else None
    case Release =>
      if core.holder.Holds? && core.holder.point.Returned?
      then Some(core.(holder := Idle, finished := core.finished[core.holder.id := core.holder.point.ret])) else None
    case Put(key, rec) =>
      Some(core.(hist := core.hist[key := core.History(key) + [rec]],
                 versions := core.versions[key := WithVersion(core.Versions(key), rec.uuid)],
                 live := core.live + {key}))
    case Delete(key) => Some(core.(live := core.live - {key}))
    case Flush => Some(core)
    case Crash(cut) => Some(Restarted(core, cut.attempted))
    case PowerLoss(cut, _) => Some(Restarted(core, cut.attempted))
  }

  /** The process is gone with all its calls; the device and the KV bucket stay. */
  function Restarted(core: Core, attempted: Option<bool>): Core {
    var core' := core.(waiting := map[], holder := Idle);
    if InCall(core) && Requested(core).Apply? && attempted.Some?
    then
      var rec := Requested(core).rec;
      core'.(device := core.device[rec.target := Attempt(rec, attempted.value)])
    else core'
  }

  function Saved(reg: Register, next: State): Register {
    Register(next, reg.stale + {reg.stored})
  }

  /** The register as an interrupted call leaves it. */
  function CutRegister(s: System, cut: Interrupted): Register {
    if InCall(s.core) && Requested(s.core).Save? && cut.saved
    then Saved(s.reg, Requested(s.core).next) else s.reg
  }

  function NextRegister(s: System, l: Label): Option<Register> {
    match l
    case Exchange(ans) =>
      if !InCall(s.core) then None
      else if Requested(s.core).LoadState? then
        if ans.Loaded? && (ans.state.None? || ans.state.value == s.reg.stored) then Some(s.reg) else None
      else if Requested(s.core).Save? && ans == Ack(true) then Some(Saved(s.reg, Requested(s.core).next))
      else Some(s.reg)
    case Flush => Some(Register(s.reg.stored, {}))
    case Crash(cut) => Some(CutRegister(s, cut))
    case PowerLoss(cut, back) =>
      var reg := CutRegister(s, cut);
      if back == reg.stored || back in reg.stale then Some(Register(back, {})) else None
    case _ => Some(s.reg)
  }

  /** One step; None if it is not possible here. */
  function Step(s: System, l: Label): Option<System> {
    var core, reg := NextCore(s.core, l), NextRegister(s, l);
    if core.Some? && reg.Some? then Some(System(core.value, reg.value)) else None
  }

  /** What the store holds after the answer. */
  function StoredAfter(stored: State, req: Request, ans: Answer): State {
    if req.Save? && ans == Ack(true) then req.next else stored
  }

  lemma ExchangeAnswers(s: System, ans: Answer)
    requires Step(s, Exchange(ans)).Some?
    ensures
      var s' := Step(s, Exchange(ans)).value;
      && s'.reg.stored == StoredAfter(s.reg.stored, Requested(s.core), ans)
      && s'.core.holder == Holds(s.core.holder.id, Resume(s.core.holder.point, ans))
      && (Requested(s.core).LoadState? ==> ans.state.None? || ans.state.value == s.reg.stored)
  {
  }

  /** A schedule; None if some step of it is not possible. */
  function Run(s: System, ls: seq<Label>): Option<System> {
    if ls == [] then Some(s)
    else
      var before := Run(s, ls[..|ls| - 1]);
      if before.Some? then Step(before.value, ls[|ls| - 1]) else None
  }

  lemma RunSnoc(s: System, ls: seq<Label>, l: Label)
    ensures Run(s, ls + [l]) == if Run(s, ls).Some? then Step(Run(s, ls).value, l) else None
  {
    assert (ls + [l])[..|ls|] == ls;
  }

  lemma {:induction false} RunPrefix(s: System, ls: seq<Label>, k: nat)
    requires k <= |ls| && Run(s, ls).Some?
    ensures Run(s, ls[..k]).Some?
    ensures k < |ls| ==> Run(s, ls[..k + 1]) == Step(Run(s, ls[..k]).value, ls[k])
  {
    if k == |ls| {
      assert ls[..k] == ls;
    } else if k == |ls| - 1 {
      assert ls[..k + 1] == ls;
    } else {
      var init := ls[..|ls| - 1];
      RunPrefix(s, init, k);
      assert init[..k] == ls[..k] && init[..k + 1] == ls[..k + 1];
    }
  }

  /** The record that this exchange declares already in sync, if it does. */
  function DeclaredInSync(core: Core, l: Label): Option<Record> {
    if !l.Exchange? || !InCall(core) || !Fits(Requested(core), l.ans) then None
    else
      match Resume(core.holder.point, l.ans)
      case AtSyncStatus(_, rec) => if core.holder.point.AtState? then Some(rec) else None
      case Returned(Nil(InSync)) =>
        if core.holder.point.AtStartupDesired? then Some(l.ans.lookup.rec) else None
      case _ => None
  }
}
