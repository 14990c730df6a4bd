// One configure or reconcile call of internal/configure/service.go, as the requests it makes of
// its dependencies and what it does with each answer.

module ConfigureCall {
  import opened Wrappers
  import opened Text

  /** The local checkpoint: which desired configuration was last applied for which target. */
  datatype State = State(target: string, appliedUuid: string)

  /** What a missing or undecodable state file loads as. */
  const EMPTY_STATE := State("", "")

  /** A desired configuration as stored in the KV bucket. */
  datatype Record = Record(target: string, uuid: string, rpcId: string, payload: string)

  /** The correlation identifiers of a configure notification. */
  datatype Notice = Notice(target: string, rpcId: string, uuid: string)

  datatype Call = Handle(msg: Notice) | Reconcile(target: string)

  datatype Level = Running | Success | Failure

  datatype Stage = Received | LoadingDesired | AlreadyInSync | Rendering | Rendered | Applying | Applied | Failed

  datatype Code =
    | NoCode
    | NotificationTargetInvalid | NotificationUuidInvalid
    | LoadDesiredFailed | DesiredConfigMissing
    | DesiredTargetInvalid | DesiredUuidInvalid | DesiredTargetMismatch | DesiredUuidMismatch
    | StateLoadFailed | RenderFailed | ApplyFailed

  /** A request to one of the service's dependencies. */
  datatype Request =
    | PublishStatus(msg: Notice, level: Level, stage: Stage)
    | PublishResult(msg: Notice, level: Level, code: Code)
    | LoadDesired(target: string)
    | LoadState
    | Render(rec: Record)
    | Apply(rec: Record)
    | Save(next: State)
  {
    predicate IsPublish() {
      PublishStatus? || PublishResult?
    }

    /** The work on the device and the checkpoint, as opposed to reading and reporting. */
    predicate IsWork() {
      Render? || Apply? || Save?
    }
  }

  /** LoadDesiredConfig: a record, a not-found error, a nil record without an error, or another error. */
  datatype Lookup = Found(rec: Record) | NotFound | NilRecord | Fault

  datatype Answer =
    | Ack(ok: bool)
    | Desired(lookup: Lookup)
    | Loaded(state: Option<State>)

  predicate Fits(req: Request, ans: Answer) {
    match req
    case LoadDesired(_) => ans.Desired?
    case LoadState => ans.Loaded?
    case _ => ans.Ack?
  }

  /** Why a call returned a nil error. */
  datatype Why = Completed | InSync | NothingDesired

  datatype Return =
    | Nil(why: Why)
    | FailedWith(code: Code, statusErr: bool, resultErr: bool)
    | ReportingFailed(statusErr: bool, resultErr: bool)
    | SaveFailed
    | StartupFailed(code: Code)
    | NilContext

  /** The part of processDesiredConfigLocked that comes before the success reports. */
  datatype Phase = ToRendering | ToRender | ToRendered | ToApplying | ToApply | ToSave

  /** Where a call stands: the request it will make next, and the locals it still needs. */
  datatype Point =
    | AtReceived(msg: Notice)
    | AtLoading(msg: Notice)
    | AtDesired(msg: Notice)
    | AtState(msg: Notice, rec: Record)
    | AtSyncStatus(msg: Notice, rec: Record)
    | AtSyncResult(msg: Notice, rec: Record, statusErr: bool)
    | AtStartupState(target: string)
    | AtStartupDesired(target: string, local: State)
    | AtStartupStatus(target: string, code: Code)
    | AtProcess(msg: Notice, rec: Record, phase: Phase)
    | AtAppliedStatus(msg: Notice, rec: Record)
    | AtAppliedResult(msg: Notice, rec: Record, statusErr: bool)
    | AtFailStatus(msg: Notice, code: Code)
    | AtFailResult(msg: Notice, code: Code, statusErr: bool)
    | Returned(ret: Return)

  /** The first request of a call, made right after it has locked the service. */
  function Entry(call: Call): Point {
    match call
    case Handle(msg) =>
      if Blank(msg.target) then AtFailStatus(msg, NotificationTargetInvalid)
      else if Blank(msg.uuid) then AtFailStatus(msg, NotificationUuidInvalid)
      else AtReceived(msg)
    case Reconcile(target) => AtStartupState(target)
  }

  function Next(p: Point): Request
    requires !p.Returned?
  {
    match p
    case AtReceived(msg) => PublishStatus(msg, Running, Received)
    case AtLoading(msg) => PublishStatus(msg, Running, LoadingDesired)
    case AtDesired(msg) => LoadDesired(msg.target)
    case AtState(_, _) => LoadState
    case AtSyncStatus(msg, _) => PublishStatus(msg, Success, AlreadyInSync)
    case AtSyncResult(msg, _, _) => PublishResult(msg, Success, NoCode)
    case AtStartupState(_) => LoadState
    case AtStartupDesired(target, _) => LoadDesired(target)
    case AtStartupStatus(target, _) => PublishStatus(Notice(target, "", ""), Failure, Failed)
    case AtProcess(msg, rec, phase) => (
      match phase
      case ToRendering => PublishStatus(msg, Running, Rendering)
      case ToRender => Render(rec)
      case ToRendered => PublishStatus(msg, Running, Rendered)
      case ToApplying => PublishStatus(msg, Running, Applying)
      case ToApply => Apply(rec)
      case ToSave => Save(State(msg.target, rec.uuid)))
    case AtAppliedStatus(msg, _) => PublishStatus(msg, Success, Applied)
    case AtAppliedResult(msg, _, _) => PublishResult(msg, Success, NoCode)
    case AtFailStatus(msg, _) => PublishStatus(msg, Failure, Failed)
    case AtFailResult(msg, code, _) => PublishResult(msg, Failure, code)
  }

  /** Handle's checks on the desired record it has loaded. */
  function CheckDesired(msg: Notice, lookup: Lookup): Point {
    match lookup
    case NotFound => AtFailStatus(msg, LoadDesiredFailed)
    case Fault => AtFailStatus(msg, LoadDesiredFailed)
    case NilRecord => AtFailStatus(msg, DesiredConfigMissing)
    case Found(rec) =>
      if Blank(rec.target) then AtFailStatus(msg, DesiredTargetInvalid)
      else if Blank(rec.uuid) then AtFailStatus(msg, DesiredUuidInvalid)
      else if rec.target != msg.target then AtFailStatus(msg, DesiredTargetMismatch)
      else if rec.uuid != msg.uuid then AtFailStatus(msg, DesiredUuidMismatch)
      else AtState(msg, rec)
  }

  /** The notification that Reconcile makes up for a record it found. */
  function NoticeOf(rec: Record): Notice {
    Notice(rec.target, rec.rpcId, rec.uuid)
  }

  /** Reconcile's decision once it has both the checkpoint and the desired record. */
  function CheckDrift(target: string, local: State, lookup: Lookup): Point {
    match lookup
    case NotFound => Returned(Nil(NothingDesired))
    case NilRecord => Returned(Nil(NothingDesired))
    case Fault => AtStartupStatus(target, LoadDesiredFailed)
    case Found(rec) =>
      if local == State(target, rec.uuid) then Returned(Nil(InSync))
      else AtProcess(NoticeOf(rec), rec, ToRendering)
  }

  function Processed(msg: Notice, rec: Record, phase: Phase, ok: bool): Point {
    match phase
    case ToRendering => AtProcess(msg, rec, ToRender)
    case ToRender => if ok then AtProcess(msg, rec, ToRendered) else AtFailStatus(msg, RenderFailed)
    case ToRendered => AtProcess(msg, rec, ToApplying)
    case ToApplying => AtProcess(msg, rec, ToApply)
    case ToApply => if ok then AtProcess(msg, rec, ToSave) else AtFailStatus(msg, ApplyFailed)
    case ToSave => if ok then AtAppliedStatus(msg, rec) else Returned(SaveFailed)
  }

  function Reported(why: Why, statusErr: bool, resultErr: bool): Point {
    if statusErr || resultErr then Returned(ReportingFailed(statusErr, resultErr)) else Returned(Nil(why))
  }

  /** What a call does with the answer to its request. */
  function Resume(p: Point, ans: Answer): Point
    requires !p.Returned? && Fits(Next(p), ans)
  {
    match p
    case AtReceived(msg) => AtLoading(msg)
    case AtLoading(msg) => AtDesired(msg)
    case AtDesired(msg) => CheckDesired(msg, ans.lookup)
    case AtState(msg, rec) =>
      if ans.state.None? then AtFailStatus(msg, StateLoadFailed)
      else if ans.state.value == State(msg.target, rec.uuid) then AtSyncStatus(msg, rec)
      else AtProcess(msg, rec, ToRendering)
    case AtSyncStatus(msg, rec) => AtSyncResult(msg, rec, !ans.ok)
    case AtSyncResult(msg, _, statusErr) => Reported(InSync, statusErr, !ans.ok)
    case AtStartupState(target) =>
      if ans.state.None? then AtStartupStatus(target, StateLoadFailed)
      else AtStartupDesired(target, ans.state.value)
    case AtStartupDesired(target, local) => CheckDrift(target, local, ans.lookup)
    case AtStartupStatus(_, code) => Returned(StartupFailed(code))
    case AtProcess(msg, rec, phase) => Processed(msg, rec, phase, ans.ok)
    case AtAppliedStatus(msg, rec) => AtAppliedResult(msg, rec, !ans.ok)
    case AtAppliedResult(msg, rec, statusErr) => Reported(Completed, statusErr, !ans.ok)
    case AtFailStatus(msg, code) => AtFailResult(msg, code, !ans.ok)
    case AtFailResult(_, code, statusErr) => Returned(FailedWith(code, statusErr, !ans.ok))
  }

  /** A request together with its answer. */
  datatype Event = Event(req: Request, ans: Answer)

  predicate Performs(p: Point, e: Event) {
    !p.Returned? && e.req == Next(p) && Fits(e.req, e.ans)
  }

  /** Where a call that started at p stands after these events; None if it would not have made them. */
  function After(p: Point, events: seq<Event>): Option<Point> {
    if events == [] then Some(p)
    else
      var before := After(p, events[..|events| - 1]);
      var e := events[|events| - 1];
      if before.Some? && Performs(before.value, e) then Some(Resume(before.value, e.ans)) else None
  }

  /** The events are one whole execution of the call, which returns ret. */
  ghost predicate Completes(call: Call, events: seq<Event>, ret: Return) {
    After(Entry(call), events) == Some(Returned(ret))
  }

  lemma AfterSnoc(p: Point, events: seq<Event>, e: Event)
    ensures After(p, events + [e]) ==
            var before := After(p, events);
            if before.Some? && Performs(before.value, e) then Some(Resume(before.value, e.ans)) else None
  {
    assert (events + [e])[..|events|] == events;
  }

  lemma AfterPrefix(p: Point, events: seq<Event>, k: nat)
    requires k <= |events| && After(p, events).Some?
    ensures After(p, events[..k]).Some?
    ensures k < |events| ==> Performs(After(p, events[..k]).value, events[k])
    ensures k < |events| ==> After(p, events[..k + 1]) == Some(Resume(After(p, events[..k]).value, events[k].ans))
  {
    if k == |events| {
      assert events[..k] == events;
    } else if k == |events| - 1 {
      assert events[..k + 1] == events;
    } else {
      var init := events[..|events| - 1];
      AfterPrefix(p, init, k);
      assert init[..k] == events[..k] && init[..k + 1] == events[..k + 1];
    }
  }
}
