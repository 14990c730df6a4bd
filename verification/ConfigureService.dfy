// internal/configure/service.go as imperative code over dependencies that may answer anything.

module ConfigureService {
  import opened Wrappers
  import opened Text
  import opened ConfigureCall
  import opened ConfigureSystem
  import Meaning = ConfigureMeaning

  /** The client, the state store, the renderer and the apply engine, as one call sees them: every
      answer is the environment's choice. `call`, `events`, `loaded` and `at` are a monitor: they record
      the dependency calls of the current service call, the KV key and record it has loaded among them,
      and no call out of turn gets past it. */
  class Dependencies {
    var stored: State
    var device: map<string, Attempt>
    ghost var call: Call
    ghost var events: seq<Event>
    ghost var loaded: Option<(string, Record)>
    ghost var at: Point

    constructor (stored: State)
      ensures this.stored == stored && device == map[] && Valid()
    {
      this.stored := stored;
      device := map[];
      call := Reconcile("");
      events := [];
      loaded := None;
      at := Entry(Reconcile(""));
    }

    ghost predicate Valid()
      reads this
    {
      && After(Entry(call), events) == Some(at)
      && (loaded.Some? ==> Event(LoadDesired(loaded.value.0), Desired(Found(loaded.value.1))) in events)
    }

    ghost predicate Expects(req: Request)
      reads this
    {
      Valid() && !at.Returned? && Next(at) == req
    }

    ghost method Begin(call: Call)
      modifies `call, `events, `loaded, `at
      ensures Valid() && this.call == call && events == [] && loaded == None && at == Entry(call)
    {
      this.call, events, loaded, at := call, [], None, Entry(call);
    }

    ghost method Note(req: Request, ans: Answer)
      requires Expects(req) && Fits(req, ans)
      modifies `events, `at
      ensures Valid() && at == Resume(old(at), ans) && events == old(events) + [Event(req, ans)]
    {
      AfterSnoc(Entry(call), events, Event(req, ans));
      events, at := events + [Event(req, ans)], Resume(at, ans);
    }

    method PublishStatus(msg: Notice, level: Level, stage: Stage) returns (ok: bool)
      requires Expects(Request.PublishStatus(msg, level, stage))
      modifies this
      ensures Valid() && call == old(call) && loaded == old(loaded) && at == Resume(old(at), Ack(ok))
      ensures events == old(events) + [Event(Request.PublishStatus(msg, level, stage), Ack(ok))]
      ensures stored == old(stored) && device == old(device)
    {
      ok := *;
      Note(Request.PublishStatus(msg, level, stage), Ack(ok));
    }

    method PublishResult(msg: Notice, level: Level, code: Code) returns (ok: bool)
      requires Expects(Request.PublishResult(msg, level, code))
      modifies this
      ensures Valid() && call == old(call) && loaded == old(loaded) && at == Resume(old(at), Ack(ok))
      ensures events == old(events) + [Event(Request.PublishResult(msg, level, code), Ack(ok))]
      ensures stored == old(stored) && device == old(device)
    {
      ok := *;
      Note(Request.PublishResult(msg, level, code), Ack(ok));
    }

    method LoadDesiredConfig(target: string) returns (lookup: Lookup)
      requires Expects(LoadDesired(target))
      modifies this
      ensures Valid() && call == old(call) && at == Resume(old(at), Desired(lookup))
      ensures events == old(events) + [Event(LoadDesired(target), Desired(lookup))]
      ensures stored == old(stored) && device == old(device)
      ensures loaded == if lookup.Found? then Some((target, lookup.rec)) else None
    {
      lookup := *;
      loaded := None;
      Note(LoadDesired(target), Desired(lookup));
      if lookup.Found? {
        loaded := Some((target, lookup.rec));
      }
    }

    method Load() returns (state: Option<State>)
      requires Expects(LoadState)
      modifies this
      ensures Valid() && call == old(call) && loaded == old(loaded) && at == Resume(old(at), Loaded(state))
      ensures events == old(events) + [Event(LoadState, Loaded(state))]
      ensures stored == old(stored) && device == old(device) && (state.Some? ==> state.value == stored)
    {
      var ok := *;
      state := if ok then Some(stored) else None;
      Note(LoadState, Loaded(state));
    }

    method Save(next: State) returns (ok: bool)
      requires Expects(Request.Save(next))
      modifies this
      ensures Valid() && call == old(call) && loaded == old(loaded) && at == Resume(old(at), Ack(ok))
      ensures events == old(events) + [Event(Request.Save(next), Ack(ok))]
      ensures device == old(device) && stored == if ok then next else old(stored)
    {
      ok := *;
      if ok {
        stored := next;
      }
      Note(Request.Save(next), Ack(ok));
    }

    method Render(rec: Record) returns (ok: bool)
      requires Expects(Request.Render(rec))
      modifies this
      ensures Valid() && call == old(call) && loaded == old(loaded) && at == Resume(old(at), Ack(ok))
      ensures events == old(events) + [Event(Request.Render(rec), Ack(ok))]
      ensures stored == old(stored) && device == old(device)
    {
      ok := *;
      Note(Request.Render(rec), Ack(ok));
    }

    method Apply(rec: Record) returns (ok: bool)
      requires Expects(Request.Apply(rec))
      modifies this
      ensures Valid() && call == old(call) && loaded == old(loaded) && at == Resume(old(at), Ack(ok))
      ensures events == old(events) + [Event(Request.Apply(rec), Ack(ok))]
      ensures stored == old(stored) && device == old(device)[rec.target := Attempt(rec, ok)]
    {
      ok := *;
      device := device[rec.target := Attempt(rec, ok)];
      Note(Request.Apply(rec), Ack(ok));
    }
  }

  /** What a call for this target and UUID may have done to the store and the device: the store
      changes only to name the configuration, and only once the device holds it. */
  predicate Effect(stored: State, device: map<string, Attempt>, stored': State, device': map<string, Attempt>,
                   target: string, uuid: string, ret: Return)
  {
    && (ret.Nil? && ret.why != NothingDesired ==> stored' == State(target, uuid))
    && (!ret.Nil? && !ret.ReportingFailed? ==> stored' == stored)
    && (|| (stored' == stored && device' == device)
        || (&& target in device' && device' == device[target := device'[target]]
            && device'[target].rec.target == target && device'[target].rec.uuid == uuid
            && stored' == if device'[target].ok && !ret.SaveFailed? then State(target, uuid) else stored))
  }

  /** The same for a Reconcile of this target, which found this record, if any. */
  predicate ReconcileEffect(stored: State, device: map<string, Attempt>, stored': State, device': map<string, Attempt>,
                            target: string, found: Option<Record>, ret: Return)
  {
    match found
    case None => stored' == stored && device' == device && (ret.StartupFailed? || ret == Nil(NothingDesired))
    case Some(rec) =>
      if stored == State(target, rec.uuid)
      then stored' == stored && device' == device && ret == Nil(InSync)
      else Effect(stored, device, stored', device', rec.target, rec.uuid, ret) && (ret.Nil? ==> ret.why == Completed)
  }

  class Service {
    const deps: Dependencies
    var locked: bool

    constructor (deps: Dependencies)
      ensures this.deps == deps && !locked
    {
      this.deps := deps;
      locked := false;
    }

    /** The call is over, and the monitor has seen all of it. */
    ghost predicate Done(call: Call, ret: Return)
      reads deps
    {
      deps.Valid() && deps.call == call && deps.at == Returned(ret)
    }

    method Handle(hasContext: bool, msg: Notice) returns (ret: Return)
      requires !locked && deps.Valid()
      modifies this, deps
      ensures !locked
      ensures !hasContext ==> ret == NilContext && unchanged(deps)
      ensures hasContext ==> Done(Call.Handle(msg), ret) && Meaning.HandlesAs(msg, deps.events, ret)
      ensures Effect(old(deps.stored), old(deps.device), deps.stored, deps.device, msg.target, msg.uuid, ret)
    {
      if !hasContext {
        return NilContext;
      }
      locked := true;
      deps.Begin(Call.Handle(msg));
      ret := HandleLocked(msg);
      Meaning.HandlesIff(msg, deps.events, ret);
      locked := false;
    }

    /** Handle between locking and unlocking s.mu. */
    method HandleLocked(msg: Notice) returns (ret: Return)
      requires locked && deps.Valid() && deps.call == Call.Handle(msg) && deps.at == Entry(deps.call)
      modifies deps
      ensures Done(Call.Handle(msg), ret)
      ensures Effect(old(deps.stored), old(deps.device), deps.stored, deps.device, msg.target, msg.uuid, ret)
      ensures ret != NilContext
    {
      TrimmedAwayIffBlank(msg.target);
      TrimmedAwayIffBlank(msg.uuid);
      if Trim(msg.target) == "" {
        ret := Fail(msg, NotificationTargetInvalid);
        return;
      }
      if Trim(msg.uuid) == "" {
        ret := Fail(msg, NotificationUuidInvalid);
        return;
      }
      var _ := deps.PublishStatus(msg, Running, Received);
      var _ := deps.PublishStatus(msg, Running, LoadingDesired);

      var lookup := deps.LoadDesiredConfig(msg.target);
      if lookup.NotFound? || lookup.Fault? {
        ret := Fail(msg, LoadDesiredFailed);
        return;
      }
      if lookup.NilRecord? {
        ret := Fail(msg, DesiredConfigMissing);
        return;
      }
      var desired := lookup.rec;
      TrimmedAwayIffBlank(desired.target);
      TrimmedAwayIffBlank(desired.uuid);
      if Trim(desired.target) == "" {
        ret := Fail(msg, DesiredTargetInvalid);
        return;
      }
      if Trim(desired.uuid) == "" {
        ret := Fail(msg, DesiredUuidInvalid);
        return;
      }
      if desired.target != msg.target {
        ret := Fail(msg, DesiredTargetMismatch);
        return;
      }
      if desired.uuid != msg.uuid {
        ret := Fail(msg, DesiredUuidMismatch);
        return;
      }
      ret := HandleLoaded(msg, desired);
    }

    /** The rest of Handle, once the desired record has been checked. */
    method HandleLoaded(msg: Notice, desired: Record) returns (ret: Return)
      requires locked && deps.Valid() && deps.call == Call.Handle(msg) && deps.at == AtState(msg, desired)
      requires desired.target == msg.target && desired.uuid == msg.uuid
      modifies deps
      ensures Done(Call.Handle(msg), ret)
      ensures Effect(old(deps.stored), old(deps.device), deps.stored, deps.device, msg.target, msg.uuid, ret)
      ensures ret != NilContext
    {
      var local := deps.Load();
      if local.None? {
        ret := Fail(msg, StateLoadFailed);
        return;
      }
      if local.value.target == msg.target && local.value.appliedUuid == desired.uuid {
        var statusOk := deps.PublishStatus(msg, Success, AlreadyInSync);
        var resultOk := deps.PublishResult(msg, Success, NoCode);
        if !statusOk || !resultOk {
          return ReportingFailed(!statusOk, !resultOk);
        }
        return Nil(InSync);
      }
      ret := ProcessDesiredConfigLocked(msg, desired);
    }

    /** What this call got from the KV bucket under target, as its events show. */
    ghost predicate Got(target: string, found: Option<Record>)
      reads deps
    {
      deps.loaded == if found.Some? then Some((target, found.value)) else None
    }

    method Reconcile(hasContext: bool, target: string) returns (ret: Return, ghost found: Option<Record>)
      requires !locked && deps.Valid()
      modifies this, deps
      ensures !locked
      ensures !hasContext ==> ret == NilContext && unchanged(deps)
      ensures hasContext ==> Done(Call.Reconcile(target), ret) && Meaning.ReconcilesAs(target, deps.events, ret)
      ensures hasContext ==> Got(target, found)
      ensures hasContext ==> ReconcileEffect(old(deps.stored), old(deps.device), deps.stored, deps.device, target, found, ret)
    {
      if !hasContext {
        return NilContext, None;
      }
      locked := true;
      deps.Begin(Call.Reconcile(target));
      ret, found := ReconcileLocked(target);
      Meaning.ReconcilesIff(target, deps.events, ret);
      locked := false;
    }

    /** Reconcile between locking and unlocking s.mu. */
    method ReconcileLocked(target: string) returns (ret: Return, ghost found: Option<Record>)
      requires locked && deps.Valid() && deps.call == Call.Reconcile(target) && deps.at == Entry(deps.call) && deps.loaded == None
      modifies deps
      ensures Done(Call.Reconcile(target), ret) && Got(target, found)
      ensures ReconcileEffect(old(deps.stored), old(deps.device), deps.stored, deps.device, target, found, ret)
    {
      var local := deps.Load();
      if local.None? {
        var _ := deps.PublishStatus(Notice(target, "", ""), Failure, Failed);
        return StartupFailed(StateLoadFailed), None;
      }
      ret, found := ReconcileLoaded(target, local.value);
    }

    /** The rest of Reconcile, once the checkpoint has been loaded. */
    method ReconcileLoaded(target: string, local: State) returns (ret: Return, ghost found: Option<Record>)
      requires locked && deps.Valid() && deps.call == Call.Reconcile(target)
      requires deps.at == AtStartupDesired(target, local) && local == deps.stored
      modifies deps
      ensures Done(Call.Reconcile(target), ret) && Got(target, found)
      ensures ReconcileEffect(old(deps.stored), old(deps.device), deps.stored, deps.device, target, found, ret)
    {
      var lookup := deps.LoadDesiredConfig(target);
      if lookup.NotFound? {
        return Nil(NothingDesired), None;
      }
      if lookup.Fault? {
        var _ := deps.PublishStatus(Notice(target, "", ""), Failure, Failed);
        return StartupFailed(LoadDesiredFailed), None;
      }
      if lookup.NilRecord? {
        return Nil(NothingDesired), None;
      }
      var desired := lookup.rec;
      found := Some(desired);
      if local.target == target && local.appliedUuid == desired.uuid {
        return Nil(InSync), found;
      }
      var msg := Notice(desired.target, desired.rpcId, desired.uuid);
      ret := ProcessDesiredConfigLocked(msg, desired);
    }

    method ProcessDesiredConfigLocked(msg: Notice, desired: Record) returns (ret: Return)
      requires locked && deps.Valid() && deps.at == AtProcess(msg, desired, ToRendering)
      requires desired.target == msg.target && desired.uuid == msg.uuid
      modifies deps
      ensures Done(old(deps.call), ret)
      ensures Effect(old(deps.stored), old(deps.device), deps.stored, deps.device, msg.target, msg.uuid, ret)
      ensures ret != NilContext && (ret.Nil? ==> ret.why == Completed) && deps.loaded == old(deps.loaded)
    {
      var rendered := RenderDesired(msg, desired);
      if !rendered {
        ret := Fail(msg, RenderFailed);
        return;
      }
      var _ := deps.PublishStatus(msg, Running, Rendered);
      var _ := deps.PublishStatus(msg, Running, Applying);
      var applied := deps.Apply(desired);
      if !applied {
        ret := Fail(msg, ApplyFailed);
        return;
      }
      ret := CheckpointAndReport(msg, desired);
    }

    /** processDesiredConfigLocked up to the end of Render. */
    method RenderDesired(msg: Notice, desired: Record) returns (rendered: bool)
      requires locked && deps.Valid() && deps.at == AtProcess(msg, desired, ToRendering)
      modifies deps
      ensures deps.Valid() && deps.call == old(deps.call) && deps.loaded == old(deps.loaded)
      ensures deps.at == if rendered then AtProcess(msg, desired, ToRendered) else AtFailStatus(msg, RenderFailed)
      ensures deps.stored == old(deps.stored) && deps.device == old(deps.device)
    {
      var _ := deps.PublishStatus(msg, Running, Rendering);
      rendered := deps.Render(desired);
    }

    /** processDesiredConfigLocked after a successful Apply. */
    method CheckpointAndReport(msg: Notice, desired: Record) returns (ret: Return)
      requires locked && deps.Valid() && deps.at == AtProcess(msg, desired, ToSave)
      modifies deps
      ensures Done(old(deps.call), ret) && deps.device == old(deps.device) && deps.loaded == old(deps.loaded)
      ensures deps.stored == if ret.SaveFailed? then old(deps.stored) else State(msg.target, desired.uuid)
      ensures ret.SaveFailed? || ret.ReportingFailed? || ret == Nil(Completed)
    {
      var next := State(msg.target, desired.uuid);
      var saved := deps.Save(next);
      if !saved {
        return SaveFailed;
      }
      var statusOk := deps.PublishStatus(msg, Success, Applied);
      var resultOk := deps.PublishResult(msg, Success, NoCode);
      if !statusOk || !resultOk {
        return ReportingFailed(!statusOk, !resultOk);
      }
      return Nil(Completed);
    }

    method Fail(msg: Notice, code: Code) returns (ret: Return)
      requires deps.Valid() && deps.at == AtFailStatus(msg, code)
      modifies deps
      ensures Done(old(deps.call), ret) && ret.FailedWith? && ret.code == code && deps.loaded == old(deps.loaded)
      ensures deps.stored == old(deps.stored) && deps.device == old(deps.device)
    {
      var statusOk := deps.PublishStatus(msg, Failure, Failed);
      var resultOk := deps.PublishResult(msg, Failure, code);
      ret := FailedWith(code, !statusOk, !resultOk);
    }
  }
}
