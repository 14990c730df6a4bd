// What Handle and Reconcile do, told from beginning to end: which requests they make in which case, and
// what they return. The step machine has exactly these executions.

module ConfigureMeaning {
  import opened Wrappers
  import opened Text
  import opened ConfigureCall

  /** The call first makes this request, and gets an answer to it. */
  predicate Asks(events: seq<Event>, req: Request) {
    |events| > 0 && events[0].req == req && Fits(req, events[0].ans)
  }

  /** A last status and a last result, both attempted. */
  predicate ReportsAs(msg: Notice, level: Level, stage: Stage, code: Code, events: seq<Event>) {
    |events| == 2 && Asks(events, PublishStatus(msg, level, stage)) && Asks(events[1..], PublishResult(msg, level, code))
  }

  predicate FailsAs(msg: Notice, code: Code, events: seq<Event>, ret: Return) {
    ReportsAs(msg, Failure, Failed, code, events) && ret == FailedWith(code, !events[0].ans.ok, !events[1].ans.ok)
  }

  predicate SucceedsAs(msg: Notice, stage: Stage, why: Why, events: seq<Event>, ret: Return) {
    && ReportsAs(msg, Success, stage, NoCode, events)
    && var statusErr, resultErr := !events[0].ans.ok, !events[1].ans.ok;
       ret == if statusErr || resultErr then ReportingFailed(statusErr, resultErr) else Nil(why)
  }

  /** Save, and the success reports if it succeeds. */
  predicate SavesAs(msg: Notice, rec: Record, events: seq<Event>, ret: Return) {
    Asks(events, Save(State(msg.target, rec.uuid))) &&
    if events[0].ans.ok then SucceedsAs(msg, Applied, Completed, events[1..], ret)
    else |events| == 1 && ret == SaveFailed
  }

  /** Apply, and Save if it succeeds. */
  predicate AppliesAs(msg: Notice, rec: Record, events: seq<Event>, ret: Return) {
    && Asks(events, Apply(rec))
    && if events[0].ans.ok then SavesAs(msg, rec, events[1..], ret) else FailsAs(msg, ApplyFailed, events[1..], ret)
  }

  /** Two announcements before that. */
  predicate AnnouncesAs(msg: Notice, rec: Record, events: seq<Event>, ret: Return) {
    && Asks(events, PublishStatus(msg, Running, Rendered))
    && Asks(events[1..], PublishStatus(msg, Running, Applying))
    && AppliesAs(msg, rec, events[2..], ret)
  }

  /** An announcement, Render of the very record, and all that if it succeeds. */
  predicate ProcessesAs(msg: Notice, rec: Record, events: seq<Event>, ret: Return) {
    && Asks(events, PublishStatus(msg, Running, Rendering))
    && Asks(events[1..], Render(rec))
    && if events[1].ans.ok then AnnouncesAs(msg, rec, events[2..], ret) else FailsAs(msg, RenderFailed, events[2..], ret)
  }

  /** The checkpoint decides between reporting in sync and processing; nothing else does. */
  predicate ComparesAs(msg: Notice, rec: Record, events: seq<Event>, ret: Return) {
    Asks(events, LoadState) &&
    match events[0].ans.state
    case None => FailsAs(msg, StateLoadFailed, events[1..], ret)
    case Some(local) =>
      if local == State(msg.target, rec.uuid) then SucceedsAs(msg, AlreadyInSync, InSync, events[1..], ret)
      else ProcessesAs(msg, rec, events[1..], ret)
  }

  /** What is wrong with the answer to the KV lookup, if anything. */
  function Objection(msg: Notice, lookup: Lookup): Option<Code> {
    match lookup
    case NotFound => Some(LoadDesiredFailed)
    case Fault => Some(LoadDesiredFailed)
    case NilRecord => Some(DesiredConfigMissing)
    case Found(rec) =>
      if Blank(rec.target) then Some(DesiredTargetInvalid)
      else if Blank(rec.uuid) then Some(DesiredUuidInvalid)
      else if rec.target != msg.target then Some(DesiredTargetMismatch)
      else if rec.uuid != msg.uuid then Some(DesiredUuidMismatch)
      else None
  }

  /** A whole Handle call. */
  predicate HandlesAs(msg: Notice, events: seq<Event>, ret: Return) {
    if Blank(msg.target) then FailsAs(msg, NotificationTargetInvalid, events, ret)
    else if Blank(msg.uuid) then FailsAs(msg, NotificationUuidInvalid, events, ret)
    else
      && Asks(events, PublishStatus(msg, Running, Received))
      && Asks(events[1..], PublishStatus(msg, Running, LoadingDesired))
      && Asks(events[2..], LoadDesired(msg.target))
      && match Objection(msg, events[2].ans.lookup)
         case Some(code) => FailsAs(msg, code, events[3..], ret)
         case None => events[2].ans.lookup.Found? && ComparesAs(msg, events[2].ans.lookup.rec, events[3..], ret)
  }

  /** A Reconcile call that cannot load says so in one status, under its target alone. */
  predicate GivesUpAs(target: string, code: Code, events: seq<Event>, ret: Return) {
    |events| == 1 && Asks(events, PublishStatus(Notice(target, "", ""), Failure, Failed)) && ret == StartupFailed(code)
  }

  /** A whole Reconcile call. What it processes, it reports under the record's own identifiers. */
  predicate ReconcilesAs(target: string, events: seq<Event>, ret: Return) {
    Asks(events, LoadState) &&
    match events[0].ans.state
    case None => GivesUpAs(target, StateLoadFailed, events[1..], ret)
    case Some(local) =>
      Asks(events[1..], LoadDesired(target)) &&
      match events[1].ans.lookup
      case NotFound => |events| == 2 && ret == Nil(NothingDesired)
      case NilRecord => |events| == 2 && ret == Nil(NothingDesired)
      case Fault => GivesUpAs(target, LoadDesiredFailed, events[2..], ret)
      case Found(rec) =>
        if local == State(target, rec.uuid) then |events| == 2 && ret == Nil(InSync)
        else ProcessesAs(Notice(rec.target, rec.rpcId, rec.uuid), rec, events[2..], ret)
  }

  predicate DoesAs(call: Call, events: seq<Event>, ret: Return) {
    match call
    case Handle(msg) => HandlesAs(msg, events, ret)
    case Reconcile(target) => ReconcilesAs(target, events, ret)
  }

  /** From p, these events end the call. */
  predicate Ends(p: Point, events: seq<Event>, ret: Return) {
    After(p, events) == Some(Returned(ret))
  }

  /** The first event, and the rest. */
  lemma {:induction false} AfterCons(p: Point, events: seq<Event>)
    requires events != []
    ensures After(p, events) == if Performs(p, events[0]) then After(Resume(p, events[0].ans), events[1..]) else None
  {
    var n := |events| - 1;
    if n == 0 {
      assert events[..n] == [] && events[1..] == [];
    } else {
      AfterCons(p, events[..n]);
      assert events[..n][1..] == events[1..][..n - 1];
      assert events[1..][n - 1] == events[n];
    }
  }

  lemma EndsCons(p: Point, events: seq<Event>, ret: Return)
    ensures p.Returned? ==> (Ends(p, events, ret) <==> events == [] && p == Returned(ret))
    ensures !p.Returned? ==>
              (Ends(p, events, ret) <==> Asks(events, Next(p)) && Ends(Resume(p, events[0].ans), events[1..], ret))
  {
    if events != [] {
      AfterCons(p, events);
    }
  }

  lemma FailsIff(msg: Notice, code: Code, events: seq<Event>, ret: Return)
    ensures Ends(AtFailStatus(msg, code), events, ret) <==> FailsAs(msg, code, events, ret)
  {
    EndsCons(AtFailStatus(msg, code), events, ret);
    if Asks(events, PublishStatus(msg, Failure, Failed)) {
      var p := AtFailResult(msg, code, !events[0].ans.ok);
      EndsCons(p, events[1..], ret);
      if Asks(events[1..], PublishResult(msg, Failure, code)) {
        EndsCons(Resume(p, events[1].ans), events[1..][1..], ret);
      }
    }
  }

  lemma SyncedIff(msg: Notice, rec: Record, events: seq<Event>, ret: Return)
    ensures Ends(AtSyncStatus(msg, rec), events, ret) <==> SucceedsAs(msg, AlreadyInSync, InSync, events, ret)
  {
    EndsCons(AtSyncStatus(msg, rec), events, ret);
    if Asks(events, PublishStatus(msg, Success, AlreadyInSync)) {
      var p := AtSyncResult(msg, rec, !events[0].ans.ok);
      EndsCons(p, events[1..], ret);
      if Asks(events[1..], PublishResult(msg, Success, NoCode)) {
        EndsCons(Resume(p, events[1].ans), events[1..][1..], ret);
      }
    }
  }

  lemma AppliedIff(msg: Notice, rec: Record, events: seq<Event>, ret: Return)
    ensures Ends(AtAppliedStatus(msg, rec), events, ret) <==> SucceedsAs(msg, Applied, Completed, events, ret)
  {
    EndsCons(AtAppliedStatus(msg, rec), events, ret);
    if Asks(events, PublishStatus(msg, Success, Applied)) {
      var p := AtAppliedResult(msg, rec, !events[0].ans.ok);
      EndsCons(p, events[1..], ret);
      if Asks(events[1..], PublishResult(msg, Success, NoCode)) {
        EndsCons(Resume(p, events[1].ans), events[1..][1..], ret);
      }
    }
  }

  lemma SavesIff(msg: Notice, rec: Record, events: seq<Event>, ret: Return)
    ensures Ends(AtProcess(msg, rec, ToSave), events, ret) <==> SavesAs(msg, rec, events, ret)
  {
    EndsCons(AtProcess(msg, rec, ToSave), events, ret);
    if Asks(events, Save(State(msg.target, rec.uuid))) {
      AppliedIff(msg, rec, events[1..], ret);
      EndsCons(Returned(SaveFailed), events[1..], ret);
    }
  }

  lemma AppliesIff(msg: Notice, rec: Record, events: seq<Event>, ret: Return)
    ensures Ends(AtProcess(msg, rec, ToApply), events, ret) <==> AppliesAs(msg, rec, events, ret)
  {
    EndsCons(AtProcess(msg, rec, ToApply), events, ret);
    if |events| > 0 {
      SavesIff(msg, rec, events[1..], ret);
      FailsIff(msg, ApplyFailed, events[1..], ret);
    }
  }

  lemma AnnouncesIff(msg: Notice, rec: Record, events: seq<Event>, ret: Return)
    ensures Ends(AtProcess(msg, rec, ToRendered), events, ret) <==> AnnouncesAs(msg, rec, events, ret)
  {
    EndsCons(AtProcess(msg, rec, ToRendered), events, ret);
    if |events| > 0 {
      EndsCons(AtProcess(msg, rec, ToApplying), events[1..], ret);
    }
    if |events| > 1 {
      assert events[1..][1..] == events[2..];
      AppliesIff(msg, rec, events[2..], ret);
    }
  }

  lemma ProcessesIff(msg: Notice, rec: Record, events: seq<Event>, ret: Return)
    ensures Ends(AtProcess(msg, rec, ToRendering), events, ret) <==> ProcessesAs(msg, rec, events, ret)
  {
    EndsCons(AtProcess(msg, rec, ToRendering), events, ret);
    if |events| > 0 {
      EndsCons(AtProcess(msg, rec, ToRender), events[1..], ret);
    }
    if |events| > 1 {
      assert events[1..][1..] == events[2..];
      AnnouncesIff(msg, rec, events[2..], ret);
      FailsIff(msg, RenderFailed, events[2..], ret);
    }
  }

  lemma ComparesIff(msg: Notice, rec: Record, events: seq<Event>, ret: Return)
    ensures Ends(AtState(msg, rec), events, ret) <==> ComparesAs(msg, rec, events, ret)
  {
    EndsCons(AtState(msg, rec), events, ret);
    if |events| > 0 {
      FailsIff(msg, StateLoadFailed, events[1..], ret);
      SyncedIff(msg, rec, events[1..], ret);
      ProcessesIff(msg, rec, events[1..], ret);
    }
  }

  lemma LoadsIff(msg: Notice, events: seq<Event>, ret: Return)
    ensures Ends(AtDesired(msg), events, ret) <==>
              && Asks(events, LoadDesired(msg.target))
              && match Objection(msg, events[0].ans.lookup)
                 case Some(code) => FailsAs(msg, code, events[1..], ret)
                 case None => events[0].ans.lookup.Found? && ComparesAs(msg, events[0].ans.lookup.rec, events[1..], ret)
  {
    EndsCons(AtDesired(msg), events, ret);
    if Asks(events, LoadDesired(msg.target)) {
      match Objection(msg, events[0].ans.lookup)
      case Some(code) => FailsIff(msg, code, events[1..], ret);
      case None => ComparesIff(msg, events[0].ans.lookup.rec, events[1..], ret);
    }
  }

  lemma HandlesIff(msg: Notice, events: seq<Event>, ret: Return)
    ensures Completes(Handle(msg), events, ret) <==> HandlesAs(msg, events, ret)
  {
    if Blank(msg.target) {
      FailsIff(msg, NotificationTargetInvalid, events, ret);
    } else if Blank(msg.uuid) {
      FailsIff(msg, NotificationUuidInvalid, events, ret);
    } else {
      EndsCons(AtReceived(msg), events, ret);
      if |events| > 0 {
        EndsCons(AtLoading(msg), events[1..], ret);
      }
      if |events| > 1 {
        assert events[1..][1..] == events[2..];
        LoadsIff(msg, events[2..], ret);
      }
      if |events| > 2 {
        assert events[2..][1..] == events[3..];
      }
    }
  }

  lemma GivesUpIff(target: string, code: Code, events: seq<Event>, ret: Return)
    ensures Ends(AtStartupStatus(target, code), events, ret) <==> GivesUpAs(target, code, events, ret)
  {
    EndsCons(AtStartupStatus(target, code), events, ret);
    if |events| > 0 {
      EndsCons(Returned(StartupFailed(code)), events[1..], ret);
    }
  }

  lemma LooksUpIff(target: string, local: State, events: seq<Event>, ret: Return)
    ensures Ends(AtStartupDesired(target, local), events, ret) <==>
              Asks(events, LoadDesired(target)) &&
              match events[0].ans.lookup
              case NotFound => |events| == 1 && ret == Nil(NothingDesired)
              case NilRecord => |events| == 1 && ret == Nil(NothingDesired)
              case Fault => GivesUpAs(target, LoadDesiredFailed, events[1..], ret)
              case Found(rec) =>
                if local == State(target, rec.uuid) then |events| == 1 && ret == Nil(InSync)
                else ProcessesAs(Notice(rec.target, rec.rpcId, rec.uuid), rec, events[1..], ret)
  {
    EndsCons(AtStartupDesired(target, local), events, ret);
    if Asks(events, LoadDesired(target)) {
      match events[0].ans.lookup
      case Fault => GivesUpIff(target, LoadDesiredFailed, events[1..], ret);
      case Found(rec) =>
        ProcessesIff(Notice(rec.target, rec.rpcId, rec.uuid), rec, events[1..], ret);
        EndsCons(Returned(Nil(InSync)), events[1..], ret);
      case _ => EndsCons(Returned(Nil(NothingDesired)), events[1..], ret);
    }
  }

  lemma ReconcilesIff(target: string, events: seq<Event>, ret: Return)
    ensures Completes(Reconcile(target), events, ret) <==> ReconcilesAs(target, events, ret)
  {
    EndsCons(AtStartupState(target), events, ret);
    if Asks(events, LoadState) {
      match events[0].ans.state
      case None => GivesUpIff(target, StateLoadFailed, events[1..], ret);
      case Some(local) =>
        LooksUpIff(target, local, events[1..], ret);
        if |events| > 1 {
          assert events[1..][1..] == events[2..];
        }
    }
  }

  /** The executions of a call are exactly those. */
  lemma CallsDoAsTold(call: Call, events: seq<Event>, ret: Return)
    ensures Completes(call, events, ret) <==> DoesAs(call, events, ret)
  {
    match call
    case Handle(msg) => HandlesIff(msg, events, ret);
    case Reconcile(target) => ReconcilesIff(target, events, ret);
  }

  lemma ProcessingFailures(msg: Notice, rec: Record, events: seq<Event>, ret: Return)
    requires ProcessesAs(msg, rec, events, ret) && ret.FailedWith?
    ensures || (ret.code == RenderFailed && |events| == 4 && events[1] == Event(Render(rec), Ack(false)))
            || (ret.code == ApplyFailed && |events| == 7 && events[4] == Event(Apply(rec), Ack(false)))
  {
  }

  lemma ComparingFailures(msg: Notice, rec: Record, events: seq<Event>, ret: Return)
    requires ComparesAs(msg, rec, events, ret) && ret.FailedWith?
    ensures || (ret.code == StateLoadFailed && |events| == 3 && events[0] == Event(LoadState, Loaded(None)))
            || (ret.code == RenderFailed && |events| == 5 && events[2] == Event(Render(rec), Ack(false)))
            || (ret.code == ApplyFailed && |events| == 8 && events[5] == Event(Apply(rec), Ack(false)))
  {
    if events[0].ans.state.Some? && events[0].ans.state.value != State(msg.target, rec.uuid) {
      ProcessingFailures(msg, rec, events[1..], ret);
    }
  }

  /** Every failure that Handle reports has its cause: blank identifiers, the answer to the lookup, or a
      state load, a render or an apply of the loaded record that failed. */
  lemma FailuresHaveTheirCause(msg: Notice, events: seq<Event>, ret: Return)
    requires Completes(Handle(msg), events, ret) && ret.FailedWith?
    ensures ret.code == NotificationTargetInvalid <==> Blank(msg.target)
    ensures ret.code == NotificationUuidInvalid <==> !Blank(msg.target) && Blank(msg.uuid)
    ensures
      !Blank(msg.target) && !Blank(msg.uuid) ==>
        && |events| > 3 && events[2].ans.Desired?
        && match Objection(msg, events[2].ans.lookup)
           case Some(code) => ret.code == code
           case None =>
             events[2].ans.lookup.Found? &&
             var rec := events[2].ans.lookup.rec;
             || (ret.code == StateLoadFailed && events[3] == Event(LoadState, Loaded(None)))
             || (ret.code == RenderFailed && |events| == 8 && events[5] == Event(Render(rec), Ack(false)))
             || (ret.code == ApplyFailed && |events| == 11 && events[8] == Event(Apply(rec), Ack(false)))
  {
    HandlesIff(msg, events, ret);
    if !Blank(msg.target) && !Blank(msg.uuid) && Objection(msg, events[2].ans.lookup).None? {
      ComparingFailures(msg, events[2].ans.lookup.rec, events[3..], ret);
    }
  }

  /** A Handle that has found its record and any checkpoint but that record's goes on to render it. */
  lemma DriftIsRendered(msg: Notice, events: seq<Event>, ret: Return, rec: Record, local: State)
    requires Completes(Handle(msg), events, ret) && !Blank(msg.target) && !Blank(msg.uuid)
    requires |events| > 3 && events[2].ans == Desired(Found(rec)) && events[3].ans == Loaded(Some(local))
    requires rec.target == msg.target && rec.uuid == msg.uuid && local != State(msg.target, msg.uuid)
    ensures |events| > 5 && events[5].req == Render(rec)
  {
    HandlesIff(msg, events, ret);
  }
}
