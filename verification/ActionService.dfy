// internal/actions/service.go as imperative code over a client and executors that may answer anything.

module ActionService {
  import opened Wrappers
  import opened Text
  import opened ActionCall
  import opened ActionMeaning

  datatype ServiceError = ClientMissing | ExecutorMissing(action: string) | NoExecutors

  /** A registered executor may be a nil interface value. */
  datatype Executor = NoExecutor | AnExecutor

  datatype Created = Ready(cfg: Config) | Refused(error: ServiceError)

  /** The actions that the configured names enable. */
  ghost predicate Enables(names: seq<string>, action: string) {
    exists k :: 0 <= k < |names| && !Blank(names[k]) && action == Trim(names[k])
  }

  /** NewService: blank names are skipped, enabled names are trimmed, executor keys are not. */
  method NewService(hasClient: bool, names: seq<string>, executors: map<string, Executor>) returns (r: Created)
    ensures r == Refused(ClientMissing) <==> !hasClient
    ensures r.Refused? && r.error.ExecutorMissing? ==>
              var a := r.error.action; a in executors && !Blank(a) && executors[a].NoExecutor?
    ensures hasClient && (exists a :: a in executors && !Blank(a) && executors[a].NoExecutor?) ==>
              r.Refused? && r.error.ExecutorMissing?
    ensures r == Refused(NoExecutors) <==> hasClient && forall a | a in executors :: Blank(a)
    ensures r.Ready? ==>
              && (forall a :: a in r.cfg.enabled <==> Enables(names, a))
              && (forall a :: a in r.cfg.executors <==> a in executors && !Blank(a))
  {
    if !hasClient {
      return Refused(ClientMissing);
    }
    var enabled: set<string> := {};
    for i := 0 to |names|
      invariant forall a :: a in enabled <==> Enables(names[..i], a)
    {
      var trimmed := Trim(names[i]);
      TrimmedAwayIffBlank(names[i]);
      EnablesSnoc(names, i);
      if trimmed == "" {
        continue;
      }
      enabled := enabled + {trimmed};
    }
    assert names[..|names|] == names;

    var kept: set<string> := {};
    var left := executors.Keys;
    while left != {}
      invariant left <= executors.Keys
      invariant forall a :: a in kept <==> a in executors && a !in left && !Blank(a)
      invariant forall a | a in executors && a !in left && !Blank(a) :: executors[a].AnExecutor?
      decreases left
    {
      var action :| action in left;
      left := left - {action};
      TrimmedAwayIffBlank(action);
      if Trim(action) == "" {
        continue;
      }
      if executors[action].NoExecutor? {
        return Refused(ExecutorMissing(action));
      }
      kept := kept + {action};
    }
    if kept == {} {
      assert forall a | a in executors :: a !in kept;
      return Refused(NoExecutors);
    }
    var some :| some in kept;
    return Ready(Config(enabled, kept));
  }

  lemma EnablesSnoc(names: seq<string>, i: nat)
    requires i < |names|
    ensures forall a :: Enables(names[..i + 1], a) <==> Enables(names[..i], a) || (!Blank(names[i]) && a == Trim(names[i]))
  {
    forall a | Enables(names[..i], a)
      ensures Enables(names[..i + 1], a)
    {
      var k :| 0 <= k < i && !Blank(names[..i][k]) && a == Trim(names[..i][k]);
      assert names[..i + 1][k] == names[k];
    }
    assert names[..i + 1][i] == names[i];
  }

  /** The client and the executors as one call sees them. `msg`, `events` and `at` are a monitor that
      no request out of turn gets past. */
  class Dependencies {
    const cfg: Config
    ghost var msg: Command
    ghost var events: seq<Event>
    ghost var at: Point

    constructor (cfg: Config)
      ensures this.cfg == cfg && Valid()
    {
      this.cfg := cfg;
      msg, events, at := Command("", "", ""), [], AtReceived;
    }

    ghost predicate Valid()
      reads this
    {
      After(cfg, msg, events) == Some(at)
    }

    ghost predicate Expects(req: Request)
      reads this
    {
      Valid() && !at.Returned? && Next(at, msg) == req
    }

    ghost method Begin(msg: Command)
      modifies this
      ensures Valid() && this.msg == msg && events == [] && at == AtReceived
    {
      this.msg, events, at := msg, [], AtReceived;
    }

    ghost method Note(req: Request, ans: Answer)
      requires Expects(req) && Fits(req, ans)
      modifies this
      ensures Valid() && msg == old(msg) && events == old(events) + [Event(req, ans)]
      ensures at == Resume(old(at), cfg, msg, ans)
    {
      AfterSnoc(cfg, msg, events, Event(req, ans));
      events, at := events + [Event(req, ans)], Resume(at, cfg, msg, ans);
    }

    method PublishStatus(m: Command, level: Level, stage: Stage) returns (ok: bool)
      requires Expects(Request.PublishStatus(m, level, stage))
      modifies this
      ensures Valid() && msg == old(msg) && at == Resume(old(at), cfg, msg, Ack(ok))
      ensures events == old(events) + [Event(Request.PublishStatus(m, level, stage), Ack(ok))]
    {
      ok := *;
      Note(Request.PublishStatus(m, level, stage), Ack(ok));
    }

    method PublishResult(m: Command, level: Level, code: Code) returns (ok: bool)
      requires Expects(Request.PublishResult(m, level, code))
      modifies this
      ensures Valid() && msg == old(msg) && at == Resume(old(at), cfg, msg, Ack(ok))
      ensures events == old(events) + [Event(Request.PublishResult(m, level, code), Ack(ok))]
    {
      ok := *;
      Note(Request.PublishResult(m, level, code), Ack(ok));
    }

    method Execute(m: Command) returns (execution: Execution)
      requires Expects(Request.Execute(m))
      modifies this
      ensures Valid() && msg == old(msg) && at == Resume(old(at), cfg, msg, Ran(execution))
      ensures events == old(events) + [Event(Request.Execute(m), Ran(execution))]
    {
      execution := *;
      Note(Request.Execute(m), Ran(execution));
    }
  }

  class Service {
    const deps: Dependencies

    constructor (deps: Dependencies)
      ensures this.deps == deps
    {
      this.deps := deps;
    }

    /** Returns nil exactly when the success result has been accepted, having executed the action
        once; on any other end, no success result has been accepted. HandlesAs says which end comes of
        which answers. */
    method Handle(hasContext: bool, msg: Command) returns (ret: Return)
      requires deps.Valid()
      modifies deps
      ensures !hasContext ==> ret == NilContext && unchanged(deps)
      ensures hasContext ==> HandlesAs(deps.cfg, msg, deps.events, ret)
      ensures hasContext ==>
                var d := DigestOf(deps.events);
                && (ret.Nil? <==> d.delivered == [Success])
                && |d.delivered| <= 1 && |d.executions| <= 1 && (ret.Nil? ==> |d.executions| == 1)
    {
      if !hasContext {
        return NilContext;
      }
      deps.Begin(msg);
      ret := Process(msg);
      CallsStayExpected(deps.cfg, msg, deps.events, Returned(ret));
      HandlesIff(deps.cfg, msg, deps.events, ret);
      ActionTrace(deps.cfg, msg, deps.events, ret);
    }

    /** The body of Handle. */
    method Process(msg: Command) returns (ret: Return)
      requires deps.Valid() && deps.msg == msg && deps.at == AtReceived
      modifies deps
      ensures deps.Valid() && deps.msg == msg && deps.at == Returned(ret)
    {
      var received := deps.PublishStatus(msg, Running, Received);
      if !received {
        ret := Fail(msg, StatusPublishFailed);
        return;
      }
      if msg.action !in deps.cfg.enabled {
        ret := Fail(msg, DisabledAction);
        return;
      }
      if msg.action !in deps.cfg.executors {
        ret := Fail(msg, UnsupportedAction);
        return;
      }
      var executing := deps.PublishStatus(msg, Running, Executing);
      if !executing {
        ret := Fail(msg, StatusPublishFailed);
        return;
      }
      var execution := deps.Execute(msg);
      if !execution.Output? {
        var code := if execution.BadPayload? then InvalidActionPayload else ActionExecuteFailed;
        ret := Fail(msg, code);
        return;
      }
      var completed := deps.PublishStatus(msg, Success, Completed);
      if !completed {
        ret := Fail(msg, StatusPublishFailed);
        return;
      }
      var delivered := deps.PublishResult(msg, Success, NoCode);
      if !delivered {
        ret := Fail(msg, ResultPublishFailed);
        return;
      }
      return Nil;
    }

    method Fail(msg: Command, code: Code) returns (ret: Return)
      requires deps.Valid() && deps.msg == msg && deps.at == AtFailStatus(code)
      modifies deps
      ensures deps.Valid() && deps.msg == msg && deps.at == Returned(ret)
      ensures ret.FailedWith? && ret.code == code
    {
      var statusOk := deps.PublishStatus(msg, Failure, Failed);
      var resultOk := deps.PublishResult(msg, Failure, code);
      ret := FailedWith(code, !statusOk, !resultOk);
    }
  }
}
