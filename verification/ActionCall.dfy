// One action call of internal/actions/service.go: its requests and what it does with the answers,
// what it reports, and many calls at once.

module ActionCall {
  import opened Wrappers

  datatype Command = Command(target: string, action: string, rpcId: string)

  datatype Level = Running | Success | Failure

  datatype Stage = Received | Executing | Completed | Failed

  datatype Code =
    | NoCode | StatusPublishFailed | DisabledAction | UnsupportedAction
    | InvalidActionPayload | ActionExecuteFailed | ResultPublishFailed

  datatype Request =
    | PublishStatus(msg: Command, level: Level, stage: Stage)
    | PublishResult(msg: Command, level: Level, code: Code)
    | Execute(msg: Command)

  /** How an executor ends: with an output, with an invalid-payload error, or with another error. */
  datatype Execution = Output | BadPayload | Broken

  datatype Answer = Ack(ok: bool) | Ran(execution: Execution)

  predicate Fits(req: Request, ans: Answer) {
    if req.Execute? then ans.Ran? else ans.Ack?
  }

  datatype Return = Nil | FailedWith(code: Code, statusErr: bool, resultErr: bool) | NilContext

  /** The enabled actions and those that have an executor. */
  datatype Config = Config(enabled: set<string>, executors: set<string>)

  datatype Point =
    | AtReceived
    | AtExecuting
    | AtExecute
    | AtCompleted
    | AtResult
    | AtFailStatus(code: Code)
    | AtFailResult(code: Code, statusErr: bool)
    | Returned(ret: Return)

  function Next(p: Point, msg: Command): Request
    requires !p.Returned?
  {
    match p
    case AtReceived => PublishStatus(msg, Running, Received)
    case AtExecuting => PublishStatus(msg, Running, Executing)
    case AtExecute => Execute(msg)
    case AtCompleted => PublishStatus(msg, Success, Completed)
    case AtResult => PublishResult(msg, Success, NoCode)
    case AtFailStatus(_) => PublishStatus(msg, Failure, Failed)
    case AtFailResult(code, _) => PublishResult(msg, Failure, code)
  }

  /** Whether the action may be executed at all. */
  function Admit(cfg: Config, action: string): Point {
    if action !in cfg.enabled then AtFailStatus(DisabledAction)
    else if action !in cfg.executors then AtFailStatus(UnsupportedAction)
    else AtExecuting
  }

  function Resume(p: Point, cfg: Config, msg: Command, ans: Answer): Point
    requires !p.Returned? && Fits(Next(p, msg), ans)
  {
    match p
    case AtReceived => if ans.ok then Admit(cfg, msg.action) else AtFailStatus(StatusPublishFailed)
    case AtExecuting => if ans.ok then AtExecute else AtFailStatus(StatusPublishFailed)
    case AtExecute => (
      match ans.execution
      case Output => AtCompleted
      case BadPayload => AtFailStatus(InvalidActionPayload)
      case Broken => AtFailStatus(ActionExecuteFailed))
    case AtCompleted => if ans.ok then AtResult else AtFailStatus(StatusPublishFailed)
    case AtResult => if ans.ok then Returned(Nil) else AtFailStatus(ResultPublishFailed)
    case AtFailStatus(code) => AtFailResult(code, !ans.ok)
    case AtFailResult(code, statusErr) => Returned(FailedWith(code, statusErr, !ans.ok))
  }

  datatype Event = Event(req: Request, ans: Answer)

  predicate Performs(p: Point, msg: Command, e: Event) {
    !p.Returned? && e.req == Next(p, msg) && Fits(e.req, e.ans)
  }

  /** Where the call stands after these events; None if it would not have made them. */
  function After(cfg: Config, msg: Command, events: seq<Event>): Option<Point> {
    if events == [] then Some(AtReceived)
    else
      var before := After(cfg, msg, events[..|events| - 1]);
      var e := events[|events| - 1];
      if before.Some? && Performs(before.value, msg, e) then Some(Resume(before.value, cfg, msg, e.ans)) else None
  }

  lemma AfterSnoc(cfg: Config, msg: Command, events: seq<Event>, e: Event)
    ensures After(cfg, msg, events + [e]) ==
            var before := After(cfg, msg, events);
            if before.Some? && Performs(before.value, msg, e) then Some(Resume(before.value, cfg, msg, e.ans)) else None
  {
    assert (events + [e])[..|events|] == events;
  }

  /** What an observer keeps of a call: the attempted stages, the running stages that were accepted,
      how often the executor ran and after which accepted stages, and the results. */
  datatype Digest = Digest(
    stages: seq<Stage>,
    accepted: seq<Stage>,
    executions: seq<seq<Stage>>,
    results: seq<Level>,
    delivered: seq<Level>)

  function Observe(d: Digest, e: Event): Digest {
    var ok := e.ans == Ack(true);
    match e.req
    case PublishStatus(_, level, stage) =>
      d.(stages := d.stages + [stage], accepted := if ok then d.accepted + [stage] else d.accepted)
    case PublishResult(_, level, _) =>
      d.(results := d.results + [level], delivered := if ok then d.delivered + [level] else d.delivered)
    case Execute(_) => d.(executions := d.executions + [d.accepted])
  }

  function DigestOf(events: seq<Event>): Digest {
    if events == [] then Digest([], [], [], [], [])
    else Observe(DigestOf(events[..|events| - 1]), events[|events| - 1])
  }

  /** What a failing call has done before it reports the failure. */
  ghost predicate BeforeFailure(code: Code, d: Digest) {
    && d.delivered == []
    && match code
       case DisabledAction => d.stages == [Received] && d.executions == [] && d.results == []
       case UnsupportedAction => d.stages == [Received] && d.executions == [] && d.results == []
       case InvalidActionPayload => Ran1(d) && d.stages == [Received, Executing] && d.results == []
       case ActionExecuteFailed => Ran1(d) && d.stages == [Received, Executing] && d.results == []
       case StatusPublishFailed =>
         && d.results == []
         && (|| (d.stages in {[Received], [Received, Executing]} && d.executions == [])
             || (d.stages == [Received, Executing, Completed] && Ran1(d)))
       case ResultPublishFailed => Ran1(d) && d.stages == [Received, Executing, Completed] && d.results == [Success]
       case NoCode => false
  }

  /** The executor ran once, after both running statuses had been accepted. */
  ghost predicate Ran1(d: Digest) {
    d.executions == [[Received, Executing]]
  }

  ghost predicate Expected(p: Point, d: Digest) {
    match p
    case AtReceived => d == Digest([], [], [], [], [])
    case AtExecuting => d == Digest([Received], [Received], [], [], [])
    case AtExecute => d == Digest([Received, Executing], [Received, Executing], [], [], [])
    case AtCompleted => d == Digest([Received, Executing], [Received, Executing], [[Received, Executing]], [], [])
    case AtResult =>
      && d.stages == d.accepted == [Received, Executing, Completed] && Ran1(d) && d.results == d.delivered == []
    case AtFailStatus(code) => BeforeFailure(code, d)
    case AtFailResult(code, _) =>
      && |d.stages| > 0 && d.stages[|d.stages| - 1] == Failed
      && exists before :: BeforeFailure(code, d.(stages := before)) && d.stages == before + [Failed]
    case Returned(Nil) =>
      && d.stages == [Received, Executing, Completed] && Ran1(d) && d.results == d.delivered == [Success]
    case Returned(FailedWith(code, _, resultErr)) =>
      && (exists before, results ::
            && BeforeFailure(code, d.(stages := before, results := results, delivered := []))
            && d.stages == before + [Failed] && d.results == results + [Failure])
      && d.delivered == if resultErr then [] else [Failure]
    case Returned(NilContext) => false
  }

  lemma StepKeepsExpected(cfg: Config, msg: Command, p: Point, d: Digest, e: Event)
    requires Expected(p, d) && Performs(p, msg, e)
    ensures Expected(Resume(p, cfg, msg, e.ans), Observe(d, e))
  {
    var d' := Observe(d, e);
    match p
    case AtFailStatus(code) =>
      assert BeforeFailure(code, d'.(stages := d.stages)) by { assert d'.(stages := d.stages, accepted := d.accepted) == d; }
    case AtFailResult(code, _) =>
      var before :| BeforeFailure(code, d.(stages := before)) && d.stages == before + [Failed];
      assert d'.(stages := before, results := d.results, delivered := []) == d.(stages := before);
    case _ =>
  }

  lemma {:induction false} CallsStayExpected(cfg: Config, msg: Command, events: seq<Event>, p: Point)
    requires After(cfg, msg, events) == Some(p)
    ensures Expected(p, DigestOf(events))
  {
    if events != [] {
      var init := events[..|events| - 1];
      CallsStayExpected(cfg, msg, init, After(cfg, msg, init).value);
      StepKeepsExpected(cfg, msg, After(cfg, msg, init).value, DigestOf(init), events[|events| - 1]);
    }
  }

  const WORDS: set<seq<Stage>> := {
    [Received] + [Failed],
    [Received, Executing] + [Failed],
    [Received, Executing, Completed] + [Failed],
    [Received, Executing, Completed]
  }

  /** One whole call: the executor runs at most once and only after both running statuses were
      accepted; at most one result is accepted, the success result exactly when the call returns nil;
      and the stages form a word of the language. */
  lemma ActionTrace(cfg: Config, msg: Command, events: seq<Event>, ret: Return)
    requires After(cfg, msg, events) == Some(Returned(ret))
    ensures
      var d := DigestOf(events);
      && d.stages in WORDS
      && (d.executions == [] || d.executions == [[Received, Executing]])
      && (d.executions != [] ==> msg.action in cfg.enabled && msg.action in cfg.executors)
      && |d.delivered| <= 1 && (ret.Nil? <==> d.delivered == [Success])
      && (ret.Nil? <==> d.stages == [Received, Executing, Completed])
  {
    CallsStayExpected(cfg, msg, events, Returned(ret));
    var d := DigestOf(events);
    assert ret.FailedWith? ==> |d.stages| > 0 && d.stages[|d.stages| - 1] == Failed;
    OnlyAdmittedActionsRun(cfg, msg, events);
  }

  lemma {:induction false} OnlyAdmittedActionsRun(cfg: Config, msg: Command, events: seq<Event>)
    requires After(cfg, msg, events).Some?
    ensures DigestOf(events).executions != [] || After(cfg, msg, events).value in {AtExecuting, AtExecute} ==>
              msg.action in cfg.enabled && msg.action in cfg.executors
  {
    if events != [] {
      OnlyAdmittedActionsRun(cfg, msg, events[..|events| - 1]);
    }
  }

  /** The same while the call is still under way. */
  lemma ActionSoFar(cfg: Config, msg: Command, events: seq<Event>)
    requires After(cfg, msg, events).Some?
    ensures
      var d := DigestOf(events);
      && (d.executions == [] || d.executions == [[Received, Executing]])
      && (d.executions != [] ==> msg.action in cfg.enabled && msg.action in cfg.executors)
      && |d.delivered| <= 1
  {
    CallsStayExpected(cfg, msg, events, After(cfg, msg, events).value);
    OnlyAdmittedActionsRun(cfg, msg, events);
  }

  /** Any number of calls at once: nothing orders them, not even a lock. */
  datatype System = System(msgs: map<nat, Command>, points: map<nat, Point>, log: seq<(nat, Event)>)

  datatype Label = Begin(id: nat, msg: Command) | Exchange(id: nat, ans: Answer)

  function Step(cfg: Config, s: System, l: Label): Option<System> {
    match l
    case Begin(id, msg) =>
      if id in s.msgs || id in s.points then None
      else Some(s.(msgs := s.msgs[id := msg], points := s.points[id := AtReceived]))
    case Exchange(id, ans) =>
      if id !in s.msgs || id !in s.points || s.points[id].Returned? || !Fits(Next(s.points[id], s.msgs[id]), ans) then None
      else
        var e := Event(Next(s.points[id], s.msgs[id]), ans);
        Some(s.(points := s.points[id := Resume(s.points[id], cfg, s.msgs[id], ans)], log := s.log + [(id, e)]))
  }

  function Run(cfg: Config, ls: seq<Label>): Option<System> {
    if ls == [] then Some(System(map[], map[], []))
    else
      var before := Run(cfg, ls[..|ls| - 1]);
      if before.Some? then Step(cfg, before.value, ls[|ls| - 1]) else None
  }

  /** The events of one call, picked out of the log of all. */
  function Projection(log: seq<(nat, Event)>, id: nat): seq<Event> {
    if log == [] then []
    else
      var (i, e) := log[|log| - 1];
      Projection(log[..|log| - 1], id) + if i == id then [e] else []
  }

  lemma ProjectionSnoc(log: seq<(nat, Event)>, i: nat, e: Event, id: nat)
    ensures Projection(log + [(i, e)], id) == if i == id then Projection(log, id) + [e] else Projection(log, id)
  {
    assert (log + [(i, e)])[..|log|] == log;
  }

  ghost predicate IsCall(cfg: Config, s: System, id: nat)
    requires s.msgs.Keys == s.points.Keys
  {
    if id in s.points then After(cfg, s.msgs[id], Projection(s.log, id)) == Some(s.points[id])
    else Projection(s.log, id) == []
  }

  ghost predicate Projected(cfg: Config, s: System) {
    s.msgs.Keys == s.points.Keys && forall id :: IsCall(cfg, s, id)
  }

  lemma BeginKeepsProjected(cfg: Config, s: System, l: Label, id: nat)
    requires l.Begin? && Projected(cfg, s) && Step(cfg, s, l).Some?
    ensures var s' := Step(cfg, s, l).value; s'.msgs.Keys == s'.points.Keys && IsCall(cfg, s', id)
  {
    assert IsCall(cfg, s, id);
  }

  lemma ExchangeKeepsProjected(cfg: Config, s: System, l: Label, id: nat)
    requires l.Exchange? && Projected(cfg, s) && Step(cfg, s, l).Some?
    ensures var s' := Step(cfg, s, l).value; s'.msgs.Keys == s'.points.Keys && IsCall(cfg, s', id)
  {
    var e := Event(Next(s.points[l.id], s.msgs[l.id]), l.ans);
    assert IsCall(cfg, s, id);
    ProjectionSnoc(s.log, l.id, e, id);
    if id == l.id {
      AfterSnoc(cfg, s.msgs[id], Projection(s.log, id), e);
    }
  }

  lemma {:induction false} ProjectionsAreCalls(cfg: Config, ls: seq<Label>)
    requires Run(cfg, ls).Some?
    ensures Projected(cfg, Run(cfg, ls).value)
  {
    if ls != [] {
      var s, l := Run(cfg, ls[..|ls| - 1]).value, ls[|ls| - 1];
      ProjectionsAreCalls(cfg, ls[..|ls| - 1]);
      forall id ensures Run(cfg, ls).value.msgs.Keys == Run(cfg, ls).value.points.Keys && IsCall(cfg, Run(cfg, ls).value, id) {
        if l.Begin? { BeginKeepsProjected(cfg, s, l, id); } else { ExchangeKeepsProjected(cfg, s, l, id); }
      }
    }
  }

  /** Per-call projection: in every interleaving, what one call does is what it would do alone. */
  lemma ActionCallsAreIndependent(cfg: Config, ls: seq<Label>, s: System, id: nat)
    requires Run(cfg, ls) == Some(s) && id in s.points
    ensures id in s.msgs
    ensures
      var d := DigestOf(Projection(s.log, id));
      && (d.executions == [] || d.executions == [[Received, Executing]])
      && |d.delivered| <= 1
      && (s.points[id].Returned? ==> d.stages in WORDS && (s.points[id].ret.Nil? <==> d.delivered == [Success]))
  {
    ProjectionsAreCalls(cfg, ls);
    assert IsCall(cfg, s, id);
    ActionSoFar(cfg, s.msgs[id], Projection(s.log, id));
    if s.points[id].Returned? {
      ActionTrace(cfg, s.msgs[id], Projection(s.log, id), s.points[id].ret);
    }
  }
}
