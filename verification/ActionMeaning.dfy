// What an action call does, told from beginning to end: which requests it makes in which case, and what
// it returns. The step machine has exactly these executions.

module ActionMeaning {
  import opened Wrappers
  import opened ActionCall

  /** The call first makes this request, and gets an answer to it. */
  predicate Asks(events: seq<Event>, req: Request) {
    |events| > 0 && events[0].req == req && Fits(req, events[0].ans)
  }

  /** A failure status and a failure result, both attempted. */
  predicate FailsAs(msg: Command, code: Code, events: seq<Event>, ret: Return) {
    && |events| == 2
    && Asks(events, PublishStatus(msg, Failure, Failed)) && Asks(events[1..], PublishResult(msg, Failure, code))
    && ret == FailedWith(code, !events[0].ans.ok, !events[1].ans.ok)
  }

  /** The success result; nil if it is accepted. */
  predicate DeliversAs(msg: Command, events: seq<Event>, ret: Return) {
    && Asks(events, PublishResult(msg, Success, NoCode))
    && if events[0].ans.ok then |events| == 1 && ret.Nil? else FailsAs(msg, ResultPublishFailed, events[1..], ret)
  }

  predicate CompletesAs(msg: Command, events: seq<Event>, ret: Return) {
    && Asks(events, PublishStatus(msg, Success, Completed))
    && if events[0].ans.ok then DeliversAs(msg, events[1..], ret) else FailsAs(msg, StatusPublishFailed, events[1..], ret)
  }

  /** The executor runs on the very command; how it ends decides how the call goes on. */
  predicate ExecutesAs(msg: Command, events: seq<Event>, ret: Return) {
    Asks(events, Execute(msg)) &&
    match events[0].ans.execution
    case Output => CompletesAs(msg, events[1..], ret)
    case BadPayload => FailsAs(msg, InvalidActionPayload, events[1..], ret)
    case Broken => FailsAs(msg, ActionExecuteFailed, events[1..], ret)
  }

  predicate AnnouncesAs(msg: Command, events: seq<Event>, ret: Return) {
    && Asks(events, PublishStatus(msg, Running, Executing))
    && if events[0].ans.ok then ExecutesAs(msg, events[1..], ret) else FailsAs(msg, StatusPublishFailed, events[1..], ret)
  }

  /** A whole call. An action that is enabled and has an executor is announced, and no other. */
  predicate HandlesAs(cfg: Config, msg: Command, events: seq<Event>, ret: Return) {
    Asks(events, PublishStatus(msg, Running, Received)) &&
    if !events[0].ans.ok then FailsAs(msg, StatusPublishFailed, events[1..], ret)
    else if msg.action !in cfg.enabled then FailsAs(msg, DisabledAction, events[1..], ret)
    else if msg.action !in cfg.executors then FailsAs(msg, UnsupportedAction, events[1..], ret)
    else AnnouncesAs(msg, events[1..], ret)
  }

  /** From p, these events end the call. */
  predicate Ends(cfg: Config, msg: Command, p: Point, events: seq<Event>, ret: Return)
    decreases |events|
  {
    if p.Returned? then events == [] && p.ret == ret
    else Asks(events, Next(p, msg)) && Ends(cfg, msg, Resume(p, cfg, msg, events[0].ans), events[1..], ret)
  }

  lemma {:induction false} NoneStays(cfg: Config, msg: Command, events: seq<Event>, k: nat)
    requires k <= |events| && After(cfg, msg, events[..k]).None?
    ensures After(cfg, msg, events).None?
  {
    if k == |events| {
      assert events[..k] == events;
    } else {
      var init := events[..|events| - 1];
      assert init[..k] == events[..k];
      NoneStays(cfg, msg, init, k);
    }
  }

  lemma {:induction false} EndsFrom(cfg: Config, msg: Command, events: seq<Event>, k: nat, ret: Return)
    requires k <= |events| && After(cfg, msg, events[..k]).Some?
    ensures After(cfg, msg, events) == Some(Returned(ret)) <==>
              Ends(cfg, msg, After(cfg, msg, events[..k]).value, events[k..], ret)
    decreases |events| - k
  {
    var p := After(cfg, msg, events[..k]).value;
    if k == |events| {
      assert events[..k] == events && events[k..] == [];
    } else {
      var e := events[k];
      AfterSnoc(cfg, msg, events[..k], e);
      assert events[..k + 1] == events[..k] + [e];
      if Performs(p, msg, e) {
        EndsFrom(cfg, msg, events, k + 1, ret);
        assert events[k..][1..] == events[k + 1..];
      } else {
        NoneStays(cfg, msg, events, k + 1);
      }
    }
  }

  lemma FailsIff(cfg: Config, msg: Command, code: Code, events: seq<Event>, ret: Return)
    ensures Ends(cfg, msg, AtFailStatus(code), events, ret) <==> FailsAs(msg, code, events, ret)
  {
    if Asks(events, PublishStatus(msg, Failure, Failed)) {
      var p := AtFailResult(code, !events[0].ans.ok);
      if Asks(events[1..], PublishResult(msg, Failure, code)) {
        assert Ends(cfg, msg, p, events[1..], ret) <==> Ends(cfg, msg, Resume(p, cfg, msg, events[1].ans), events[1..][1..], ret);
      }
    }
  }

  lemma DeliversIff(cfg: Config, msg: Command, events: seq<Event>, ret: Return)
    ensures Ends(cfg, msg, AtResult, events, ret) <==> DeliversAs(msg, events, ret)
  {
    if Asks(events, PublishResult(msg, Success, NoCode)) {
      FailsIff(cfg, msg, ResultPublishFailed, events[1..], ret);
    }
  }

  lemma CompletesIff(cfg: Config, msg: Command, events: seq<Event>, ret: Return)
    ensures Ends(cfg, msg, AtCompleted, events, ret) <==> CompletesAs(msg, events, ret)
  {
    if Asks(events, PublishStatus(msg, Success, Completed)) {
      DeliversIff(cfg, msg, events[1..], ret);
      FailsIff(cfg, msg, StatusPublishFailed, events[1..], ret);
    }
  }

  lemma ExecutesIff(cfg: Config, msg: Command, events: seq<Event>, ret: Return)
    ensures Ends(cfg, msg, AtExecute, events, ret) <==> ExecutesAs(msg, events, ret)
  {
    if Asks(events, Execute(msg)) {
      match events[0].ans.execution
      case Output => CompletesIff(cfg, msg, events[1..], ret);
      case BadPayload => FailsIff(cfg, msg, InvalidActionPayload, events[1..], ret);
      case Broken => FailsIff(cfg, msg, ActionExecuteFailed, events[1..], ret);
    }
  }

  lemma AnnouncesIff(cfg: Config, msg: Command, events: seq<Event>, ret: Return)
    ensures Ends(cfg, msg, AtExecuting, events, ret) <==> AnnouncesAs(msg, events, ret)
  {
    if Asks(events, PublishStatus(msg, Running, Executing)) {
      ExecutesIff(cfg, msg, events[1..], ret);
      FailsIff(cfg, msg, StatusPublishFailed, events[1..], ret);
    }
  }

  /** The executions of a call are exactly those. */
  lemma HandlesIff(cfg: Config, msg: Command, events: seq<Event>, ret: Return)
    ensures After(cfg, msg, events) == Some(Returned(ret)) <==> HandlesAs(cfg, msg, events, ret)
  {
    assert events[..0] == [] && events[0..] == events;
    EndsFrom(cfg, msg, events, 0, ret);
    if Asks(events, PublishStatus(msg, Running, Received)) {
      AnnouncesIff(cfg, msg, events[1..], ret);
      FailsIff(cfg, msg, StatusPublishFailed, events[1..], ret);
      FailsIff(cfg, msg, DisabledAction, events[1..], ret);
      FailsIff(cfg, msg, UnsupportedAction, events[1..], ret);
    }
  }

  /** Once the received status is accepted: a refusal has its cause, and every other action is announced. */
  lemma RefusalsHaveTheirCause(cfg: Config, msg: Command, events: seq<Event>, ret: Return)
    requires After(cfg, msg, events) == Some(Returned(ret)) && |events| > 0 && events[0].ans == Ack(true)
    ensures ret.FailedWith? && ret.code == DisabledAction <==> msg.action !in cfg.enabled
    ensures ret.FailedWith? && ret.code == UnsupportedAction <==> msg.action in cfg.enabled && msg.action !in cfg.executors
    ensures |events| > 1 && (events[1].req == PublishStatus(msg, Running, Executing) <==>
                             msg.action in cfg.enabled && msg.action in cfg.executors)
  {
    HandlesIff(cfg, msg, events, ret);
  }

  /** An answer as one hopes for. */
  predicate Goes(e: Event) {
    e.ans == Ack(true) || e.ans == Ran(Output)
  }

  /** The requests of a call in which all goes well. */
  function Going(msg: Command): seq<Event> {
    [Event(PublishStatus(msg, Running, Received), Ack(true)),
     Event(PublishStatus(msg, Running, Executing), Ack(true)),
     Event(Execute(msg), Ran(Output)),
     Event(PublishStatus(msg, Success, Completed), Ack(true)),
     Event(PublishResult(msg, Success, NoCode), Ack(true))]
  }

  /** An enabled action with an executor whose publishes are all accepted and whose executor ends with an
      output returns nil, after exactly these requests. */
  lemma AdmittedActionsSucceed(cfg: Config, msg: Command, events: seq<Event>, ret: Return)
    requires After(cfg, msg, events) == Some(Returned(ret)) && msg.action in cfg.enabled && msg.action in cfg.executors
    requires forall e | e in events :: Goes(e)
    ensures ret.Nil? && events == Going(msg)
  {
    HandlesIff(cfg, msg, events, ret);
    assert Goes(events[0]) && Goes(events[1]);
    assert Goes(events[2]) && Goes(events[3]);
    assert Goes(events[4]);
  }

  lemma StagesSnoc(events: seq<Event>, e: Event)
    ensures DigestOf(events + [e]).stages ==
            DigestOf(events).stages + if e.req.PublishStatus? then [e.req.stage] else []
  {
    assert (events + [e])[..|events|] == events;
  }

  /** One status that is not accepted, and the two reports of that. */
  function Refused(msg: Command, level: Level, stage: Stage): seq<Event> {
    [Event(PublishStatus(msg, level, stage), Ack(false)),
     Event(PublishStatus(msg, Failure, Failed), Ack(true)),
     Event(PublishResult(msg, Failure, StatusPublishFailed), Ack(true))]
  }

  lemma RefusedStages(events: seq<Event>, msg: Command, level: Level, stage: Stage)
    ensures DigestOf(events + Refused(msg, level, stage)).stages == DigestOf(events).stages + [stage, Failed]
  {
    var r := Refused(msg, level, stage);
    StagesSnoc(events, r[0]);
    StagesSnoc(events + [r[0]], r[1]);
    StagesSnoc(events + [r[0]] + [r[1]], r[2]);
    assert events + r == events + [r[0]] + [r[1]] + [r[2]];
  }

  lemma GoingStages(msg: Command)
    ensures DigestOf(Going(msg)[..0]).stages == []
    ensures DigestOf(Going(msg)[..1]).stages == [Received]
    ensures DigestOf(Going(msg)[..3]).stages == [Received, Executing]
    ensures DigestOf(Going(msg)).stages == [Received, Executing, Completed]
  {
    var all := Going(msg);
    assert all[..0] == [] && all[..0] + [all[0]] == all[..1];
    assert all[..1] + [all[1]] == all[..2] && all[..2] + [all[2]] == all[..3];
    assert all[..3] + [all[3]] == all[..4] && all[..4] + [all[4]] == all;
    StagesSnoc(all[..0], all[0]);
    StagesSnoc(all[..1], all[1]);
    StagesSnoc(all[..2], all[2]);
    StagesSnoc(all[..3], all[3]);
    StagesSnoc(all[..4], all[4]);
  }

  lemma SuccessOccurs(cfg: Config, msg: Command)
    requires msg.action in cfg.enabled && msg.action in cfg.executors
    ensures After(cfg, msg, Going(msg)) == Some(Returned(Nil))
  {
    HandlesIff(cfg, msg, Going(msg), Nil);
  }

  const STATUS_FAILED := FailedWith(StatusPublishFailed, false, false)

  /** The call goes well up to its n-th request, and the status that comes next is not accepted. */
  lemma RefusalOccurs(cfg: Config, msg: Command, n: nat, level: Level, stage: Stage)
    requires n > 0 ==> msg.action in cfg.enabled && msg.action in cfg.executors
    requires (n, level, stage) in {(0, Running, Received), (1, Running, Executing), (3, Success, Completed)}
    ensures After(cfg, msg, Going(msg)[..n] + Refused(msg, level, stage)) == Some(Returned(STATUS_FAILED))
    ensures DigestOf(Going(msg)[..n] + Refused(msg, level, stage)).stages == DigestOf(Going(msg)[..n]).stages + [stage, Failed]
  {
    RefusedStages(Going(msg)[..n], msg, level, stage);
    HandlesIff(cfg, msg, Going(msg)[..n] + Refused(msg, level, stage), STATUS_FAILED);
  }

  /** No word of the language is idle: every call can tell the first, and every call for an enabled action
      with an executor each of them. */
  lemma EveryWordOccurs(cfg: Config, msg: Command, w: seq<Stage>) returns (events: seq<Event>, ret: Return)
    requires w in WORDS
    requires w == [Received] + [Failed] || (msg.action in cfg.enabled && msg.action in cfg.executors)
    ensures After(cfg, msg, events) == Some(Returned(ret)) && DigestOf(events).stages == w
  {
    GoingStages(msg);
    if w == [Received, Executing, Completed] {
      events, ret := Going(msg), Nil;
      SuccessOccurs(cfg, msg);
    } else {
      var n, level, stage :=
        if w == [Received] + [Failed] then 0 else if w == [Received, Executing] + [Failed] then 1 else 3,
        if w == [Received, Executing, Completed] + [Failed] then Success else Running,
        w[|w| - 2];
      events, ret := Going(msg)[..n] + Refused(msg, level, stage), STATUS_FAILED;
      RefusalOccurs(cfg, msg, n, level, stage);
    }
  }
}
