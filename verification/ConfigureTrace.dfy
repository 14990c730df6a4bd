// What one configure call reports, whatever its dependencies answer: the language of its status
// stages, its results, and what its return value says about them.

module ConfigureTrace {
  import opened Wrappers
  import opened Text
  import opened ConfigureCall

  /** What an outside observer keeps of a call's events. */
  datatype Digest = Digest(
    stages: seq<Stage>,       // the stages of the attempted statuses, in order
    results: seq<Level>,      // the attempted results, in order
    successStatus: bool,      // a success status was accepted
    successResult: bool,      // a success result was accepted
    applied: bool,            // an Apply succeeded
    saved: seq<State>)        // the successful Saves, in order

  const NOTHING := Digest([], [], false, false, false, [])

  function Observe(d: Digest, e: Event): Digest {
    match e.req
    case PublishStatus(_, level, stage) =>
      d.(stages := d.stages + [stage],
         successStatus := d.successStatus || (level == Success && e.ans == Ack(true)))
    case PublishResult(_, level, _) =>
      d.(results := d.results + [level],
         successResult := d.successResult || (level == Success && e.ans == Ack(true)))
    case Apply(_) => d.(applied := d.applied || e.ans == Ack(true))
    case Save(next) => if e.ans == Ack(true) then d.(saved := d.saved + [next]) else d
    case _ => d
  }

  function DigestOf(events: seq<Event>): Digest {
    if events == [] then NOTHING
    else Observe(DigestOf(events[..|events| - 1]), events[|events| - 1])
  }

  const PROLOGUE := [Received, LoadingDesired]
  const ATTEMPT := [Rendering, Rendered, Applying]

  /** Every word of stages that a Handle call can attempt. */
  const HANDLE_WORDS: set<seq<Stage>> := {
    [Failed],
    PROLOGUE + [Failed],
    PROLOGUE + [AlreadyInSync],
    PROLOGUE + [Rendering] + [Failed],
    PROLOGUE + ATTEMPT + [Failed],
    PROLOGUE + ATTEMPT,
    PROLOGUE + ATTEMPT + [Applied]
  }

  /** Every word of stages that a Reconcile call can attempt. */
  const RECONCILE_WORDS: set<seq<Stage>> := {
    [],
    [Failed],
    [Rendering] + [Failed],
    ATTEMPT + [Failed],
    ATTEMPT,
    ATTEMPT + [Applied]
  }

  function Prologue(call: Call): seq<Stage> {
    if call.Handle? then PROLOGUE else []
  }

  /** The stages attempted before a failure with this code is reported. */
  function StagesBefore(call: Call, code: Code): seq<Stage> {
    match code
    case NotificationTargetInvalid => []
    case NotificationUuidInvalid => []
    case RenderFailed => Prologue(call) + [Rendering]
    case ApplyFailed => Prologue(call) + ATTEMPT
    case _ => Prologue(call)
  }

  function StagesUntil(call: Call, phase: Phase): seq<Stage> {
    match phase
    case ToRendering => Prologue(call)
    case ToRender => Prologue(call) + [Rendering]
    case ToRendered => Prologue(call) + [Rendering]
    case ToApplying => Prologue(call) + [Rendering, Rendered]
    case ToApply => Prologue(call) + ATTEMPT
    case ToSave => Prologue(call) + ATTEMPT
  }

  /** The notification a call reports under; Reconcile makes one up from the record it finds. */
  predicate Speaks(call: Call, msg: Notice) {
    call.Handle? ==> msg == call.msg
  }

  predicate FailCode(call: Call, code: Code) {
    if call.Handle? then code != NoCode else code in {RenderFailed, ApplyFailed}
  }

  /** What has been observed of a call by the time it reaches p. */
  ghost predicate Expected(call: Call, p: Point, d: Digest) {
    match p
    case AtReceived(msg) => call == Handle(msg) && d == NOTHING
    case AtLoading(msg) => call == Handle(msg) && d == NOTHING.(stages := [Received])
    case AtDesired(msg) => call == Handle(msg) && d == NOTHING.(stages := PROLOGUE)
    case AtState(msg, _) => call == Handle(msg) && d == NOTHING.(stages := PROLOGUE)
    case AtSyncStatus(msg, _) => call == Handle(msg) && d == NOTHING.(stages := PROLOGUE)
    case AtSyncResult(msg, _, err) =>
      call == Handle(msg) && d == NOTHING.(stages := PROLOGUE + [AlreadyInSync], successStatus := !err)
    case AtStartupState(target) => call == Reconcile(target) && d == NOTHING
    case AtStartupDesired(target, _) => call == Reconcile(target) && d == NOTHING
    case AtStartupStatus(target, code) =>
      call == Reconcile(target) && d == NOTHING && code in {StateLoadFailed, LoadDesiredFailed}
    case AtProcess(msg, rec, phase) =>
      && Speaks(call, msg)
      && d == NOTHING.(stages := StagesUntil(call, phase), applied := phase == ToSave)
    case AtAppliedStatus(msg, rec) =>
      && Speaks(call, msg)
      && d == NOTHING.(stages := Prologue(call) + ATTEMPT, applied := true, saved := [State(msg.target, rec.uuid)])
    case AtAppliedResult(msg, rec, err) =>
      && Speaks(call, msg)
      && d == NOTHING.(stages := Prologue(call) + ATTEMPT + [Applied], successStatus := !err, applied := true,
                       saved := [State(msg.target, rec.uuid)])
    case AtFailStatus(msg, code) =>
      Speaks(call, msg) && FailCode(call, code) && d == NOTHING.(stages := StagesBefore(call, code))
    case AtFailResult(msg, code, _) =>
      Speaks(call, msg) && FailCode(call, code) && d == NOTHING.(stages := StagesBefore(call, code) + [Failed])
    case Returned(ret) => ExpectedReturn(call, ret, d)
  }

  /** What has been observed of a call that returns ret. */
  ghost predicate ExpectedReturn(call: Call, ret: Return, d: Digest) {
    match ret
    case Nil(Completed) =>
      && d.stages == Prologue(call) + ATTEMPT + [Applied] && d.results == [Success]
      && d.successStatus && d.successResult && d.applied && |d.saved| == 1
    case Nil(InSync) =>
      if call.Handle?
      then d == NOTHING.(stages := PROLOGUE + [AlreadyInSync], results := [Success],
                         successStatus := true, successResult := true)
      else d == NOTHING
    case Nil(NothingDesired) => call.Reconcile? && d == NOTHING
    case FailedWith(code, _, _) =>
      FailCode(call, code) && d == NOTHING.(stages := StagesBefore(call, code) + [Failed], results := [Failure])
    case ReportingFailed(statusErr, resultErr) =>
      && (statusErr || resultErr)
      && (|| (call.Handle? && d.stages == PROLOGUE + [AlreadyInSync] && !d.applied && d.saved == [])
          || (d.stages == Prologue(call) + ATTEMPT + [Applied] && d.applied && |d.saved| == 1))
      && d.results == [Success] && d.successStatus == !statusErr && d.successResult == !resultErr
    case SaveFailed => d == NOTHING.(stages := Prologue(call) + ATTEMPT, applied := true)
    case StartupFailed(code) =>
      call.Reconcile? && code in {StateLoadFailed, LoadDesiredFailed} && d == NOTHING.(stages := [Failed])
    case NilContext => false
  }

  lemma StepKeepsExpected(call: Call, p: Point, d: Digest, e: Event)
    requires Expected(call, p, d) && Performs(p, e)
    ensures Expected(call, Resume(p, e.ans), Observe(d, e))
  {
    if p.AtProcess? {
      ProcessingKeepsExpected(call, p, d, e);
    }
  }

  lemma ProcessingKeepsExpected(call: Call, p: Point, d: Digest, e: Event)
    requires Expected(call, p, d) && Performs(p, e) && p.AtProcess?
    ensures Expected(call, Resume(p, e.ans), Observe(d, e))
  {
    match p.phase
    case ToRendered =>
      assert Prologue(call) + [Rendering] + [Rendered] == Prologue(call) + [Rendering, Rendered];
    case ToApplying =>
      assert Prologue(call) + [Rendering, Rendered] + [Applying] == Prologue(call) + ATTEMPT;
    case _ =>
  }

  lemma {:induction false} CallsStayExpected(call: Call, events: seq<Event>, p: Point)
    requires After(Entry(call), events) == Some(p)
    ensures Expected(call, p, DigestOf(events))
  {
    if events != [] {
      var init := events[..|events| - 1];
      var q := After(Entry(call), init).value;
      CallsStayExpected(call, init, q);
      StepKeepsExpected(call, q, DigestOf(init), events[|events| - 1]);
    }
  }

  /** The trace language of Handle, its results, and what a nil error means. */
  lemma HandleTraceLanguage(msg: Notice, events: seq<Event>, ret: Return)
    requires Completes(Handle(msg), events, ret)
    ensures DigestOf(events).stages in HANDLE_WORDS
    ensures ret.SaveFailed? <==> DigestOf(events).stages == PROLOGUE + ATTEMPT
    ensures |DigestOf(events).results| == if ret.SaveFailed? then 0 else 1
    ensures DigestOf(events).results == [Failure] <==> DigestOf(events).stages[|DigestOf(events).stages| - 1] == Failed
    ensures ret.Nil? <==> DigestOf(events).successStatus && DigestOf(events).successResult
  {
    CallsStayExpected(Handle(msg), events, Returned(ret));
    assert [] + [Failed] == [Failed];
  }

  /** The same for Reconcile, which stays silent when there is nothing to apply. */
  lemma ReconcileTraceLanguage(target: string, events: seq<Event>, ret: Return)
    requires Completes(Reconcile(target), events, ret)
    ensures DigestOf(events).stages in RECONCILE_WORDS
    ensures DigestOf(events).stages == [] <==> ret.Nil? && ret.why != Completed
    ensures |DigestOf(events).results| <= 1
    ensures DigestOf(events).results == []
            <==> ret.SaveFailed? || ret.StartupFailed? || DigestOf(events).stages == []
    ensures ret.Nil? <==> DigestOf(events).stages == [] || (DigestOf(events).successStatus && DigestOf(events).successResult)
  {
    CallsStayExpected(Reconcile(target), events, Returned(ret));
    assert [] + [Rendering] == [Rendering];
    assert [] + ATTEMPT == ATTEMPT;
  }

  /** Once its Apply has succeeded, a call never attempts a failure status or a failure result. */
  lemma NoFailureAfterApply(call: Call, events: seq<Event>, i: nat, j: nat)
    requires After(Entry(call), events).Some?
    requires i < j < |events| && events[i].req.Apply? && events[i].ans == Ack(true)
    ensures events[j].req.IsPublish() ==> events[j].req.level != Failure
  {
    AfterPrefix(Entry(call), events, j);
    CallsStayExpected(call, events[..j], After(Entry(call), events[..j]).value);
    DigestRemembersApply(events[..j], i);
    AppliedCallsReportSuccess(call, After(Entry(call), events[..j]).value, DigestOf(events[..j]));
  }

  lemma AppliedCallsReportSuccess(call: Call, p: Point, d: Digest)
    requires Expected(call, p, d) && d.applied && !p.Returned?
    ensures Next(p).IsPublish() ==> Next(p).level != Failure
  {
  }

  lemma {:induction false} DigestRemembersApply(events: seq<Event>, i: nat)
    requires i < |events| && events[i].req.Apply? && events[i].ans == Ack(true)
    ensures DigestOf(events).applied
  {
    if i < |events| - 1 {
      DigestRemembersApply(events[..|events| - 1], i);
    }
  }

  /** A call that fails at load, validation, render, apply or save has not saved a checkpoint. */
  lemma FailedCallsSaveNothing(call: Call, events: seq<Event>, ret: Return)
    requires Completes(call, events, ret)
    ensures ret.FailedWith? || ret.SaveFailed? || ret.StartupFailed? ==> DigestOf(events).saved == []
    ensures DigestOf(events).saved != [] ==> DigestOf(events).applied
  {
    CallsStayExpected(call, events, Returned(ret));
  }

  /** Some execution of the call stands at p after attempting the word w. */
  ghost predicate Reaches(call: Call, p: Point, w: seq<Stage>) {
    exists events :: After(Entry(call), events) == Some(p) && DigestOf(events).stages == w
  }

  function StageOf(req: Request): seq<Stage> {
    if req.PublishStatus? then [req.stage] else []
  }

  lemma Go(call: Call, p: Point, w: seq<Stage>, ans: Answer) returns (q: Point)
    requires Reaches(call, p, w) && !p.Returned? && Fits(Next(p), ans)
    ensures q == Resume(p, ans) && Reaches(call, q, w + StageOf(Next(p)))
  {
    q := Resume(p, ans);
    var events :| After(Entry(call), events) == Some(p) && DigestOf(events).stages == w;
    var e := Event(Next(p), ans);
    AfterSnoc(Entry(call), events, e);
    assert (events + [e])[..|events|] == events;
    assert DigestOf(events + [e]) == Observe(DigestOf(events), e);
    assert DigestOf(events + [e]).stages == w + StageOf(Next(p));
  }

  lemma Start(call: Call) returns (p: Point)
    ensures p == Entry(call) && Reaches(call, p, [])
  {
    p := Entry(call);
    assert After(p, []) == Some(p) && DigestOf([]).stages == [];
  }

  /** A Handle call for this record that has loaded it. */
  lemma Loads(msg: Notice, lookup: Lookup) returns (p: Point)
    requires !Blank(msg.target) && !Blank(msg.uuid)
    ensures p == CheckDesired(msg, lookup) && Reaches(Handle(msg), p, PROLOGUE)
  {
    p := Start(Handle(msg));
    p := Go(Handle(msg), p, [], Ack(true));
    p := Go(Handle(msg), p, [Received], Ack(true));
    p := Go(Handle(msg), p, PROLOGUE, Desired(lookup));
  }

  lemma ReportsFailure(call: Call, p: Point, w: seq<Stage>) returns (q: Point)
    requires Reaches(call, p, w) && p.AtFailStatus?
    ensures q.Returned? && Reaches(call, q, w + [Failed])
  {
    q := Go(call, p, w, Ack(true));
    q := Go(call, q, w + [Failed], Ack(true));
  }

  predicate Plausible(msg: Notice, rec: Record) {
    !Blank(msg.target) && !Blank(msg.uuid) && rec.target == msg.target && rec.uuid == msg.uuid
  }

  function Previous(phase: Phase): Phase {
    match phase
    case ToRendering => ToRendering
    case ToRender => ToRendering
    case ToRendered => ToRender
    case ToApplying => ToRendered
    case ToApply => ToApplying
    case ToSave => ToApply
  }

  lemma {:induction false} ReachesPhase(call: Call, msg: Notice, rec: Record, phase: Phase)
    requires Reaches(call, AtProcess(msg, rec, ToRendering), Prologue(call))
    ensures Reaches(call, AtProcess(msg, rec, phase), StagesUntil(call, phase))
    decreases if phase.ToRendering? then 0 else if phase.ToRender? then 1 else if phase.ToRendered? then 2
              else if phase.ToApplying? then 3 else if phase.ToApply? then 4 else 5
  {
    if phase != ToRendering {
      var before := Previous(phase);
      ReachesPhase(call, msg, rec, before);
      var p := AtProcess(msg, rec, before);
      var w := StagesUntil(call, before);
      var q := Go(call, p, w, Ack(true));
      assert w + StageOf(Next(p)) == StagesUntil(call, phase);
    }
  }

  lemma FailsAfter(call: Call, msg: Notice, rec: Record, phase: Phase) returns (ret: Return)
    requires Reaches(call, AtProcess(msg, rec, ToRendering), Prologue(call)) && (phase == ToRender || phase == ToApply)
    ensures Reaches(call, Returned(ret), StagesUntil(call, phase) + [Failed])
  {
    var w := StagesUntil(call, phase);
    ReachesPhase(call, msg, rec, phase);
    var p := Go(call, AtProcess(msg, rec, phase), w, Ack(false));
    assert w + [] == w;
    p := ReportsFailure(call, p, w);
    ret := p.ret;
  }

  lemma SavesOrNot(call: Call, msg: Notice, rec: Record, saved: bool) returns (ret: Return)
    requires Reaches(call, AtProcess(msg, rec, ToRendering), Prologue(call))
    ensures Reaches(call, Returned(ret), Prologue(call) + ATTEMPT + if saved then [Applied] else [])
  {
    var w := Prologue(call) + ATTEMPT;
    ReachesPhase(call, msg, rec, ToSave);
    var p := Go(call, AtProcess(msg, rec, ToSave), w, Ack(saved));
    assert w + [] == w;
    if saved {
      p := ReportsApplied(call, msg, rec, w);
    }
    ret := p.ret;
  }

  lemma ReportsApplied(call: Call, msg: Notice, rec: Record, w: seq<Stage>) returns (q: Point)
    requires Reaches(call, AtAppliedStatus(msg, rec), w)
    ensures q.Returned? && Reaches(call, q, w + [Applied])
  {
    q := Go(call, AtAppliedStatus(msg, rec), w, Ack(true));
    q := Go(call, q, w + [Applied], Ack(true));
    assert w + [Applied] + [] == w + [Applied];
  }

  lemma FindsInSync(msg: Notice, rec: Record) returns (ret: Return)
    requires Plausible(msg, rec)
    ensures Reaches(Handle(msg), Returned(ret), PROLOGUE + [AlreadyInSync])
  {
    var p := Loads(msg, Found(rec));
    p := Go(Handle(msg), p, PROLOGUE, Loaded(Some(State(rec.target, rec.uuid))));
    assert PROLOGUE + [] == PROLOGUE;
    p := Go(Handle(msg), p, PROLOGUE, Ack(true));
    var w := PROLOGUE + [AlreadyInSync];
    p := Go(Handle(msg), p, w, Ack(true));
    assert w + [] == w;
    ret := p.ret;
  }

  lemma HandleStarts(msg: Notice, rec: Record)
    requires Plausible(msg, rec)
    ensures Reaches(Handle(msg), AtProcess(msg, rec, ToRendering), PROLOGUE)
  {
    var p := Loads(msg, Found(rec));
    p := Go(Handle(msg), p, PROLOGUE, Loaded(Some(EMPTY_STATE)));
    assert PROLOGUE + [] == PROLOGUE && msg.target != "";
  }

  /** No word of the language is idle: a plausible notification can lead to each but the first,
      and a malformed one leads to the first. */
  lemma EveryHandleWordOccurs(msg: Notice, w: seq<Stage>) returns (ret: Return)
    requires w in HANDLE_WORDS
    requires if w == [Failed] then Blank(msg.target) else !Blank(msg.target) && !Blank(msg.uuid)
    ensures Reaches(Handle(msg), Returned(ret), w)
  {
    var rec := Record(msg.target, msg.uuid, msg.rpcId, "{}");
    if w == [Failed] {
      var p := Start(Handle(msg));
      p := ReportsFailure(Handle(msg), p, []);
      assert [] + [Failed] == [Failed];
      ret := p.ret;
    } else if w == PROLOGUE + [Failed] {
      var p := Loads(msg, Fault);
      p := ReportsFailure(Handle(msg), p, PROLOGUE);
      ret := p.ret;
    } else if w == PROLOGUE + [AlreadyInSync] {
      ret := FindsInSync(msg, rec);
    } else {
      HandleStarts(msg, rec);
      ret := Attempts(Handle(msg), msg, rec, w);
    }
  }

  /** Every way to end an attempt. */
  lemma Attempts(call: Call, msg: Notice, rec: Record, w: seq<Stage>) returns (ret: Return)
    requires Reaches(call, AtProcess(msg, rec, ToRendering), Prologue(call))
    requires
      || w == Prologue(call) + [Rendering] + [Failed] || w == Prologue(call) + ATTEMPT + [Failed]
      || w == Prologue(call) + ATTEMPT || w == Prologue(call) + ATTEMPT + [Applied]
    ensures Reaches(call, Returned(ret), w)
  {
    if w == Prologue(call) + [Rendering] + [Failed] {
      ret := FailsAfter(call, msg, rec, ToRender);
    } else if w == Prologue(call) + ATTEMPT + [Failed] {
      ret := FailsAfter(call, msg, rec, ToApply);
    } else if w == Prologue(call) + ATTEMPT {
      ret := SavesOrNot(call, msg, rec, false);
      assert w + [] == w;
    } else {
      ret := SavesOrNot(call, msg, rec, true);
    }
  }

  lemma ReconcileStarts(target: string, rec: Record)
    ensures Reaches(Reconcile(target), AtProcess(NoticeOf(rec), rec, ToRendering), [])
  {
    var p := Start(Reconcile(target));
    var local := State(target, rec.uuid + "x");
    p := Go(Reconcile(target), p, [], Loaded(Some(local)));
    p := Go(Reconcile(target), p, [], Desired(Found(rec)));
    assert |local.appliedUuid| != |rec.uuid|;
  }

  /** The same for Reconcile, whatever its target. */
  lemma EveryReconcileWordOccurs(target: string, w: seq<Stage>) returns (ret: Return)
    requires w in RECONCILE_WORDS
    ensures Reaches(Reconcile(target), Returned(ret), w)
  {
    var call, rec := Reconcile(target), Record(target, "u", "", "{}");
    if w == [] {
      var p := Start(call);
      p := Go(call, p, [], Loaded(Some(EMPTY_STATE)));
      p := Go(call, p, [], Desired(NotFound));
      ret := p.ret;
    } else if w == [Failed] {
      var p := Start(call);
      p := Go(call, p, [], Loaded(None));
      p := Go(call, p, [], Ack(true));
      ret := p.ret;
    } else {
      ReconcileStarts(target, rec);
      assert [] + [Rendering] == [Rendering] && [] + ATTEMPT == ATTEMPT;
      ret := Attempts(call, NoticeOf(rec), rec, w);
    }
  }
}
