// While one desired record stays put: convergence within as many passes as there are failures plus
// one, quiet afterwards, and at most one effective attempt however many calls run concurrently.

module Convergence {
  import opened Wrappers
  import opened Text
  import opened ConfigureCall
  import opened ConfigureSystem
  import opened FalseSync

  /** The call is for rec's target. It may be a notification of another record, one since replaced. */
  predicate Addresses(rec: Record, call: Call) {
    match call
    case Handle(msg) => msg.target == rec.target
    case Reconcile(target) => target == rec.target
  }

  /** The call is about rec itself. */
  predicate Concerns(rec: Record, call: Call) {
    call.Handle? ==> call.msg.uuid == rec.uuid
  }

  /** rec stays the desired record of its target, only calls for that target arrive, power stays on. */
  predicate Steady(rec: Record, l: Label) {
    match l
    case Issue(_, call) => Addresses(rec, call)
    case Put(key, r) => key != rec.target || r == rec
    case Delete(key) => key != rec.target
    case PowerLoss(_, _) => false
    case _ => true
  }

  /** rec is the desired record of its target, and only calls for that target wait. */
  ghost predicate Settled(rec: Record, core: Core) {
    && core.Present(rec.target) && core.Latest(rec.target) == rec
    && !Blank(rec.target) && !Blank(rec.uuid)
    && forall id | id in core.waiting :: Addresses(rec, core.waiting[id])
  }

  /** A possible schedule of steady steps that meet the assumptions. */
  ghost predicate SteadyRun(mode: Mode, rec: Record, s: System, ls: seq<Label>) {
    if ls == [] then true
    else
      var init, l := ls[..|ls| - 1], ls[|ls| - 1];
      && SteadyRun(mode, rec, s, init)
      && Run(s, ls).Some? && Steady(rec, l) && Assumed(mode, Run(s, init).value, l)
  }

  /** A load, render, apply or save that did not deliver. Publish outcomes do not count. */
  predicate IsFailure(core: Core, l: Label) {
    l.Exchange? && InCall(core) &&
    match Requested(core)
    case LoadDesired(_) => l.ans.Desired? && !l.ans.lookup.Found?
    case LoadState => l.ans == Loaded(None)
    case Render(_) => l.ans == Ack(false)
    case Apply(_) => l.ans == Ack(false)
    case Save(_) => l.ans == Ack(false)
    case _ => false
  }

  function One(b: bool): nat {
    if b then 1 else 0
  }

  /** over: the call that held the lock at the start has given it back, or has died; had: whether the
      checkpoint named rec by then. The rest is about what came after. ours: the last call that took the
      lock is a Reconcile or a notification of rec; the failures and the completed passes of such calls;
      and the Apply attempts, successful Saves and crashes of all. */
  datatype Tally = Tally(over: bool, had: bool, ours: bool, failures: nat, passes: nat, applies: nat, saves: nat, crashes: nat)

  function Fresh(rec: Record, s: System): Tally {
    Tally(s.core.holder.Idle?, InSyncWith(rec, s), false, 0, 0, 0, 0, 0)
  }

  predicate Passes(core: Core, l: Label) {
    l.Release? && core.holder.Holds? && core.holder.point.Returned?
  }

  function Counted(rec: Record, t: Tally, core: Core, l: Label): Tally {
    var asks := l.Exchange? && InCall(core);
    Tally(t.over, t.had,
          if l.Acquire? && l.id in core.waiting then Concerns(rec, core.waiting[l.id]) else t.ours,
          t.failures + One(t.ours && IsFailure(core, l)),
          t.passes + One(t.ours && Passes(core, l)),
          t.applies + One(asks && Requested(core).Apply?),
          t.saves + One(asks && Requested(core).Save? && l.ans == Ack(true)),
          t.crashes + One(l.Crash?))
  }

  function TallyOf(rec: Record, s: System, ls: seq<Label>): Tally {
    if ls == [] then Fresh(rec, s)
    else
      var init, l := ls[..|ls| - 1], ls[|ls| - 1];
      var t, before := TallyOf(rec, s, init), Run(s, init);
      if before.None? || Step(before.value, l).None? then t
      else if t.over then Counted(rec, t, before.value.core, l)
      else Fresh(rec, Step(before.value, l).value)
  }

  predicate InSyncWith(rec: Record, s: System) {
    s.reg.stored == State(rec.target, rec.uuid)
  }

  predicate Failing(p: Point) {
    match p
    case AtFailStatus(_, _) => true
    case AtFailResult(_, _, _) => true
    case AtStartupStatus(_, _) => true
    case Returned(_) => !Succeeding(p)
    case _ => false
  }

  predicate Succeeding(p: Point) {
    match p
    case AtSyncStatus(_, _) => true
    case AtSyncResult(_, _, _) => true
    case AtAppliedStatus(_, _) => true
    case AtAppliedResult(_, _, _) => true
    case Returned(ret) => ret.ReportingFailed? || (ret.Nil? && ret.why != NothingDesired)
    case _ => false
  }

  /** The call at p is about rec. */
  predicate About(rec: Record, p: Point) {
    match p
    case AtReceived(msg) => msg.target == rec.target
    case AtLoading(msg) => msg.target == rec.target
    case AtDesired(msg) => msg.target == rec.target
    case AtStartupState(target) => target == rec.target
    case AtStartupDesired(target, _) => target == rec.target
    case _ => Carried(p).Some? ==> Carried(p).value == rec
  }

  ghost predicate Focused(rec: Record, s: System) {
    && Settled(rec, s.core)
    && (s.core.holder.Holds? ==>
          About(rec, s.core.holder.point) && (Succeeding(s.core.holder.point) ==> InSyncWith(rec, s)))
  }

  /** A load answers with rec, or not at all. */
  predicate Serves(rec: Record, ans: Answer) {
    ans.Desired? && ans.lookup.Found? ==> ans.lookup.rec == rec
  }

  lemma PointStaysAbout(rec: Record, p: Point, ans: Answer)
    requires About(rec, p) && !p.Returned? && Fits(Next(p), ans) && Serves(rec, ans)
    ensures About(rec, Resume(p, ans))
  {
  }

  /** The only ways into a successful tail: the checkpoint already names rec, or has just been saved. */
  lemma SuccessNeedsCheckpoint(rec: Record, p: Point, ans: Answer)
    requires About(rec, p) && !p.Returned? && Fits(Next(p), ans) && Serves(rec, ans)
    requires Succeeding(Resume(p, ans)) && !Succeeding(p)
    ensures || (p.AtState? && ans == Loaded(Some(State(p.msg.target, rec.uuid))))
            || (p.AtStartupDesired? && p.local == State(rec.target, rec.uuid))
            || (p.AtProcess? && p.phase == ToSave && ans == Ack(true))
  {
  }

  lemma AnswerKeepsFocus(rec: Record, stored: State, p: Point, ans: Answer)
    requires About(rec, p) && !p.Returned? && Fits(Next(p), ans) && Serves(rec, ans)
    requires p.AtState? || p.AtProcess? ==> p.msg.target == rec.target
    requires p.AtStartupDesired? ==> p.local == stored
    requires Next(p).LoadState? ==> ans.state.None? || ans.state.value == stored
    requires Succeeding(p) ==> stored == CheckpointOf(rec)
    ensures Succeeding(Resume(p, ans)) || stored == CheckpointOf(rec) ==> StoredAfter(stored, Next(p), ans) == CheckpointOf(rec)
  {
    if Succeeding(Resume(p, ans)) && !Succeeding(p) {
      SuccessNeedsCheckpoint(rec, p, ans);
    }
  }

  lemma ExchangeKeepsFocus(mode: Mode, rec: Record, s: System, ans: Answer)
    requires Focused(rec, s) && Inv(mode, s) && Step(s, Exchange(ans)).Some?
    ensures Focused(rec, Step(s, Exchange(ans)).value)
    ensures InSyncWith(rec, s) ==> InSyncWith(rec, Step(s, Exchange(ans)).value)
  {
    var p := s.core.holder.point;
    SteadyStepKeepsSettled(rec, s, Exchange(ans));
    ExchangeAnswers(s, ans);
    assert Serves(rec, ans);
    PointStaysAbout(rec, p, ans);
    assert Carried(p).Some? ==> RecordWellLoaded(mode, s.core, p.msg, rec);
    AnswerKeepsFocus(rec, s.reg.stored, p, ans);
  }

  lemma SteadyStepKeepsFocus(mode: Mode, rec: Record, s: System, l: Label)
    requires Focused(rec, s) && Inv(mode, s) && Steady(rec, l) && Step(s, l).Some?
    ensures Focused(rec, Step(s, l).value)
    ensures InSyncWith(rec, s) ==> InSyncWith(rec, Step(s, l).value)
  {
    var s' := Step(s, l).value;
    match l
    case Acquire(id) => assert Addresses(rec, s.core.waiting[id]);
    case Exchange(ans) => ExchangeKeepsFocus(mode, rec, s, ans);
    case Crash(cut) =>
      if InCall(s.core) && Requested(s.core).Save? {
        assert RecordWellLoaded(mode, s.core, s.core.holder.point.msg, rec);
      }
    case _ =>
  }

  /** Before the record is loaded the notification tells which calls are ours; with the record in hand
      all are. */
  predicate Linked(rec: Record, ours: bool, p: Point) {
    match p
    case AtReceived(msg) => ours <==> msg.uuid == rec.uuid
    case AtLoading(msg) => ours <==> msg.uuid == rec.uuid
    case AtDesired(msg) => ours <==> msg.uuid == rec.uuid
    case AtFailStatus(_, _) => true
    case AtFailResult(_, _, _) => true
    case Returned(ret) => ours || ret.FailedWith?
    case _ => ours
  }

  /** Every failed pass of ours had a failure of its own. */
  ghost predicate Paid(rec: Record, s: System, t: Tally) {
    && (s.core.holder.Holds? ==> Linked(rec, t.ours, s.core.holder.point))
    && (|| InSyncWith(rec, s)
        || (t.passes <= t.failures
            && (s.core.holder.Holds? && t.ours && Failing(s.core.holder.point) ==> t.passes < t.failures)))
  }

  lemma AnswerKeepsLink(rec: Record, ours: bool, p: Point, ans: Answer)
    requires About(rec, p) && !p.Returned? && Fits(Next(p), ans) && Serves(rec, ans)
    requires Linked(rec, ours, p)
    ensures Linked(rec, ours, Resume(p, ans))
  {
  }

  /** A call that was not notified of another record fails only after one of its dependencies has. */
  lemma FailingNeedsFailure(rec: Record, core: Core, ans: Answer)
    requires Settled(rec, core) && InCall(core) && About(rec, core.holder.point)
    requires Fits(Requested(core), ans) && Serves(rec, ans)
    requires core.holder.point.AtDesired? ==> core.holder.point.msg.uuid == rec.uuid
    requires !Failing(core.holder.point) && Failing(Resume(core.holder.point, ans))
    ensures IsFailure(core, Exchange(ans))
  {
  }

  lemma SteadyStepKeepsPaid(mode: Mode, rec: Record, s: System, l: Label, t: Tally)
    requires Focused(rec, s) && Inv(mode, s) && Steady(rec, l) && Step(s, l).Some?
    requires Paid(rec, s, t)
    ensures Paid(rec, Step(s, l).value, Counted(rec, t, s.core, l))
  {
    var s' := Step(s, l).value;
    SteadyStepKeepsFocus(mode, rec, s, l);
    match l
    case Acquire(id) => assert Addresses(rec, s.core.waiting[id]);
    case Exchange(ans) =>
      assert Serves(rec, ans);
      AnswerKeepsLink(rec, t.ours, s.core.holder.point, ans);
      if t.ours && Failing(s'.core.holder.point) && !Failing(s.core.holder.point) {
        FailingNeedsFailure(rec, s.core, ans);
      }
    case _ =>
  }

  /** How often the device was touched. */
  ghost predicate Frugal(rec: Record, s: System, t: Tally) {
    && t.saves <= One(InSyncWith(rec, s) && !t.had)
    && (t.had ==> InSyncWith(rec, s) && t.applies == 0)
  }

  /** The same, as long as the process does not crash. */
  ghost predicate Exact(rec: Record, s: System, t: Tally) {
    t.crashes == 0 ==>
      && t.saves == One(InSyncWith(rec, s) && !t.had)
      && (t.failures == 0 && !t.had ==> t.applies == One(InSyncWith(rec, s) || AboutToSave(s.core)))
  }

  predicate AboutToSave(core: Core) {
    InCall(core) && Requested(core).Save?
  }

  lemma SteadyStepIsFrugal(mode: Mode, rec: Record, s: System, l: Label, t: Tally)
    requires Focused(rec, s) && Inv(mode, s) && Steady(rec, l) && Step(s, l).Some?
    requires Frugal(rec, s, t)
    ensures Frugal(rec, Step(s, l).value, Counted(rec, t, s.core, l))
  {
    SteadyStepKeepsFocus(mode, rec, s, l);
    if l.Exchange? && s.core.holder.point.AtProcess? {
      assert RecordWellLoaded(mode, s.core, s.core.holder.point.msg, rec);
      assert !InSyncWith(rec, s);
    }
  }

  /** Only a successful Apply leads to a Save. */
  lemma SaveFollowsApply(p: Point, ans: Answer)
    requires !p.Returned? && Fits(Next(p), ans)
    ensures
      var q := Resume(p, ans);
      && (!q.Returned? && Next(q).Save? <==> Next(p).Apply? && ans == Ack(true))
      && (Next(p).Apply? || Next(p).Save? ==> p.AtProcess?)
  {
  }

  lemma ExchangeIsExact(mode: Mode, rec: Record, s: System, ans: Answer, t: Tally)
    requires Focused(rec, s) && Inv(mode, s) && Step(s, Exchange(ans)).Some?
    requires Paid(rec, s, t) && Frugal(rec, s, t) && Exact(rec, s, t)
    ensures Exact(rec, Step(s, Exchange(ans)).value, Counted(rec, t, s.core, Exchange(ans)))
  {
    var p, req := s.core.holder.point, Requested(s.core);
    SaveFollowsApply(p, ans);
    if req.Apply? || req.Save? {
      assert RecordWellLoaded(mode, s.core, p.msg, rec);
      assert !InSyncWith(rec, s);
    } else {
      QuietExchange(s, ans);
    }
  }

  lemma SteadyStepIsExact(mode: Mode, rec: Record, s: System, l: Label, t: Tally)
    requires Focused(rec, s) && Inv(mode, s) && Steady(rec, l) && Step(s, l).Some?
    requires Paid(rec, s, t) && Frugal(rec, s, t) && Exact(rec, s, t)
    ensures Exact(rec, Step(s, l).value, Counted(rec, t, s.core, l))
  {
    match l
    case Exchange(ans) => ExchangeIsExact(mode, rec, s, ans, t);
    case _ => SteadyStepKeepsFocus(mode, rec, s, l);
  }

  /** The lock holder is about to render, apply or save. */
  predicate AtWork(core: Core) {
    InCall(core) && Requested(core).IsWork()
  }

  /** Once the checkpoint names rec, no call renders, applies or saves. */
  lemma QuietOnceInSync(mode: Mode, rec: Record, s: System)
    requires Focused(rec, s) && Inv(mode, s) && InSyncWith(rec, s) && InCall(s.core)
    ensures !AtWork(s.core)
  {
    assert About(rec, s.core.holder.point);
  }

  lemma InSyncIsTrue(mode: Mode, rec: Record, s: System)
    requires Settled(rec, s.core) && Inv(mode, s) && InSyncWith(rec, s)
    ensures Succeeded(s.core, CheckpointOf(rec))
  {
    FoundIsInHistory(s.core, rec.target, rec);
    assert Backed(s.core, s.reg.stored);
    assert Blank("");
    assert BackedAt(s.core, s.reg.stored, |s.core.Versions(rec.target)| - 1);
  }

  /** Once the call that held the lock at the start is over, all the others are about rec. */
  ghost predicate OnCourse(rec: Record, s: System, t: Tally) {
    && Settled(rec, s.core)
    && (if t.over then Focused(rec, s) && Paid(rec, s, t) && Frugal(rec, s, t) && Exact(rec, s, t)
        else s.core.holder.Holds? && t == Fresh(rec, s))
  }

  lemma FreshIsOnCourse(rec: Record, s: System)
    requires Settled(rec, s.core)
    ensures OnCourse(rec, s, Fresh(rec, s))
  {
  }

  lemma SteadyStepKeepsSettled(rec: Record, s: System, l: Label)
    requires Settled(rec, s.core) && Steady(rec, l) && Step(s, l).Some?
    ensures Settled(rec, Step(s, l).value.core)
  {
  }

  lemma SteadyStepKeepsCourse(mode: Mode, rec: Record, s: System, l: Label, t: Tally)
    requires OnCourse(rec, s, t) && Inv(mode, s) && Steady(rec, l) && Step(s, l).Some?
    ensures OnCourse(rec, Step(s, l).value, if t.over then Counted(rec, t, s.core, l) else Fresh(rec, Step(s, l).value))
  {
    SteadyStepKeepsSettled(rec, s, l);
    if t.over {
      SteadyStepKeepsFocus(mode, rec, s, l);
      SteadyStepKeepsPaid(mode, rec, s, l, t);
      SteadyStepIsFrugal(mode, rec, s, l, t);
      SteadyStepIsExact(mode, rec, s, l, t);
    } else {
      FreshIsOnCourse(rec, Step(s, l).value);
    }
  }

  lemma {:induction false} SteadyRunsKeepAll(mode: Mode, rec: Record, s: System, ls: seq<Label>)
    requires Inv(mode, s) && Settled(rec, s.core) && SteadyRun(mode, rec, s, ls)
    ensures Inv(mode, Run(s, ls).value) && OnCourse(rec, Run(s, ls).value, TallyOf(rec, s, ls))
  {
    if ls == [] {
      FreshIsOnCourse(rec, s);
    } else {
      var init, l := ls[..|ls| - 1], ls[|ls| - 1];
      SteadyRunsKeepAll(mode, rec, s, init);
      StepKeepsInv(mode, Run(s, init).value, l);
      SteadyStepKeepsCourse(mode, rec, Run(s, init).value, l, TallyOf(rec, s, init));
    }
  }

  /** How many more steps a call makes at most before it has given back the lock. */
  function Left(p: Point): nat {
    match p
    case AtReceived(_) => 13
    case AtLoading(_) => 12
    case AtDesired(_) => 11
    case AtState(_, _) => 10
    case AtStartupState(_) => 11
    case AtStartupDesired(_, _) => 10
    case AtProcess(_, _, ToRendering) => 9
    case AtProcess(_, _, ToRender) => 8
    case AtProcess(_, _, ToRendered) => 7
    case AtProcess(_, _, ToApplying) => 6
    case AtProcess(_, _, ToApply) => 5
    case AtProcess(_, _, ToSave) => 4
    case AtStartupStatus(_, _) => 2
    case AtSyncStatus(_, _) => 3
    case AtSyncResult(_, _, _) => 2
    case AtAppliedStatus(_, _) => 3
    case AtAppliedResult(_, _, _) => 2
    case AtFailStatus(_, _) => 3
    case AtFailResult(_, _, _) => 2
    case Returned(_) => 1
  }

  /** Whichever way the dependencies answer, the call comes closer to its end. */
  lemma AnswersShortenPasses(p: Point, ans: Answer)
    requires !p.Returned? && Fits(Next(p), ans)
    ensures Left(Resume(p, ans)) < Left(p)
  {
  }

  /** A pass cannot get stuck: its next step is always possible, brings it closer to its end, and the
      last one gives back the lock. */
  lemma PassesEnd(s: System) returns (l: Label)
    requires s.core.holder.Holds?
    ensures Step(s, l).Some?
    ensures
      var p, h := s.core.holder.point, Step(s, l).value.core.holder;
      if p.Returned? then h.Idle? else h.Holds? && h.id == s.core.holder.id && Left(h.point) < Left(p)
  {
    if s.core.holder.point.Returned? {
      l := Release;
    } else {
      var ans :=
        match Requested(s.core)
        case LoadDesired(_) => Desired(Fault)
        case LoadState => Loaded(None)
        case _ => Ack(false);
      l := Exchange(ans);
      AnswersShortenPasses(s.core.holder.point, ans);
    }
  }

  /** The states from which the theorems start: any reachable one in which rec is the desired record
      of its target and the waiting calls are about it. The lock may be held by any call. */
  ghost predicate Start(mode: Mode, rec: Record, before: seq<Label>, s: System) {
    AllAssumed(mode, before) && Run(INIT, before) == Some(s) && Settled(rec, s.core)
  }

  /** Of the calls that are a Reconcile or a notification of rec: with at most k failures, k + 1
      completed passes suffice, whatever the publishes answer, however the calls interleave, and even if
      the process crashes and restarts. Notifications of other records may come in between; they count
      neither way. Nor does what is left of a call that held the lock at the start, with whichever
      record it had loaded. */
  lemma BoundedConvergence(mode: Mode, rec: Record, before: seq<Label>, s: System, ls: seq<Label>, k: nat)
    requires Start(mode, rec, before, s) && SteadyRun(mode, rec, s, ls)
    requires TallyOf(rec, s, ls).failures <= k && TallyOf(rec, s, ls).passes >= k + 1
    ensures InSyncWith(rec, Run(s, ls).value) && Succeeded(Run(s, ls).value.core, CheckpointOf(rec))
  {
    RunsKeepInv(mode, before);
    SteadyRunsKeepAll(mode, rec, s, ls);
    InSyncIsTrue(mode, rec, Run(s, ls).value);
  }

  /** From then on nothing is rendered, applied or saved. */
  lemma QuietAfterwards(mode: Mode, rec: Record, before: seq<Label>, s: System, ls: seq<Label>, i: nat, s': System)
    requires Start(mode, rec, before, s) && SteadyRun(mode, rec, s, ls) && Run(s, ls) == Some(s')
    requires i <= |ls| && TallyOf(rec, s, ls[..i]).over
    requires Run(s, ls[..i]).Some? && InSyncWith(rec, Run(s, ls[..i]).value)
    ensures InSyncWith(rec, s') && !AtWork(s'.core)
  {
    RunsKeepInv(mode, before);
    StaysInSync(mode, rec, s, ls, i);
    SteadyRunsKeepAll(mode, rec, s, ls);
    if InCall(s'.core) {
      QuietOnceInSync(mode, rec, s');
    }
  }

  lemma {:induction false} StaysInSync(mode: Mode, rec: Record, s: System, ls: seq<Label>, i: nat)
    requires Inv(mode, s) && Settled(rec, s.core) && SteadyRun(mode, rec, s, ls)
    requires i <= |ls| && TallyOf(rec, s, ls[..i]).over
    requires Run(s, ls[..i]).Some? && InSyncWith(rec, Run(s, ls[..i]).value)
    ensures InSyncWith(rec, Run(s, ls).value) && TallyOf(rec, s, ls).over
  {
    if i == |ls| {
      assert ls[..i] == ls;
    } else {
      var init := ls[..|ls| - 1];
      assert init[..i] == ls[..i];
      StaysInSync(mode, rec, s, init, i);
      SteadyRunsKeepAll(mode, rec, s, init);
      SteadyStepKeepsFocus(mode, rec, Run(s, init).value, ls[|ls| - 1]);
    }
  }

  /** Any number of concurrent calls for rec's target, in every lock order and through crashes: at most
      one successful Apply is followed by a successful Save, and nothing is applied if the checkpoint
      named rec to begin with. If it did not, no dependency fails and the process does not crash, there
      is exactly one Apply in total as soon as one call has returned. */
  lemma ConcurrentIdempotency(mode: Mode, rec: Record, before: seq<Label>, s: System, ls: seq<Label>)
    requires Start(mode, rec, before, s) && SteadyRun(mode, rec, s, ls)
    ensures
      var t := TallyOf(rec, s, ls);
      && (s.core.holder.Idle? ==> t.over && t.had == InSyncWith(rec, s))
      && t.saves <= 1 && (t.had ==> t.applies == 0)
      && (t.over && !t.had && t.failures == t.crashes == 0 && t.passes >= 1 ==> t.applies == 1 && t.saves == 1)
  {
    RunsKeepInv(mode, before);
    SteadyRunsKeepAll(mode, rec, s, ls);
    IdleStartCountsAll(rec, s, ls);
  }

  lemma {:induction false} IdleStartCountsAll(rec: Record, s: System, ls: seq<Label>)
    ensures s.core.holder.Idle? ==> TallyOf(rec, s, ls).over && TallyOf(rec, s, ls).had == InSyncWith(rec, s)
  {
    if ls != [] {
      IdleStartCountsAll(rec, s, ls[..|ls| - 1]);
    }
  }
}
