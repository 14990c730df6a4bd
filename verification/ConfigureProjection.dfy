// However calls, KV updates, crashes and restarts interleave, what one call does is an execution of that
// call; so what ConfigureTrace says of a call holds of every call of every schedule.

module ConfigureProjection {
  import opened Wrappers
  import opened ConfigureCall
  import opened ConfigureSystem
  import opened ConfigureTrace

  /** A call and what it has exchanged with the dependencies. */
  datatype Traced = Traced(call: Call, events: seq<Event>)

  /** The call that was last issued under this identity, and its events, picked out of the schedule. */
  function TraceOf(ls: seq<Label>, id: nat): Option<Traced> {
    if ls == [] then None
    else
      var init, l := ls[..|ls| - 1], ls[|ls| - 1];
      var before, s := TraceOf(init, id), Run(INIT, init);
      if s.None? || Step(s.value, l).None? then before else Noted(before, s.value.core, l, id)
  }

  function Noted(before: Option<Traced>, core: Core, l: Label, id: nat): Option<Traced> {
    match l
    case Issue(i, call) => if i == id then Some(Traced(call, [])) else before
    case Exchange(ans) =>
      if before.Some? && InCall(core) && core.holder.id == id
      then Some(before.value.(events := before.value.events + [Event(Requested(core), ans)])) else before
    case _ => before
  }

  /** The call is in one place at most, and its events have brought it there. */
  ghost predicate Follows(core: Core, id: nat, t: Option<Traced>) {
    && (id in core.waiting ==> id !in core.finished && t == Some(Traced(core.waiting[id], [])))
    && (core.holder.Holds? && core.holder.id == id ==>
          && id !in core.waiting && id !in core.finished
          && t.Some? && After(Entry(t.value.call), t.value.events) == Some(core.holder.point))
    && (id in core.finished ==> t.Some? && Completes(t.value.call, t.value.events, core.finished[id]))
  }

  lemma ExchangeFollows(s: System, ans: Answer, id: nat, t: Option<Traced>)
    requires Follows(s.core, id, t) && Step(s, Exchange(ans)).Some?
    ensures Follows(Step(s, Exchange(ans)).value.core, id, Noted(t, s.core, Exchange(ans), id))
  {
    ExchangeAnswers(s, ans);
    if s.core.holder.id == id {
      AfterSnoc(Entry(t.value.call), t.value.events, Event(Requested(s.core), ans));
    }
  }

  lemma StepFollows(s: System, l: Label, id: nat, t: Option<Traced>)
    requires Follows(s.core, id, t) && Step(s, l).Some?
    ensures Follows(Step(s, l).value.core, id, Noted(t, s.core, l, id))
  {
    if l.Exchange? {
      ExchangeFollows(s, l.ans, id, t);
    }
  }

  /** In every schedule the events of a call are an execution of it, up to where it stands. */
  lemma {:induction false} ProjectionsAreCalls(ls: seq<Label>, id: nat)
    requires Run(INIT, ls).Some?
    ensures Follows(Run(INIT, ls).value.core, id, TraceOf(ls, id))
  {
    if ls != [] {
      var init := ls[..|ls| - 1];
      ProjectionsAreCalls(init, id);
      StepFollows(Run(INIT, init).value, ls[|ls| - 1], id, TraceOf(init, id));
    }
  }

  /** So every Handle call that has returned, in whatever company, has spoken the language of Handle. */
  lemma HandlesSpeakTheirLanguage(ls: seq<Label>, s: System, id: nat, msg: Notice, events: seq<Event>)
    requires Run(INIT, ls) == Some(s) && id in s.core.finished && TraceOf(ls, id) == Some(Traced(Handle(msg), events))
    ensures DigestOf(events).stages in HANDLE_WORDS
    ensures |DigestOf(events).results| == if s.core.finished[id].SaveFailed? then 0 else 1
    ensures s.core.finished[id].Nil? <==> DigestOf(events).successStatus && DigestOf(events).successResult
  {
    ProjectionsAreCalls(ls, id);
    HandleTraceLanguage(msg, events, s.core.finished[id]);
  }

  lemma ReconcilesSpeakTheirLanguage(ls: seq<Label>, s: System, id: nat, target: string, events: seq<Event>)
    requires Run(INIT, ls) == Some(s) && id in s.core.finished && TraceOf(ls, id) == Some(Traced(Reconcile(target), events))
    ensures DigestOf(events).stages in RECONCILE_WORDS && |DigestOf(events).results| <= 1
    ensures s.core.finished[id].Nil? <==>
              DigestOf(events).stages == [] || (DigestOf(events).successStatus && DigestOf(events).successResult)
  {
    ProjectionsAreCalls(ls, id);
    ReconcileTraceLanguage(target, events, s.core.finished[id]);
  }
}
