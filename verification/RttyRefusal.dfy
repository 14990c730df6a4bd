// A call that is refused for its payload, the binary or the certificate leaves no trace: the schedule
// without it is possible too, and ends with the same children, fields, session and signals.

module RttyRefusal {
  import opened Wrappers
  import opened Rtty

  predicate Concerns(l: Label, id: nat) {
    (l.Call? || l.Go?) && l.id == id
  }

  /** The schedule without the steps of this call. */
  function Without(ls: seq<Label>, id: nat): seq<Label> {
    if ls == [] then []
    else
      var rest, l := Without(ls[..|ls| - 1], id), ls[|ls| - 1];
      if Concerns(l, id) then rest else rest + [l]
  }

  /** In this step the call's payload, the binary and the certificate are found to be all right. */
  predicate PassesChecks(s: System, l: Label, id: nat) {
    Concerns(l, id) && l.Go? && l.choice.Good? && id in s.calls && s.calls[id].Validate?
  }

  /** The schedule never does that for this call. */
  ghost predicate Refused(ls: seq<Label>, id: nat) {
    if ls == [] then true
    else
      var init, l := ls[..|ls| - 1], ls[|ls| - 1];
      Refused(init, id) && (Run(INIT, init).Some? ==> !PassesChecks(Run(INIT, init).value, l, id))
  }

  /** The state as it would be without the call. */
  function Erased(s: System, id: nat): System {
    s.(calls := s.calls - {id}, emu := if s.emu == Some(id) then None else s.emu)
  }

  /** Where a refused call can stand. */
  predicate Harmless(pc: Pc) {
    pc.ExecLock? || pc.Validate? || pc == ExecUnlock(false) || pc == Returned(false)
  }

  ghost predicate StandsHarmless(s: System, id: nat) {
    id in s.calls ==> Harmless(s.calls[id])
  }

  lemma OwnStepVanishes(s: System, l: Label, id: nat)
    requires Concerns(l, id) && Step(s, l).Some? && StandsHarmless(s, id)
    requires !PassesChecks(s, l, id)
    requires l.Go? && s.calls[id].ExecUnlock? ==> s.emu == Some(id)
    ensures StandsHarmless(Step(s, l).value, id) && Erased(Step(s, l).value, id) == Erased(s, id)
  {
    assert Step(s, l).value.calls - {id} == s.calls - {id};
  }

  lemma OtherStepGoesOn(s: System, l: Label, id: nat)
    requires !Concerns(l, id) && Step(s, l).Some?
    ensures StandsHarmless(s, id) ==> StandsHarmless(Step(s, l).value, id)
    ensures Step(Erased(s, id), l) == Some(Erased(Step(s, l).value, id))
  {
    if l.Call? || l.Go? {
      var pc := Step(s, l).value.calls[l.id];
      assert s.calls[l.id := pc] - {id} == (s.calls - {id})[l.id := pc];
    }
  }

  lemma RunSnoc(s: System, ls: seq<Label>, l: Label)
    ensures Run(s, ls + [l]) == if Run(s, ls).Some? then Step(Run(s, ls).value, l) else None
  {
    assert (ls + [l])[..|ls|] == ls;
  }

  /** What holds the executor's mutex is a call past it. */
  lemma {:induction false} UnlockersHold(ls: seq<Label>)
    requires Run(INIT, ls).Some?
    ensures
      var s := Run(INIT, ls).value;
      forall i | i in s.calls && !s.calls[i].ExecLock? && !s.calls[i].Returned? :: s.emu == Some(i)
  {
    if ls != [] {
      UnlockersHold(ls[..|ls| - 1]);
    }
  }

  /** Refused calls can be erased. */
  lemma {:induction false} RefusedCallsTouchNothing(ls: seq<Label>, id: nat)
    requires Run(INIT, ls).Some? && Refused(ls, id)
    ensures Run(INIT, Without(ls, id)) == Some(Erased(Run(INIT, ls).value, id))
    ensures StandsHarmless(Run(INIT, ls).value, id)
  {
    if ls == [] {
      assert INIT.calls - {id} == INIT.calls;
    } else {
      var init, l := ls[..|ls| - 1], ls[|ls| - 1];
      RefusedCallsTouchNothing(init, id);
      if Concerns(l, id) {
        UnlockersHold(init);
        OwnStepVanishes(Run(INIT, init).value, l, id);
      } else {
        OtherStepGoesOn(Run(INIT, init).value, l, id);
        RunSnoc(INIT, Without(init, id), l);
      }
    }
  }
}
