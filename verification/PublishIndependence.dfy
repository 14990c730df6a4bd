// Whether statuses and results are accepted by the bus changes nothing but the returned errors.

module PublishIndependence {
  import opened Wrappers
  import opened ConfigureCall
  import opened ConfigureSystem

  /** The two schedules make the same choices, except for how publish attempts are answered. */
  ghost predicate AgreeUpToPublish(s: System, ls: seq<Label>, ms: seq<Label>) {
    |ls| == |ms| && forall i | 0 <= i < |ls| :: ls[i] == ms[i] || PublishAck(s, ls[..i], ls[i], ms[i])
  }

  ghost predicate PublishAck(s: System, before: seq<Label>, l: Label, m: Label) {
    && l.Exchange? && l.ans.Ack? && m.Exchange? && m.ans.Ack?
    && Run(s, before).Some?
    && InCall(Run(s, before).value.core) && Requested(Run(s, before).value.core).IsPublish()
  }

  /** Every dependency call of a schedule, in order. */
  function Calls(s: System, ls: seq<Label>): seq<Request> {
    if ls == [] then []
    else
      var init, l := ls[..|ls| - 1], ls[|ls| - 1];
      var before := Run(s, init);
      if before.Some? && l.Exchange? && InCall(before.value.core)
      then Calls(s, init) + [Requested(before.value.core)] else Calls(s, init)
  }

  /** The points differ at most in what publishes answered. */
  predicate SimilarPoints(p: Point, q: Point) {
    match p
    case AtSyncResult(msg, rec, _) => q.AtSyncResult? && q.msg == msg && q.rec == rec
    case AtAppliedResult(msg, rec, _) => q.AtAppliedResult? && q.msg == msg && q.rec == rec
    case AtFailResult(msg, code, _) => q.AtFailResult? && q.msg == msg && q.code == code
    case Returned(_) => q.Returned?
    case _ => p == q
  }

  predicate SimilarHolders(h: Holder, g: Holder) {
    if h.Idle? then g.Idle? else g.Holds? && g.id == h.id && SimilarPoints(h.point, g.point)
  }

  /** Same KV bucket, device, checkpoint store and waiting calls; similar lock holders. */
  ghost predicate Similar(s: System, r: System) {
    && r.reg == s.reg
    && r.core == s.core.(holder := r.core.holder, finished := r.core.finished)
    && SimilarHolders(s.core.holder, r.core.holder)
    && r.core.finished.Keys == s.core.finished.Keys
  }

  lemma SimilarPointsAskTheSame(p: Point, q: Point)
    requires SimilarPoints(p, q) && !p.Returned?
    ensures !q.Returned? && Next(q) == Next(p)
  {
  }

  lemma SimilarPointsResumeAlike(p: Point, q: Point, a: Answer, b: Answer)
    requires SimilarPoints(p, q) && !p.Returned? && !q.Returned? && Next(p) == Next(q)
    requires Fits(Next(p), a) && Fits(Next(p), b) && (a == b || Next(p).IsPublish())
    ensures SimilarPoints(Resume(p, a), Resume(q, b))
  {
  }

  lemma SimilarSystemsStepAlike(s: System, r: System, l: Label, m: Label)
    requires Similar(s, r) && Step(s, l).Some?
    requires l == m || (l.Exchange? && l.ans.Ack? && m.Exchange? && m.ans.Ack?
                        && InCall(s.core) && Requested(s.core).IsPublish())
    ensures Step(r, m).Some? && Similar(Step(s, l).value, Step(r, m).value)
    ensures InCall(s.core) == InCall(r.core) && (InCall(s.core) ==> Requested(s.core) == Requested(r.core))
  {
    if InCall(s.core) {
      SimilarPointsAskTheSame(s.core.holder.point, r.core.holder.point);
    }
    if l.Exchange? {
      SimilarPointsResumeAlike(s.core.holder.point, r.core.holder.point, l.ans, m.ans);
    }
  }

  /** Publish independence, over whole schedules: if everything but the publish answers agrees, the
      second schedule is possible too, makes the same dependency calls in the same order, and ends
      with the same checkpoint and the same device. */
  lemma {:induction false} PublishOutcomesDoNotMatter(s: System, ls: seq<Label>, ms: seq<Label>)
    requires Run(s, ls).Some? && AgreeUpToPublish(s, ls, ms)
    ensures Run(s, ms).Some? && Similar(Run(s, ls).value, Run(s, ms).value)
    ensures Calls(s, ms) == Calls(s, ls)
  {
    if ls != [] {
      var i := |ls| - 1;
      assert forall k | 0 <= k < i :: ls[..i][..k] == ls[..k];
      PublishOutcomesDoNotMatter(s, ls[..i], ms[..i]);
      SimilarSystemsStepAlike(Run(s, ls[..i]).value, Run(s, ms[..i]).value, ls[i], ms[i]);
    }
  }
}
