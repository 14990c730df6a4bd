// Success is reported only of what the checkpoint already says, whatever is in the KV bucket and
// whatever crashes and losses of power do.

module CheckpointFirst {
  import opened Wrappers
  import opened ConfigureCall
  import opened ConfigureSystem

  /** The call reports under the identifiers of the record it carries, and once it reports success the
      checkpoint names them. */
  predicate Honest(stored: State, p: Point) {
    match p
    case AtState(msg, rec) => msg.target == rec.target && msg.uuid == rec.uuid
    case AtProcess(msg, rec, _) => msg.target == rec.target && msg.uuid == rec.uuid
    case AtSyncStatus(msg, _) => stored == State(msg.target, msg.uuid)
    case AtSyncResult(msg, _, _) => stored == State(msg.target, msg.uuid)
    case AtAppliedStatus(msg, _) => stored == State(msg.target, msg.uuid)
    case AtAppliedResult(msg, _, _) => stored == State(msg.target, msg.uuid)
    case _ => true
  }

  ghost predicate HolderIsHonest(s: System) {
    s.core.holder.Holds? ==> Honest(s.reg.stored, s.core.holder.point)
  }

  lemma AnswerKeepsHonest(stored: State, p: Point, ans: Answer)
    requires Honest(stored, p) && !p.Returned? && Fits(Next(p), ans)
    requires Next(p).LoadState? ==> ans.state.None? || ans.state.value == stored
    ensures Honest(StoredAfter(stored, Next(p), ans), Resume(p, ans))
  {
  }

  lemma StepKeepsHonest(s: System, l: Label)
    requires HolderIsHonest(s) && Step(s, l).Some?
    ensures HolderIsHonest(Step(s, l).value)
  {
    if l.Exchange? {
      ExchangeAnswers(s, l.ans);
      AnswerKeepsHonest(s.reg.stored, s.core.holder.point, l.ans);
    }
  }

  lemma {:induction false} RunsKeepHonest(ls: seq<Label>)
    requires Run(INIT, ls).Some?
    ensures HolderIsHonest(Run(INIT, ls).value)
  {
    if ls != [] {
      RunsKeepHonest(ls[..|ls| - 1]);
      StepKeepsHonest(Run(INIT, ls[..|ls| - 1]).value, ls[|ls| - 1]);
    }
  }

  predicate Reports(req: Request, msg: Notice, level: Level) {
    req.IsPublish() && req.msg == msg && req.level == level
  }

  /** At every attempt to report success, status or result, the store holds the checkpoint of the
      configuration that is reported. */
  lemma CheckpointBeforeSuccess(ls: seq<Label>, s: System, msg: Notice)
    requires Run(INIT, ls) == Some(s)
    requires InCall(s.core) && Reports(Requested(s.core), msg, Success)
    ensures s.reg.stored == State(msg.target, msg.uuid)
  {
    RunsKeepHonest(ls);
  }
}
