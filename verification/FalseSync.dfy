// The service never declares a target in sync unless the last Apply attempted for that target
// succeeded and was for the declared UUID.

module FalseSync {
  import opened Wrappers
  import opened ConfigureCall
  import opened ConfigureSystem

  /** AnyTargets: several targets share the store, and a loss of power takes no checkpoint back.
      OneTarget: the service serves one target, and power may be lost at any time. */
  datatype Mode = AnyTargets | OneTarget(target: string)

  function TargetOf(call: Call): string {
    match call
    case Handle(msg) => msg.target
    case Reconcile(target) => target
  }

  /** What the service relies on. */
  datatype Reliance =
    | OwnTarget     // a KV record is stored under its own target
    | FreshUuid     // a UUID does not come back under a key once another has replaced it there
    | NamedTarget   // Reconcile is only asked about a target that is not empty
    | OneWorld      // one target, or no loss of power takes a checkpoint back

  ghost predicate Current(h: seq<Record>, uuid: string) {
    h != [] && h[|h| - 1].uuid == uuid
  }

  ghost predicate Unused(h: seq<Record>, uuid: string) {
    forall r | r in h :: r.uuid != uuid
  }

  ghost predicate Honors(a: Reliance, mode: Mode, s: System, l: Label) {
    match a
    case OwnTarget => l.Put? ==> l.rec.target == l.key
    case FreshUuid => l.Put? ==> Current(s.core.History(l.key), l.rec.uuid) || Unused(s.core.History(l.key), l.rec.uuid)
    case NamedTarget => l.Issue? && l.call.Reconcile? ==> l.call.target != ""
    case OneWorld =>
      if mode.OneTarget? then l.Issue? ==> TargetOf(l.call) == mode.target
      else l.PowerLoss? ==> l.back == CutRegister(s, l.cut).stored
  }

  ghost predicate Assumed(mode: Mode, s: System, l: Label) {
    && Honors(OwnTarget, mode, s, l) && Honors(FreshUuid, mode, s, l)
    && Honors(NamedTarget, mode, s, l) && Honors(OneWorld, mode, s, l)
  }

  /** Every step of the schedule meets the assumptions. */
  ghost predicate AllAssumed(mode: Mode, ls: seq<Label>) {
    if ls == [] then true
    else
      var init, l := ls[..|ls| - 1], ls[|ls| - 1];
      AllAssumed(mode, init) && (Run(INIT, init).Some? ==> Assumed(mode, Run(INIT, init).value, l))
  }

  /** The contents the store may have now or after a crash. */
  function Candidates(mode: Mode, reg: Register): set<State> {
    {reg.stored} + if mode.OneTarget? then reg.stale else {}
  }

  /** Checkpoint c names the j-th version of its target. */
  ghost predicate Names(core: Core, c: State, j: int) {
    c.target != "" && 0 <= j < |core.Versions(c.target)| && core.Versions(c.target)[j] == c.appliedUuid
  }

  ghost predicate Distinct(versions: seq<string>) {
    forall i, j | 0 <= i < j < |versions| :: versions[i] != versions[j]
  }

  /** The versions of a key are distinct, and they are the UUIDs of its records. */
  ghost predicate KeyWellKept(core: Core, key: string) {
    var h, versions := core.History(key), core.Versions(key);
    && Distinct(versions)
    && (forall r | r in h :: r.target == key && r.uuid in versions)
    && (forall u | u in versions :: !Unused(h, u))
    && (h != [] ==> versions != [] && versions[|versions| - 1] == h[|h| - 1].uuid)
  }

  ghost predicate RecordsWellKept(core: Core) {
    forall key :: KeyWellKept(core, key)
  }

  /** What was applied last was a record of its target. */
  ghost predicate DeviceWellKept(core: Core) {
    forall t | t in core.device :: core.device[t].rec in core.History(t)
  }

  ghost predicate CallWellFormed(mode: Mode, call: Call) {
    (call.Reconcile? ==> call.target != "") && (mode.OneTarget? ==> TargetOf(call) == mode.target)
  }

  ghost predicate CallsWellFormed(mode: Mode, core: Core) {
    forall id | id in core.waiting :: CallWellFormed(mode, core.waiting[id])
  }

  /** The record the call has loaded, once it has loaded one. */
  function Carried(p: Point): Option<Record> {
    match p
    case AtState(_, rec) => Some(rec)
    case AtSyncStatus(_, rec) => Some(rec)
    case AtSyncResult(_, rec, _) => Some(rec)
    case AtProcess(_, rec, _) => Some(rec)
    case AtAppliedStatus(_, rec) => Some(rec)
    case AtAppliedResult(_, rec, _) => Some(rec)
    case _ => None
  }

  function CarriedBy(core: Core): Option<Record> {
    if core.holder.Holds? then Carried(core.holder.point) else None
  }

  function CheckpointOf(rec: Record): State {
    State(rec.target, rec.uuid)
  }

  ghost predicate IsAt(core: Core, rec: Record, i: int) {
    0 <= i < |core.Versions(rec.target)| && core.Versions(rec.target)[i] == rec.uuid
  }

  ghost function PlaceOf(core: Core, rec: Record): (i: int)
    requires rec.uuid in core.Versions(rec.target)
    ensures IsAt(core, rec, i)
  {
    var i :| 0 <= i < |core.Versions(rec.target)| && core.Versions(rec.target)[i] == rec.uuid; i
  }

  /** The loaded record was put for its own target, and the call reports under its identifiers. */
  ghost predicate RecordWellLoaded(mode: Mode, core: Core, msg: Notice, rec: Record) {
    && rec.target != "" && rec in core.History(rec.target) && rec.uuid in core.Versions(rec.target)
    && msg.target == rec.target && msg.uuid == rec.uuid
    && (mode.OneTarget? ==> rec.target == mode.target)
  }

  ghost predicate PointWellFormed(mode: Mode, core: Core, p: Point) {
    match p
    case AtReceived(msg) => CallWellFormed(mode, Handle(msg)) && msg.target != ""
    case AtLoading(msg) => CallWellFormed(mode, Handle(msg)) && msg.target != ""
    case AtDesired(msg) => CallWellFormed(mode, Handle(msg)) && msg.target != ""
    case AtStartupState(target) => CallWellFormed(mode, Reconcile(target))
    case AtStartupDesired(target, _) => CallWellFormed(mode, Reconcile(target))
    case AtState(msg, rec) => RecordWellLoaded(mode, core, msg, rec)
    case AtSyncStatus(msg, rec) => RecordWellLoaded(mode, core, msg, rec)
    case AtSyncResult(msg, rec, _) => RecordWellLoaded(mode, core, msg, rec)
    case AtProcess(msg, rec, _) => RecordWellLoaded(mode, core, msg, rec)
    case AtAppliedStatus(msg, rec) => RecordWellLoaded(mode, core, msg, rec)
    case AtAppliedResult(msg, rec, _) => RecordWellLoaded(mode, core, msg, rec)
    case _ => true
  }

  /** The last Apply attempted for the target was for this UUID, and it succeeded. */
  ghost predicate Succeeded(core: Core, c: State) {
    && c.target in core.device && core.device[c.target].ok
    && CheckpointOf(core.device[c.target].rec) == c
  }

  /** What the holder's point says about the checkpoint and the device. */
  ghost predicate PointMatches(s: System, p: Point) {
    match p
    case AtStartupDesired(_, local) => local == s.reg.stored
    case AtSyncStatus(_, rec) => s.reg.stored == State(rec.target, rec.uuid)
    case AtSyncResult(_, rec, _) => s.reg.stored == State(rec.target, rec.uuid)
    case AtProcess(_, rec, phase) =>
      s.reg.stored != State(rec.target, rec.uuid) && (phase == ToSave ==> Succeeded(s.core, CheckpointOf(rec)))
    case AtAppliedStatus(_, rec) => s.reg.stored == State(rec.target, rec.uuid)
    case AtAppliedResult(_, rec, _) => s.reg.stored == State(rec.target, rec.uuid)
    case _ => true
  }

  /** A checkpoint that could still match the desired record is backed by the device: it names no
      version later than the loaded one, and if it names the latest or the loaded version, the last
      Apply for the target was for that version and succeeded. */
  ghost predicate Backed(core: Core, c: State) {
    forall j | Names(core, c, j) :: BackedAt(core, c, j)
  }

  ghost predicate BackedAt(core: Core, c: State, j: int)
    requires Names(core, c, j)
  {
    var carried := CarriedBy(core);
    && (carried.Some? && carried.value.target == c.target ==> forall i | IsAt(core, carried.value, i) :: j <= i)
    && (j == |core.Versions(c.target)| - 1 || (carried.Some? && CheckpointOf(carried.value) == c) ==> Succeeded(core, c))
  }

  /** Candidates are no newer than what is stored now. */
  ghost predicate NoNewer(mode: Mode, s: System, c: State) {
    && (c == EMPTY_STATE || ((exists j :: Names(s.core, c, j)) && s.reg.stored != EMPTY_STATE))
    && (mode.OneTarget? && c != EMPTY_STATE ==> c.target == mode.target)
    && (c.target == s.reg.stored.target ==>
          forall j, k | Names(s.core, c, j) && Names(s.core, s.reg.stored, k) :: j <= k)
  }

  ghost predicate Inv(mode: Mode, s: System) {
    && RecordsWellKept(s.core) && DeviceWellKept(s.core)
    && CallsWellFormed(mode, s.core)
    && (s.core.holder.Holds? ==>
          PointWellFormed(mode, s.core, s.core.holder.point) && PointMatches(s, s.core.holder.point))
    && forall c | c in Candidates(mode, s.reg) :: Backed(s.core, c) && NoNewer(mode, s, c)
  }

  lemma InitInv(mode: Mode)
    ensures Inv(mode, INIT)
  {
  }

  predicate SameBucket(core: Core, core': Core) {
    core'.hist == core.hist && core'.versions == core.versions
  }

  lemma SameRecords(core: Core, core': Core)
    requires RecordsWellKept(core) && SameBucket(core, core')
    ensures RecordsWellKept(core')
    ensures forall c, j :: Names(core', c, j) <==> Names(core, c, j)
    ensures forall rec, i :: IsAt(core', rec, i) <==> IsAt(core, rec, i)
  {
    forall key ensures KeyWellKept(core', key) { assert KeyWellKept(core, key); }
  }

  lemma NoNewerStays(mode: Mode, s: System, core: Core, c: State)
    requires RecordsWellKept(s.core) && SameBucket(s.core, core) && NoNewer(mode, s, c)
    ensures NoNewer(mode, System(core, s.reg), c)
  {
    SameRecords(s.core, core);
    if c != EMPTY_STATE {
      var j :| Names(s.core, c, j);
      assert Names(core, c, j);
    }
  }

  /** The store and the device stay; the holder moves to a point that carries no new record. */
  lemma MovesKeepInv(mode: Mode, s: System, core: Core)
    requires Inv(mode, s)
    requires SameBucket(s.core, core) && core.device == s.core.device && CallsWellFormed(mode, core)
    requires core.holder.Holds? ==>
               PointWellFormed(mode, core, core.holder.point) && PointMatches(System(core, s.reg), core.holder.point)
    requires CarriedBy(core).Some? ==> CarriedBy(core) == CarriedBy(s.core)
    ensures Inv(mode, System(core, s.reg))
  {
    SameRecords(s.core, core);
    forall c | c in Candidates(mode, s.reg)
      ensures Backed(core, c) && NoNewer(mode, System(core, s.reg), c)
    {
      assert Backed(s.core, c) && NoNewer(mode, s, c);
      NoNewerStays(mode, s, core, c);
      forall j | Names(core, c, j) ensures BackedAt(core, c, j) { assert BackedAt(s.core, c, j); }
    }
  }

  /** The holder loads the latest record of its target. */
  lemma LoadingKeepsInv(mode: Mode, s: System, core: Core, rec: Record)
    requires Inv(mode, s)
    requires s.core.holder.Holds? && core == s.core.(holder := core.holder) && core.holder.Holds?
    requires s.core.Present(rec.target) && rec == s.core.Latest(rec.target)
    requires Carried(core.holder.point) == Some(rec)
    requires PointWellFormed(mode, core, core.holder.point) && PointMatches(System(core, s.reg), core.holder.point)
    ensures Inv(mode, System(core, s.reg))
  {
    SameRecords(s.core, core);
    assert KeyWellKept(s.core, rec.target);
    var last := |core.Versions(rec.target)| - 1;
    forall c | c in Candidates(mode, s.reg)
      ensures Backed(core, c) && NoNewer(mode, System(core, s.reg), c)
    {
      assert Backed(s.core, c) && NoNewer(mode, s, c);
      NoNewerStays(mode, s, core, c);
      forall j | Names(core, c, j)
        ensures BackedAt(core, c, j)
      {
        assert BackedAt(s.core, c, j);
        assert forall i | IsAt(core, rec, i) :: i == last;
      }
    }
  }

  lemma ApplyKeepsInv(mode: Mode, s: System, core: Core, rec: Record, ok: bool)
    requires Inv(mode, s)
    requires s.core.holder.Holds? && s.core.holder.point.AtProcess? && s.core.holder.point.rec == rec
    requires core == s.core.(holder := core.holder, waiting := core.waiting,
                             device := s.core.device[rec.target := Attempt(rec, ok)])
    requires CallsWellFormed(mode, core) && (CarriedBy(core).None? || CarriedBy(core) == Some(rec))
    requires core.holder.Holds? ==>
               PointWellFormed(mode, core, core.holder.point) && PointMatches(System(core, s.reg), core.holder.point)
    ensures Inv(mode, System(core, s.reg))
  {
    var i := PlaceOf(s.core, rec);
    SameRecords(s.core, core);
    forall c | c in Candidates(mode, s.reg)
      ensures Backed(core, c) && NoNewer(mode, System(core, s.reg), c)
    {
      assert Backed(s.core, c) && NoNewer(mode, s, c);
      NoNewerStays(mode, s, core, c);
      forall j | Names(core, c, j)
        ensures BackedAt(core, c, j)
      {
        assert BackedAt(s.core, c, j);
        ApplyLeavesBacked(mode, s, rec, i, c, j);
      }
    }
  }

  /** What is applied is not what the checkpoint names, nor is what the checkpoint names the latest. */
  lemma ApplyLeavesBacked(mode: Mode, s: System, rec: Record, i: int, c: State, j: int)
    requires Inv(mode, s)
    requires s.core.holder.Holds? && s.core.holder.point.AtProcess? && s.core.holder.point.rec == rec
    requires IsAt(s.core, rec, i) && c in Candidates(mode, s.reg) && Names(s.core, c, j)
    ensures c.target == rec.target ==>
              j < |s.core.Versions(c.target)| - 1 && CheckpointOf(rec) != c && forall k | IsAt(s.core, rec, k) :: j <= k
  {
    if c.target == rec.target {
      ApplyIsForALaterRecord(mode, s, rec, i, c, j);
      forall k | IsAt(s.core, rec, k) ensures k == i { SamePlace(s.core, rec, i, k); }
      assert CheckpointOf(rec) == c ==> IsAt(s.core, rec, j);
    }
  }

  lemma SamePlace(core: Core, rec: Record, i: int, j: int)
    requires RecordsWellKept(core)
    requires IsAt(core, rec, i) && Names(core, State(rec.target, rec.uuid), j)
    ensures i == j
  {
    assert KeyWellKept(core, rec.target);
  }

  /** What is applied is newer than everything the store may hold. */
  lemma ApplyIsForALaterRecord(mode: Mode, s: System, rec: Record, i: int, c: State, j: int)
    requires Inv(mode, s)
    requires s.core.holder.Holds? && s.core.holder.point.AtProcess? && s.core.holder.point.rec == rec
    requires IsAt(s.core, rec, i)
    requires c in Candidates(mode, s.reg) && c.target == rec.target && Names(s.core, c, j)
    ensures j < i
  {
    var d := s.reg.stored;
    assert Backed(s.core, c) && NoNewer(mode, s, c) && Backed(s.core, d) && NoNewer(mode, s, d);
    assert d != EMPTY_STATE && d.target == rec.target;
    var k :| Names(s.core, d, k);
    assert k <= i;
    assert j <= k;
    if k == i {
      assert false;
    }
  }

  /** The saved checkpoint, or one that the store had before. */
  lemma SaveLeavesBacked(mode: Mode, s: System, core: Core, rec: Record, i: int, c: State, j: int)
    requires Inv(mode, s) && SameBucket(s.core, core) && core.device == s.core.device
    requires s.core.holder.Holds? && s.core.holder.point.AtProcess? && s.core.holder.point.rec == rec
    requires s.core.holder.point.phase == ToSave && (CarriedBy(core).None? || CarriedBy(core) == Some(rec))
    requires IsAt(s.core, rec, i) && Names(core, c, j) && (c == CheckpointOf(rec) || c in Candidates(mode, s.reg))
    ensures BackedAt(core, c, j) && (c.target == rec.target ==> j <= i)
  {
    SameRecords(s.core, core);
    forall k | IsAt(core, rec, k) ensures k == i { SamePlace(s.core, rec, i, k); }
    if c == CheckpointOf(rec) {
      SamePlace(s.core, rec, i, j);
    } else {
      assert Backed(s.core, c);
      assert BackedAt(s.core, c, j);
    }
  }

  lemma SaveKeepsInv(mode: Mode, s: System, core: Core, rec: Record)
    requires Inv(mode, s)
    requires s.core.holder.Holds? && s.core.holder.point.AtProcess? && s.core.holder.point.rec == rec
    requires s.core.holder.point.phase == ToSave
    requires core == s.core.(holder := core.holder, waiting := core.waiting)
    requires CallsWellFormed(mode, core) && (CarriedBy(core).None? || CarriedBy(core) == Some(rec))
    requires
      var s' := System(core, Saved(s.reg, CheckpointOf(rec)));
      core.holder.Holds? ==> PointWellFormed(mode, core, core.holder.point) && PointMatches(s', core.holder.point)
    ensures Inv(mode, System(core, Saved(s.reg, CheckpointOf(rec))))
  {
    var next := CheckpointOf(rec);
    var s' := System(core, Saved(s.reg, next));
    var i := PlaceOf(s.core, rec);
    SameRecords(s.core, core);
    assert Names(core, next, i);
    forall j | Names(core, next, j) ensures j == i { SamePlace(s.core, rec, i, j); }
    forall c | c in Candidates(mode, s'.reg)
      ensures Backed(core, c) && NoNewer(mode, s', c)
    {
      assert c == next || c in Candidates(mode, s.reg);
      forall j | Names(core, c, j)
        ensures BackedAt(core, c, j) && (c.target == rec.target ==> j <= i)
      {
        SaveLeavesBacked(mode, s, core, rec, i, c, j);
      }
      if c != next {
        NoNewerStays(mode, s, core, c);
      }
    }
  }

  /** Histories and versions only grow. */
  lemma PutKeepsPoint(mode: Mode, s: System, key: string, rec: Record)
    requires Inv(mode, s) && Assumed(mode, s, Put(key, rec)) && s.core.holder.Holds?
    ensures PointWellFormed(mode, NextCore(s.core, Put(key, rec)).value, s.core.holder.point)
    ensures PointMatches(System(NextCore(s.core, Put(key, rec)).value, s.reg), s.core.holder.point)
  {
    assert KeyWellKept(s.core, key);
    PutKeepsKey(s.core, key, rec);
  }

  lemma PutKeepsNoNewer(mode: Mode, s: System, key: string, rec: Record, c: State)
    requires Inv(mode, s) && Assumed(mode, s, Put(key, rec)) && c in Candidates(mode, s.reg)
    ensures NoNewer(mode, System(NextCore(s.core, Put(key, rec)).value, s.reg), c)
  {
    var core := NextCore(s.core, Put(key, rec)).value;
    assert KeyWellKept(s.core, key);
    PutKeepsKey(s.core, key, rec);
    assert NoNewer(mode, s, c) && NoNewer(mode, s, s.reg.stored);
    PutNamesNothingOld(mode, s, key, rec, c);
    PutNamesNothingOld(mode, s, key, rec, s.reg.stored);
    if c != EMPTY_STATE {
      var j :| Names(s.core, c, j);
      assert Names(core, c, j);
    }
  }

  lemma PutKeepsInv(mode: Mode, s: System, key: string, rec: Record)
    requires Inv(mode, s) && Assumed(mode, s, Put(key, rec))
    ensures Inv(mode, System(NextCore(s.core, Put(key, rec)).value, s.reg))
  {
    var core := NextCore(s.core, Put(key, rec)).value;
    PutKeepsRecords(s.core, key, rec);
    if s.core.holder.Holds? {
      PutKeepsPoint(mode, s, key, rec);
    }
    forall c | c in Candidates(mode, s.reg)
      ensures Backed(core, c) && NoNewer(mode, System(core, s.reg), c)
    {
      PutKeepsBacked(mode, s, key, rec, c);
      PutKeepsNoNewer(mode, s, key, rec, c);
    }
  }

  lemma PutKeepsBacked(mode: Mode, s: System, key: string, rec: Record, c: State)
    requires Inv(mode, s) && Assumed(mode, s, Put(key, rec)) && c in Candidates(mode, s.reg)
    ensures Backed(NextCore(s.core, Put(key, rec)).value, c)
  {
    var core := NextCore(s.core, Put(key, rec)).value;
    assert Backed(s.core, c) && NoNewer(mode, s, c);
    PutNamesNothingOld(mode, s, key, rec, c);
    PutKeepsRecords(s.core, key, rec);
    forall j | Names(core, c, j)
      ensures BackedAt(core, c, j)
    {
      assert Names(s.core, c, j);
      assert BackedAt(s.core, c, j);
      if CarriedBy(core).Some? {
        PutKeepsPlace(mode, s, key, rec, CarriedBy(core).value);
      }
    }
  }

  /** The loaded record stays where it is in the history, and nowhere else. */
  lemma PutKeepsPlace(mode: Mode, s: System, key: string, rec: Record, r: Record)
    requires Inv(mode, s) && Assumed(mode, s, Put(key, rec)) && CarriedBy(s.core) == Some(r)
    ensures forall i :: IsAt(NextCore(s.core, Put(key, rec)).value, r, i) <==> IsAt(s.core, r, i)
  {
    var core := NextCore(s.core, Put(key, rec)).value;
    var i := PlaceOf(s.core, r);
    assert IsAt(core, r, i);
    PutKeepsRecords(s.core, key, rec);
    forall k | IsAt(core, r, k)
      ensures k == i
    {
      SamePlace(core, r, i, k);
    }
  }

  /** A Put leaves the versions as they are or adds one that was not among them. */
  lemma PutKeepsKey(core: Core, key: string, rec: Record)
    requires KeyWellKept(core, key) && rec.target == key
    requires Current(core.History(key), rec.uuid) || Unused(core.History(key), rec.uuid)
    ensures KeyWellKept(NextCore(core, Put(key, rec)).value, key)
    ensures core.Versions(key) <= NextCore(core, Put(key, rec)).value.Versions(key)
    ensures Unused(core.History(key), rec.uuid) ==> rec.uuid !in core.Versions(key)
  {
    var core' := NextCore(core, Put(key, rec)).value;
    assert core'.History(key) == core.History(key) + [rec];
    assert core'.Versions(key) == WithVersion(core.Versions(key), rec.uuid);
    forall u | u in core'.Versions(key)
      ensures !Unused(core'.History(key), u)
    {
      if u in core.Versions(key) {
        assert !Unused(core.History(key), u);
      } else {
        assert rec in core'.History(key);
      }
    }
  }

  lemma PutKeepsRecords(core: Core, key: string, rec: Record)
    requires RecordsWellKept(core) && rec.target == key
    requires Current(core.History(key), rec.uuid) || Unused(core.History(key), rec.uuid)
    ensures RecordsWellKept(NextCore(core, Put(key, rec)).value)
  {
    var core' := NextCore(core, Put(key, rec)).value;
    forall k
      ensures KeyWellKept(core', k)
    {
      assert KeyWellKept(core, k);
      if k == key {
        PutKeepsKey(core, key, rec);
      } else {
        assert core'.History(k) == core.History(k) && core'.Versions(k) == core.Versions(k);
      }
    }
  }

  lemma PutNamesNothingOld(mode: Mode, s: System, key: string, rec: Record, c: State)
    requires Inv(mode, s) && Assumed(mode, s, Put(key, rec)) && NoNewer(mode, s, c)
    ensures forall j | Names(NextCore(s.core, Put(key, rec)).value, c, j) :: Names(s.core, c, j)
  {
    var core := NextCore(s.core, Put(key, rec)).value;
    assert KeyWellKept(s.core, key);
    PutKeepsKey(s.core, key, rec);
    forall j | Names(core, c, j)
      ensures Names(s.core, c, j)
    {
      if c.target == key && c != EMPTY_STATE {
        var k :| Names(s.core, c, k);
        assert c.appliedUuid in s.core.Versions(key);
      }
    }
  }

  /** An exchange that neither applies nor saves only moves the holder. */
  lemma QuietExchange(s: System, ans: Answer)
    requires Step(s, Exchange(ans)).Some? && !Requested(s.core).Apply? && !Requested(s.core).Save?
    ensures Step(s, Exchange(ans)).value ==
            System(s.core.(holder := Holds(s.core.holder.id, Resume(s.core.holder.point, ans))), s.reg)
  {
  }

  /** The checkpoint has been loaded; it is compared or kept. */
  lemma LoadedKeepsPoint(mode: Mode, s: System, ans: Answer)
    requires Inv(mode, s) && Step(s, Exchange(ans)).Some? && Requested(s.core).LoadState?
    ensures
      var q := Resume(s.core.holder.point, ans);
      && PointWellFormed(mode, s.core, q) && PointMatches(s, q)
      && (Carried(q).Some? ==> Carried(q) == Carried(s.core.holder.point))
  {
  }

  lemma QuietExchangeKeepsPoint(mode: Mode, s: System, ans: Answer)
    requires Inv(mode, s) && Step(s, Exchange(ans)).Some?
    requires !Requested(s.core).Apply? && !Requested(s.core).Save? && !Requested(s.core).LoadDesired?
    ensures
      var q := Resume(s.core.holder.point, ans);
      && PointWellFormed(mode, s.core, q) && PointMatches(s, q)
      && (Carried(q).Some? ==> Carried(q) == Carried(s.core.holder.point))
  {
    if Requested(s.core).LoadState? {
      LoadedKeepsPoint(mode, s, ans);
    }
  }

  /** Histories and device alone matter to what is said of a point. */
  lemma OtherHolder(mode: Mode, s: System, holder: Holder, p: Point)
    ensures
      var core := s.core.(holder := holder);
      && (PointWellFormed(mode, s.core, p) ==> PointWellFormed(mode, core, p))
      && (PointMatches(s, p) ==> PointMatches(System(core, s.reg), p))
  {
  }

  lemma QuietExchangeKeepsInv(mode: Mode, s: System, ans: Answer)
    requires Inv(mode, s) && Step(s, Exchange(ans)).Some?
    requires !Requested(s.core).Apply? && !Requested(s.core).Save? && !Requested(s.core).LoadDesired?
    ensures Inv(mode, Step(s, Exchange(ans)).value)
  {
    QuietExchange(s, ans);
    QuietExchangeKeepsPoint(mode, s, ans);
    var core := Step(s, Exchange(ans)).value.core;
    OtherHolder(mode, s, core.holder, core.holder.point);
    MovesKeepInv(mode, s, core);
  }

  lemma ExchangeKeepsInv(mode: Mode, s: System, ans: Answer)
    requires Inv(mode, s) && Step(s, Exchange(ans)).Some?
    ensures Inv(mode, Step(s, Exchange(ans)).value)
  {
    match Requested(s.core)
    case LoadDesired(_) => LookupKeepsInv(mode, s, ans);
    case Apply(_) => ApplyExchangeKeepsInv(mode, s, ans);
    case Save(_) => SaveExchangeKeepsInv(mode, s, ans);
    case _ => QuietExchangeKeepsInv(mode, s, ans);
  }

  lemma LookupKeepsInv(mode: Mode, s: System, ans: Answer)
    requires Inv(mode, s) && Step(s, Exchange(ans)).Some?
    requires s.core.holder.point.AtDesired? || s.core.holder.point.AtStartupDesired?
    ensures Inv(mode, Step(s, Exchange(ans)).value)
  {
    var s' := Step(s, Exchange(ans)).value;
    var q := s'.core.holder.point;
    if q.AtState? || q.AtProcess? {
      FoundIsInHistory(s.core, Requested(s.core).target, q.rec);
      LoadingKeepsInv(mode, s, s'.core, q.rec);
    } else {
      MovesKeepInv(mode, s, s'.core);
    }
  }

  lemma ApplyExchangeKeepsInv(mode: Mode, s: System, ans: Answer)
    requires Inv(mode, s) && Step(s, Exchange(ans)).Some? && Requested(s.core).Apply?
    ensures Inv(mode, Step(s, Exchange(ans)).value)
  {
    ApplyKeepsInv(mode, s, Step(s, Exchange(ans)).value.core, s.core.holder.point.rec, ans.ok);
  }

  lemma SaveExchangeKeepsInv(mode: Mode, s: System, ans: Answer)
    requires Inv(mode, s) && Step(s, Exchange(ans)).Some? && Requested(s.core).Save?
    ensures Inv(mode, Step(s, Exchange(ans)).value)
  {
    var core := Step(s, Exchange(ans)).value.core;
    if ans.ok {
      SaveKeepsInv(mode, s, core, s.core.holder.point.rec);
    } else {
      MovesKeepInv(mode, s, core);
    }
  }

  lemma FoundIsInHistory(core: Core, key: string, rec: Record)
    requires RecordsWellKept(core) && core.Present(key) && rec == core.Latest(key)
    ensures rec.target == key && rec in core.History(key) && IsAt(core, rec, |core.Versions(key)| - 1)
  {
    assert KeyWellKept(core, key);
  }

  lemma CrashKeepsInv(mode: Mode, s: System, cut: Interrupted)
    requires Inv(mode, s)
    ensures Inv(mode, System(Restarted(s.core, cut.attempted), CutRegister(s, cut)))
  {
    var core := Restarted(s.core, cut.attempted);
    if InCall(s.core) && Requested(s.core).Apply? && cut.attempted.Some? {
      ApplyKeepsInv(mode, s, core, Requested(s.core).rec, cut.attempted.value);
    } else if InCall(s.core) && Requested(s.core).Save? && cut.saved {
      SaveKeepsInv(mode, s, core, s.core.holder.point.rec);
    } else {
      MovesKeepInv(mode, s, core);
    }
  }

  /** The store keeps only one of its candidates. */
  lemma SettlingKeepsInv(mode: Mode, s: System, back: State)
    requires Inv(mode, s) && back in Candidates(mode, s.reg) && s.core.holder.Idle?
    ensures Inv(mode, System(s.core, Register(back, {})))
  {
    assert Backed(s.core, back) && NoNewer(mode, s, back);
    forall j, k | Names(s.core, back, j) && Names(s.core, back, k)
      ensures j == k
    {
      assert KeyWellKept(s.core, back.target);
    }
  }

  lemma PowerLossKeepsInv(mode: Mode, s: System, cut: Interrupted, back: State)
    requires Inv(mode, s) && Honors(OneWorld, mode, s, PowerLoss(cut, back)) && Step(s, PowerLoss(cut, back)).Some?
    ensures Inv(mode, Step(s, PowerLoss(cut, back)).value)
  {
    CrashKeepsInv(mode, s, cut);
    SettlingKeepsInv(mode, System(Restarted(s.core, cut.attempted), CutRegister(s, cut)), back);
  }

  lemma FlushKeepsInv(mode: Mode, s: System)
    requires Inv(mode, s)
    ensures Inv(mode, System(s.core, Register(s.reg.stored, {})))
  {
    var s' := System(s.core, Register(s.reg.stored, {}));
    assert Backed(s.core, s.reg.stored) && NoNewer(mode, s, s.reg.stored);
    assert NoNewer(mode, s', s.reg.stored);
  }

  lemma StepKeepsInv(mode: Mode, s: System, l: Label)
    requires Inv(mode, s) && Assumed(mode, s, l) && Step(s, l).Some?
    ensures Inv(mode, Step(s, l).value)
  {
    var s' := Step(s, l).value;
    match l
    case Issue(id, call) => MovesKeepInv(mode, s, s'.core);
    case Acquire(id) => MovesKeepInv(mode, s, s'.core);
    case Exchange(ans) => ExchangeKeepsInv(mode, s, ans);
    case Release => MovesKeepInv(mode, s, s'.core);
    case Put(key, rec) => PutKeepsInv(mode, s, key, rec);
    case Delete(key) => MovesKeepInv(mode, s, s'.core);
    case Flush => FlushKeepsInv(mode, s);
    case Crash(cut) => CrashKeepsInv(mode, s, cut);
    case PowerLoss(cut, back) => PowerLossKeepsInv(mode, s, cut, back);
  }

  lemma {:induction false} RunsKeepInv(mode: Mode, ls: seq<Label>)
    requires AllAssumed(mode, ls) && Run(INIT, ls).Some?
    ensures Inv(mode, Run(INIT, ls).value)
  {
    if ls == [] {
      InitInv(mode);
    } else {
      var init := ls[..|ls| - 1];
      RunsKeepInv(mode, init);
      StepKeepsInv(mode, Run(INIT, init).value, ls[|ls| - 1]);
    }
  }

  lemma InvMakesDecisionsTrue(mode: Mode, s: System, l: Label)
    requires Inv(mode, s) && Step(s, l).Some? && DeclaredInSync(s.core, l).Some?
    ensures Succeeded(s.core, CheckpointOf(DeclaredInSync(s.core, l).value))
    ensures var rec := DeclaredInSync(s.core, l).value; rec in s.core.History(rec.target)
  {
    var rec := DeclaredInSync(s.core, l).value;
    var c := s.reg.stored;
    assert Backed(s.core, c);
    if s.core.holder.point.AtState? {
      var i := PlaceOf(s.core, rec);
      assert Names(s.core, c, i);
    } else {
      FoundIsInHistory(s.core, s.core.holder.point.target, rec);
      assert Names(s.core, c, |s.core.Versions(rec.target)| - 1);
    }
  }

  /** No two records of the target share a UUID. */
  ghost predicate UuidsIdentify(core: Core, target: string) {
    forall r, q | r in core.History(target) && q in core.History(target) && r.uuid == q.uuid :: r == q
  }

  /** False-sync safety, over every schedule: whenever a call declares a record already in sync, the
      last Apply attempted for its target was for that UUID, and it succeeded. */
  lemma FalseSyncSafety(mode: Mode, ls: seq<Label>, s: System, l: Label, rec: Record)
    requires AllAssumed(mode, ls) && Run(INIT, ls) == Some(s)
    requires Step(s, l).Some? && DeclaredInSync(s.core, l) == Some(rec)
    ensures Succeeded(s.core, CheckpointOf(rec))
  {
    RunsKeepInv(mode, ls);
    InvMakesDecisionsTrue(mode, s, l);
  }

  /** If no two records of the target share a UUID, it was of that very record. */
  lemma FalseSyncSafetyOfRecords(mode: Mode, ls: seq<Label>, s: System, l: Label, rec: Record)
    requires AllAssumed(mode, ls) && Run(INIT, ls) == Some(s)
    requires Step(s, l).Some? && DeclaredInSync(s.core, l) == Some(rec) && UuidsIdentify(s.core, rec.target)
    ensures rec.target in s.core.device && s.core.device[rec.target] == Attempt(rec, true)
  {
    RunsKeepInv(mode, ls);
    InvMakesDecisionsTrue(mode, s, l);
  }
}
