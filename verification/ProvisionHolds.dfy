/** Who holds a project's limit: the record of the id, one id at a time. */
module ProvisionHolds {
  import opened Wrappers
  import opened Provision
  import opened ProvisionSafety

  predicate ProjectLimit(c: Config, x: (string, nat)) {
    x.0 in c.parents && c.parents[x.0].kind.Project?
  }

  ghost predicate HoldsLimit(vols: seq<Record>, x: (string, nat)) {
    exists i :: 0 <= i < |vols| && vols[i].key.parent == x.0 && vols[i].projectID == x.1
  }

  // If the project id y has a limit, a record holds it.
  ghost predicate HeldAt(c: Config, d: Disk, vols: seq<Record>, y: (string, nat)) {
    y in d.limits && ProjectLimit(c, y) ==> HoldsLimit(vols, y)
  }

  lemma HeldInFile(c: Config, d: Disk, vols: seq<Record>, file: seq<Record>, y: (string, nat))
    requires HeldAt(c, d, vols, y) && Covered(vols, file)
    ensures HeldAt(c, d, file, y)
  {
    if y in d.limits && ProjectLimit(c, y) {
      var i :| 0 <= i < |vols| && vols[i].key.parent == y.0 && vols[i].projectID == y.1;
      assert Has(file, vols[i].key, vols[i].projectID);
    }
  }

  lemma HeldAfterUpdate(c: Config, d: Disk, vols: seq<Record>, r: Record, y: (string, nat))
    requires HeldAt(c, d, vols, y) && UniqueKeys(vols) && Has(vols, r.key, r.projectID)
    ensures HeldAt(c, d, Update(vols, r), y)
  {
    var next := Update(vols, r);
    if y in d.limits && ProjectLimit(c, y) {
      var i :| 0 <= i < |vols| && vols[i].key.parent == y.0 && vols[i].projectID == y.1;
      assert next[i].key == vols[i].key && next[i].projectID == vols[i].projectID;
    }
  }

  // Without r's record the limits are held exactly when r's is not among them.
  lemma HeldAfterRemove(c: Config, d: Disk, vols: seq<Record>, r: Record, y: (string, nat))
    requires DistinctIDs(vols) && UniqueKeys(vols) && r in vols
    requires ProjectLimit(c, (r.key.parent, r.projectID)) ==> r.projectID != 0
    requires y != (r.key.parent, r.projectID) ==> HeldAt(c, d, vols, y)
    ensures HeldAt(c, d, Remove(vols, r.key), y) <==> !(y == (r.key.parent, r.projectID) && ProjectLimit(c, y) && y in d.limits)
  {
    if y in d.limits && ProjectLimit(c, y) {
      if y == (r.key.parent, r.projectID) { MineGoes(vols, r); } else { OthersStay(vols, r, y); }
    }
  }

  lemma OthersStay(vols: seq<Record>, r: Record, x: (string, nat))
    requires UniqueKeys(vols) && r in vols && HoldsLimit(vols, x) && x != (r.key.parent, r.projectID)
    ensures HoldsLimit(Remove(vols, r.key), x)
  {
    var i :| 0 <= i < |vols| && vols[i].key.parent == x.0 && vols[i].projectID == x.1;
    OtherKey(vols, r, i);
    InList(Remove(vols, r.key), vols[i], x);
  }

  lemma OtherKey(vols: seq<Record>, r: Record, i: nat)
    requires UniqueKeys(vols) && r in vols && i < |vols| && vols[i] != r
    ensures vols[i].key != r.key && vols[i] in Remove(vols, r.key)
  {
    var n :| 0 <= n < |vols| && vols[n] == r;
    if i < n { assert vols[i].key != vols[n].key; } else { assert vols[n].key != vols[i].key; }
    assert vols[i] in vols;
  }

  lemma InList(vols: seq<Record>, r: Record, x: (string, nat))
    requires r in vols && r.key.parent == x.0 && r.projectID == x.1
    ensures HoldsLimit(vols, x)
  {
    var j :| 0 <= j < |vols| && vols[j] == r;
  }

  lemma MineGoes(vols: seq<Record>, r: Record)
    requires DistinctIDs(vols) && r in vols && r.projectID != 0
    ensures !HoldsLimit(Remove(vols, r.key), (r.key.parent, r.projectID))
  {
    var rest := Remove(vols, r.key);
    var n :| 0 <= n < |vols| && vols[n] == r;
    forall j | 0 <= j < |rest| ensures rest[j].projectID != r.projectID {
      assert rest[j] in rest;
      var i :| 0 <= i < |vols| && vols[i] == rest[j];
      assert i != n;
    }
  }

  lemma BuildHolds(c: Config, s: State, r: Record, f: CreateFaults, y: (string, nat))
    requires ValidConfig(c) && Working(c, s, r) && HeldAt(c, s.disk, s.vols, y)
    ensures var (s1, r1, v) := Build(c.parents[r.key.parent], s, r, f); HeldAt(c, s1.disk, s1.vols, y)
  {
    var p := c.parents[r.key.parent];
    var (s1, r1, v) := Build(p, s, r, f);
    BuildShape(p, s, r, f);
    if s1.vols != s.vols { HeldAfterUpdate(c, s.disk, s.vols, r1, y); }
    BuildKeeps(c, s, r, f);
    if y in s1.disk.limits && ProjectLimit(c, y) && y !in s.disk.limits {
      var i :| 0 <= i < |s1.vols| && s1.vols[i] == r1;
      assert s1.vols[i].projectID == r1.projectID;
    }
  }

  // Creating a pending volume again drops its record when nothing can be made
  // in its place -- with the limit an interrupted delete may have left its id y.
  predicate Leaks(c: Config, s: State, q: CreateReq, f: CreateFaults, y: (string, nat)) {
    && !BadTarget(c, q.key) && BadQuota(c, q.quota).None? && Find(s.vols, q.key).Some?
    && var r := Find(s.vols, q.key).value; r.quota == q.quota && r.pending && Drops(c, s, r, f, y)
  }

  // What those lemmas need of a record being worked on.
  ghost predicate Listed(c: Config, s: State, r: Record) {
    && UniqueKeys(s.vols) && DistinctIDs(s.vols) && Covered(s.vols, s.file) && r in s.vols && Has(s.vols, r.key, r.projectID)
    && (ProjectLimit(c, (r.key.parent, r.projectID)) ==> r.projectID != 0)
  }

  lemma WorkingListed(c: Config, s: State, r: Record)
    requires ValidConfig(c) && Working(c, s, r)
    ensures Listed(c, s, r)
  {
  }

  predicate Drops(c: Config, s: State, r: Record, f: CreateFaults, y: (string, nat)) {
    && r.key.parent in c.parents && c.parents[r.key.parent].kind.Project?
    && r.key !in s.disk.entries && y == (r.key.parent, r.projectID) && y in s.disk.limits
    && f.make.Fail? && f.lookAfter.Done? && !f.saveDrop.Crash?
  }

  ghost predicate HeldNext(c: Config, s': State, a: Answer, y: (string, nat)) {
    HeldAt(c, s'.disk, if a.Killed? then s'.file else s'.vols, y)
  }

  lemma FinishHolds(c: Config, s: State, r: Record, f: CreateFaults, y: (string, nat))
    requires ValidConfig(c) && Working(c, s, r) && HeldAt(c, s.disk, s.vols, y)
    ensures var (s', a) := Finish(c.parents[r.key.parent], s, r, f); HeldNext(c, s', a, y) <==> !Drops(c, s, r, f, y)
  {
    var p := c.parents[r.key.parent];
    var (s1, r1, v) := Build(p, s, r, f);
    BuildAbsent(p, s, r, f);
    BuildKeeps(c, s, r, f);
    BuildHolds(c, s, r, f, y);
    WorkingListed(c, s1, r1);
    SettleHolds(c, s1, r1, v, f, y);
  }

  lemma SettleHolds(c: Config, s: State, r: Record, v: Built, f: CreateFaults, y: (string, nat))
    requires Listed(c, s, r) && HeldAt(c, s.disk, s.vols, y)
    requires v.Unbuilt? && r.key !in s.disk.entries ==> f.make.Fail?
    ensures var (s', a) := Settle(s, r, v, f); HeldNext(c, s', a, y) <==> !(v.Unbuilt? && Drops(c, s, r, f, y))
  {
    HeldInFile(c, s.disk, s.vols, s.file, y);
    if v.Whole? { HeldAfterUpdate(c, s.disk, s.vols, r.(pending := false), y); }
    else if v.Unbuilt? && r.key !in s.disk.entries { HeldAfterRemove(c, s.disk, s.vols, r, y); }
  }

  lemma BeginHolds(c: Config, s: State, q: CreateReq, f: CreateFaults, y: (string, nat))
    requires ValidConfig(c) && Inv(c, s) && q.key.parent in c.parents && q.quota > 0 && Find(s.vols, q.key).None?
    requires HeldAt(c, s.disk, s.vols, y)
    ensures var (s', a) := Begin(c.parents[q.key.parent], s, q, f); HeldNext(c, s', a, y)
  {
    hide Inv, Working, Begin, Finish, HeldAt, ListOk;
    InvFacts(c, s);
    var p := c.parents[q.key.parent];
    var r := NewRecord(p, s, q);
    BeginShape(c, s, q, f);
    HeldInFile(c, s.disk, s.vols, s.file, y);
    HeldWithMore(c, s.disk, s.vols, r, y);
    if Admits(p, s, q, f) && f.savePending.Done? {
      PendingSaved(c, s, q);
      FreshUnlimited(c, s, r, y);
      FinishHolds(c, s.(vols := s.vols + [r], file := s.vols + [r]), r, f, y);
    }
  }

  lemma FreshUnlimited(c: Config, s: State, r: Record, y: (string, nat))
    requires HeldAt(c, s.disk, s.vols, y) && (ProjectLimit(c, (r.key.parent, r.projectID)) ==> r.projectID != 0 && !Held(s.vols, r.projectID))
    ensures y == (r.key.parent, r.projectID) && ProjectLimit(c, y) ==> y !in s.disk.limits
  {
    if y == (r.key.parent, r.projectID) && ProjectLimit(c, y) && y in s.disk.limits { assert false; }
  }

  lemma HeldWithMore(c: Config, d: Disk, vols: seq<Record>, r: Record, y: (string, nat))
    requires HeldAt(c, d, vols, y)
    ensures HeldAt(c, d, vols + [r], y)
  {
    if y in d.limits && ProjectLimit(c, y) {
      var i :| 0 <= i < |vols| && vols[i].key.parent == y.0 && vols[i].projectID == y.1;
      assert (vols + [r])[i] == vols[i];
    }
  }

  lemma CreateHolds(c: Config, s: State, q: CreateReq, f: CreateFaults, y: (string, nat))
    requires ValidConfig(c) && Inv(c, s) && HeldAt(c, s.disk, s.vols, y)
    ensures var (s', a) := Create(c, s, q, f); HeldNext(c, s', a, y) <==> !Leaks(c, s, q, f, y)
  {
    HeldInFile(c, s.disk, s.vols, s.file, y);
    if !BadTarget(c, q.key) && BadQuota(c, q.quota).None? {
      match Find(s.vols, q.key)
      case Some(r) => if r.pending && r.quota == q.quota { WorkingOn(c, s, r); FinishHolds(c, s, r, f, y); }
      case None => BeginHolds(c, s, q, f, y);
    }
  }

  // A removal lifts limits and sets none; when it is complete, the record's own is gone.
  lemma RemovalLimits(c: Config, s: State, r: Record, snaps: seq<string>, f: DeleteFaults)
    requires r.key.parent in c.parents && (c.parents[r.key.parent].kind.Project? ==> r.projectID != 0)
    ensures var p := c.parents[r.key.parent];
      var (s1, v) := if p.kind.Project? then RemoveProject(p, s, r, f) else RemoveSubvolume(p, s, r, snaps, f);
      && s1.vols == s.vols && s1.file == s.file && s1.disk.limits.Keys <= s.disk.limits.Keys
      && (v.Okay? && p.kind.Project? ==> (r.key.parent, r.projectID) !in s1.disk.limits)
  {
    if c.parents[r.key.parent].kind.Subvolume? {
      var s1 := RemoveSnapshots(s, r, snaps, f).0;
      assert s1.vols == s.vols && s1.file == s.file && s1.disk.limits == s.disk.limits;
    }
  }

  lemma DestroyHolds(c: Config, s: State, r: Record, snaps: seq<string>, f: DeleteFaults, deleted: bool, y: (string, nat))
    requires r.key.parent in c.parents && Listed(c, s, r) && HeldAt(c, s.disk, s.vols, y)
    ensures var (s', a) := Destroy(c.parents[r.key.parent], s, r, snaps, f, deleted); HeldNext(c, s', a, y)
  {
    hide RemoveProject, RemoveSubvolume;
    var p := c.parents[r.key.parent];
    var (s1, v) := if p.kind.Project? then RemoveProject(p, s, r, f) else RemoveSubvolume(p, s, r, snaps, f);
    RemovalLimits(c, s, r, snaps, f);
    HeldInFile(c, s1.disk, s1.vols, s1.file, y);
    if v.Okay? { HeldAfterRemove(c, s1.disk, s1.vols, r, y); }
  }

  lemma DeleteHolds(c: Config, s: State, k: Key, destroyData: bool, f: DeleteFaults, y: (string, nat))
    requires ValidConfig(c) && Inv(c, s) && HeldAt(c, s.disk, s.vols, y)
    ensures var (s', a) := Delete(c, s, k, destroyData, f); HeldNext(c, s', a, y)
  {
    hide Inv, Working, Listed, HeldAt, Destroy;
    InvFacts(c, s);
    HeldInFile(c, s.disk, s.vols, s.file, y);
    if !BadTarget(c, k) && Find(s.vols, k).Some? {
      var r := Find(s.vols, k).value;
      WorkingOn(c, s, r);
      WorkingListed(c, s, r);
      DestroyHolds(c, s, r, r.snapshots, f, true, y);
      DestroyHolds(c, s, r, [], f, false, y);
    }
  }

  lemma ChangeHolds(c: Config, s: State, r: Record, r': Record, o: Outcome, y: (string, nat))
    requires Listed(c, s, r) && HeldAt(c, s.disk, s.vols, y) && r'.key == r.key && r'.projectID == r.projectID
    ensures var (s', a) := SavedChange(s.(vols := Update(s.vols, r')), o); HeldNext(c, s', a, y)
  {
    HeldInFile(c, s.disk, s.vols, s.file, y);
    HeldAfterUpdate(c, s.disk, s.vols, r', y);
  }

  lemma HeldAfterLimit(c: Config, s: State, r: Record, quota: nat, o: Outcome, y: (string, nat))
    requires r in s.vols && r.key.parent in c.parents && HeldAt(c, s.disk, s.vols, y)
    ensures var s1 := LimitStep(c.parents[r.key.parent], s, r, quota, o); HeldAt(c, s1.disk, s1.vols, y)
  {
    var n :| 0 <= n < |s.vols| && s.vols[n] == r;
  }

  lemma ResizeHolds(c: Config, s: State, q: ResizeReq, f: ChangeFaults, y: (string, nat))
    requires ValidConfig(c) && Inv(c, s) && HeldAt(c, s.disk, s.vols, y)
    ensures var (s', a) := Resize(c, s, q, f); HeldNext(c, s', a, y)
  {
    hide Inv, Working, Listed, HeldAt;
    InvFacts(c, s);
    HeldInFile(c, s.disk, s.vols, s.file, y);
    if BadQuota(c, q.quota).None? && Recorded(c, s, q.key, f.check).Ok? {
      var r := Recorded(c, s, q.key, f.check).value;
      WorkingOn(c, s, r);
      WorkingListed(c, s, r);
      ResizedHolds(c, s, r, q.quota, f, y);
    }
  }

  lemma ResizedHolds(c: Config, s: State, r: Record, quota: nat, f: ChangeFaults, y: (string, nat))
    requires Listed(c, s, r) && r.key.parent in c.parents && HeldAt(c, s.disk, s.vols, y)
    ensures var s1 := LimitStep(c.parents[r.key.parent], s, r, quota, f.effect);
      && HeldAt(c, s1.disk, s1.vols, y) && HeldAt(c, s1.disk, s1.file, y)
      && var (s', a) := SavedChange(s1.(vols := Update(s1.vols, r.(quota := quota))), f.save); HeldNext(c, s', a, y)
  {
    var s1 := LimitStep(c.parents[r.key.parent], s, r, quota, f.effect);
    HeldAfterLimit(c, s, r, quota, f.effect, y);
    HeldInFile(c, s1.disk, s1.vols, s1.file, y);
    ChangeHolds(c, s1, r, r.(quota := quota), f.save, y);
  }

  lemma SnapshotHolds(c: Config, s: State, k: Key, name: string, f: ChangeFaults, y: (string, nat))
    requires ValidConfig(c) && Inv(c, s) && HeldAt(c, s.disk, s.vols, y)
    ensures var (s', a) := Snapshot(c, s, k, name, f); HeldNext(c, s', a, y)
  {
    HeldInFile(c, s.disk, s.vols, s.file, y);
    if ValidName(name) && Recorded(c, s, k, f.check).Ok? && c.parents[k.parent].kind.Subvolume? {
      var r := Recorded(c, s, k, f.check).value;
      WorkingOn(c, s, r);
      var have := if k in s.disk.snaps then s.disk.snaps[k] else {};
      if name !in have && name !in r.snapshots {
        var s1 := if Happens(f.effect) then s.(disk := s.disk.(snaps := s.disk.snaps[k := have + {name}])) else s;
        WorkingListed(c, s, r);
        hide Inv, Update, Owned, Working;
        ChangeHolds(c, s1, r, r.(snapshots := r.snapshots + [name]), f.save, y);
      }
    }
  }

  predicate LeakyOp(c: Config, s: State, op: Op, y: (string, nat)) {
    op.OpCreate? && Leaks(c, s, op.req, op.createFaults, y)
  }

  // Through any call, however it ends, an id with a limit stays held by a record
  // exactly unless the call drops that id's pending record while it has one.
  lemma LimitsStayHeld(c: Config, s: State, op: Op, y: (string, nat))
    requires ValidConfig(c) && Inv(c, s) && HeldAt(c, s.disk, s.vols, y)
    ensures var s' := Next(c, s, op);
      HeldAt(c, s'.disk, s'.vols, y) <==> !LeakyOp(c, s, op, y)
  {
    match op
    case OpCreate(q, f) => CreateHolds(c, s, q, f, y);
    case OpDelete(k, dd, f) => DeleteHolds(c, s, k, dd, f, y);
    case OpResize(q, f) => ResizeHolds(c, s, q, f, y);
    case OpSnapshot(k, name, f) => SnapshotHolds(c, s, k, name, f, y);
    case OpRestart => HeldInFile(c, s.disk, s.vols, s.file, y);
  }

  // While no record holds it, the limit stays: only the removal of a volume under
  // that id lifts it.
  lemma UnheldStays(c: Config, s: State, op: Op, y: (string, nat))
    requires ValidConfig(c) && Inv(c, s) && y in s.disk.limits && ProjectLimit(c, y) && !HoldsLimit(s.vols, y)
    ensures y in Next(c, s, op).disk.limits
  {
    hide Inv, ValidConfig, HoldsLimit;
    match op
    case OpCreate(q, f) => CreateLifts(c, s, q, f, y);
    case OpDelete(k, dd, f) => DeleteLifts(c, s, k, dd, f, y);
    case OpResize(q, f) =>
    case OpSnapshot(k, name, f) =>
    case OpRestart =>
  }

  lemma CreateLifts(c: Config, s: State, q: CreateReq, f: CreateFaults, y: (string, nat))
    requires y in s.disk.limits
    ensures y in Create(c, s, q, f).0.disk.limits
  {
    hide Begin, Finish;
    if !BadTarget(c, q.key) {
      var p := c.parents[q.key.parent];
      match Find(s.vols, q.key)
      case Some(r) => FinishLifts(p, s, r, f, y);
      case None =>
        var r := NewRecord(p, s, q);
        BeginShape(c, s, q, f);
        FinishLifts(p, s.(vols := s.vols + [r], file := s.vols + [r]), r, f, y);
    }
  }

  lemma FinishLifts(p: Parent, s: State, r: Record, f: CreateFaults, y: (string, nat))
    requires y in s.disk.limits
    ensures y in Finish(p, s, r, f).0.disk.limits
  {
    hide Build;
    BuildLifts(p, s, r, f, y);
  }

  lemma BuildLifts(p: Parent, s: State, r: Record, f: CreateFaults, y: (string, nat))
    requires y in s.disk.limits
    ensures y in Build(p, s, r, f).0.disk.limits
  {
    hide Update;
    var (s1, v1) := MakeStep(p, s, r.key, f.make);
    assert s1.disk.limits == s.disk.limits;
    if r.key in s1.disk.entries && s1.disk.entries[r.key].Dir? {
      assert TagStep(p, s1, r, f.tag).0.disk.limits == s.disk.limits;
    }
  }

  lemma DeleteLifts(c: Config, s: State, k: Key, destroyData: bool, f: DeleteFaults, y: (string, nat))
    requires y in s.disk.limits && ProjectLimit(c, y) && !HoldsLimit(s.vols, y)
    ensures y in Delete(c, s, k, destroyData, f).0.disk.limits
  {
    hide Destroy;
    if !BadTarget(c, k) && Find(s.vols, k).Some? {
      var r := Find(s.vols, k).value;
      assert (r.key.parent, r.projectID) != y by {
        var n :| 0 <= n < |s.vols| && s.vols[n] == r;
      }
      DestroyLifts(c, s, r, r.snapshots, f, true, y);
      DestroyLifts(c, s, r, [], f, false, y);
    }
  }

  lemma DestroyLifts(c: Config, s: State, r: Record, snaps: seq<string>, f: DeleteFaults, deleted: bool, y: (string, nat))
    requires r.key.parent in c.parents && y in s.disk.limits && ProjectLimit(c, y) && (r.key.parent, r.projectID) != y
    ensures y in Destroy(c.parents[r.key.parent], s, r, snaps, f, deleted).0.disk.limits
  {
    hide RemoveProject, RemoveSubvolume;
    var p := c.parents[r.key.parent];
    if p.kind.Project? { ProjectLifts(p, s, r, f, y); } else { SubvolumeLifts(p, s, r, snaps, f, y); }
  }

  lemma ProjectLifts(p: Parent, s: State, r: Record, f: DeleteFaults, y: (string, nat))
    requires y in s.disk.limits && p.kind.Project? && (r.key.parent, r.projectID) != y
    ensures y in RemoveProject(p, s, r, f).0.disk.limits
  {
  }

  lemma SubvolumeLifts(p: Parent, s: State, r: Record, snaps: seq<string>, f: DeleteFaults, y: (string, nat))
    requires y in s.disk.limits && p.kind.Subvolume? && r.key.parent != y.0
    ensures y in RemoveSubvolume(p, s, r, snaps, f).0.disk.limits
  {
    hide Names;
  }

  // The i-th call dropped the record of y, and no record has held y since.
  ghost predicate Leaked(c: Config, s0: State, ops: seq<Op>, i: nat, y: (string, nat)) {
    && i < |ops| && LeakyOp(c, Exec(c, s0, ops[..i]), ops[i], y)
    && forall j :: i < j <= |ops| ==> !HoldsLimit(Exec(c, s0, ops[..j]).vols, y)
  }

  // So after every run an id with a limit is held exactly unless such a call
  // dropped it and nobody has been given it since, whatever became of other ids.
  lemma {:induction false} RunHoldsLimits(c: Config, s0: State, ops: seq<Op>, y: (string, nat))
    requires ValidConfig(c) && Initial(c, s0)
    ensures HeldAt(c, Exec(c, s0, ops).disk, Exec(c, s0, ops).vols, y) <==> !exists i :: Leaked(c, s0, ops, i, y)
    decreases |ops|
  {
    hide Next, Inv, LeakyOp, HoldsLimit, Initial, ValidConfig;
    if ops == [] {
      NothingLimited(c, s0, y);
    } else {
      var n, before := |ops| - 1, ops[..|ops| - 1];
      var s, s' := Exec(c, s0, before), Exec(c, s0, ops);
      RunHoldsLimits(c, s0, before, y);
      RunKeeps(c, s0, before);
      assert ops[..n] == before && ops[..n + 1] == ops;
      forall i: nat | i < n
        ensures Leaked(c, s0, ops, i, y) <==> Leaked(c, s0, before, i, y) && !HoldsLimit(s'.vols, y)
      {
        LeakedBefore(c, s0, ops, i, y);
      }
      assert Leaked(c, s0, ops, n, y) <==> LeakyOp(c, s, ops[n], y) && !HoldsLimit(s'.vols, y) by {
        forall j | n < j <= |ops| ensures ops[..j] == ops {
        }
      }
      if HeldAt(c, s.disk, s.vols, y) { LimitsStayHeld(c, s, ops[n], y); } else { UnheldStays(c, s, ops[n], y); }
    }
  }

  lemma NothingLimited(c: Config, s0: State, y: (string, nat))
    requires Initial(c, s0)
    ensures HeldAt(c, s0.disk, s0.vols, y)
  {
  }

  // What had leaked before the last call is leaked after it unless somebody was
  // given it then.
  lemma LeakedBefore(c: Config, s0: State, ops: seq<Op>, i: nat, y: (string, nat))
    requires i < |ops| - 1
    ensures Leaked(c, s0, ops, i, y) <==> Leaked(c, s0, ops[..|ops| - 1], i, y) && !HoldsLimit(Exec(c, s0, ops).vols, y)
  {
    hide Exec, LeakyOp, HoldsLimit;
    var before := ops[..|ops| - 1];
    assert ops[..|ops|] == ops && before[..i] == ops[..i];
    if Leaked(c, s0, ops, i, y) {
      forall j | i < j <= |before| ensures !HoldsLimit(Exec(c, s0, before[..j]).vols, y) {
        assert before[..j] == ops[..j];
      }
    }
    if Leaked(c, s0, before, i, y) && !HoldsLimit(Exec(c, s0, ops).vols, y) {
      forall j | i < j <= |ops| ensures !HoldsLimit(Exec(c, s0, ops[..j]).vols, y) {
        if j < |ops| { assert before[..j] == ops[..j]; }
      }
    }
  }

  // It does happen: a creation stopped after its limit, a delete stopped
  // before it lifted that limit, and a creation with no room for a directory.
  function LeakyOps(name: string): (ops: (Op, Op, Op)) {
    (OpCreate(CreateReq(Key("disk", name), 7, 0, None), CLEAN_CREATE.(group := Fail)),
     OpDelete(Key("disk", name), true, CLEAN_DELETE.(unlimit := Fail)),
     OpCreate(CreateReq(Key("disk", name), 7, 0, None), CLEAN_CREATE.(make := Fail)))
  }

  function HalfMade(name: string): State {
    var r := Record(Key("disk", name), 7, 0, true, 5, 0, []);
    State([r], [r], Disk(map[Key("disk", name) := Dir(5, false, {})], map[("disk", 5) := 7], map[], 1))
  }

  lemma HalfMadeReached(name: string)
    requires ValidName(name)
    ensures Next(ONE_DISK, NOTHING, LeakyOps(name).0) == HalfMade(name)
  {
    assert LowestFree([], 5, 9) == Some(5);
    assert Update(HalfMade(name).vols, HalfMade(name).vols[0]) == HalfMade(name).vols;
  }

  lemma HalfDeletedReached(name: string)
    requires ValidName(name)
    ensures var s := HalfMade(name); Next(ONE_DISK, s, LeakyOps(name).1) == s.(disk := s.disk.(entries := map[]))
  {
    var s := HalfMade(name);
    assert s.disk.entries[Key("disk", name) := Dir(5, false, {})] - {Key("disk", name)} == map[];
  }

  lemma LimitMayLeak(name: string)
    requires ValidName(name)
    ensures ValidConfig(ONE_DISK) && Initial(ONE_DISK, NOTHING)
    ensures var s1 := Next(ONE_DISK, NOTHING, LeakyOps(name).0);
      var s3 := Next(ONE_DISK, Next(ONE_DISK, s1, LeakyOps(name).1), LeakyOps(name).2);
      s3 == State([], [], Disk(map[], map[("disk", 5) := 7], map[], 1))
  {
    HalfMadeReached(name);
    HalfDeletedReached(name);
    assert Remove(HalfMade(name).vols, Key("disk", name)) == Remove([], Key("disk", name));
  }
}
