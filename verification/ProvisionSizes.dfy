/** The limit on a volume's storage is the size recorded for it. */
module ProvisionSizes {
  import opened Wrappers
  import opened Provision
  import opened ProvisionSafety
  import opened ProvisionFrame
  import opened ProvisionSnapshots
  import opened ProvisionRemoval
  import opened ProvisionData
  import opened ProvisionQuota

  // The limit of the id that stands there.
  predicate LimitIs(d: Disk, k: Key, quota: nat)
    requires k in d.entries && d.entries[k].Dir?
  {
    (k.parent, d.entries[k].id) in d.limits && d.limits[(k.parent, d.entries[k].id)] == quota
  }

  // By this list a finished volume that stands is limited to its size.
  predicate Agrees(c: Config, d: Disk, list: seq<Record>, k: Key) {
    Standing(c, d, list, k) ==> LimitIs(d, k, Find(list, k).value.quota)
  }

  // By memory and by the file; and memory calls nothing unfinished that the file
  // calls finished.
  predicate InStep(c: Config, s: State, k: Key) {
    && Agrees(c, s.disk, s.vols, k) && Agrees(c, s.disk, s.file, k)
    && (Find(s.vols, k).Some? && Find(s.vols, k).value.pending && Find(s.file, k).Some? ==> Find(s.file, k).value.pending)
  }

  // What stands at another volume's place has an id no call on this one limits.
  lemma OtherID(c: Config, s: State, r: Record, k: Key)
    requires ValidConfig(c) && Working(c, s, r) && k != r.key && k.parent == r.key.parent
    requires IsTagged(c, s.disk, k) || IsSubvol(c, s.disk, k)
    ensures s.disk.entries[k].id != LimitID(c.parents[r.key.parent], r)
  {
    if IsTagged(c, s.disk, k) {
      var n :| 0 <= n < |s.vols| && s.vols[n] == r;
      var i :| 0 <= i < |s.vols| && s.vols[i].key == k && s.vols[i].projectID == s.disk.entries[k].id;
      assert i != n;
    }
  }

  predicate SameLimit(a: Disk, b: Disk, x: (string, nat)) {
    (x in b.limits <==> x in a.limits) && (x in a.limits ==> b.limits[x] == a.limits[x])
  }

  // A creation sets at most one limit, to the record's size.
  lemma BuildLimits(p: Parent, s: State, r: Record, f: CreateFaults)
    ensures var (s1, r1, v) := Build(p, s, r, f);
      && r1.key == r.key && r1.quota == r.quota && r1.pending == r.pending
      && (s1.disk.limits == s.disk.limits || s1.disk.limits == s.disk.limits[(r.key.parent, LimitID(p, r1)) := r.quota])
      && (v.Whole? ==> (r.key.parent, LimitID(p, r1)) in s1.disk.limits && s1.disk.limits[(r.key.parent, LimitID(p, r1))] == r.quota)
  {
    BuildSteps(p, s, r, f);
    WholeLeaves(p, s, r, f);
    hide Build, Update, Find, LimitID;
    var (s1, v1) := MakeStep(p, s, r.key, f.make);
    assert s1.disk.limits == s.disk.limits by { hide Owned; }
    if v1.Okay? && f.check.Done? && Owned(p, s1.disk, r).Ours? {
      var (s2, r2) := TagStep(p, s1, r, f.tag);
      assert s2.disk.limits == s.disk.limits && r2 == r.(subvolID := r2.subvolID);
    }
  }

  lemma FinishOther(c: Config, s: State, r: Record, f: CreateFaults, k: Key)
    requires ValidConfig(c) && Working(c, s, r) && k != r.key && (IsTagged(c, s.disk, k) || IsSubvol(c, s.disk, k))
    ensures SameLimit(s.disk, Finish(c.parents[r.key.parent], s, r, f).0.disk, (k.parent, s.disk.entries[k].id))
  {
    hide Build, Inv, Update, Remove, RecordOk;
    var (s1, r1, v) := Build(c.parents[r.key.parent], s, r, f);
    BuildLimits(c.parents[r.key.parent], s, r, f);
    BuildKeeps(c, s, r, f);
    BuildFrame(c.parents[r.key.parent], s, r, f, k);
    if k.parent == r.key.parent { OtherID(c, s1, r1, k); }
  }

  lemma CreateOther(c: Config, s: State, q: CreateReq, f: CreateFaults, k: Key)
    requires ValidConfig(c) && Inv(c, s) && k != q.key && (IsTagged(c, s.disk, k) || IsSubvol(c, s.disk, k))
    ensures SameLimit(s.disk, Create(c, s, q, f).0.disk, (k.parent, s.disk.entries[k].id))
  {
    hide Inv, Begin, Finish;
    if !BadTarget(c, q.key) && BadQuota(c, q.quota).None? {
      var p := c.parents[q.key.parent];
      match Find(s.vols, q.key)
      case Some(r) =>
        WorkingOn(c, s, r);
        FinishOther(c, s, r, f, k);
      case None =>
        var r := NewRecord(p, s, q);
        BeginShape(c, s, q, f);
        if Admits(p, s, q, f) {
          PendingSaved(c, s, q);
          FinishOther(c, s.(vols := s.vols + [r], file := s.vols + [r]), r, f, k);
        }
    }
  }

  lemma DestroyLimits(p: Parent, s: State, r: Record, snaps: seq<string>, f: DeleteFaults, deleted: bool)
    ensures var l := Destroy(p, s, r, snaps, f, deleted).0.disk.limits;
      l == s.disk.limits || l == s.disk.limits - {(r.key.parent, LimitID(p, r))}
  {
    hide RemoveSnapshots, Remove;
    SnapshotsShape(s, r, snaps, f);
  }

  lemma DeleteOther(c: Config, s: State, j: Key, destroyData: bool, f: DeleteFaults, k: Key)
    requires ValidConfig(c) && Inv(c, s) && k != j && (IsTagged(c, s.disk, k) || IsSubvol(c, s.disk, k))
    ensures SameLimit(s.disk, Delete(c, s, j, destroyData, f).0.disk, (k.parent, s.disk.entries[k].id))
  {
    hide Inv, Destroy;
    if !BadTarget(c, j) && Find(s.vols, j).Some? {
      var r := Find(s.vols, j).value;
      WorkingOn(c, s, r);
      if k.parent == j.parent { OtherID(c, s, r, k); }
      DestroyLimits(c.parents[j.parent], s, r, r.snapshots, f, true);
      DestroyLimits(c.parents[j.parent], s, r, [], f, false);
    }
  }

  lemma ResizeOther(c: Config, s: State, q: ResizeReq, f: ChangeFaults, k: Key)
    requires ValidConfig(c) && Inv(c, s) && k != q.key && (IsTagged(c, s.disk, k) || IsSubvol(c, s.disk, k))
    ensures SameLimit(s.disk, Resize(c, s, q, f).0.disk, (k.parent, s.disk.entries[k].id))
  {
    hide Inv, Update, Owned;
    if Recorded(c, s, q.key, f.check).Ok? {
      var r := Recorded(c, s, q.key, f.check).value;
      WorkingOn(c, s, r);
      if k.parent == q.key.parent { OtherID(c, s, r, k); }
    }
  }

  lemma OthersLimit(c: Config, s: State, op: Op, k: Key)
    requires ValidConfig(c) && Inv(c, s) && !Targets(op, k) && (IsTagged(c, s.disk, k) || IsSubvol(c, s.disk, k))
    ensures SameLimit(s.disk, Perform(c, s, op).0.disk, (k.parent, s.disk.entries[k].id))
  {
    hide Inv, Create, Delete, Resize;
    match op
    case OpCreate(q, f) => CreateOther(c, s, q, f, k);
    case OpDelete(j, dd, f) => DeleteOther(c, s, j, dd, f, k);
    case OpResize(q, f) => ResizeOther(c, s, q, f, k);
    case OpSnapshot(_, _, _) =>
    case OpRestart =>
  }

  lemma StandingIsMarked(c: Config, d: Disk, list: seq<Record>, k: Key)
    requires ValidConfig(c) && ListOk(c, d, list) && Standing(c, d, list, k)
    ensures IsTagged(c, d, k) || IsSubvol(c, d, k)
  {
    var n :| 0 <= n < |list| && list[n] == Find(list, k).value;
    assert RecordOk(c, d, list[n]);
  }

  lemma FrameInStep(c: Config, s: State, op: Op, k: Key)
    requires ValidConfig(c) && Inv(c, s) && InStep(c, s, k) && !Targets(op, k)
    ensures InStep(c, Perform(c, s, op).0, k)
  {
    var s' := Perform(c, s, op).0;
    InvFacts(c, s);
    OthersUntouched(c, s, op, k);
    if Standing(c, s.disk, s.vols, k) { StandingIsMarked(c, s.disk, s.vols, k); }
    if Standing(c, s.disk, s.file, k) { StandingIsMarked(c, s.disk, s.file, k); }
    if IsTagged(c, s.disk, k) || IsSubvol(c, s.disk, k) { OthersLimit(c, s, op, k); }
    hide Perform, Inv;
  }

  /********** Calls on the volume itself **********/

  lemma TagMarks(c: Config, s: State, r: Record, o: Outcome)
    requires ValidConfig(c) && Working(c, s, r) && Find(s.vols, r.key) == Some(r) && Owned(c.parents[r.key.parent], s.disk, r).Ours?
    ensures var (s1, r1) := TagStep(c.parents[r.key.parent], s, r, o);
      && Find(s1.vols, r.key) == Some(r1) && s1.file == s.file && r1.key == r.key
      && r.key in s1.disk.entries && s1.disk.entries[r.key].Dir?
      && (o.Done? ==> s1.disk.entries[r.key].id == LimitID(c.parents[r.key.parent], r1))
  {
    hide Update, Find, Inv;
    FindAfterUpdate(s.vols, TagStep(c.parents[r.key.parent], s, r, o).1, r.key);
  }

  lemma GiveMarks(p: Parent, s: State, r: Record, f: CreateFaults)
    requires r.key in s.disk.entries && s.disk.entries[r.key].Dir?
    ensures var s1 := LimitStep(p, s, r, r.quota, f.limit);
      && s1.disk.entries == s.disk.entries && s1.vols == s.vols && s1.file == s.file
      && var s2 := GroupStep(s1, r.key, f.group);
        && s2.vols == s.vols && s2.file == s.file && r.key in s2.disk.entries && s2.disk.entries[r.key].Dir?
        && s2.disk.entries[r.key].id == s.disk.entries[r.key].id
  {
  }

  // How far a build came.
  lemma BuildSteps(p: Parent, s: State, r: Record, f: CreateFaults)
    ensures var (b, rb, v) := Build(p, s, r, f);
      var (s1, v1) := MakeStep(p, s, r.key, f.make);
      if !(v1.Okay? && f.check.Done? && Owned(p, s1.disk, r).Ours?) then b == s1 && rb == r && !v.Whole?
      else
        var (s2, r2) := TagStep(p, s1, r, f.tag);
        var s3 := LimitStep(p, s2, r2, r2.quota, f.limit);
        && rb == r2 && (v.Whole? ==> f.tag.Done?)
        && (b == s2 || b == s3 || (r.key in s3.disk.entries && s3.disk.entries[r.key].Dir? && b == GroupStep(s3, r.key, f.group)))
  {
    hide Update, Find;
  }

  // Finished, it is marked with its id.
  lemma WholeIsMarked(c: Config, s: State, r: Record, f: CreateFaults)
    requires ValidConfig(c) && Working(c, s, r) && Find(s.vols, r.key) == Some(r)
    ensures var (s1, r1, v) := Build(c.parents[r.key.parent], s, r, f);
      && Find(s1.vols, r.key) == Some(r1) && s1.file == s.file
      && (v.Whole? ==> r.key in s1.disk.entries && s1.disk.entries[r.key].Dir? && s1.disk.entries[r.key].id == LimitID(c.parents[r.key.parent], r1))
  {
    var p := c.parents[r.key.parent];
    BuildSteps(p, s, r, f);
    hide Build, Update, Find, Inv, MakeStep, TagStep, LimitStep, GroupStep, LimitID, Working, ValidConfig;
    var (s1, v1) := MakeStep(p, s, r.key, f.make);
    MakeKeeps(c, s, r, f.make);
    if v1.Okay? && f.check.Done? && Owned(p, s1.disk, r).Ours? {
      var (s2, r2) := TagStep(p, s1, r, f.tag);
      TagMarks(c, s1, r, f.tag);
      GiveMarks(p, s2, r2, f);
    }
  }

  lemma FinishInStep(c: Config, s: State, r: Record, f: CreateFaults)
    requires ValidConfig(c) && Working(c, s, r) && Find(s.vols, r.key) == Some(r) && r.pending && InStep(c, s, r.key)
    ensures InStep(c, Finish(c.parents[r.key.parent], s, r, f).0, r.key)
  {
    hide Build, Update, Remove, Find, Inv, RecordOk;
    var p := c.parents[r.key.parent];
    var (s1, r1, v) := Build(p, s, r, f);
    WholeIsMarked(c, s, r, f);
    BuildLimits(p, s, r, f);
    FindAfterUpdate(s1.vols, r1.(pending := false), r.key);
    FindAfterRemove(s1.vols, r.key, r.key);
  }

  lemma CreateInStep(c: Config, s: State, q: CreateReq, f: CreateFaults)
    requires ValidConfig(c) && Inv(c, s) && InStep(c, s, q.key)
    ensures InStep(c, Next(c, s, OpCreate(q, f)), q.key)
  {
    hide Inv, Begin, Finish, InStep;
    RestartInStep(c, s, q.key);
    if !BadTarget(c, q.key) && BadQuota(c, q.quota).None? {
      var p := c.parents[q.key.parent];
      match Find(s.vols, q.key)
      case Some(r) =>
        if r.pending {
          WorkingOn(c, s, r);
          FinishInStep(c, s, r, f);
          RestartInStep(c, Finish(p, s, r, f).0, q.key);
        }
      case None => BeginInStep(c, s, q, f);
    }
  }

  lemma BeginInStep(c: Config, s: State, q: CreateReq, f: CreateFaults)
    requires ValidConfig(c) && Inv(c, s) && InStep(c, s, q.key) && q.key.parent in c.parents && q.quota > 0 && Find(s.vols, q.key).None?
    ensures var (s', a) := Begin(c.parents[q.key.parent], s, q, f); InStep(c, if a.Killed? then Restart(s') else s', q.key)
  {
    hide Inv, Begin, Finish, Find;
    var p := c.parents[q.key.parent];
    var r := NewRecord(p, s, q);
    BeginShape(c, s, q, f);
    FindAfterAppend(s.vols, r, q.key);
    if Admits(p, s, q, f) {
      assert q.key !in s.disk.entries;
      PendingSaved(c, s, q);
      var both := s.(vols := s.vols + [r], file := s.vols + [r]);
      FinishInStep(c, both, r, f);
      RestartInStep(c, Finish(p, both, r, f).0, q.key);
    }
  }

  lemma RestartInStep(c: Config, s: State, k: Key)
    requires InStep(c, s, k)
    ensures InStep(c, Restart(s), k)
  {
  }

  // The limit of a subvolume that stands was lifted, its look having failed, and
  // the file goes on recording it.
  predicate Forgets(c: Config, s: State, k: Key, destroyData: bool, f: DeleteFaults) {
    && Standing(c, s.disk, s.file, k) && c.parents[k.parent].kind.Subvolume? && Find(s.vols, k).Some?
    && var r := Find(s.vols, k).value;
      && f.check.Done? && s.disk.entries[k].id == r.subvolID
      && (destroyData || (r.snapshots == [] && f.empty.Done? && s.disk.entries[k].files == {}))
      && f.snaps.Done? && Beside(s.disk, k) <= Names(r.snapshots) && f.snapDir.Done?
      && (f.seen.Fail? || f.seen.FailLate?) && Happens(f.unlimit) && !Happens(f.save)
  }

  // A resize set the limit, and memory or the file goes on recording the old size.
  predicate Outruns(c: Config, s: State, q: ResizeReq, f: ChangeFaults) {
    Grants(c, s, q, f) && (f.effect.FailLate? || (f.effect.Done? && !Happens(f.save) && Standing(c, s.disk, s.file, q.key)))
  }

  predicate Slips(c: Config, s: State, op: Op, k: Key) {
    || (op.OpResize? && op.resize.key == k && Outruns(c, s, op.resize, op.faults))
    || (op.OpDelete? && op.key == k && Forgets(c, s, k, op.destroyData, op.deleteFaults))
  }

  lemma ResizeInStep(c: Config, s: State, q: ResizeReq, f: ChangeFaults)
    requires ValidConfig(c) && Inv(c, s) && InStep(c, s, q.key)
    ensures InStep(c, Next(c, s, OpResize(q, f)), q.key) <==> !Outruns(c, s, q, f)
  {
    ResizeLeaves(c, s, q, f);
    RestartInStep(c, s, q.key);
    if Grants(c, s, q, f) {
      ResizeDies(c, s, q, f);
      var (s', a) := Resize(c, s, q, f);
      hide Inv, Resize, Find, InStep;
      if f.effect.Done? { NewSize(c, s, s', q, Happens(f.save)); }
      else if f.effect.FailLate? { NewLimitOnly(c, s, s', q); }
      if f.effect.Done? && f.save.Crash? { OldFile(c, s, s', q); }
    } else {
      hide Inv, Resize, Find, InStep, Grants;
    }
  }

  // The limit set and memory with it; the file too, or as it was.
  lemma NewSize(c: Config, s: State, s': State, q: ResizeReq, saved: bool)
    requires InStep(c, s, q.key) && Standing(c, s.disk, s.vols, q.key) && q.quota != Find(s.vols, q.key).value.quota
    requires s'.disk == s.disk.(limits := s.disk.limits[(q.key.parent, s.disk.entries[q.key].id) := q.quota])
    requires Find(s'.vols, q.key) == Some(Find(s.vols, q.key).value.(quota := q.quota)) && s'.file == if saved then s'.vols else s.file
    ensures InStep(c, s', q.key) <==> saved || !Standing(c, s.disk, s.file, q.key)
  {
    hide Find;
  }

  lemma NewLimitOnly(c: Config, s: State, s': State, q: ResizeReq)
    requires InStep(c, s, q.key) && Standing(c, s.disk, s.vols, q.key) && q.quota != Find(s.vols, q.key).value.quota
    requires s'.disk == s.disk.(limits := s.disk.limits[(q.key.parent, s.disk.entries[q.key].id) := q.quota])
    requires s'.vols == s.vols
    ensures !InStep(c, s', q.key)
  {
    hide Find;
  }

  lemma OldFile(c: Config, s: State, s': State, q: ResizeReq)
    requires InStep(c, s, q.key) && Standing(c, s.disk, s.vols, q.key) && q.quota != Find(s.vols, q.key).value.quota
    requires s'.disk == s.disk.(limits := s.disk.limits[(q.key.parent, s.disk.entries[q.key].id) := q.quota])
    requires s'.file == s.file
    ensures InStep(c, Restart(s'), q.key) <==> !Standing(c, s.disk, s.file, q.key)
  {
    hide Find;
  }

  lemma ResizeDies(c: Config, s: State, q: ResizeReq, f: ChangeFaults)
    requires ValidConfig(c) && Inv(c, s)
    ensures Grants(c, s, q, f) ==> (Resize(c, s, q, f).1.Killed? <==> f.effect.Crash? || (f.effect.Done? && f.save.Crash?))
  {
    hide Inv, Update, Find;
    if Grants(c, s, q, f) { StandingIsOurs(c, s, q.key); }
  }

  lemma SnapshotInStep(c: Config, s: State, k: Key, name: string, f: ChangeFaults)
    requires InStep(c, s, k)
    ensures InStep(c, Next(c, s, OpSnapshot(k, name, f)), k)
  {
    hide Update, Find, Owned, BadTarget, ValidName;
    if Recorded(c, s, k, f.check).Ok? {
      var r := Recorded(c, s, k, f.check).value;
      FindAfterUpdate(s.vols, r.(snapshots := r.snapshots + [name]), k);
    }
  }

  // What a removal leaves of a subvolume and of its limit.
  lemma SubvolumeLimits(p: Parent, s: State, r: Record, snaps: seq<string>, f: DeleteFaults)
    requires p.kind.Subvolume?
    ensures var (s1, v) := RemoveSubvolume(p, s, r, snaps, f);
      var far := RemoveSnapshots(s, r, snaps, f).1.Okay?;
      && s1.vols == s.vols && s1.file == s.file
      && s1.disk.entries == (if far && f.seen.Done? && r.key in s.disk.entries && Happens(f.dir) then s.disk.entries - {r.key} else s.disk.entries)
      && (r.key in s1.disk.entries && far && (f.seen.Fail? || f.seen.FailLate?) ==>
            && s1.disk.limits == (if r.subvolID != 0 && Happens(f.unlimit) then s.disk.limits - {(r.key.parent, r.subvolID)} else s.disk.limits)
            && (v.Okay? <==> r.subvolID == 0 || !f.unlimit.Crash?))
      && (r.key in s1.disk.entries && !(far && (f.seen.Fail? || f.seen.FailLate?)) ==> s1.disk.limits == s.disk.limits && !v.Okay?)
  {
    hide RemoveSnapshots;
    SnapshotsShape(s, r, snaps, f);
  }

  lemma ProjectLimits(p: Parent, s: State, r: Record, f: DeleteFaults)
    ensures var (s1, v) := RemoveProject(p, s, r, f);
      && s1.vols == s.vols && s1.file == s.file
      && (r.key in s1.disk.entries ==>
            && !v.Okay? && s1.disk.limits == s.disk.limits && r.key in s.disk.entries
            && (s1.disk.entries[r.key].Dir? <==> s.disk.entries[r.key].Dir?)
            && (s.disk.entries[r.key].Dir? ==> s1.disk.entries[r.key].id == s.disk.entries[r.key].id))
  {
  }

  // What a delete comes to for what the file says: the entry, the limit, the lists.
  lemma ProjectInStep(c: Config, s: State, r: Record, snaps: seq<string>, f: DeleteFaults, deleted: bool)
    requires InStep(c, s, r.key) && r.key.parent in c.parents && c.parents[r.key.parent].kind.Project?
    ensures var s' := Destroy(c.parents[r.key.parent], s, r, snaps, f, deleted).0; InStep(c, s', r.key)
  {
    hide Find, Remove, RemoveProject;
    FindAfterRemove(s.vols, r.key, r.key);
    ProjectLimits(c.parents[r.key.parent], s, r, f);
  }

  lemma SeenInStep(c: Config, s: State, r: Record, snaps: seq<string>, f: DeleteFaults, deleted: bool)
    requires InStep(c, s, r.key) && r.key.parent in c.parents && c.parents[r.key.parent].kind.Subvolume?
    requires !(RemoveSnapshots(s, r, snaps, f).1.Okay? && (f.seen.Fail? || f.seen.FailLate?) && r.key in s.disk.entries)
    ensures var s' := Destroy(c.parents[r.key.parent], s, r, snaps, f, deleted).0; InStep(c, s', r.key)
  {
    hide Find, Remove, RemoveSubvolume, RemoveSnapshots;
    FindAfterRemove(s.vols, r.key, r.key);
    SubvolumeLimits(c.parents[r.key.parent], s, r, snaps, f);
  }

  lemma BlindInStep(c: Config, s: State, r: Record, snaps: seq<string>, f: DeleteFaults, deleted: bool)
    requires InStep(c, s, r.key) && r.key.parent in c.parents && c.parents[r.key.parent].kind.Subvolume? && Find(s.vols, r.key) == Some(r)
    requires RemoveSnapshots(s, r, snaps, f).1.Okay? && (f.seen.Fail? || f.seen.FailLate?) && r.key in s.disk.entries
    requires s.disk.entries[r.key].Dir? && s.disk.entries[r.key].id != 0 && (r.subvolID != 0 ==> s.disk.entries[r.key].id == r.subvolID)
    requires r.subvolID == 0 ==> r.pending
    ensures var (s', a) := Destroy(c.parents[r.key.parent], s, r, snaps, f, deleted);
      InStep(c, if a.Killed? then Restart(s') else s', r.key) <==>
        !(Standing(c, s.disk, s.file, r.key) && s.disk.entries[r.key].id == r.subvolID && Happens(f.unlimit) && !Happens(f.save))
  {
    hide Find, Remove, RemoveSubvolume, RemoveSnapshots;
    FindAfterRemove(s.vols, r.key, r.key);
    SubvolumeLimits(c.parents[r.key.parent], s, r, snaps, f);
  }

  lemma DeleteInStep(c: Config, s: State, k: Key, destroyData: bool, f: DeleteFaults)
    requires ValidConfig(c) && Inv(c, s) && InStep(c, s, k)
    ensures InStep(c, Next(c, s, OpDelete(k, destroyData, f)), k) <==> !Forgets(c, s, k, destroyData, f)
  {
    hide Inv, Destroy, InStep, RemoveSnapshots, Standing;
    RestartInStep(c, s, k);
    if !BadTarget(c, k) && Find(s.vols, k).Some? {
      var p, r := c.parents[k.parent], Find(s.vols, k).value;
      var there := k in s.disk.entries;
      var snaps := if there then r.snapshots else [];
      SnapshotsAllGo(s, r, snaps, f);
      var s' := Destroy(p, s, r, snaps, f, there).0;
      if p.kind.Project? {
        ProjectInStep(c, s, r, snaps, f, there);
        RestartInStep(c, s', k);
      } else if !there || !RemoveSnapshots(s, r, snaps, f).1.Okay? || !(f.seen.Fail? || f.seen.FailLate?) {
        SeenInStep(c, s, r, snaps, f, there);
        RestartInStep(c, s', k);
      } else if Owned(p, s.disk, r).Ours? {
        BlindInStep(c, s, r, snaps, f, there);
      }
      if p.kind.Subvolume? { StandsAsOurs(c, s, k); }
    }
    if Standing(c, s.disk, s.file, k) { FileStands(c, s, k); }
  }

  // What the file says stands there is what memory's record owns, when that has its id.
  lemma StandsAsOurs(c: Config, s: State, k: Key)
    requires !BadTarget(c, k) && c.parents[k.parent].kind.Subvolume? && Find(s.vols, k).Some?
    ensures Standing(c, s.disk, s.file, k) && s.disk.entries[k].id == Find(s.vols, k).value.subvolID ==>
      Owned(c.parents[k.parent], s.disk, Find(s.vols, k).value).Ours?
    ensures Standing(c, s.disk, s.file, k) ==> k in s.disk.entries
  {
    hide Find;
  }

  lemma FileStands(c: Config, s: State, k: Key)
    requires Standing(c, s.disk, s.file, k)
    ensures !BadTarget(c, k) && k in s.disk.entries
  {
  }

  /********** Every call, and every run **********/

  // Through every call, whatever fails or dies in it, the limit of a finished
  // volume stays the size memory and the file record, exactly unless a resize set
  // it and its record or save did not follow, or a delete lifted it from a
  // subvolume it failed to look for and the save did not follow.
  lemma StaysInStep(c: Config, s: State, op: Op, k: Key)
    requires ValidConfig(c) && Inv(c, s) && InStep(c, s, k)
    ensures InStep(c, Next(c, s, op), k) <==> !Slips(c, s, op, k)
  {
    if !Targets(op, k) {
      FrameInStep(c, s, op, k);
      hide Perform, Inv, InStep, Slips;
      RestartInStep(c, Perform(c, s, op).0, k);
      NoSlip(c, s, op, k);
    } else {
      hide Inv, InStep, Outruns, Forgets, Next;
      match op
      case OpCreate(q, f) => CreateInStep(c, s, q, f);
      case OpDelete(_, dd, f) => DeleteInStep(c, s, k, dd, f);
      case OpResize(q, f) => ResizeInStep(c, s, q, f);
      case OpSnapshot(_, name, f) => SnapshotInStep(c, s, k, name, f);
    }
  }

  lemma NoSlip(c: Config, s: State, op: Op, k: Key)
    requires !Targets(op, k)
    ensures !Slips(c, s, op, k)
  {
  }

  ghost predicate NeverSlips(c: Config, s0: State, ops: seq<Op>, k: Key) {
    forall i :: 0 <= i < |ops| ==> !Slips(c, Exec(c, s0, ops[..i]), ops[i], k)
  }

  lemma {:induction false} RunInStep(c: Config, s0: State, ops: seq<Op>, k: Key)
    requires ValidConfig(c) && Initial(c, s0) && NeverSlips(c, s0, ops, k)
    ensures InStep(c, Exec(c, s0, ops), k)
    decreases |ops|
  {
    hide Next, Inv, Slips;
    if ops != [] {
      var before := ops[..|ops| - 1];
      forall i | 0 <= i < |before| ensures !Slips(c, Exec(c, s0, before[..i]), before[i], k) {
        assert ops[..i] == before[..i];
      }
      RunInStep(c, s0, before, k);
      RunKeeps(c, s0, before);
      StaysInStep(c, Exec(c, s0, before), ops[|ops| - 1], k);
    }
  }

  // So over every run without such a call on this volume, whatever befell others,
  // the limit on what stands at a finished volume's place is the size recorded.
  lemma LimitIsSize(c: Config, s0: State, ops: seq<Op>, k: Key)
    requires ValidConfig(c) && Initial(c, s0) && NeverSlips(c, s0, ops, k)
    requires var s := Exec(c, s0, ops); Standing(c, s.disk, s.vols, k)
    ensures var s := Exec(c, s0, ops);
      var x := (k.parent, s.disk.entries[k].id);
      x in s.disk.limits && s.disk.limits[x] == Find(s.vols, k).value.quota
  {
    hide Exec, NeverSlips;
    RunInStep(c, s0, ops, k);
  }

  function ResizedOps(name: string): (ops: seq<Op>) {
    [CreateIn(name), OpResize(ResizeReq(Key("pool", name), 9, Some(0), None), ChangeFaults(Done, FailLate, Done))]
  }

  // A limit that was set and reported an error: the volume may hold 9, and 7 is on record.
  lemma ResizedRun(name: string)
    requires ValidName(name)
    ensures var s := Exec(ONE_POOL, NOTHING, ResizedOps(name));
      var k := Key("pool", name);
      && Standing(ONE_POOL, s.disk, s.vols, k) && Find(s.vols, k).value.quota == 7 && s.file == s.vols
      && ("pool", 1) in s.disk.limits && s.disk.limits[("pool", 1)] == 9 && s.disk.entries[k].id == 1
  {
    hide Create, Delete, Snapshot, Update;
    MadeReached(name);
    var ops := ResizedOps(name);
    assert ops[..1] == [CreateIn(name)];
    assert Exec(ONE_POOL, NOTHING, ops) == Next(ONE_POOL, MadeIn(name), ops[1]);
    hide Exec;
  }

  /********** What a creation leaves **********/

  lemma WholeLeaves(p: Parent, s: State, r: Record, f: CreateFaults)
    ensures var (s1, r1, v) := Build(p, s, r, f);
      v.Whole? ==>
        && r1 == r.(subvolID := r1.subvolID)
        && r.key in s1.disk.entries && s1.disk.entries[r.key].Dir? && s1.disk.entries[r.key].group
        && (r.key.parent, LimitID(p, r1)) in s1.disk.limits && s1.disk.limits[(r.key.parent, LimitID(p, r1))] == r.quota
  {
    hide Update, Find;
  }

  // The volume is there, its own, the group's, limited to the size, and recorded
  // in memory and in the file.
  ghost predicate MadeOf(c: Config, s: State, k: Key, quota: nat) {
    && Standing(c, s.disk, s.vols, k) && s.disk.entries[k].group && Find(s.vols, k).value.quota == quota && s.file == s.vols
    && (k.parent, s.disk.entries[k].id) in s.disk.limits && s.disk.limits[(k.parent, s.disk.entries[k].id)] == quota
  }

  lemma FinishMade(c: Config, s: State, r: Record, f: CreateFaults)
    requires ValidConfig(c) && Working(c, s, r) && Find(s.vols, r.key) == Some(r) && r.pending && !BadTarget(c, r.key)
    ensures var (s', a) := Finish(c.parents[r.key.parent], s, r, f);
      && (a.Made? ==> a.created && MadeOf(c, s', r.key, r.quota))
  {
    hide Build, Update, Remove, Find, Inv;
    var p := c.parents[r.key.parent];
    var (s1, r1, v) := Build(p, s, r, f);
    WholeLeaves(p, s, r, f);
    WholeIsMarked(c, s, r, f);
    IDsAreSome(c, s, r, f);
    FindAfterUpdate(s1.vols, r1.(pending := false), r.key);
  }

  lemma IDsAreSome(c: Config, s: State, r: Record, f: CreateFaults)
    requires ValidConfig(c) && Working(c, s, r)
    ensures var (s1, r1, v) := Build(c.parents[r.key.parent], s, r, f); v.Whole? ==> LimitID(c.parents[r.key.parent], r1) != 0
  {
    hide Update, Find;
  }

  // A creation answered with success leaves the volume so; one that made nothing,
  // because it was, leaves everything as it was.
  lemma MadeLeaves(c: Config, s: State, q: CreateReq, f: CreateFaults)
    requires ValidConfig(c) && Inv(c, s)
    ensures var (s', a) := Create(c, s, q, f);
      && (a == Made(true) ==> MadeOf(c, s', q.key, q.quota) && (Find(s.vols, q.key).None? || Find(s.vols, q.key).value.pending))
      && (a == Made(false) ==> s' == s && Standing(c, s.disk, s.vols, q.key) && Find(s.vols, q.key).value.quota == q.quota)
  {
    hide Inv, Begin, Finish, MadeOf;
    if !BadTarget(c, q.key) && BadQuota(c, q.quota).None? {
      var p := c.parents[q.key.parent];
      match Find(s.vols, q.key)
      case Some(r) =>
        WorkingOn(c, s, r);
        if r.pending { FinishMade(c, s, r, f); } else { StandingIsOurs(c, s, q.key); }
      case None =>
        var r := NewRecord(p, s, q);
        BeginShape(c, s, q, f);
        BeginMade(c, s, q, f);
    }
  }

  lemma BeginMade(c: Config, s: State, q: CreateReq, f: CreateFaults)
    requires ValidConfig(c) && Inv(c, s) && !BadTarget(c, q.key) && q.quota > 0 && Find(s.vols, q.key).None?
    ensures var (s', a) := Begin(c.parents[q.key.parent], s, q, f); a.Made? ==> a.created && MadeOf(c, s', q.key, q.quota)
  {
    hide Inv, Finish, Find, MadeOf;
    var p := c.parents[q.key.parent];
    var r := NewRecord(p, s, q);
    BeginShape(c, s, q, f);
    FindAfterAppend(s.vols, r, q.key);
    if Admits(p, s, q, f) && f.savePending.Done? {
      PendingSaved(c, s, q);
      FinishMade(c, s.(vols := s.vols + [r], file := s.vols + [r]), r, f);
    }
  }
}
