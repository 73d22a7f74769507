/** A root given to the group is limited, volume by volume: only one thing ever
    lifts the limit of a volume that stands, and only that volume's. */
module ProvisionLimits {
  import opened Wrappers
  import opened Provision
  import opened ProvisionSafety

  // If the volume's root is the group's, its id has a limit.
  predicate Limited(c: Config, d: Disk, k: Key) {
    IsShared(c, d, k) ==> (k.parent, d.entries[k].id) in d.limits
  }

  /********** CreateVolume: the limit before the group **********/

  // A directory the group has is marked already: marking it again changes nothing.
  lemma TagLimited(c: Config, s: State, r: Record, o: Outcome, k: Key)
    requires ValidConfig(c) && Working(c, s, r) && Owned(c.parents[r.key.parent], s.disk, r).Ours? && Limited(c, s.disk, k)
    ensures Limited(c, TagStep(c.parents[r.key.parent], s, r, o).0.disk, k)
  {
    if c.parents[r.key.parent].kind.Project? && IsShared(c, s.disk, r.key) { assert IsTagged(c, s.disk, r.key); }
  }

  lemma GiveLimited(c: Config, s: State, r: Record, f: CreateFaults, k: Key)
    requires r.key.parent in c.parents && Marked(c, s.disk, r) && Limited(c, s.disk, k)
    ensures var s3 := LimitStep(c.parents[r.key.parent], s, r, r.quota, f.limit);
      Limited(c, s3.disk, k) && (f.limit.Done? ==> Limited(c, GroupStep(s3, r.key, f.group).disk, k))
  {
  }

  lemma BuildLimited(c: Config, s: State, r: Record, f: CreateFaults, k: Key)
    requires ValidConfig(c) && Working(c, s, r) && Limited(c, s.disk, k)
    ensures Limited(c, Build(c.parents[r.key.parent], s, r, f).0.disk, k)
  {
    hide Inv, RecordOk, Marked, Limited, TagStep, LimitStep, GroupStep;
    var p := c.parents[r.key.parent];
    var (s1, v1) := MakeStep(p, s, r.key, f.make);
    MadeLimited(c, s, r.key, f.make, k);
    MakeKeeps(c, s, r, f.make);
    if v1.Okay? && f.check.Done? && Owned(p, s1.disk, r).Ours? {
      var (s2, r2) := TagStep(p, s1, r, f.tag);
      TagKeeps(c, s1, r, f.tag);
      TagLimited(c, s1, r, f.tag, k);
      if f.tag.Done? { GiveLimited(c, s2, r2, f, k); }
    }
  }

  lemma MadeLimited(c: Config, s: State, key: Key, o: Outcome, k: Key)
    requires key.parent in c.parents && Limited(c, s.disk, k)
    ensures Limited(c, MakeStep(c.parents[key.parent], s, key, o).0.disk, k)
  {
  }

  lemma FinishLimited(c: Config, s: State, r: Record, f: CreateFaults, k: Key)
    requires ValidConfig(c) && Working(c, s, r) && Limited(c, s.disk, k)
    ensures Limited(c, Finish(c.parents[r.key.parent], s, r, f).0.disk, k)
  {
    hide Build, Limited, Inv;
    BuildLimited(c, s, r, f, k);
  }

  lemma CreateLimited(c: Config, s: State, q: CreateReq, f: CreateFaults, k: Key)
    requires ValidConfig(c) && Inv(c, s) && Limited(c, s.disk, k)
    ensures Limited(c, Create(c, s, q, f).0.disk, k)
  {
    hide Inv, Working, Finish, Begin, Limited;
    if !BadTarget(c, q.key) && BadQuota(c, q.quota).None? {
      match Find(s.vols, q.key)
      case Some(r) => if r.pending { WorkingOn(c, s, r); FinishLimited(c, s, r, f, k); }
      case None =>
        var p := c.parents[q.key.parent];
        var r := NewRecord(p, s, q);
        BeginShape(c, s, q, f);
        if Admits(p, s, q, f) && f.savePending.Done? {
          PendingSaved(c, s, q);
          FinishLimited(c, s.(vols := s.vols + [r], file := s.vols + [r]), r, f, k);
        }
    }
  }

  /********** DeleteVolume: the limit after the volume **********/

  // Another volume's limit is another id's.
  lemma OthersKeepLimit(c: Config, s: State, r: Record, o: Outcome, k: Key)
    requires ValidConfig(c) && Working(c, s, r) && Limited(c, s.disk, k)
    requires k == r.key ==> !IsShared(c, s.disk, k) || s.disk.entries[k].id != LimitID(c.parents[r.key.parent], r) || !Happens(o)
    ensures Limited(c, UnlimitStep(c.parents[r.key.parent], s, r, o).disk, k)
  {
    if IsShared(c, s.disk, k) && k != r.key && k.parent == r.key.parent {
      assert IsTagged(c, s.disk, k) || IsSubvol(c, s.disk, k);
      if IsTagged(c, s.disk, k) { TaggedApart(c, s, r, k); }
    }
  }

  lemma TaggedApart(c: Config, s: State, r: Record, k: Key)
    requires ValidConfig(c) && Working(c, s, r) && k != r.key && k.parent == r.key.parent && IsTagged(c, s.disk, k)
    ensures s.disk.entries[k].id != r.projectID
  {
    var n :| 0 <= n < |s.vols| && s.vols[n] == r;
    var i :| 0 <= i < |s.vols| && s.vols[i].key == k && s.vols[i].projectID == s.disk.entries[k].id;
    assert i != n;
  }

  lemma RemoveProjectLimited(c: Config, s: State, r: Record, f: DeleteFaults, k: Key)
    requires ValidConfig(c) && Working(c, s, r) && c.parents[r.key.parent].kind.Project? && Limited(c, s.disk, k)
    ensures Limited(c, RemoveProject(c.parents[r.key.parent], s, r, f).0.disk, k)
  {
    hide Inv, RecordOk;
    if r.key in s.disk.entries && s.disk.entries[r.key].Dir? {
      var e := s.disk.entries[r.key].(files := if Happens(f.tree) then {} else s.disk.entries[r.key].files * f.left);
      var s0 := s.(disk := s.disk.(entries := s.disk.entries[r.key := e]));
      EntryShrinks(c, s, s0.disk, r);
      var s1 := s0.(disk := s0.disk.(entries := s0.disk.entries - {r.key}));
      EntryShrinks(c, s0, s1.disk, r);
      assert Limited(c, s0.disk, k) && Limited(c, s1.disk, k);
      OthersKeepLimit(c, s1, r, f.unlimit, k);
    } else if r.key !in s.disk.entries {
      OthersKeepLimit(c, s, r, f.unlimit, k);
    }
  }

  // Looking for the subvolume failed, so it stays, and its limit goes: the one
  // way a volume given to the group is left without a limit.
  predicate Blind(c: Config, s: State, r: Record, snaps: seq<string>, f: DeleteFaults) {
    && r.key.parent in c.parents && c.parents[r.key.parent].kind.Subvolume? && RemoveSnapshots(s, r, snaps, f).1.Okay?
    && (f.seen.Fail? || f.seen.FailLate?) && IsShared(c, s.disk, r.key) && s.disk.entries[r.key].id == r.subvolID && r.subvolID != 0
    && Happens(f.unlimit)
  }

  lemma RemoveSubvolumeLimited(c: Config, s: State, r: Record, snaps: seq<string>, f: DeleteFaults, k: Key)
    requires ValidConfig(c) && Working(c, s, r) && c.parents[r.key.parent].kind.Subvolume? && Limited(c, s.disk, k)
    ensures Limited(c, RemoveSubvolume(c.parents[r.key.parent], s, r, snaps, f).0.disk, k) <==> !(k == r.key && Blind(c, s, r, snaps, f))
  {
    hide Inv, RecordOk, RemoveSnapshots;
    var (s1, v) := RemoveSnapshots(s, r, snaps, f);
    RemoveSnapshotsKeeps(c, s, r, snaps, f);
    assert IsShared(c, s1.disk, k) <==> IsShared(c, s.disk, k);
    if v.Okay? && !f.seen.Crash? {
      var there := f.seen.Done? && r.key in s1.disk.entries;
      var s2 := if there && Happens(f.dir) then s1.(disk := s1.disk.(entries := s1.disk.entries - {r.key})) else s1;
      EntryShrinks(c, s1, s2.disk, r);
      assert s2 == s1.(disk := s2.disk) && Limited(c, s2.disk, k);
      if !(k == r.key && Blind(c, s, r, snaps, f)) && !(there && !f.dir.Done?) && r.subvolID != 0 {
        OthersKeepLimit(c, s2, r, f.unlimit, k);
      }
    }
  }

  lemma DestroyLimited(c: Config, s: State, r: Record, snaps: seq<string>, f: DeleteFaults, deleted: bool, k: Key)
    requires ValidConfig(c) && Working(c, s, r) && Limited(c, s.disk, k)
    ensures Limited(c, Destroy(c.parents[r.key.parent], s, r, snaps, f, deleted).0.disk, k) <==> !(k == r.key && Blind(c, s, r, snaps, f))
  {
    hide Inv, RecordOk, RemoveProject, RemoveSubvolume, Limited;
    if c.parents[r.key.parent].kind.Project? { RemoveProjectLimited(c, s, r, f, k); }
    else { RemoveSubvolumeLimited(c, s, r, snaps, f, k); }
  }

  // The call is a delete that reaches its blind spot.
  predicate BlindDelete(c: Config, s: State, k: Key, destroyData: bool, f: DeleteFaults) {
    !BadTarget(c, k) &&
    match Find(s.vols, k)
    case None => false
    case Some(r) =>
      && f.check.Done? && Owned(c.parents[k.parent], s.disk, r).Ours? && Blind(c, s, r, r.snapshots, f)
      && (destroyData || (r.snapshots == [] && f.empty.Done? && s.disk.entries[k].files == {}))
  }

  // A delete leaves a volume limited that was, exactly unless it is that
  // volume's own and blind.
  lemma DeleteLimited(c: Config, s: State, key: Key, destroyData: bool, f: DeleteFaults, k: Key)
    requires ValidConfig(c) && Inv(c, s) && Limited(c, s.disk, k)
    ensures Limited(c, Delete(c, s, key, destroyData, f).0.disk, k) <==> !(k == key && BlindDelete(c, s, key, destroyData, f))
  {
    hide Inv, Working, Destroy, Limited;
    if !BadTarget(c, key) && Find(s.vols, key).Some? {
      var r := Find(s.vols, key).value;
      WorkingOn(c, s, r);
      DestroyLimited(c, s, r, r.snapshots, f, true, k);
      if r.key !in s.disk.entries { DestroyLimited(c, s, r, [], f, false, k); }
    }
  }

  /********** Every call, and every run **********/

  predicate BlindAt(c: Config, s: State, op: Op, k: Key) {
    op.OpDelete? && op.key == k && BlindDelete(c, s, k, op.destroyData, op.deleteFaults)
  }

  // Whatever is called, with whatever faults, a limited volume stays limited
  // exactly unless a blind delete strikes that very volume.
  lemma StaysLimited(c: Config, s: State, op: Op, k: Key)
    requires ValidConfig(c) && Inv(c, s) && Limited(c, s.disk, k)
    ensures Limited(c, Next(c, s, op).disk, k) <==> !BlindAt(c, s, op, k)
  {
    hide Inv, Limited, Create, Delete;
    match op
    case OpCreate(q, f) => CreateLimited(c, s, q, f, k);
    case OpDelete(key, dd, f) => DeleteLimited(c, s, key, dd, f, k);
    case OpResize(q, f) => ResizeLimited(c, s, q, f, k);
    case OpSnapshot(key, name, f) => SnapshotLimited(c, s, key, name, f, k);
    case OpRestart =>
  }

  lemma ResizeLimited(c: Config, s: State, q: ResizeReq, f: ChangeFaults, k: Key)
    requires Limited(c, s.disk, k)
    ensures Limited(c, Resize(c, s, q, f).0.disk, k)
  {
  }

  lemma SnapshotLimited(c: Config, s: State, key: Key, name: string, f: ChangeFaults, k: Key)
    requires Limited(c, s.disk, k)
    ensures Limited(c, Snapshot(c, s, key, name, f).0.disk, k)
  {
  }

  ghost predicate NeverBlindAt(c: Config, s0: State, ops: seq<Op>, k: Key) {
    forall i :: 0 <= i < |ops| ==> !BlindAt(c, Exec(c, s0, ops[..i]), ops[i], k)
  }

  lemma {:induction false} RunLimited(c: Config, s0: State, ops: seq<Op>, k: Key)
    requires ValidConfig(c) && Initial(c, s0) && NeverBlindAt(c, s0, ops, k)
    ensures Limited(c, Exec(c, s0, ops).disk, k)
    decreases |ops|
  {
    hide Next, Inv, BlindAt;
    if ops != [] {
      var before := ops[..|ops| - 1];
      forall i | 0 <= i < |before| ensures !BlindAt(c, Exec(c, s0, before[..i]), before[i], k) {
        assert ops[..i] == before[..i];
      }
      RunLimited(c, s0, before, k);
      RunKeeps(c, s0, before);
      StaysLimited(c, Exec(c, s0, before), ops[|ops| - 1], k);
    }
  }

  // Over every run, whatever befalls other volumes, a root the group has is
  // limited, and not to nothing, unless a blind delete struck that very volume.
  lemma SharedRootsAreLimited(c: Config, s0: State, ops: seq<Op>, k: Key)
    requires ValidConfig(c) && Initial(c, s0) && NeverBlindAt(c, s0, ops, k) && IsShared(c, Exec(c, s0, ops).disk, k)
    ensures var d := Exec(c, s0, ops).disk; (k.parent, d.entries[k].id) in d.limits && d.limits[(k.parent, d.entries[k].id)] > 0
  {
    hide Exec, NeverBlindAt;
    RunKeeps(c, s0, ops);
    RunLimited(c, s0, ops, k);
  }
}
