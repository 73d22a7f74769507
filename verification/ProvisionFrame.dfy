/** A call on one volume leaves every other volume as it was. */
module ProvisionFrame {
  import opened Wrappers
  import opened Provision
  import opened ProvisionSafety

  // Of the volume k nothing changed: what is at its place, its snapshots, its
  // record in memory, and in the file at most what memory already had.
  ghost predicate SameAt(s: State, s': State, k: Key) {
    && (k in s'.disk.entries <==> k in s.disk.entries) && (k in s.disk.entries ==> s'.disk.entries[k] == s.disk.entries[k])
    && (k in s'.disk.snaps <==> k in s.disk.snaps) && (k in s.disk.snaps ==> s'.disk.snaps[k] == s.disk.snaps[k])
    && Find(s'.vols, k) == Find(s.vols, k)
    && (Find(s'.file, k) == Find(s.file, k) || Find(s'.file, k) == Find(s.vols, k))
  }

  lemma {:induction false} FindAfterAppend(vols: seq<Record>, r: Record, k: Key)
    ensures Find(vols + [r], k) == if Find(vols, k).Some? then Find(vols, k) else if r.key == k then Some(r) else None
  {
    if vols == [] {
      assert vols + [r] == [r];
      assert Find([r], k) == if r.key == k then Some(r) else Find([], k);
    } else {
      assert (vols + [r])[1..] == vols[1..] + [r];
      FindAfterAppend(vols[1..], r, k);
    }
  }

  lemma {:induction false} FindAfterRemove(vols: seq<Record>, j: Key, k: Key)
    ensures Find(Remove(vols, j), k) == if j == k then None else Find(vols, k)
  {
    if vols != [] {
      FindAfterRemove(vols[1..], j, k);
      var rest := Remove(vols[1..], j);
      if vols[0].key == j {
        assert Remove(vols, j) == rest;
      } else {
        assert Remove(vols, j) == [vols[0]] + rest && ([vols[0]] + rest)[1..] == rest;
      }
    }
  }

  lemma {:induction false} FindAfterUpdate(vols: seq<Record>, r: Record, k: Key)
    ensures Find(Update(vols, r), k) == if r.key == k && Find(vols, k).Some? then Some(r) else Find(vols, k)
  {
    if vols != [] {
      assert Update(vols, r)[1..] == Update(vols[1..], r);
      FindAfterUpdate(vols[1..], r, k);
    }
  }

  lemma SameTrans(a: State, b: State, d: State, k: Key)
    requires SameAt(a, b, k) && SameAt(b, d, k)
    ensures SameAt(a, d, k)
  {
  }

  // A list changed elsewhere, and perhaps saved.
  lemma SavedElsewhere(s: State, vols: seq<Record>, o: Outcome, k: Key)
    requires Find(vols, k) == Find(s.vols, k)
    ensures SameAt(s, SaveStep(s.(vols := vols), o), k)
  {
  }

  lemma StepsFrame(p: Parent, s: State, r: Record, o: Outcome, quota: nat, k: Key)
    requires r.key != k
    ensures SameAt(s, MakeStep(p, s, r.key, o).0, k)
    ensures SameAt(s, LimitStep(p, s, r, quota, o), k) && SameAt(s, UnlimitStep(p, s, r, o), k)
    ensures r.key in s.disk.entries && s.disk.entries[r.key].Dir? ==> SameAt(s, GroupStep(s, r.key, o), k)
  {
    hide Find;
  }

  lemma TagFrame(p: Parent, s: State, r: Record, o: Outcome, k: Key)
    requires r.key != k && r.key in s.disk.entries && s.disk.entries[r.key].Dir?
    ensures SameAt(s, TagStep(p, s, r, o).0, k) && TagStep(p, s, r, o).1.key == r.key
  {
    hide Find, Update;
    FindAfterUpdate(s.vols, TagStep(p, s, r, o).1, k);
  }

  lemma BuildFrame(p: Parent, s: State, r: Record, f: CreateFaults, k: Key)
    requires r.key != k
    ensures var (s1, r1, v) := Build(p, s, r, f); SameAt(s, s1, k) && r1.key == r.key
  {
    hide SameAt, MakeStep, TagStep, LimitStep, GroupStep;
    var (s1, v1) := MakeStep(p, s, r.key, f.make);
    StepsFrame(p, s, r, f.make, 0, k);
    if v1.Okay? && f.check.Done? && Owned(p, s1.disk, r).Ours? {
      var (s2, r2) := TagStep(p, s1, r, f.tag);
      TagFrame(p, s1, r, f.tag, k);
      SameTrans(s, s1, s2, k);
      if f.tag.Done? {
        var s3 := LimitStep(p, s2, r2, r2.quota, f.limit);
        StepsFrame(p, s2, r2, f.limit, r2.quota, k);
        SameTrans(s, s2, s3, k);
        if f.limit.Done? { GiveFrame(p, s, s1, r, f, k); }
      }
    }
  }

  lemma GiveFrame(p: Parent, s: State, s1: State, r: Record, f: CreateFaults, k: Key)
    requires r.key != k && r.key in s1.disk.entries && s1.disk.entries[r.key].Dir?
    requires var (s2, r2) := TagStep(p, s1, r, f.tag); SameAt(s, LimitStep(p, s2, r2, r2.quota, f.limit), k)
    ensures var (s2, r2) := TagStep(p, s1, r, f.tag);
      var s3 := LimitStep(p, s2, r2, r2.quota, f.limit);
      r.key in s3.disk.entries && s3.disk.entries[r.key].Dir? && SameAt(s, GroupStep(s3, r.key, f.group), k)
  {
    hide SameAt, Find, Update;
    var (s2, r2) := TagStep(p, s1, r, f.tag);
    var s3 := LimitStep(p, s2, r2, r2.quota, f.limit);
    StepsFrame(p, s3, r, f.group, 0, k);
    SameTrans(s, s3, GroupStep(s3, r.key, f.group), k);
  }

  // A record of another volume rewritten, or dropped, and perhaps saved.
  lemma ListFrame(s: State, r: Record, o: Outcome, k: Key)
    requires r.key != k
    ensures SameAt(s, SaveStep(s.(vols := Update(s.vols, r)), o), k)
    ensures SameAt(s, SaveStep(s.(vols := Remove(s.vols, r.key)), o), k)
  {
    hide Find, Update, Remove, SaveStep;
    FindAfterUpdate(s.vols, r, k);
    FindAfterRemove(s.vols, r.key, k);
    SavedElsewhere(s, Update(s.vols, r), o, k);
    SavedElsewhere(s, Remove(s.vols, r.key), o, k);
  }

  lemma FinishFrame(p: Parent, s: State, r: Record, f: CreateFaults, k: Key)
    requires r.key != k
    ensures SameAt(s, Finish(p, s, r, f).0, k)
  {
    hide Build, SaveStep, SameAt, Update, Remove;
    var (s1, r1, v) := Build(p, s, r, f);
    BuildFrame(p, s, r, f, k);
    ListFrame(s1, r1.(pending := false), f.saveDone, k);
    ListFrame(s1, r1, f.saveDrop, k);
    var s2 := SaveStep(s1.(vols := Update(s1.vols, r1.(pending := false))), f.saveDone);
    var s3 := SaveStep(s1.(vols := Remove(s1.vols, r1.key)), f.saveDrop);
    SameTrans(s, s1, s2, k);
    SameTrans(s, s1, s3, k);
  }

  lemma CreateFrame(c: Config, s: State, q: CreateReq, f: CreateFaults, k: Key)
    requires q.key != k
    ensures SameAt(s, Create(c, s, q, f).0, k)
  {
    hide Begin, Finish;
    if !BadTarget(c, q.key) && BadQuota(c, q.quota).None? {
      var p := c.parents[q.key.parent];
      match Find(s.vols, q.key)
      case Some(r) => FinishFrame(p, s, r, f, k);
      case None =>
        var r := NewRecord(p, s, q);
        BeginShape(c, s, q, f);
        FindAfterAppend(s.vols, r, k);
        var both := s.(vols := s.vols + [r], file := s.vols + [r]);
        FinishFrame(p, both, r, f, k);
        assert SameAt(s, both, k);
        if Admits(p, s, q, f) && f.savePending.Done? { SameTrans(s, both, Finish(p, both, r, f).0, k); }
    }
  }

  lemma RemoveProjectFrame(p: Parent, s: State, r: Record, f: DeleteFaults, k: Key)
    requires r.key != k
    ensures SameAt(s, RemoveProject(p, s, r, f).0, k)
  {
    hide Find;
  }

  lemma RemoveSnapshotsFrame(s: State, r: Record, snaps: seq<string>, f: DeleteFaults, k: Key)
    requires r.key != k
    ensures SameAt(s, RemoveSnapshots(s, r, snaps, f).0, k)
  {
    hide Find, Names;
  }

  lemma EntryGone(s: State, j: Key, k: Key)
    requires j != k
    ensures SameAt(s, s.(disk := s.disk.(entries := s.disk.entries - {j})), k)
  {
    hide Find;
  }

  lemma RemoveSubvolumeFrame(p: Parent, s: State, r: Record, snaps: seq<string>, f: DeleteFaults, k: Key)
    requires r.key != k
    ensures SameAt(s, RemoveSubvolume(p, s, r, snaps, f).0, k)
  {
    hide SameAt, RemoveSnapshots, UnlimitStep;
    var (s1, v) := RemoveSnapshots(s, r, snaps, f);
    RemoveSnapshotsFrame(s, r, snaps, f, k);
    var s2 := s1.(disk := s1.disk.(entries := s1.disk.entries - {r.key}));
    EntryGone(s1, r.key, k);
    SameTrans(s, s1, s2, k);
    StepsFrame(p, s1, r, f.unlimit, 0, k);
    SameTrans(s, s1, UnlimitStep(p, s1, r, f.unlimit), k);
    StepsFrame(p, s2, r, f.unlimit, 0, k);
    SameTrans(s, s2, UnlimitStep(p, s2, r, f.unlimit), k);
  }

  lemma DestroyFrame(p: Parent, s: State, r: Record, snaps: seq<string>, f: DeleteFaults, deleted: bool, k: Key)
    requires r.key != k
    ensures SameAt(s, Destroy(p, s, r, snaps, f, deleted).0, k)
  {
    hide RemoveProject, RemoveSubvolume, SaveStep, SameAt, Remove;
    var s1 := if p.kind.Project? then RemoveProject(p, s, r, f).0 else RemoveSubvolume(p, s, r, snaps, f).0;
    RemoveProjectFrame(p, s, r, f, k);
    RemoveSubvolumeFrame(p, s, r, snaps, f, k);
    ListFrame(s1, r, f.save, k);
    SameTrans(s, s1, SaveStep(s1.(vols := Remove(s1.vols, r.key)), f.save), k);
  }

  lemma DeleteFrame(c: Config, s: State, j: Key, destroyData: bool, f: DeleteFaults, k: Key)
    requires j != k
    ensures SameAt(s, Delete(c, s, j, destroyData, f).0, k)
  {
    hide Destroy;
    if !BadTarget(c, j) && Find(s.vols, j).Some? {
      var p, r := c.parents[j.parent], Find(s.vols, j).value;
      DestroyFrame(p, s, r, r.snapshots, f, true, k);
      DestroyFrame(p, s, r, [], f, false, k);
    }
  }

  // A limit set, and the record rewritten and perhaps saved.
  lemma ResizedFrame(p: Parent, s: State, r: Record, quota: nat, f: ChangeFaults, k: Key)
    requires r.key != k
    ensures var s1 := LimitStep(p, s, r, quota, f.effect);
      SameAt(s, s1, k) && SameAt(s, SaveStep(s1.(vols := Update(s1.vols, r.(quota := quota))), f.save), k)
  {
    hide SameAt, SaveStep, LimitStep, Update;
    var s1 := LimitStep(p, s, r, quota, f.effect);
    StepsFrame(p, s, r, f.effect, quota, k);
    ListFrame(s1, r.(quota := quota), f.save, k);
    SameTrans(s, s1, SaveStep(s1.(vols := Update(s1.vols, r.(quota := quota))), f.save), k);
  }

  lemma SameSelf(s: State, k: Key)
    ensures SameAt(s, s, k)
  {
  }

  lemma ResizeFrame(c: Config, s: State, q: ResizeReq, f: ChangeFaults, k: Key)
    requires q.key != k
    ensures SameAt(s, Resize(c, s, q, f).0, k)
  {
    hide SaveStep, LimitStep, Update, Owned, SameAt, Find;
    SameSelf(s, k);
    var found := Recorded(c, s, q.key, f.check);
    if found.Ok? { ResizedFrame(c.parents[q.key.parent], s, found.value, q.quota, f, k); }
  }

  // The snapshots kept beside another volume changed.
  lemma SnapsFrame(s: State, j: Key, names: set<string>, r: Record, o: Outcome, k: Key)
    requires j != k && r.key != k
    ensures var s1 := s.(disk := s.disk.(snaps := s.disk.snaps[j := names]));
      SameAt(s, s1, k) && SameAt(s, SaveStep(s1.(vols := Update(s1.vols, r)), o), k)
  {
    hide Find, SaveStep, Update;
    var s1 := s.(disk := s.disk.(snaps := s.disk.snaps[j := names]));
    assert SameAt(s, s1, k);
    ListFrame(s1, r, o, k);
    SameTrans(s, s1, SaveStep(s1.(vols := Update(s1.vols, r)), o), k);
  }

  lemma SnapshotFrame(c: Config, s: State, j: Key, name: string, f: ChangeFaults, k: Key)
    requires j != k
    ensures SameAt(s, Snapshot(c, s, j, name, f).0, k)
  {
    hide SaveStep, Update, Owned, SameAt, Find;
    SameSelf(s, k);
    var found := Recorded(c, s, j, f.check);
    if found.Ok? {
      var r := found.value.(snapshots := found.value.snapshots + [name]);
      var have := if j in s.disk.snaps then s.disk.snaps[j] else {};
      SnapsFrame(s, j, have + {name}, r, f.save, k);
      ListFrame(s, r, f.save, k);
    }
  }

  predicate Targets(op: Op, k: Key) {
    match op
    case OpCreate(q, _) => q.key == k
    case OpDelete(key, _, _) => key == k
    case OpResize(q, _) => q.key == k
    case OpSnapshot(key, _, _) => key == k
    case OpRestart => false
  }

  // Whatever the call, and whatever becomes of it.
  lemma OthersUntouched(c: Config, s: State, op: Op, k: Key)
    requires !Targets(op, k)
    ensures SameAt(s, Perform(c, s, op).0, k)
  {
    hide Create, Delete, Resize, Snapshot;
    match op
    case OpCreate(q, f) => CreateFrame(c, s, q, f, k);
    case OpDelete(j, dd, f) => DeleteFrame(c, s, j, dd, f, k);
    case OpResize(q, f) => ResizeFrame(c, s, q, f, k);
    case OpSnapshot(j, name, f) => SnapshotFrame(c, s, j, name, f, k);
    case OpRestart =>
  }
}
