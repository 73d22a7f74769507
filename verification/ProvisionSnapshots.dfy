/** A volume can be deleted exactly while every snapshot kept beside it is
    recorded; and exactly the snapshots that were made and not written down
    break that. */
module ProvisionSnapshots {
  import opened Wrappers
  import opened Provision
  import opened ProvisionSafety
  import opened ProvisionFrame

  /********** When a delete can succeed **********/

  lemma NamesOfPrefix(snaps: seq<string>, n: nat)
    requires n <= |snaps|
    ensures Names(snaps[..n]) <= Names(snaps) && snaps[..|snaps|] == snaps
  {
    forall x | x in Names(snaps[..n]) ensures x in Names(snaps) {
      var i :| 0 <= i < n && snaps[..n][i] == x;
      assert snaps[i] == x;
    }
  }

  // What the removal of snapshots comes to.
  lemma SnapshotsShape(s: State, r: Record, snaps: seq<string>, f: DeleteFaults)
    ensures var (s1, v) := RemoveSnapshots(s, r, snaps, f);
      var k, next := r.key, s1.disk.snaps;
      && s1 == s.(disk := s.disk.(snaps := next)) && next - {k} == s.disk.snaps - {k}
      && (k in next ==> k in s.disk.snaps && next[k] <= s.disk.snaps[k])
      && (v.Okay? ==> k !in next && (k in s.disk.snaps ==> s.disk.snaps[k] <= Names(snaps)))
      && (f == CLEAN_DELETE && (k in s.disk.snaps ==> s.disk.snaps[k] <= Names(snaps)) ==> v.Okay?)
  {
    var k := r.key;
    var gone := if Happens(f.snaps) || f.cut >= |snaps| then snaps else snaps[..f.cut];
    NamesOfPrefix(snaps, |gone|);
    assert gone == snaps[..|gone|];
    if k in s.disk.snaps {
      var kept := s.disk.snaps[k] - Names(gone);
      assert s.disk.snaps[k := kept] - {k} == s.disk.snaps - {k};
      assert s.disk.snaps[k := kept] - {k} - {k} == s.disk.snaps - {k};
      if kept == {} {
        forall x | x in s.disk.snaps[k] ensures x in Names(gone) {
          assert x !in kept;
        }
      }
      assert s.disk.snaps[k] <= Names(gone) ==> kept == {};
    } else {
      assert s.disk.snaps - {k} == s.disk.snaps;
    }
  }

  // The volume is ours or absent, and every snapshot beside it is one a delete
  // knows of: a recorded one, or none when the volume itself is gone.
  predicate CanGo(c: Config, s: State, k: Key) {
    !BadTarget(c, k) &&
    match Find(s.vols, k)
    case None => false
    case Some(r) =>
      && !Owned(c.parents[k.parent], s.disk, r).NotOurs?
      && (c.parents[k.parent].kind.Subvolume? && k in s.disk.snaps ==>
            s.disk.snaps[k] <= if k in s.disk.entries then Names(r.snapshots) else {})
  }

  // A recorded volume is deleted by a clean delete exactly then; and no delete
  // of it, whatever fails, succeeds otherwise.
  lemma DeletesExactly(c: Config, s: State, k: Key, destroyData: bool, f: DeleteFaults)
    requires Find(s.vols, k).Some?
    ensures Delete(c, s, k, true, CLEAN_DELETE).1.Gone? <==> CanGo(c, s, k)
    ensures Delete(c, s, k, destroyData, f).1.Gone? ==> CanGo(c, s, k)
  {
    hide RemoveSnapshots;
    var r := Find(s.vols, k).value;
    assert Names([]) == {};
    SnapshotsShape(s, r, r.snapshots, CLEAN_DELETE);
    SnapshotsShape(s, r, [], CLEAN_DELETE);
    SnapshotsShape(s, r, r.snapshots, f);
    SnapshotsShape(s, r, [], f);
  }

  /********** What every call but one keeps **********/

  function SnapNames(list: seq<Record>, k: Key): set<string> {
    match Find(list, k) case None => {} case Some(r) => Names(r.snapshots)
  }

  function Beside(d: Disk, k: Key): set<string> {
    if k in d.snaps then d.snaps[k] else {}
  }

  // Every snapshot beside the volume is recorded, in memory and in the file; the
  // file records none that memory does not; and without the volume there is none.
  predicate Kept(s: State, k: Key) {
    && Beside(s.disk, k) <= SnapNames(s.vols, k) && KeptInFile(s, k)
    && (Find(s.vols, k).Some? ==> SnapNames(s.file, k) <= SnapNames(s.vols, k))
  }

  predicate KeptInFile(s: State, k: Key) {
    Beside(s.disk, k) <= SnapNames(s.file, k) && (k !in s.disk.entries ==> Beside(s.disk, k) == {})
  }

  // None at all: what a creation works beside.
  predicate Bare(s: State, k: Key) {
    Beside(s.disk, k) == SnapNames(s.vols, k) == SnapNames(s.file, k) == {}
  }

  lemma BuildBare(p: Parent, s: State, r: Record, f: CreateFaults)
    requires Bare(s, r.key) && r.snapshots == []
    ensures var (s1, r1, v) := Build(p, s, r, f); Bare(s1, r.key) && r1.snapshots == [] && r1.key == r.key
  {
    hide SnapNames, Update;
    BuildSnaps(p, s, r, f);
    BuildShape(p, s, r, f);
    var (s1, r1, v) := Build(p, s, r, f);
    RewrittenNames(s.vols, r1);
  }

  lemma RewrittenNames(vols: seq<Record>, r: Record)
    ensures SnapNames(Update(vols, r), r.key) == if Find(vols, r.key).Some? then Names(r.snapshots) else {}
    ensures r.snapshots == [] && SnapNames(vols, r.key) == {} ==> SnapNames(Update(vols, r), r.key) == {}
  {
    FindAfterUpdate(vols, r, r.key);
    assert Names([]) == {};
  }

  lemma BuildSnaps(p: Parent, s: State, r: Record, f: CreateFaults)
    ensures var (s1, r1, v) := Build(p, s, r, f); s1.disk.snaps == s.disk.snaps && r1.snapshots == r.snapshots && s1.file == s.file
  {
    hide Update, Owned;
  }

  lemma FinishBare(p: Parent, s: State, r: Record, f: CreateFaults)
    requires Bare(s, r.key) && r.snapshots == []
    ensures Bare(Finish(p, s, r, f).0, r.key)
  {
    hide Build, SnapNames, Update, Remove;
    var (s1, r1, v) := Build(p, s, r, f);
    BuildBare(p, s, r, f);
    RewrittenNames(s1.vols, r1.(pending := false));
    RemovedNames(s1.vols, r1.key);
  }

  lemma RemovedNames(vols: seq<Record>, k: Key)
    ensures SnapNames(Remove(vols, k), k) == {}
  {
    FindAfterRemove(vols, k, k);
  }

  lemma CreateKept(c: Config, s: State, q: CreateReq, f: CreateFaults)
    requires Inv(c, s) && Kept(s, q.key)
    ensures var (s', a) := Create(c, s, q, f); KeptInFile(s', q.key) && (!a.Killed? ==> Kept(s', q.key))
  {
    hide Inv, Begin, Finish;
    if !BadTarget(c, q.key) && BadQuota(c, q.quota).None? {
      var p := c.parents[q.key.parent];
      match Find(s.vols, q.key)
      case Some(r) =>
        if r.pending {
          PendingIsBare(c, s, r);
          FinishBare(p, s, r, f);
        }
      case None => BeginKept(c, s, q, f);
    }
  }

  lemma PendingIsBare(c: Config, s: State, r: Record)
    requires Inv(c, s) && Find(s.vols, r.key) == Some(r) && r.pending && Kept(s, r.key)
    ensures r.snapshots == [] && Bare(s, r.key)
  {
    WorkingOn(c, s, r);
    assert Names([]) == {};
  }

  lemma BeginKept(c: Config, s: State, q: CreateReq, f: CreateFaults)
    requires q.key.parent in c.parents && Find(s.vols, q.key).None? && Kept(s, q.key)
    ensures var (s', a) := Begin(c.parents[q.key.parent], s, q, f); KeptInFile(s', q.key) && (!a.Killed? ==> Kept(s', q.key))
  {
    hide Begin, Finish;
    var p := c.parents[q.key.parent];
    var r := NewRecord(p, s, q);
    var both := s.(vols := s.vols + [r], file := s.vols + [r]);
    BeginShape(c, s, q, f);
    FindAfterAppend(s.vols, r, q.key);
    assert Names([]) == {};
    assert Bare(both, r.key);
    FinishBare(p, both, r, f);
  }

  lemma DeleteKept(c: Config, s: State, k: Key, destroyData: bool, f: DeleteFaults)
    requires Inv(c, s) && Kept(s, k)
    ensures Kept(Delete(c, s, k, destroyData, f).0, k)
  {
    hide Inv, Destroy;
    if !BadTarget(c, k) && Find(s.vols, k).Some? {
      var r := Find(s.vols, k).value;
      DestroyKept(c, s, r, r.snapshots, f, true);
      DestroyKept(c, s, r, [], f, false);
    }
  }

  lemma DestroyKept(c: Config, s: State, r: Record, snaps: seq<string>, f: DeleteFaults, deleted: bool)
    requires Inv(c, s) && Kept(s, r.key) && Find(s.vols, r.key) == Some(r) && r.key.parent in c.parents
    ensures Kept(Destroy(c.parents[r.key.parent], s, r, snaps, f, deleted).0, r.key)
  {
    hide Inv, RemoveProject, RemoveSubvolume, SnapNames, Find, Remove;
    var p := c.parents[r.key.parent];
    var s1 := if p.kind.Project? then RemoveProject(p, s, r, f).0 else RemoveSubvolume(p, s, r, snaps, f).0;
    if p.kind.Project? { RemoveProjectKept(c, s, r, f); } else { RemoveSubvolumeKept(p, s, r, snaps, f); }
    RemovedNames(s1.vols, r.key);
    FindAfterRemove(s1.vols, r.key, r.key);
  }

  lemma ProjectIsBare(c: Config, s: State, r: Record)
    requires Inv(c, s) && Kept(s, r.key) && Find(s.vols, r.key) == Some(r) && r.key.parent in c.parents
    requires c.parents[r.key.parent].kind.Project?
    ensures Beside(s.disk, r.key) == {}
  {
    WorkingOn(c, s, r);
    assert Names([]) == {};
  }

  lemma RemoveProjectKept(c: Config, s: State, r: Record, f: DeleteFaults)
    requires Inv(c, s) && Kept(s, r.key) && Find(s.vols, r.key) == Some(r) && r.key.parent in c.parents
    requires c.parents[r.key.parent].kind.Project?
    ensures var (s1, v) := RemoveProject(c.parents[r.key.parent], s, r, f);
      s1.vols == s.vols && s1.file == s.file && Kept(s1, r.key) && Beside(s1.disk, r.key) == {}
  {
    hide Inv, RemoveProject, Names, Find;
    ProjectIsBare(c, s, r);
    RemoveProjectSnaps(c.parents[r.key.parent], s, r, f);
  }

  lemma RemoveProjectSnaps(p: Parent, s: State, r: Record, f: DeleteFaults)
    ensures var s1 := RemoveProject(p, s, r, f).0; s1.vols == s.vols && s1.file == s.file && s1.disk.snaps == s.disk.snaps
  {
  }

  lemma RemoveSubvolumeKept(p: Parent, s: State, r: Record, snaps: seq<string>, f: DeleteFaults)
    requires Kept(s, r.key)
    ensures var (s1, v) := RemoveSubvolume(p, s, r, snaps, f);
      s1.vols == s.vols && s1.file == s.file && Kept(s1, r.key) && (v.Okay? ==> Beside(s1.disk, r.key) == {})
  {
    hide RemoveSnapshots, SnapNames, Names;
    SnapshotsShape(s, r, snaps, f);
  }

  // A record rewritten with the same snapshots, and perhaps saved.
  lemma RewriteKept(s: State, r: Record, o: Outcome)
    requires Kept(s, r.key) && Find(s.vols, r.key).Some? && Names(r.snapshots) == SnapNames(s.vols, r.key)
    ensures Kept(SaveStep(s.(vols := Update(s.vols, r)), o), r.key)
  {
    hide Update, Names;
    FindAfterUpdate(s.vols, r, r.key);
  }

  lemma ResizeKept(c: Config, s: State, q: ResizeReq, f: ChangeFaults)
    requires Kept(s, q.key)
    ensures Kept(Resize(c, s, q, f).0, q.key)
  {
    hide Update, Owned, Names, SaveStep, Find;
    var found := Recorded(c, s, q.key, f.check);
    if found.Ok? {
      var s1 := LimitStep(c.parents[q.key.parent], s, found.value, q.quota, f.effect);
      RewriteKept(s1, found.value.(quota := q.quota), f.save);
    }
  }

  // A snapshot that is made, and not written down: its error comes late, or the
  // save after it does not happen.
  predicate Strays(c: Config, s: State, k: Key, name: string, f: ChangeFaults) {
    && ValidName(name) && Recorded(c, s, k, f.check).Ok? && c.parents[k.parent].kind.Subvolume?
    && name !in Recorded(c, s, k, f.check).value.snapshots && name !in Beside(s.disk, k)
    && Happens(f.effect) && !(f.effect.Done? && Happens(f.save))
  }

  // A snapshot that is made, with its record rewritten, and perhaps saved.
  lemma MadeKept(s: State, k: Key, r: Record, name: string, o: Outcome)
    requires Kept(s, k) && Find(s.vols, k) == Some(r) && r.key == k && k in s.disk.entries && name !in Names(r.snapshots)
    ensures var s1 := s.(disk := s.disk.(snaps := s.disk.snaps[k := Beside(s.disk, k) + {name}]));
      && !KeptInFile(s1, k)
      && var s2 := SaveStep(s1.(vols := Update(s.vols, r.(snapshots := r.snapshots + [name]))), o);
        if Happens(o) then Kept(s2, k) else !KeptInFile(s2, k)
  {
    hide Update, Names;
    FindAfterUpdate(s.vols, r.(snapshots := r.snapshots + [name]), k);
    NamesMore(r.snapshots, name);
    assert name in Beside(s.disk.(snaps := s.disk.snaps[k := Beside(s.disk, k) + {name}]), k);
  }

  lemma SnapshotKept(c: Config, s: State, k: Key, name: string, f: ChangeFaults)
    requires Kept(s, k)
    ensures var (s', a) := Snapshot(c, s, k, name, f);
      KeptInFile(s', k) && (!a.Killed? ==> Kept(s', k)) <==> !Strays(c, s, k, name, f)
  {
    hide Update, SaveStep, Kept, KeptInFile, Names;
    FromFile(s, k);
    var found := Recorded(c, s, k, f.check);
    if ValidName(name) && found.Ok? && c.parents[k.parent].kind.Subvolume? && name !in found.value.snapshots && name !in Beside(s.disk, k) {
      NamesMore(found.value.snapshots, name);
      MadeKept(s, k, found.value, name, f.save);
      var s1 := s.(disk := s.disk.(snaps := s.disk.snaps[k := Beside(s.disk, k) + {name}]));
      FromFile(s1, k);
      FromFile(SaveStep(s1.(vols := Update(s.vols, found.value.(snapshots := found.value.snapshots + [name]))), f.save), k);
    }
  }

  lemma NamesMore(snaps: seq<string>, name: string)
    ensures Names(snaps + [name]) == Names(snaps) + {name}
    ensures name in Names(snaps) <==> name in snaps
  {
    var all := snaps + [name];
    assert all[|snaps|] == name;
    forall x | x in Names(snaps) ensures x in Names(all) {
      var i :| 0 <= i < |snaps| && snaps[i] == x;
      assert all[i] == x;
    }
  }

  lemma FrameKept(s: State, s': State, k: Key)
    requires SameAt(s, s', k) && Kept(s, k)
    ensures Kept(s', k)
  {
  }

  predicate StraysAt(c: Config, s: State, op: Op, k: Key) {
    op.OpSnapshot? && op.key == k && Strays(c, s, k, op.name, op.faults)
  }

  // Through every call, whatever fails or dies in it, the snapshots beside a
  // volume stay recorded exactly unless the call is a snapshot of that volume
  // which is made and not written down.
  lemma StaysKept(c: Config, s: State, op: Op, k: Key)
    requires Inv(c, s) && Kept(s, k)
    ensures Kept(Next(c, s, op), k) <==> !StraysAt(c, s, op, k)
  {
    hide Inv, Create, Delete, Resize, Snapshot, SnapNames, Beside;
    var (s', a) := Perform(c, s, op);
    if !Targets(op, k) {
      OthersUntouched(c, s, op, k);
      FrameKept(s, s', k);
    } else {
      match op
      case OpCreate(q, f) => CreateKept(c, s, q, f);
      case OpDelete(_, dd, f) => DeleteKept(c, s, k, dd, f);
      case OpResize(q, f) => ResizeKept(c, s, q, f);
      case OpSnapshot(_, name, f) => SnapshotKept(c, s, k, name, f);
    }
    FromFile(s', k);
  }

  lemma FromFile(s: State, k: Key)
    ensures Kept(Restart(s), k) <==> KeptInFile(s, k)
    ensures Kept(s, k) ==> KeptInFile(s, k)
  {
  }

  ghost predicate NeverStrays(c: Config, s0: State, ops: seq<Op>, k: Key) {
    forall i :: 0 <= i < |ops| ==> !StraysAt(c, Exec(c, s0, ops[..i]), ops[i], k)
  }

  lemma {:induction false} RunKept(c: Config, s0: State, ops: seq<Op>, k: Key)
    requires ValidConfig(c) && Initial(c, s0) && Beside(s0.disk, k) == {} && NeverStrays(c, s0, ops, k)
    ensures Kept(Exec(c, s0, ops), k)
    decreases |ops|
  {
    hide Next, Inv, StraysAt;
    if ops != [] {
      var before := ops[..|ops| - 1];
      forall i | 0 <= i < |before| ensures !StraysAt(c, Exec(c, s0, before[..i]), before[i], k) {
        assert ops[..i] == before[..i];
      }
      RunKept(c, s0, before, k);
      RunKeeps(c, s0, before);
      StaysKept(c, Exec(c, s0, before), ops[|ops| - 1], k);
    }
  }

  // So over every run without such a snapshot of it, a recorded volume that is
  // ours, or absent, is deleted by the next clean delete, and after a restart too.
  lemma AlwaysDeletable(c: Config, s0: State, ops: seq<Op>, k: Key)
    requires ValidConfig(c) && Initial(c, s0) && Beside(s0.disk, k) == {} && NeverStrays(c, s0, ops, k)
    ensures forall s :: (s == Exec(c, s0, ops) || s == Restart(Exec(c, s0, ops))) && Recognised(c, s, k) ==>
      Delete(c, s, k, true, CLEAN_DELETE).1.Gone?
  {
    hide Exec, NeverStrays, Delete;
    RunKept(c, s0, ops, k);
    var now := Exec(c, s0, ops);
    FromFile(now, k);
    KeptCanGo(c, now, k);
    KeptCanGo(c, Restart(now), k);
  }

  // Recorded, and not taken by something else.
  predicate Recognised(c: Config, s: State, k: Key) {
    !BadTarget(c, k) && Find(s.vols, k).Some? && !Owned(c.parents[k.parent], s.disk, Find(s.vols, k).value).NotOurs?
  }

  lemma KeptCanGo(c: Config, s: State, k: Key)
    requires Kept(s, k)
    ensures Recognised(c, s, k) ==> CanGo(c, s, k) && Delete(c, s, k, true, CLEAN_DELETE).1.Gone?
  {
    hide Delete;
    if Recognised(c, s, k) { DeletesExactly(c, s, k, true, CLEAN_DELETE); }
  }

  /********** A snapshot that strayed **********/

  // A snapshot made and not written down: after a restart no delete, whatever
  // is asked and whatever fails, removes the volume; before one, a delete can
  // exactly when memory had the snapshot and only its save failed.
  lemma StrayKeepsVolume(c: Config, s: State, k: Key, name: string, f: ChangeFaults, destroyData: bool, h: DeleteFaults)
    requires Kept(s, k) && Strays(c, s, k, name, f)
    ensures var s1 := Next(c, s, OpSnapshot(k, name, f));
      && !Delete(c, Restart(s1), k, destroyData, h).1.Gone?
      && (CanGo(c, s1, k) <==> f.effect.Done? && f.save.Fail?)
  {
    hide Delete, Update;
    var (s', a) := Snapshot(c, s, k, name, f);
    var r := Find(s.vols, k).value;
    FindAfterUpdate(s.vols, r.(snapshots := r.snapshots + [name]), k);
    NamesMore(r.snapshots, name);
    StrayShape(c, s, k, name, f);
    var s1 := Next(c, s, OpSnapshot(k, name, f));
    assert name in Beside(s1.disk, k) && name !in SnapNames(s1.file, k);
    StrayBlocks(c, Restart(s1), k, name, destroyData, h);
  }

  lemma StrayShape(c: Config, s: State, k: Key, name: string, f: ChangeFaults)
    requires Strays(c, s, k, name, f)
    ensures var s1 := Next(c, s, OpSnapshot(k, name, f));
      var r := Find(s.vols, k).value;
      && s1.file == s.file && s1.disk == s.disk.(snaps := s.disk.snaps[k := Beside(s.disk, k) + {name}])
      && s1.vols == (if !f.effect.Done? then s.vols
                     else if f.save.Crash? then s.file
                     else Update(s.vols, r.(snapshots := r.snapshots + [name])))
  {
    hide Update;
  }

  lemma StrayBlocks(c: Config, s: State, k: Key, name: string, destroyData: bool, h: DeleteFaults)
    requires name in Beside(s.disk, k) && name !in SnapNames(s.vols, k) && k.parent in c.parents && c.parents[k.parent].kind.Subvolume?
    requires k in s.disk.entries
    ensures !CanGo(c, s, k) && !Delete(c, s, k, destroyData, h).1.Gone?
  {
    hide Delete;
    if Find(s.vols, k).Some? { DeletesExactly(c, s, k, destroyData, h); }
    else { UnrecordedStays(c, s, k, destroyData, h); }
  }

  lemma UnrecordedStays(c: Config, s: State, k: Key, destroyData: bool, h: DeleteFaults)
    requires Find(s.vols, k).None? && k in s.disk.entries
    ensures Delete(c, s, k, destroyData, h).0 == s && !Delete(c, s, k, destroyData, h).1.Gone?
  {
  }
}
