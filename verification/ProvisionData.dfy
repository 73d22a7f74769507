/** What is inside a volume goes only when its destruction is asked for. */
module ProvisionData {
  import opened Wrappers
  import opened Provision
  import opened ProvisionSafety
  import opened ProvisionFrame
  import opened ProvisionSnapshots

  function FilesAt(d: Disk, k: Key): set<string> {
    if k in d.entries && d.entries[k].Dir? then d.entries[k].files else {}
  }

  // Every file in the volume and every snapshot beside it is still there.
  predicate Whole(before: Disk, after: Disk, k: Key) {
    FilesAt(before, k) <= FilesAt(after, k) && Beside(before, k) <= Beside(after, k)
  }

  // A delete without destroy_data, of a volume that stands and has a file in it
  // or a snapshot recorded, changes nothing and is never answered as gone,
  // whatever fails; without a fault it is refused.
  lemma FullIsRefused(c: Config, s: State, k: Key, f: DeleteFaults)
    requires !BadTarget(c, k) && Find(s.vols, k).Some? && k in s.disk.entries
    requires FilesAt(s.disk, k) != {} || Find(s.vols, k).value.snapshots != []
    ensures var (s', a) := Delete(c, s, k, false, f);
      s' == s && !a.Gone? && (f == CLEAN_DELETE ==> a == Refused(FailedPrecondition))
  {
    hide Destroy;
  }

  // And one of a recorded volume, without a fault, is answered as gone exactly
  // when it can go and there is nothing in it and no snapshot recorded.
  lemma EmptyIsDeleted(c: Config, s: State, k: Key)
    requires Find(s.vols, k).Some?
    ensures Delete(c, s, k, false, CLEAN_DELETE).1.Gone? <==>
      CanGo(c, s, k) && (k in s.disk.entries ==> FilesAt(s.disk, k) == {} && Find(s.vols, k).value.snapshots == [])
  {
    hide Destroy;
    DeletesExactly(c, s, k, true, CLEAN_DELETE);
    DeletesExactly(c, s, k, false, CLEAN_DELETE);
    if !BadTarget(c, k) && k in s.disk.entries && (FilesAt(s.disk, k) != {} || Find(s.vols, k).value.snapshots != []) {
      FullIsRefused(c, s, k, CLEAN_DELETE);
    }
  }

  // Whichever it asks for, a delete that is answered as gone says whether there
  // was anything to remove.
  lemma GoneSays(c: Config, s: State, k: Key, destroyData: bool, f: DeleteFaults)
    requires Delete(c, s, k, destroyData, f).1.Gone?
    ensures Delete(c, s, k, destroyData, f).1.deleted <==> k in s.disk.entries
  {
    hide RemoveProject, RemoveSubvolume;
  }

  // What a removal takes from a directory: everything, or what was reached of it.
  predicate TreeLoses(s: State, k: Key, f: DeleteFaults) {
    FilesAt(s.disk, k) != {} && (Happens(f.tree) || !(FilesAt(s.disk, k) <= f.left))
  }

  // From a subvolume: a snapshot recorded and reached, or the subvolume itself.
  predicate SubvolumeLoses(s: State, r: Record, f: DeleteFaults) {
    var reached := if Happens(f.snaps) || f.cut >= |r.snapshots| then r.snapshots else r.snapshots[..f.cut];
    || Beside(s.disk, r.key) * Names(reached) != {}
    || (FilesAt(s.disk, r.key) != {} && f.snaps.Done? && Beside(s.disk, r.key) <= Names(r.snapshots) && f.snapDir.Done?
        && f.seen.Done? && Happens(f.dir))
  }

  predicate Destroys(c: Config, s: State, op: Op, k: Key) {
    && op.OpDelete? && op.key == k && op.destroyData && !BadTarget(c, k) && Find(s.vols, k).Some?
    && var p, r, f := c.parents[k.parent], Find(s.vols, k).value, op.deleteFaults;
      && f.check.Done? && Owned(p, s.disk, r).Ours?
      && if p.kind.Project? then TreeLoses(s, k, f) else SubvolumeLoses(s, r, f)
  }

  lemma WholeTrans(a: Disk, b: Disk, d: Disk, k: Key)
    requires Whole(a, b, k) && Whole(b, d, k)
    ensures Whole(a, d, k)
  {
  }

  lemma BuildWhole(p: Parent, s: State, r: Record, f: CreateFaults)
    ensures Whole(s.disk, Build(p, s, r, f).0.disk, r.key)
  {
    hide Update;
    var (s1, v1) := MakeStep(p, s, r.key, f.make);
    assert Whole(s.disk, s1.disk, r.key);
    if r.key in s1.disk.entries && s1.disk.entries[r.key].Dir? {
      var (s2, r2) := TagStep(p, s1, r, f.tag);
      assert Whole(s.disk, s2.disk, r.key) && r2.key == r.key;
    }
  }

  lemma CreateWhole(c: Config, s: State, q: CreateReq, f: CreateFaults)
    ensures Whole(s.disk, Create(c, s, q, f).0.disk, q.key)
  {
    hide Build, Begin;
    if !BadTarget(c, q.key) {
      var p := c.parents[q.key.parent];
      match Find(s.vols, q.key)
      case Some(r) => BuildWhole(p, s, r, f);
      case None =>
        var r := NewRecord(p, s, q);
        BeginShape(c, s, q, f);
        BuildWhole(p, s.(vols := s.vols + [r], file := s.vols + [r]), r, f);
    }
  }

  lemma ProjectLoses(p: Parent, s: State, r: Record, f: DeleteFaults)
    requires Owned(p, s.disk, r).Ours? || r.key !in s.disk.entries
    ensures Whole(s.disk, RemoveProject(p, s, r, f).0.disk, r.key) <==> !TreeLoses(s, r.key, f)
  {
  }

  // The snapshots that go are those recorded and reached.
  lemma ReachedGo(s: State, r: Record, snaps: seq<string>, f: DeleteFaults)
    ensures var reached := if Happens(f.snaps) || f.cut >= |snaps| then snaps else snaps[..f.cut];
      var s1 := RemoveSnapshots(s, r, snaps, f).0;
      && Beside(s1.disk, r.key) == Beside(s.disk, r.key) - Names(reached)
      && s1.disk.entries == s.disk.entries && s1.vols == s.vols
  {
    hide Names;
  }

  lemma SnapshotsAllGo(s: State, r: Record, snaps: seq<string>, f: DeleteFaults)
    ensures RemoveSnapshots(s, r, snaps, f).1.Okay? <==> f.snaps.Done? && Beside(s.disk, r.key) <= Names(snaps) && f.snapDir.Done?
  {
    hide Names;
    var have := Beside(s.disk, r.key);
    assert have - Names(snaps) == {} <==> have <= Names(snaps) by {
      if have - Names(snaps) == {} {
        forall x | x in have ensures x in Names(snaps) {
          assert x !in have - Names(snaps);
        }
      }
    }
  }

  lemma SubvolumeGoes(p: Parent, s: State, r: Record, snaps: seq<string>, f: DeleteFaults)
    ensures var s1 := RemoveSubvolume(p, s, r, snaps, f).0;
      && Beside(s1.disk, r.key) == Beside(RemoveSnapshots(s, r, snaps, f).0.disk, r.key)
      && s1.disk.entries == (if RemoveSnapshots(s, r, snaps, f).1.Okay? && f.seen.Done? && r.key in s.disk.entries && Happens(f.dir)
                             then s.disk.entries - {r.key} else s.disk.entries)
  {
    hide RemoveSnapshots;
    ReachedGo(s, r, snaps, f);
  }

  lemma DestroyWhole(p: Parent, s: State, r: Record, snaps: seq<string>, f: DeleteFaults, deleted: bool)
    requires if r.key in s.disk.entries then Owned(p, s.disk, r).Ours? && snaps == r.snapshots else snaps == []
    ensures Whole(s.disk, Destroy(p, s, r, snaps, f, deleted).0.disk, r.key) <==>
      !(r.key in s.disk.entries && if p.kind.Project? then TreeLoses(s, r.key, f) else SubvolumeLoses(s, r, f))
  {
    hide RemoveProject, RemoveSubvolume, RemoveSnapshots, Remove, Names;
    if p.kind.Project? {
      ProjectLoses(p, s, r, f);
    } else {
      ReachedGo(s, r, snaps, f);
      SubvolumeGoes(p, s, r, snaps, f);
      SnapshotsAllGo(s, r, snaps, f);
      NoNames();
    }
  }

  lemma NoNames()
    ensures Names([]) == {}
  {
  }

  lemma DeleteWhole(c: Config, s: State, k: Key, destroyData: bool, f: DeleteFaults)
    ensures Whole(s.disk, Delete(c, s, k, destroyData, f).0.disk, k) <==> !Destroys(c, s, OpDelete(k, destroyData, f), k)
  {
    hide Destroy, Whole, TreeLoses, SubvolumeLoses;
    WholeSelf(s.disk, k);
    if !BadTarget(c, k) && Find(s.vols, k).Some? {
      var p, r := c.parents[k.parent], Find(s.vols, k).value;
      if k !in s.disk.entries {
        DestroyWhole(p, s, r, [], f, false);
      } else if Owned(p, s.disk, r).Ours? {
        DestroyWhole(p, s, r, r.snapshots, f, true);
        if !destroyData && r.snapshots == [] && FilesAt(s.disk, k) == {} { EmptyLosesNothing(s, r, f); }
      }
    }
  }

  lemma WholeSelf(d: Disk, k: Key)
    ensures Whole(d, d, k)
  {
  }

  lemma EmptyLosesNothing(s: State, r: Record, f: DeleteFaults)
    requires r.snapshots == [] && FilesAt(s.disk, r.key) == {}
    ensures !TreeLoses(s, r.key, f) && !SubvolumeLoses(s, r, f)
  {
    NoNames();
    assert r.snapshots[..0] == [];
  }

  lemma ChangesWhole(c: Config, s: State, op: Op, k: Key)
    requires op.OpResize? || op.OpSnapshot?
    ensures Whole(s.disk, Perform(c, s, op).0.disk, k)
  {
    hide Update, Recorded, BadQuota, NoRoom;
  }

  // Through every call, whatever fails or dies in it, a volume loses a file or a
  // snapshot exactly when the call is a delete of that volume which asks for its
  // destruction, finds it its own, and comes as far as one.
  lemma StaysWhole(c: Config, s: State, op: Op, k: Key)
    ensures Whole(s.disk, Next(c, s, op).disk, k) <==> !Destroys(c, s, op, k)
  {
    hide Create, Delete, Resize, Snapshot, TreeLoses, SubvolumeLoses, Whole;
    WholeSelf(s.disk, k);
    if !Targets(op, k) {
      OthersUntouched(c, s, op, k);
      SameIsWhole(s, Perform(c, s, op).0, k);
    } else {
      match op
      case OpCreate(q, f) => CreateWhole(c, s, q, f);
      case OpDelete(_, dd, f) => DeleteWhole(c, s, k, dd, f);
      case OpResize(_, _) => ChangesWhole(c, s, op, k);
      case OpSnapshot(_, _, _) => ChangesWhole(c, s, op, k);
    }
  }

  lemma SameIsWhole(s: State, s': State, k: Key)
    requires SameAt(s, s', k)
    ensures Whole(s.disk, s'.disk, k)
  {
  }

  /********** With the volumes in use **********/

  // A call, or whoever uses a volume changing the files in it.
  datatype Event = Called(op: Op) | Used(key: Key, files: set<string>)

  function InUse(s: State, k: Key, files: set<string>): State {
    if k in s.disk.entries && s.disk.entries[k].Dir? then
      s.(disk := s.disk.(entries := s.disk.entries[k := s.disk.entries[k].(files := files)]))
    else s
  }

  function After(c: Config, s: State, e: Event): State {
    match e case Called(op) => Next(c, s, op) case Used(k, files) => InUse(s, k, files)
  }

  function Run(c: Config, s0: State, events: seq<Event>): State
    decreases |events|
  {
    if events == [] then s0 else After(c, Run(c, s0, events[..|events| - 1]), events[|events| - 1])
  }

  // No call asks for the destruction of what is in it, and nobody uses it.
  ghost predicate LeftAlone(events: seq<Event>, k: Key) {
    forall i :: 0 <= i < |events| ==>
      match events[i]
      case Called(op) => !(op.OpDelete? && op.key == k && op.destroyData)
      case Used(j, _) => j != k
  }

  // So whatever is asked of it and of other volumes, and used of those, what was
  // in it at any moment stays in it until somebody asks for its destruction.
  lemma {:induction false} RunStaysWhole(c: Config, s0: State, events: seq<Event>, k: Key)
    requires LeftAlone(events, k)
    ensures Whole(s0.disk, Run(c, s0, events).disk, k)
    decreases |events|
  {
    if events == [] {
      WholeSelf(s0.disk, k);
    } else {
      var n, before := |events| - 1, events[..|events| - 1];
      var s := Run(c, s0, before);
      RunStaysWhole(c, s0, before, k);
      assert match events[n] case Called(op) => !(op.OpDelete? && op.key == k && op.destroyData) case Used(j, _) => j != k;
      if events[n].Called? {
        hide Next;
        StaysWhole(c, s, events[n].op, k);
      }
      WholeTrans(s0.disk, s.disk, Run(c, s0, events).disk, k);
    }
  }
}
