/** Interrupted deletes taken up again, and the one interruption nothing takes
    up: a look that fails before a subvolume is removed. */
module ProvisionRemoval {
  import opened Wrappers
  import opened Provision
  import opened ProvisionSafety
  import opened ProvisionResume
  import opened ProvisionFrame
  import opened ProvisionSnapshots

  // One recorded volume to delete.
  datatype Removal = Removal(p: Parent, s0: State, r: Record) {
    function Lid(): (string, nat) {
      (r.key.parent, LimitID(p, r))
    }

    ghost predicate Valid() {
      && s0.file == s0.vols && Find(s0.vols, r.key) == Some(r) && !Owned(p, s0.disk, r).NotOurs?
      && (if p.kind.Project? then r.projectID != 0
          else (r.key in s0.disk.snaps ==> s0.disk.snaps[r.key] <= Names(r.snapshots)) && SnapsEmpty(s0.disk))
    }

    // Without the subvolume, no snapshots.
    predicate SnapsEmpty(d: Disk) {
      r.key !in d.entries && r.key in d.snaps ==> d.snaps[r.key] == {}
    }

    predicate IsList(list: seq<Record>) {
      list == s0.vols || list == Remove(s0.vols, r.key)
    }

    // What is left at the volume's place: less inside it, or nothing.
    predicate IsEntry(d: Disk) {
      if r.key !in d.entries then d.entries == s0.disk.entries - {r.key}
      else
        && r.key in s0.disk.entries && s0.disk.entries[r.key].Dir? && d.entries[r.key].Dir?
        && d.entries == s0.disk.entries[r.key := s0.disk.entries[r.key].(files := d.entries[r.key].files)]
    }

    predicate IsDisk(d: Disk) {
      && IsEntry(d) && d.nextID == s0.disk.nextID && d.snaps - {r.key} == s0.disk.snaps - {r.key}
      && (d.limits == s0.disk.limits || d.limits == s0.disk.limits - {Lid()})
      && (if p.kind.Project? then d.snaps == s0.disk.snaps
          else (r.key in d.snaps ==> r.key in s0.disk.snaps && d.snaps[r.key] <= s0.disk.snaps[r.key]) && SnapsEmpty(d))
    }

    // Nothing left to find, and no project's limit.
    predicate Cleared(d: Disk) {
      r.key !in d.entries && (p.kind.Project? ==> d.limits == s0.disk.limits - {Lid()})
    }

    // A subvolume that is still there.
    predicate Stands(d: Disk) {
      p.kind.Subvolume? && r.key in d.entries
    }

    predicate Midway(s: State) {
      && IsList(s.vols) && IsList(s.file) && IsDisk(s.disk)
      && (s.vols != s0.vols ==> Cleared(s.disk) || Stands(s.disk)) && (s.file != s0.vols ==> s.vols != s0.vols)
    }

    // The record did not go before the volume.
    predicate Seen(s: State) {
      s.vols != s0.vols ==> Cleared(s.disk)
    }

    predicate Forgotten(s: State) {
      s.vols == Remove(s0.vols, r.key) && IsDisk(s.disk) && Cleared(s.disk)
    }

    predicate Lifted(s: State) {
      LimitID(p, r) != 0 ==> s.disk.limits == s0.disk.limits - {Lid()}
    }
  }

  lemma RemovedLacks(vols: seq<Record>, k: Key)
    ensures Find(Remove(vols, k), k).None?
  {
    assert forall x :: x in Remove(vols, k) ==> x.key != k;
  }

  lemma StillOwned(m: Removal, s: State)
    requires m.Valid() && m.Midway(s)
    ensures Owned(m.p, s.disk, m.r) == if m.r.key in s.disk.entries then Ours else Absent
    ensures s.vols == m.s0.vols ==> Find(s.vols, m.r.key) == Some(m.r)
    ensures s.vols != m.s0.vols ==> Find(s.vols, m.r.key).None? && s.vols == Remove(m.s0.vols, m.r.key)
  {
    RemovedLacks(m.s0.vols, m.r.key);
  }

  // The look for the subvolume may kill the process; an error it ignores is another matter.
  predicate Sighted(f: DeleteFaults) {
    f.seen.Done? || f.seen.Crash?
  }

  // A directory with less in it, or none, is half way too.
  lemma EntryMidway(m: Removal, s: State, files: set<string>)
    requires m.Valid() && m.Midway(s) && m.p.kind.Project? && s.vols == m.s0.vols && m.r.key in s.disk.entries
    ensures s.disk.entries[m.r.key].Dir?
    ensures m.Midway(s.(disk := s.disk.(entries := s.disk.entries[m.r.key := s.disk.entries[m.r.key].(files := files)])))
    ensures m.Midway(s.(disk := s.disk.(entries := s.disk.entries[m.r.key := s.disk.entries[m.r.key].(files := files)] - {m.r.key})))
  {
    var k := m.r.key;
    var e := s.disk.entries[k].(files := files);
    assert s.disk.entries[k := e] == m.s0.disk.entries[k := e];
    assert s.disk.entries[k := e] - {k} == m.s0.disk.entries - {k};
  }

  lemma UnlimitMidway(m: Removal, s: State, o: Outcome)
    requires m.Valid() && m.Midway(s) && m.p.kind.Project? && s.vols == m.s0.vols && m.r.key !in s.disk.entries
    ensures var s1 := UnlimitStep(m.p, s, m.r, o); m.Midway(s1) && (o.Done? ==> m.Cleared(s1.disk))
  {
    assert s.disk.limits - {m.Lid()} == m.s0.disk.limits - {m.Lid()};
  }

  lemma ProjectMidway(m: Removal, s: State, f: DeleteFaults)
    requires m.Valid() && m.Midway(s) && m.p.kind.Project? && s.vols == m.s0.vols
    ensures var (s1, v) := RemoveProject(m.p, s, m.r, f);
      && m.Midway(s1) && s1.vols == s.vols && s1.file == s.file
      && (v.Okay? ==> m.Cleared(s1.disk)) && (f == CLEAN_DELETE ==> v.Okay?)
  {
    var k := m.r.key;
    if k in s.disk.entries {
      var files := if s.disk.entries[k].Other? || Happens(f.tree) then {} else s.disk.entries[k].files * f.left;
      EntryMidway(m, s, files);
      var s1 := s.(disk := s.disk.(entries := s.disk.entries[k := s.disk.entries[k].(files := files)]));
      UnlimitMidway(m, s1.(disk := s1.disk.(entries := s1.disk.entries - {k})), f.unlimit);
    } else {
      UnlimitMidway(m, s, f.unlimit);
    }
  }

  // Only the volume's own snapshots changed, and only became fewer.
  lemma FewerSnapshots(m: Removal, s: State, next: map<Key, set<string>>)
    requires m.Midway(s) && m.p.kind.Subvolume? && next - {m.r.key} == s.disk.snaps - {m.r.key}
    requires m.r.key in next ==> m.r.key in s.disk.snaps && next[m.r.key] <= s.disk.snaps[m.r.key]
    ensures m.Midway(s.(disk := s.disk.(snaps := next)))
  {
    assert m.r.key in next && s.disk.snaps[m.r.key] == {} ==> next[m.r.key] == {};
  }

  lemma SnapshotsMidway(m: Removal, s: State, snaps: seq<string>, f: DeleteFaults)
    requires m.Valid() && m.Midway(s) && m.p.kind.Subvolume? && s.vols == m.s0.vols
    requires m.r.key in s.disk.entries ==> snaps == m.r.snapshots
    ensures var (s1, v) := RemoveSnapshots(s, m.r, snaps, f);
      && m.Midway(s1) && s1.vols == s.vols && s1.file == s.file && s1.disk.entries == s.disk.entries && s1.disk.limits == s.disk.limits
      && (v.Okay? ==> m.r.key !in s1.disk.snaps) && (f == CLEAN_DELETE ==> v.Okay?)
  {
    hide RemoveSnapshots;
    SnapshotsShape(s, m.r, snaps, f);
    FewerSnapshots(m, s, RemoveSnapshots(s, m.r, snaps, f).0.disk.snaps);
  }

  lemma SubvolumeMidway(m: Removal, s: State, snaps: seq<string>, f: DeleteFaults)
    requires m.Valid() && m.Midway(s) && m.p.kind.Subvolume? && s.vols == m.s0.vols
    requires m.r.key in s.disk.entries ==> snaps == m.r.snapshots
    ensures var (s1, v) := RemoveSubvolume(m.p, s, m.r, snaps, f);
      && m.Midway(s1) && s1.vols == s.vols && s1.file == s.file
      && (v.Okay? ==> (if Sighted(f) then m.Cleared(s1.disk) else m.Cleared(s1.disk) || m.Stands(s1.disk)))
      && (f == CLEAN_DELETE ==> v.Okay? && (LimitID(m.p, m.r) != 0 ==> s1.disk.limits == m.s0.disk.limits - {m.Lid()}))
  {
    hide RemoveSnapshots;
    var k := m.r.key;
    var (s1, v) := RemoveSnapshots(s, m.r, snaps, f);
    SnapshotsMidway(m, s, snaps, f);
    if v.Okay? {
      assert s1.disk.entries - {k} == m.s0.disk.entries - {k};
      assert s1.disk.limits - {m.Lid()} == m.s0.disk.limits - {m.Lid()};
    }
  }

  lemma DestroyMidway(m: Removal, s: State, snaps: seq<string>, f: DeleteFaults, deleted: bool)
    requires m.Valid() && m.Midway(s) && s.vols == m.s0.vols
    requires m.r.key in s.disk.entries ==> snaps == m.r.snapshots
    ensures var (s', a) := Destroy(m.p, s, m.r, snaps, f, deleted);
      && m.Midway(s') && (Sighted(f) ==> m.Seen(s'))
      && (f == CLEAN_DELETE ==> a == Gone(deleted) && m.Forgotten(s') && s'.file == s'.vols && m.Lifted(s'))
  {
    hide RemoveProject, RemoveSubvolume;
    if m.p.kind.Project? { ProjectMidway(m, s, f); } else { SubvolumeMidway(m, s, snaps, f); }
  }

  // The record is gone and the volume is not.
  predicate Forsaken(m: Removal, s: State) {
    s.vols != m.s0.vols && m.r.key in s.disk.entries
  }

  lemma DeleteMidway(c: Config, m: Removal, s: State, destroyData: bool, f: DeleteFaults)
    requires m.Valid() && m.Midway(s) && !BadTarget(c, m.r.key) && c.parents[m.r.key.parent] == m.p
    ensures m.Midway(Next(c, s, OpDelete(m.r.key, destroyData, f)))
    ensures m.Seen(s) && Sighted(f) ==> m.Seen(Next(c, s, OpDelete(m.r.key, destroyData, f)))
    ensures destroyData && f == CLEAN_DELETE ==>
      var (s', a) := Delete(c, s, m.r.key, true, f);
      && (a.Gone? <==> !Forsaken(m, s))
      && (a.Gone? ==> m.Forgotten(s') && if Find(s.vols, m.r.key).Some? then s'.file == s'.vols && m.Lifted(s') else s' == s)
  {
    hide Destroy;
    StillOwned(m, s);
    if s.vols == m.s0.vols {
      var there := m.r.key in s.disk.entries;
      DestroyMidway(m, s, if there then m.r.snapshots else [], f, there);
    }
  }

  ghost predicate Retries(k: Key, ops: seq<Op>) {
    forall i :: 0 <= i < |ops| ==> ops[i].OpRestart? || (ops[i].OpDelete? && ops[i].key == k)
  }

  // None of them failed to look.
  ghost predicate AllSighted(ops: seq<Op>) {
    forall i :: 0 <= i < |ops| && ops[i].OpDelete? ==> Sighted(ops[i].deleteFaults)
  }

  lemma {:induction false} RetriesMidway(c: Config, m: Removal, ops: seq<Op>)
    requires m.Valid() && Retries(m.r.key, ops) && !BadTarget(c, m.r.key) && c.parents[m.r.key.parent] == m.p
    ensures m.Midway(Exec(c, m.s0, ops)) && (AllSighted(ops) ==> m.Seen(Exec(c, m.s0, ops)))
    decreases |ops|
  {
    hide Delete;
    if ops == [] {
      StartsMidway(m);
    } else {
      RetriesMidway(c, m, ops[..|ops| - 1]);
      var s, op := Exec(c, m.s0, ops[..|ops| - 1]), ops[|ops| - 1];
      if op.OpDelete? { DeleteMidway(c, m, s, op.destroyData, op.deleteFaults); }
    }
  }

  lemma StartsMidway(m: Removal)
    requires m.Valid()
    ensures m.Midway(m.s0)
  {
    var d := m.s0.disk;
    if m.r.key in d.entries {
      assert d.entries[m.r.key := d.entries[m.r.key].(files := d.entries[m.r.key].files)] == d.entries;
    } else {
      assert d.entries - {m.r.key} == d.entries;
    }
  }

  // A recorded volume a delete can remove, in a process that just started.
  ghost predicate Deletable(c: Config, s0: State, k: Key) {
    ValidConfig(c) && Inv(c, s0) && s0.file == s0.vols && CanGo(c, s0, k)
  }

  lemma DeletableIsRemoval(c: Config, s0: State, k: Key)
    requires Deletable(c, s0, k)
    ensures var m := Removal(c.parents[k.parent], s0, Find(s0.vols, k).value); m.Valid() && m.r.key == k
  {
    WorkingOn(c, s0, Find(s0.vols, k).value);
  }

  // Wherever a delete is cut off, however often it is tried and whatever fails:
  // after a restart the same delete succeeds exactly unless the record went
  // while the volume stands, which only a failed look does; and then there is
  // no record in memory or in the file, nothing at the volume's place, and no
  // limit on its id -- but a subvolume's may be left by an earlier attempt that
  // forgot it.
  lemma DeleteResumes(c: Config, s0: State, k: Key, ops: seq<Op>)
    requires Deletable(c, s0, k) && Retries(k, ops)
    ensures var before := Restart(Exec(c, s0, ops));
      var (s, a) := Delete(c, before, k, true, CLEAN_DELETE);
      var p, r := c.parents[k.parent], Find(s0.vols, k).value;
      var unlimited := s0.disk.limits - {(k.parent, LimitID(p, r))};
      && (a.Gone? <==> !Stranded(c, before, k)) && (AllSighted(ops) ==> a.Gone?)
      && (a.Gone? ==>
            && s.vols == s.file == Remove(s0.vols, k) && s.disk.entries == s0.disk.entries - {k}
            && (p.kind.Project? ==> s.disk == s0.disk.(entries := s0.disk.entries - {k}, limits := unlimited))
            && (LimitID(p, r) != 0 && s.disk.limits != unlimited ==> Find(before.vols, k).None? && s.disk.limits == s0.disk.limits))
  {
    hide Delete, Inv;
    DeletableIsRemoval(c, s0, k);
    var m := Removal(c.parents[k.parent], s0, Find(s0.vols, k).value);
    RetriesMidway(c, m, ops);
    var before := Restart(Exec(c, s0, ops));
    StillOwned(m, Exec(c, s0, ops));
    assert m.Midway(before);
    StillOwned(m, before);
    DeleteMidway(c, m, before, true, CLEAN_DELETE);
  }

  // Without the restart memory ends the same, but a delete whose last save
  // failed is then answered from memory, and the file keeps the record of a
  // volume that is gone.
  lemma DeleteResumesInProcess(c: Config, s0: State, k: Key, ops: seq<Op>)
    requires Deletable(c, s0, k) && Retries(k, ops)
    ensures var before := Exec(c, s0, ops);
      var (s, a) := Delete(c, before, k, true, CLEAN_DELETE);
      && (a.Gone? <==> !Stranded(c, before, k)) && (AllSighted(ops) ==> a.Gone?)
      && (a.Gone? ==>
            && s.vols == Remove(s0.vols, k) && k !in s.disk.entries
            && (s.file == s.vols <==> !(Find(before.vols, k).None? && Find(before.file, k).Some?)))
  {
    hide Delete, Inv;
    DeletableIsRemoval(c, s0, k);
    var m := Removal(c.parents[k.parent], s0, Find(s0.vols, k).value);
    RetriesMidway(c, m, ops);
    var before := Exec(c, s0, ops);
    StillOwned(m, before);
    RemovedLacks(s0.vols, k);
    DeleteMidway(c, m, before, true, CLEAN_DELETE);
  }

  /********** What nothing takes up again **********/

  // Something where no record is.
  predicate Stranded(c: Config, s: State, k: Key) {
    !BadTarget(c, k) && Find(s.vols, k).None? && k in s.disk.entries
  }

  // The look for a recorded subvolume that stands failed.
  predicate LookFailed(c: Config, s: State, k: Key, f: DeleteFaults) {
    && k.parent in c.parents && c.parents[k.parent].kind.Subvolume? && Find(s.vols, k).Some? && k in s.disk.entries
    && (f.seen.Fail? || f.seen.FailLate?)
  }

  // A delete that answers that the volume is gone leaves it there exactly when
  // it is a subvolume that stands and the look for it failed; and then strands
  // it, for this process and the next.
  lemma GoneButStanding(c: Config, s: State, k: Key, destroyData: bool, f: DeleteFaults)
    requires Delete(c, s, k, destroyData, f).1.Gone?
    ensures var s' := Delete(c, s, k, destroyData, f).0;
      && (k in s'.disk.entries <==> LookFailed(c, s, k, f))
      && (LookFailed(c, s, k, f) ==> Stranded(c, s', k) && StrandedForGood(c, s', k))
  {
    hide Destroy;
    if Find(s.vols, k).Some? {
      var p, r := c.parents[k.parent], Find(s.vols, k).value;
      DestroyedOrStanding(p, s, r, r.snapshots, f, true);
      DestroyedOrStanding(p, s, r, [], f, false);
      RemovedLacks(s.vols, k);
    }
  }

  // What else such an answer leaves, whatever was asked and whatever failed: no
  // record in memory; none in the file either, unless there was none in memory
  // before; no snapshot beside the volume; no limit on a directory's project, and
  // on a subvolume's id only one whose removal failed, which is not looked at.
  lemma GoneLeaves(c: Config, s: State, k: Key, destroyData: bool, f: DeleteFaults)
    requires ValidConfig(c) && Inv(c, s) && Delete(c, s, k, destroyData, f).1.Gone?
    ensures var s' := Delete(c, s, k, destroyData, f).0;
      match Find(s.vols, k)
      case None => s' == s && k !in s.disk.entries
      case Some(r) =>
        var id := (k.parent, LimitID(c.parents[k.parent], r));
        && s'.vols == s'.file == Remove(s.vols, k) && Find(s'.vols, k).None?
        && (c.parents[k.parent].kind.Project? ==>
              s'.disk == s.disk.(entries := s.disk.entries - {k}, limits := s.disk.limits - {id}))
        && (c.parents[k.parent].kind.Subvolume? ==>
              && k !in s'.disk.snaps && s'.disk.nextID == s.disk.nextID
              && s'.disk.limits == if id.1 != 0 && Happens(f.unlimit) then s.disk.limits - {id} else s.disk.limits)
  {
    hide Inv, Destroy, Remove, ProvisionSafety.Working, ValidConfig;
    if Find(s.vols, k).Some? {
      var r := Find(s.vols, k).value;
      WorkingOn(c, s, r);
      DestroyLeaves(c, s, r, r.snapshots, f, true);
      DestroyLeaves(c, s, r, [], f, false);
      RemovedLacks(s.vols, k);
    }
  }

  lemma DestroyLeaves(c: Config, s: State, r: Record, snaps: seq<string>, f: DeleteFaults, deleted: bool)
    requires ValidConfig(c) && ProvisionSafety.Working(c, s, r)
    ensures var p := c.parents[r.key.parent];
      var id := (r.key.parent, LimitID(p, r));
      var (s', a) := Destroy(p, s, r, snaps, f, deleted);
      a.Gone? ==>
        && s'.vols == s'.file == Remove(s.vols, r.key)
        && (p.kind.Project? ==> s'.disk == s.disk.(entries := s.disk.entries - {r.key}, limits := s.disk.limits - {id}))
        && (p.kind.Subvolume? ==>
              && r.key !in s'.disk.snaps && s'.disk.nextID == s.disk.nextID
              && s'.disk.limits == if id.1 != 0 && Happens(f.unlimit) then s.disk.limits - {id} else s.disk.limits)
  {
    hide RemoveProject, RemoveSubvolume, Remove, Inv;
    var p := c.parents[r.key.parent];
    if p.kind.Project? { ProjectLeaves(p, s, r, f); } else { SubvolumeLeaves(p, s, r, snaps, f); }
  }

  lemma ProjectLeaves(p: Parent, s: State, r: Record, f: DeleteFaults)
    requires p.kind.Project? && r.projectID != 0
    ensures var (s1, v) := RemoveProject(p, s, r, f);
      && s1.vols == s.vols && (v.Okay? ==>
           s1.disk == s.disk.(entries := s.disk.entries - {r.key}, limits := s.disk.limits - {(r.key.parent, r.projectID)}))
  {
    if r.key in s.disk.entries {
      if s.disk.entries[r.key].Dir? {
        var e := s.disk.entries[r.key].(files := if Happens(f.tree) then {} else s.disk.entries[r.key].files * f.left);
        assert s.disk.entries[r.key := e] - {r.key} == s.disk.entries - {r.key};
      }
    } else {
      assert s.disk.entries - {r.key} == s.disk.entries;
    }
  }

  lemma SubvolumeLeaves(p: Parent, s: State, r: Record, snaps: seq<string>, f: DeleteFaults)
    requires p.kind.Subvolume?
    ensures var (s1, v) := RemoveSubvolume(p, s, r, snaps, f);
      && s1.vols == s.vols && (v.Okay? ==>
           && r.key !in s1.disk.snaps && s1.disk.nextID == s.disk.nextID
           && s1.disk.limits == if r.subvolID != 0 && Happens(f.unlimit) then s.disk.limits - {(r.key.parent, r.subvolID)} else s.disk.limits)
  {
    hide RemoveSnapshots;
    SnapshotsShape(s, r, snaps, f);
  }

  lemma DestroyedOrStanding(p: Parent, s: State, r: Record, snaps: seq<string>, f: DeleteFaults, deleted: bool)
    ensures var (s', a) := Destroy(p, s, r, snaps, f, deleted);
      a.Gone? ==>
        && (r.key in s'.disk.entries <==> p.kind.Subvolume? && r.key in s.disk.entries && (f.seen.Fail? || f.seen.FailLate?))
        && s'.vols == s'.file == Remove(s.vols, r.key)
  {
    hide RemoveProject, RemoveSubvolume, Remove;
    ProjectGone(p, s, r, f);
    SubvolumeGone(p, s, r, snaps, f);
  }

  lemma ProjectGone(p: Parent, s: State, r: Record, f: DeleteFaults)
    ensures var (s1, v) := RemoveProject(p, s, r, f); s1.vols == s.vols && (v.Okay? ==> r.key !in s1.disk.entries)
  {
  }

  lemma SubvolumeGone(p: Parent, s: State, r: Record, snaps: seq<string>, f: DeleteFaults)
    ensures var (s1, v) := RemoveSubvolume(p, s, r, snaps, f);
      s1.vols == s.vols && (v.Okay? ==> (r.key in s1.disk.entries <==> r.key in s.disk.entries && (f.seen.Fail? || f.seen.FailLate?)))
  {
    hide RemoveSnapshots;
    SnapshotsShape(s, r, snaps, f);
  }

  // Nor does the file record it.
  predicate StrandedForGood(c: Config, s: State, k: Key) {
    Stranded(c, s, k) && Find(s.file, k).None?
  }

  // No call touches it, whatever volume it names and whatever fails; a call that
  // names it does nothing and is not answered with success; and a restart
  // changes nothing.
  lemma StrandedStays(c: Config, s: State, op: Op, k: Key)
    requires StrandedForGood(c, s, k)
    ensures StrandedForGood(c, Next(c, s, op), k) && Next(c, s, op).disk.entries[k] == s.disk.entries[k]
    ensures Targets(op, k) ==> var (s', a) := Perform(c, s, op); s' == s && !a.Made? && !a.Gone? && !a.Changed?
  {
    if !Targets(op, k) {
      hide Perform;
      OthersUntouched(c, s, op, k);
    }
  }

  lemma {:induction false} StrandedForever(c: Config, s: State, ops: seq<Op>, k: Key)
    requires StrandedForGood(c, s, k)
    ensures StrandedForGood(c, Exec(c, s, ops), k) && Exec(c, s, ops).disk.entries[k] == s.disk.entries[k]
    decreases |ops|
  {
    hide Next;
    if ops != [] {
      StrandedForever(c, s, ops[..|ops| - 1], k);
      StrandedStays(c, Exec(c, s, ops[..|ops| - 1]), ops[|ops| - 1], k);
    }
  }

  /********** Runs in which it happens **********/

  const ONE_POOL := Config(map["pool" := Parent(Subvolume, 0, 0)], 100)

  function CreateIn(name: string): Op {
    OpCreate(CreateReq(Key("pool", name), 7, 0, None), CLEAN_CREATE)
  }

  function Subvol(name: string, snapshots: seq<string>): Record {
    Record(Key("pool", name), 7, 0, false, 0, 1, snapshots)
  }

  // A subvolume made and given to the group.
  function MadeIn(name: string): State {
    State([Subvol(name, [])], [Subvol(name, [])],
          Disk(map[Key("pool", name) := Dir(1, true, {})], map[("pool", 1) := 7], map[], 2))
  }

  lemma MadeReached(name: string)
    requires ValidName(name)
    ensures ValidConfig(ONE_POOL) && Initial(ONE_POOL, NOTHING) && Exec(ONE_POOL, NOTHING, [CreateIn(name)]) == MadeIn(name)
  {
    var k := Key("pool", name);
    var pending := Subvol(name, []).(pending := true, subvolID := 0);
    var marked := pending.(subvolID := 1);
    var s := State([pending], [pending], NOTHING.disk);
    assert NewRecord(ONE_POOL.parents["pool"], NOTHING, CreateIn(name).req) == pending;
    BeginShape(ONE_POOL, NOTHING, CreateIn(name).req, CLEAN_CREATE);
    assert [] + [pending] == [pending];
    MadeBuilt(name);
    assert Update([marked], marked.(pending := false)) == [Subvol(name, [])];
    assert [CreateIn(name)][..0] == [];
    assert Exec(ONE_POOL, NOTHING, []) == NOTHING;
  }

  lemma MadeBuilt(name: string)
    requires ValidName(name)
    ensures var pending := Subvol(name, []).(pending := true, subvolID := 0);
      var marked := pending.(subvolID := 1);
      Build(ONE_POOL.parents["pool"], State([pending], [pending], NOTHING.disk), pending, CLEAN_CREATE)
        == (State([marked], [pending], MadeIn(name).disk), marked, Whole)
  {
    var pending := Subvol(name, []).(pending := true, subvolID := 0);
    var k := Key("pool", name);
    assert Update([pending], pending.(subvolID := 1)) == [pending.(subvolID := 1)];
    assert map[][k := Dir(1, false, {})] == map[k := Dir(1, false, {})];
    assert map[k := Dir(1, false, {})][k := Dir(1, true, {})] == map[k := Dir(1, true, {})];
    assert map[][("pool", 1) := 7] == map[("pool", 1) := 7];
  }

  // Made, and deleted with a look that failed: the answer is that it is gone,
  // and it stands.
  lemma BlindRun(name: string)
    requires ValidName(name)
    ensures var s := Exec(ONE_POOL, NOTHING, [CreateIn(name)]);
      var (s', a) := Delete(ONE_POOL, s, Key("pool", name), false, CLEAN_DELETE.(seen := Fail));
      a == Gone(true) && StrandedForGood(ONE_POOL, s', Key("pool", name))
  {
    MadeReached(name);
    var s := MadeIn(name);
    var f := CLEAN_DELETE.(seen := Fail);
    assert Delete(ONE_POOL, s, Key("pool", name), false, f).1.Gone?;
    GoneButStanding(ONE_POOL, s, Key("pool", name), false, f);
  }

  // Made, and snapshotted with an error that came late: no delete removes it.
  lemma StrayRun(name: string, snap: string, destroyData: bool, h: DeleteFaults)
    requires ValidName(name) && ValidName(snap)
    ensures var s := Exec(ONE_POOL, NOTHING, [CreateIn(name)]);
      var s1 := Next(ONE_POOL, s, OpSnapshot(Key("pool", name), snap, ChangeFaults(Done, FailLate, Done)));
      !Delete(ONE_POOL, s1, Key("pool", name), destroyData, h).1.Gone?
  {
    hide Delete, Snapshot;
    MadeReached(name);
    var s, k, f := MadeIn(name), Key("pool", name), ChangeFaults(Done, FailLate, Done);
    assert Kept(s, k) && Strays(ONE_POOL, s, k, snap, f);
    StrayKeepsVolume(ONE_POOL, s, k, snap, f, destroyData, h);
    var s1 := Next(ONE_POOL, s, OpSnapshot(k, snap, f));
    StrayShape(ONE_POOL, s, k, snap, f);
    DeletesExactly(ONE_POOL, s1, k, destroyData, h);
  }

  // Made, and deleted with a last save that failed: the file keeps the record,
  // and the delete, repeated, is answered from memory.
  lemma StaleRun(name: string)
    requires ValidName(name)
    ensures var k := Key("pool", name);
      var s := Exec(ONE_POOL, NOTHING, [CreateIn(name)]);
      var s1 := Next(ONE_POOL, s, OpDelete(k, false, CLEAN_DELETE.(save := Fail)));
      && Find(s1.vols, k).None? && Find(s1.file, k).Some?
      && Delete(ONE_POOL, s1, k, true, CLEAN_DELETE) == (s1, Gone(false))
  {
    MadeReached(name);
    var k, s := Key("pool", name), MadeIn(name);
    assert Remove(s.vols, k) == [];
    assert s.disk.entries - {k} == map[];
  }
}
