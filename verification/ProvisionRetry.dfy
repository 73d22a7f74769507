/** When a creation left unfinished can be taken up again, after whatever other
    calls came between. */
module ProvisionRetry {
  import opened Wrappers
  import opened Provision
  import opened ProvisionSafety
  import opened ProvisionFrame
  import opened ProvisionRemoval
  import opened ProvisionSnapshots

  // What stands at the place of a pending record is its own; and when nothing
  // does, the record has not yet taken the id of a subvolume.
  predicate CanFinish(p: Parent, d: Disk, r: Record) {
    match Owned(p, d, r)
    case Ours => true
    case Absent => p.kind.Project? || r.subvolID == 0
    case NotOurs => false
  }

  // Made: recorded as finished, in memory and in the file, with its own id on
  // it, the quota as the limit of that id, and the group let in.
  predicate Complete(c: Config, s: State, q: CreateReq) {
    && q.key.parent in c.parents && s.vols == s.file && Find(s.vols, q.key).Some?
    && var p, r := c.parents[q.key.parent], Find(s.vols, q.key).value;
      && !r.pending && Owned(p, s.disk, r).Ours? && s.disk.entries[q.key].id == LimitID(p, r) && s.disk.entries[q.key].group
      && (q.key.parent, LimitID(p, r)) in s.disk.limits && s.disk.limits[(q.key.parent, LimitID(p, r))] == q.quota
  }

  predicate TakesUp(c: Config, s: State, q: CreateReq) {
    && !BadTarget(c, q.key) && BadQuota(c, q.quota).None?
    && Find(s.vols, q.key).Some? && Find(s.vols, q.key).value.pending && Find(s.vols, q.key).value.quota == q.quota
  }

  lemma CleanBuild(c: Config, s: State, r: Record)
    requires ValidConfig(c) && Inv(c, s) && Find(s.vols, r.key) == Some(r) && r.pending && r.key.parent in c.parents
    ensures var p := c.parents[r.key.parent];
      var (s1, r1, v) := Build(p, s, r, CLEAN_CREATE);
      && (v.Whole? <==> CanFinish(p, s.disk, r))
      && (v.Whole? ==>
            && r1.key == r.key && r1.pending && Find(s1.vols, r.key) == Some(r1) && Owned(p, s1.disk, r1.(pending := false)).Ours?
            && s1.disk.entries[r.key].id == LimitID(p, r1) && s1.disk.entries[r.key].group
            && (r.key.parent, LimitID(p, r1)) in s1.disk.limits && s1.disk.limits[(r.key.parent, LimitID(p, r1))] == r.quota)
  {
    hide Update, Find;
    WorkingOn(c, s, r);
    var p := c.parents[r.key.parent];
    InvFacts(c, s);
    var (s1, v1) := MakeStep(p, s, r.key, Done);
    if v1.Okay? && Owned(p, s1.disk, r).Ours? {
      FindAfterUpdate(s.vols, TagStep(p, s1, r, Done).1, r.key);
    }
  }

  // From any state the provisioner can be in, a creation of a pending volume
  // without a fault finishes it exactly then; and none, whatever fails in it,
  // is answered with success otherwise.
  lemma FinishesExactly(c: Config, s: State, q: CreateReq)
    requires ValidConfig(c) && Inv(c, s) && TakesUp(c, s, q)
    ensures var p, r := c.parents[q.key.parent], Find(s.vols, q.key).value;
      var (s', a) := Create(c, s, q, CLEAN_CREATE);
      && (a == Made(true) <==> CanFinish(p, s.disk, r)) && (a.Made? ==> Complete(c, s', q))
      && (!CanFinish(p, s.disk, r) ==> forall f :: !Create(c, s, q, f).1.Made?)
  {
    hide Inv, Update, Build;
    var p, r := c.parents[q.key.parent], Find(s.vols, q.key).value;
    CleanBuild(c, s, r);
    var (s1, r1, v) := Build(p, s, r, CLEAN_CREATE);
    FindAfterUpdate(s1.vols, r1.(pending := false), q.key);
    if !CanFinish(p, s.disk, r) {
      forall f ensures !Create(c, s, q, f).1.Made? {
        NeverBuilt(c, s, r, f);
      }
    }
  }

  lemma NeverBuilt(c: Config, s: State, r: Record, f: CreateFaults)
    requires ValidConfig(c) && Inv(c, s) && Find(s.vols, r.key) == Some(r) && r.pending && r.key.parent in c.parents
    requires !CanFinish(c.parents[r.key.parent], s.disk, r)
    ensures !Build(c.parents[r.key.parent], s, r, f).2.Whole?
  {
    WorkingOn(c, s, r);
    InvFacts(c, s);
  }

  /********** Over every run **********/

  predicate Fits(c: Config, d: Disk, list: seq<Record>, k: Key) {
    k.parent in c.parents && Find(list, k).Some? && Find(list, k).value.pending ==>
      CanFinish(c.parents[k.parent], d, Find(list, k).value)
  }

  // In memory and in the file a pending record can be finished.
  predicate BothFit(c: Config, s: State, k: Key) {
    Fits(c, s.disk, s.vols, k) && Fits(c, s.disk, s.file, k)
  }

  // A pending record that has taken the id of its subvolume.
  predicate TookID(list: seq<Record>, k: Key) {
    Find(list, k).Some? && Find(list, k).value.pending && Find(list, k).value.subvolID != 0
  }

  // A delete that comes to removing the subvolume, and removes it.
  predicate Removes(c: Config, s: State, k: Key, destroyData: bool, f: DeleteFaults) {
    && !BadTarget(c, k) && c.parents[k.parent].kind.Subvolume? && k in s.disk.entries
    && Find(s.vols, k).Some?
    && var r := Find(s.vols, k).value;
      && f.check.Done? && Owned(c.parents[k.parent], s.disk, r).Ours?
      && (destroyData || (r.snapshots == [] && f.empty.Done? && s.disk.entries[k].files == {}))
      && RemoveSnapshots(s, r, r.snapshots, f).1.Okay? && f.seen.Done? && Happens(f.dir)
  }

  // And then fails: with an error that came late, when memory and file keep what
  // they had; or by dying, or failing to save, when the file does.
  predicate Tears(c: Config, s: State, k: Key, destroyData: bool, f: DeleteFaults) {
    && Removes(c, s, k, destroyData, f)
    && if f.dir.FailLate? then TookID(s.vols, k) || TookID(s.file, k)
       else TookID(s.file, k) && ((Find(s.vols, k).value.subvolID != 0 && f.unlimit.Crash?) || !Happens(f.save))
  }

  lemma FileID(c: Config, s: State, k: Key)
    requires Inv(c, s) && Find(s.vols, k).Some?
    ensures Find(s.file, k).Some? && Find(s.file, k).value.projectID == Find(s.vols, k).value.projectID
  {
    var r := Find(s.vols, k).value;
    var n :| 0 <= n < |s.vols| && s.vols[n] == r;
    assert Has(s.file, s.vols[n].key, s.vols[n].projectID);
    var i :| 0 <= i < |s.file| && s.file[i].key == k && s.file[i].projectID == r.projectID;
    FindAt(s.file, k, i);
  }

  // While the backend works on r, which memory and the file record.
  predicate WorksOn(c: Config, s: State, r: Record) {
    && Find(s.vols, r.key) == Some(r) && r.pending && r.key.parent in c.parents && s.disk.nextID > 0
    && Find(s.file, r.key).Some? && Find(s.file, r.key).value.projectID == r.projectID && Fits(c, s.disk, s.file, r.key)
    && var p := c.parents[r.key.parent]; (p.kind.Project? ==> 1 <= p.lo <= r.projectID <= p.hi) && CanFinish(p, s.disk, r)
  }

  lemma MakeFits(c: Config, s: State, r: Record, o: Outcome)
    requires WorksOn(c, s, r)
    ensures var s1 := MakeStep(c.parents[r.key.parent], s, r.key, o).0; WorksOn(c, s1, r) && s1.file == s.file
  {
    hide Find;
  }

  lemma TagFits(c: Config, s: State, r: Record, o: Outcome)
    requires WorksOn(c, s, r) && r.key in s.disk.entries && s.disk.entries[r.key].Dir?
    ensures var (s1, r1) := TagStep(c.parents[r.key.parent], s, r, o); WorksOn(c, s1, r1) && r1.key == r.key
    ensures var s1 := TagStep(c.parents[r.key.parent], s, r, o).0; s1.file == s.file && r.key in s1.disk.entries && s1.disk.entries[r.key].Dir?
  {
    hide Find, Update;
    FindAfterUpdate(s.vols, TagStep(c.parents[r.key.parent], s, r, o).1, r.key);
  }

  lemma GiveFits(c: Config, s: State, r: Record, l: Outcome, g: Outcome)
    requires WorksOn(c, s, r) && r.key in s.disk.entries && s.disk.entries[r.key].Dir?
    ensures var s1 := LimitStep(c.parents[r.key.parent], s, r, r.quota, l);
      && WorksOn(c, s1, r) && r.key in s1.disk.entries && s1.disk.entries[r.key].Dir? && s1.file == s.file
      && WorksOn(c, GroupStep(s1, r.key, g), r) && GroupStep(s1, r.key, g).file == s.file
  {
    hide Find;
  }

  lemma BuildFits(c: Config, s: State, r: Record, f: CreateFaults)
    requires WorksOn(c, s, r)
    ensures var (s1, r1, v) := Build(c.parents[r.key.parent], s, r, f);
      s1.file == s.file && r1.key == r.key && WorksOn(c, s1, r1)
  {
    var p := c.parents[r.key.parent];
    hide WorksOn, Update, MakeStep, TagStep, LimitStep, GroupStep;
    var (s1, v1) := MakeStep(p, s, r.key, f.make);
    MakeFits(c, s, r, f.make);
    if v1.Okay? && f.check.Done? && Owned(p, s1.disk, r).Ours? {
      var (s2, r2) := TagStep(p, s1, r, f.tag);
      TagFits(c, s1, r, f.tag);
      if f.tag.Done? { GiveFits(c, s2, r2, f.limit, f.group); }
    }
  }

  // Finished, dropped, or left as it is.
  lemma SettleFits(c: Config, s: State, r: Record, v: Built, f: CreateFaults)
    requires WorksOn(c, s, r)
    ensures BothFit(c, Settle(s, r, v, f).0, r.key)
  {
    hide CanFinish, Update, Remove, Find;
    FindAfterUpdate(s.vols, r.(pending := false), r.key);
    FindAfterRemove(s.vols, r.key, r.key);
  }

  lemma PendingWorks(c: Config, s: State, r: Record)
    requires ValidConfig(c) && Inv(c, s) && Find(s.vols, r.key) == Some(r) && r.pending && r.key.parent in c.parents
    requires BothFit(c, s, r.key)
    ensures WorksOn(c, s, r)
  {
    FileID(c, s, r.key);
    WorkingOn(c, s, r);
    InvFacts(c, s);
    hide CanFinish, Find;
  }

  lemma FinishFits(c: Config, s: State, r: Record, f: CreateFaults)
    requires ValidConfig(c) && Inv(c, s) && Find(s.vols, r.key) == Some(r) && r.pending && r.key.parent in c.parents
    requires BothFit(c, s, r.key)
    ensures BothFit(c, Finish(c.parents[r.key.parent], s, r, f).0, r.key)
  {
    hide Inv, Build, Settle, WorksOn, BothFit;
    PendingWorks(c, s, r);
    var (s1, r1, v) := Build(c.parents[r.key.parent], s, r, f);
    BuildFits(c, s, r, f);
    SettleFits(c, s1, r1, v, f);
  }

  lemma BeginFits(c: Config, s: State, q: CreateReq, f: CreateFaults)
    requires ValidConfig(c) && Inv(c, s) && q.key.parent in c.parents && q.quota > 0 && Find(s.vols, q.key).None?
    requires BothFit(c, s, q.key)
    ensures BothFit(c, Begin(c.parents[q.key.parent], s, q, f).0, q.key)
  {
    hide Begin, Finish, Inv, Find;
    var p := c.parents[q.key.parent];
    BeginShape(c, s, q, f);
    if Admits(p, s, q, f) {
      var r := NewRecord(p, s, q);
      FindAfterAppend(s.vols, r, q.key);
      PendingSaved(c, s, q);
      FinishFits(c, s.(vols := s.vols + [r], file := s.vols + [r]), r, f);
    }
  }

  lemma CreateFits(c: Config, s: State, q: CreateReq, f: CreateFaults)
    requires ValidConfig(c) && Inv(c, s) && BothFit(c, s, q.key)
    ensures BothFit(c, Create(c, s, q, f).0, q.key)
  {
    hide Inv, Begin, Finish, BothFit;
    if !BadTarget(c, q.key) && BadQuota(c, q.quota).None? {
      match Find(s.vols, q.key)
      case Some(r) => if r.pending { FinishFits(c, s, r, f); }
      case None => BeginFits(c, s, q, f);
    }
  }

  // A directory is emptied, or goes, and keeps its mark until then.
  lemma ProjectFits(c: Config, s: State, r: Record, snaps: seq<string>, f: DeleteFaults, deleted: bool)
    requires BothFit(c, s, r.key) && r.key.parent in c.parents && c.parents[r.key.parent].kind.Project?
    ensures var s' := Destroy(c.parents[r.key.parent], s, r, snaps, f, deleted).0; BothFit(c, s', r.key) && BothFit(c, Restart(s'), r.key)
  {
    hide Find, Remove, RemoveProject;
    FindAfterRemove(s.vols, r.key, r.key);
    ProjectEntry(c.parents[r.key.parent], s, r, f);
  }

  lemma ProjectEntry(p: Parent, s: State, r: Record, f: DeleteFaults)
    ensures var s1 := RemoveProject(p, s, r, f).0;
      && s1.vols == s.vols && s1.file == s.file
      && (r.key in s1.disk.entries ==>
            && r.key in s.disk.entries
            && (s1.disk.entries[r.key].Other? <==> s.disk.entries[r.key].Other?)
            && (s.disk.entries[r.key].Dir? ==> s1.disk.entries[r.key].id == s.disk.entries[r.key].id))
  {
  }

  // What becomes of a subvolume, and how the step after it answers.
  lemma SubvolumeEntry(p: Parent, s: State, r: Record, snaps: seq<string>, f: DeleteFaults)
    ensures var (s1, v) := RemoveSubvolume(p, s, r, snaps, f);
      var gone := RemoveSnapshots(s, r, snaps, f).1.Okay? && f.seen.Done? && r.key in s.disk.entries && Happens(f.dir);
      && s1.vols == s.vols && s1.file == s.file
      && s1.disk.entries == (if gone then s.disk.entries - {r.key} else s.disk.entries)
      && (gone ==> v == if f.dir.FailLate? then Errored else if r.subvolID != 0 && f.unlimit.Crash? then Died else Okay)
  {
    hide RemoveSnapshots;
    SnapshotsShape(s, r, snaps, f);
  }

  lemma StandingFits(c: Config, s: State, r: Record, snaps: seq<string>, f: DeleteFaults, deleted: bool)
    requires BothFit(c, s, r.key) && r.key.parent in c.parents && c.parents[r.key.parent].kind.Subvolume?
    requires !(RemoveSnapshots(s, r, snaps, f).1.Okay? && f.seen.Done? && r.key in s.disk.entries && Happens(f.dir))
    ensures var s' := Destroy(c.parents[r.key.parent], s, r, snaps, f, deleted).0; BothFit(c, s', r.key) && BothFit(c, Restart(s'), r.key)
  {
    hide Find, Remove, RemoveSubvolume, RemoveSnapshots;
    FindAfterRemove(s.vols, r.key, r.key);
    SubvolumeEntry(c.parents[r.key.parent], s, r, snaps, f);
  }

  lemma RemovedFits(c: Config, s: State, r: Record, snaps: seq<string>, f: DeleteFaults, deleted: bool)
    requires BothFit(c, s, r.key) && r.key.parent in c.parents && c.parents[r.key.parent].kind.Subvolume? && Find(s.vols, r.key) == Some(r)
    requires RemoveSnapshots(s, r, snaps, f).1.Okay? && f.seen.Done? && r.key in s.disk.entries && Happens(f.dir)
    ensures var (s', a) := Destroy(c.parents[r.key.parent], s, r, snaps, f, deleted);
      BothFit(c, if a.Killed? then Restart(s') else s', r.key) <==>
        !(if f.dir.FailLate? then TookID(s.vols, r.key) || TookID(s.file, r.key)
          else TookID(s.file, r.key) && ((r.subvolID != 0 && f.unlimit.Crash?) || !Happens(f.save)))
  {
    hide Find, Remove, RemoveSubvolume, RemoveSnapshots;
    FindAfterRemove(s.vols, r.key, r.key);
    SubvolumeEntry(c.parents[r.key.parent], s, r, snaps, f);
  }

  // Through every delete, whatever fails or dies in it, an unfinished volume can
  // still be finished exactly unless the subvolume was removed and the record of
  // its id was not.
  lemma DeleteFits(c: Config, s: State, k: Key, destroyData: bool, f: DeleteFaults)
    requires BothFit(c, s, k)
    ensures BothFit(c, Next(c, s, OpDelete(k, destroyData, f)), k) <==> !Tears(c, s, k, destroyData, f)
  {
    hide Destroy, BothFit, RemoveSnapshots, TookID;
    RestartFits(c, s, k);
    if !BadTarget(c, k) && Find(s.vols, k).Some? {
      var p, r := c.parents[k.parent], Find(s.vols, k).value;
      if p.kind.Project? {
        ProjectFits(c, s, r, r.snapshots, f, true);
        ProjectFits(c, s, r, [], f, false);
      } else if k !in s.disk.entries {
        StandingFits(c, s, r, [], f, false);
      } else if RemoveSnapshots(s, r, r.snapshots, f).1.Okay? && f.seen.Done? && Happens(f.dir) {
        RemovedFits(c, s, r, r.snapshots, f, true);
      } else {
        StandingFits(c, s, r, r.snapshots, f, true);
      }
    }
  }

  lemma RestartFits(c: Config, s: State, k: Key)
    requires BothFit(c, s, k)
    ensures BothFit(c, Restart(s), k)
  {
  }

  // A finished record rewritten, and perhaps saved; nothing at its place changed.
  lemma RewriteFits(c: Config, s: State, d: Disk, r: Record, o: Outcome)
    requires BothFit(c, s, r.key) && d.entries == s.disk.entries && Find(s.vols, r.key).Some? && !r.pending
    ensures BothFit(c, s.(disk := d), r.key) && BothFit(c, SaveStep(s.(disk := d, vols := Update(s.vols, r)), o), r.key)
  {
    hide Update, Find;
    FindAfterUpdate(s.vols, r, r.key);
  }

  lemma ResizeFits(c: Config, s: State, q: ResizeReq, f: ChangeFaults)
    requires BothFit(c, s, q.key)
    ensures BothFit(c, Resize(c, s, q, f).0, q.key)
  {
    hide Update, BothFit, SaveStep;
    var found := Recorded(c, s, q.key, f.check);
    if found.Ok? {
      var s1 := LimitStep(c.parents[q.key.parent], s, found.value, q.quota, f.effect);
      RewriteFits(c, s, s1.disk, found.value.(quota := q.quota), f.save);
      assert s1 == s.(disk := s1.disk);
    }
  }

  lemma SnapshotFits(c: Config, s: State, k: Key, name: string, f: ChangeFaults)
    requires BothFit(c, s, k)
    ensures BothFit(c, Snapshot(c, s, k, name, f).0, k)
  {
    hide Update, BothFit, SaveStep;
    var found := Recorded(c, s, k, f.check);
    if found.Ok? {
      var r := found.value.(snapshots := found.value.snapshots + [name]);
      var have := if k in s.disk.snaps then s.disk.snaps[k] else {};
      RewriteFits(c, s, s.disk.(snaps := s.disk.snaps[k := have + {name}]), r, f.save);
      RewriteFits(c, s, s.disk, r, f.save);
    }
  }

  lemma FrameFits(c: Config, s: State, s': State, k: Key)
    requires SameAt(s, s', k) && BothFit(c, s, k)
    ensures BothFit(c, s', k)
  {
  }

  predicate TearsAt(c: Config, s: State, op: Op, k: Key) {
    op.OpDelete? && op.key == k && Tears(c, s, k, op.destroyData, op.deleteFaults)
  }

  // So through every call.
  lemma StaysFit(c: Config, s: State, op: Op, k: Key)
    requires ValidConfig(c) && Inv(c, s) && BothFit(c, s, k)
    ensures BothFit(c, Next(c, s, op), k) <==> !TearsAt(c, s, op, k)
  {
    hide Inv, Create, Delete, Resize, Snapshot, Fits, Tears;
    var (s', a) := Perform(c, s, op);
    if !Targets(op, k) {
      OthersUntouched(c, s, op, k);
      FrameFits(c, s, s', k);
    } else {
      match op
      case OpCreate(q, f) => CreateFits(c, s, q, f);
      case OpDelete(_, dd, f) => DeleteFits(c, s, k, dd, f);
      case OpResize(q, f) => ResizeFits(c, s, q, f);
      case OpSnapshot(_, name, f) => SnapshotFits(c, s, k, name, f);
    }
  }

  ghost predicate NeverTears(c: Config, s0: State, ops: seq<Op>, k: Key) {
    forall i :: 0 <= i < |ops| ==> !TearsAt(c, Exec(c, s0, ops[..i]), ops[i], k)
  }

  lemma {:induction false} RunFits(c: Config, s0: State, ops: seq<Op>, k: Key)
    requires ValidConfig(c) && Initial(c, s0) && NeverTears(c, s0, ops, k)
    ensures BothFit(c, Exec(c, s0, ops), k)
    decreases |ops|
  {
    hide Next, Inv, TearsAt;
    if ops != [] {
      var before := ops[..|ops| - 1];
      forall i | 0 <= i < |before| ensures !TearsAt(c, Exec(c, s0, before[..i]), before[i], k) {
        assert ops[..i] == before[..i];
      }
      RunFits(c, s0, before, k);
      RunKeeps(c, s0, before);
      StaysFit(c, Exec(c, s0, before), ops[|ops| - 1], k);
    }
  }

  // Over every run, whatever was asked of other volumes and of this one, whatever
  // failed and died: a volume left unfinished is finished by the next clean
  // creation of it, and after a restart too, as long as no delete tore it -- and
  // so always when it is a directory.
  lemma AlwaysFinishes(c: Config, s0: State, ops: seq<Op>, q: CreateReq)
    requires ValidConfig(c) && Initial(c, s0)
    requires q.key.parent in c.parents && c.parents[q.key.parent].kind.Subvolume? ==> NeverTears(c, s0, ops, q.key)
    ensures forall s :: (s == Exec(c, s0, ops) || s == Restart(Exec(c, s0, ops))) && TakesUp(c, s, q) ==>
      var (s', a) := Create(c, s, q, CLEAN_CREATE); a == Made(true) && Complete(c, s', q)
  {
    hide Exec, Create, Inv, CanFinish, Complete;
    assert NeverTears(c, s0, ops, q.key);
    RunFits(c, s0, ops, q.key);
    RunKeeps(c, s0, ops);
    var now := Exec(c, s0, ops);
    InvFacts(c, now);
    RestartKeeps(c, now);
    hide NeverTears;
    if TakesUp(c, now, q) { FinishesExactly(c, now, q); }
    if TakesUp(c, Restart(now), q) { FinishesExactly(c, Restart(now), q); }
  }

  /********** What is not taken up **********/

  // A pending record, in memory and in the file, of what is not its own.
  predicate Stuck(c: Config, s: State, k: Key) {
    StuckIn(c, s.disk, s.vols, k) && StuckIn(c, s.disk, s.file, k)
  }

  predicate StuckIn(c: Config, d: Disk, list: seq<Record>, k: Key) {
    && k.parent in c.parents && Find(list, k).Some? && Find(list, k).value.pending && k in d.entries
    && Owned(c.parents[k.parent], d, Find(list, k).value).NotOurs?
  }

  lemma StuckCreate(p: Parent, s: State, r: Record, f: CreateFaults)
    requires r.key in s.disk.entries && Owned(p, s.disk, r).NotOurs?
    ensures var (s', a) := Finish(p, s, r, f); s' == s && !a.Made? && !a.Gone? && !a.Changed?
  {
  }

  lemma StuckCall(c: Config, s: State, op: Op, k: Key)
    requires StuckIn(c, s.disk, s.vols, k) && Targets(op, k)
    ensures var (s', a) := Perform(c, s, op); s' == s && !a.Made? && !a.Gone? && !a.Changed?
  {
    hide Finish, Begin, Owned, Destroy, LimitStep, SavedChange, Find;
    if op.OpCreate? { StuckCreate(c.parents[k.parent], s, Find(s.vols, k).value, op.createFaults); }
  }

  lemma StuckEntry(c: Config, s: State, k: Key)
    requires StuckIn(c, s.disk, s.vols, k)
    ensures k in s.disk.entries
  {
  }

  lemma StuckFrame(c: Config, s: State, s': State, k: Key)
    requires SameAt(s, s', k) && Stuck(c, s, k)
    ensures Stuck(c, s', k) && s'.disk.entries[k] == s.disk.entries[k]
  {
  }

  // Neither a creation nor a delete gets it any further, nor does a restart.
  lemma StuckStays(c: Config, s: State, op: Op, k: Key)
    requires Stuck(c, s, k)
    ensures Stuck(c, Next(c, s, op), k) && Next(c, s, op).disk.entries[k] == s.disk.entries[k]
    ensures Targets(op, k) ==> var (s', a) := Perform(c, s, op); s' == s && !a.Made? && !a.Gone? && !a.Changed?
  {
    hide Perform, Owned, Find, StuckIn;
    if Targets(op, k) {
      StuckCall(c, s, op, k);
    } else {
      OthersUntouched(c, s, op, k);
      StuckFrame(c, s, Perform(c, s, op).0, k);
    }
    StuckEntry(c, s, k);
  }

  // A volume whose subvolume a delete removed before it failed, with the record
  // of an unfinished creation left: the creation, repeated, makes a subvolume the
  // record does not own, and is refused.
  lemma RefusesItsOwn(c: Config, s: State, q: CreateReq)
    requires ValidConfig(c) && Inv(c, s) && TakesUp(c, s, q) && q.key !in s.disk.entries
    requires c.parents[q.key.parent].kind.Subvolume? && Find(s.vols, q.key).value.subvolID != 0
    ensures var (s', a) := Create(c, s, q, CLEAN_CREATE);
      && a == Refused(AlreadyExists) && StuckIn(c, s'.disk, s'.vols, q.key) && s'.file == s.file
  {
    var r := Find(s.vols, q.key).value;
    WorkingOn(c, s, r);
    InvFacts(c, s);
  }

  // The record of an unfinished creation, which took the id of its subvolume.
  function HalfIn(name: string): Record {
    Subvol(name, []).(pending := true)
  }

  // Made but not given to the group, and deleted with an error that came late.
  function TornOps(name: string): seq<Op> {
    var k := Key("pool", name);
    [OpCreate(CreateReq(k, 7, 0, None), CLEAN_CREATE.(group := Fail)), OpDelete(k, false, CLEAN_DELETE.(dir := FailLate))]
  }

  lemma TornReached(name: string)
    requires ValidName(name)
    ensures Exec(ONE_POOL, NOTHING, TornOps(name)) ==
      State([HalfIn(name)], [HalfIn(name).(subvolID := 0)], Disk(map[], map[("pool", 1) := 7], map[], 2))
  {
    var k, p, q := Key("pool", name), ONE_POOL.parents["pool"], CreateReq(Key("pool", name), 7, 0, None);
    var r := HalfIn(name).(subvolID := 0);
    var f, ops := CLEAN_CREATE.(group := Fail), TornOps(name);
    var s0 := State([r], [r], NOTHING.disk);
    var s1 := State([HalfIn(name)], [r], Disk(map[k := Dir(1, false, {})], map[("pool", 1) := 7], map[], 2));
    assert NewRecord(p, NOTHING, q) == r && [] + [r] == [r];
    BeginShape(ONE_POOL, NOTHING, q, f);
    assert Build(p, s0, r, f) == (s1, HalfIn(name), Unbuilt) by {
      assert Update([r], HalfIn(name)) == [HalfIn(name)];
      assert map[][k := Dir(1, false, {})] == map[k := Dir(1, false, {})];
      assert map[][("pool", 1) := 7] == map[("pool", 1) := 7];
    }
    assert ops[..1] == [ops[0]] && ops[..1][..0] == [] && ops[..2][..1] == ops[..1] && ops[..2] == ops;
    assert Exec(ONE_POOL, NOTHING, []) == NOTHING;
    assert Exec(ONE_POOL, NOTHING, ops[..1]) == s1;
    assert s1.disk.entries - {k} == map[];
  }

  lemma TornRun(name: string)
    requires ValidName(name)
    ensures var s := Exec(ONE_POOL, NOTHING, TornOps(name));
      var (s', a) := Create(ONE_POOL, s, CreateReq(Key("pool", name), 7, 0, None), CLEAN_CREATE);
      && a == Refused(AlreadyExists)
      && forall dd, f :: !Delete(ONE_POOL, s', Key("pool", name), dd, f).1.Gone?
  {
    MadeReached(name);
    RunKeeps(ONE_POOL, NOTHING, TornOps(name));
    TornReached(name);
    RefusesItsOwn(ONE_POOL, Exec(ONE_POOL, NOTHING, TornOps(name)), CreateReq(Key("pool", name), 7, 0, None));
  }
}
