/** Interrupted calls taken up again: a creation repeated after any faults ends
    where an uninterrupted one does, and a delete repeated leaves nothing. */
module ProvisionResume {
  import opened Wrappers
  import opened Provision
  import opened ProvisionHolds
  import opened ProvisionSafety

  /********** A creation repeated **********/

  // One volume to make, from a state that neither records it nor has anything there.
  datatype Job = Job(p: Parent, s0: State, key: Key, quota: nat) {
    function ProjectID(): nat {
      if p.kind.Project? && LowestFree(s0.vols, p.lo, p.hi).Some? then LowestFree(s0.vols, p.lo, p.hi).value else 0
    }

    function SubvolID(): nat {
      if p.kind.Project? then 0 else s0.disk.nextID
    }

    function ID(): nat {
      if p.kind.Project? then ProjectID() else SubvolID()
    }

    ghost predicate Valid() {
      && quota > 0 && Find(s0.vols, key).None? && key !in s0.disk.entries && s0.file == s0.vols && s0.disk.nextID > 0
      && (p.kind.Project? ==> p.lo >= 1 && LowestFree(s0.vols, p.lo, p.hi).Some?)
    }

    // The disk once the volume is made.
    function Final(): Disk {
      Disk(s0.disk.entries[key := Dir(ID(), true, {})], s0.disk.limits[(key.parent, ID()) := quota], s0.disk.snaps,
           if p.kind.Project? then s0.disk.nextID else s0.disk.nextID + 1)
    }

    ghost predicate IsRecord(r: Record) {
      && r.key == key && r.quota == quota && r.projectID == ProjectID() && r.snapshots == []
      && (r.subvolID == 0 || r.subvolID == SubvolID())
    }

    predicate Listed(list: seq<Record>) {
      |list| == |s0.vols| + 1
    }

    ghost predicate IsList(list: seq<Record>) {
      list == s0.vols || (Listed(list) && list == s0.vols + [list[|s0.vols|]] && IsRecord(list[|s0.vols|]))
    }

    // What of the volume is on disk: nothing, an entry not yet marked, one
    // marked, one limited, or all of it.
    ghost predicate IsDisk(d: Disk) {
      if key !in d.entries then d == s0.disk
      else
        var e := d.entries[key];
        && d.entries == s0.disk.entries[key := e] && e.Dir? && e.files == {} && d.snaps == s0.disk.snaps && d.nextID == Final().nextID
        && (e.id == ID() || (e.id == 0 && p.kind.Project?))
        && (d.limits == s0.disk.limits || d.limits == Final().limits)
        && (e.group ==> d == Final())
    }

    // A list may call the volume finished only when it is.
    ghost predicate Agrees(list: seq<Record>, d: Disk) {
      if Listed(list) then
        (!list[|s0.vols|].pending ==> d == Final() && list[|s0.vols|].subvolID == SubvolID())
        && (list[|s0.vols|].subvolID != 0 ==> key in d.entries)
      else key !in d.entries
    }

    ghost predicate Midway(s: State) {
      && (Listed(s.vols) ==> Listed(s.file))
      && IsList(s.vols) && IsList(s.file) && IsDisk(s.disk) && Agrees(s.vols, s.disk) && Agrees(s.file, s.disk)
    }

    // Where an uninterrupted creation ends; only the time written down differs.
    ghost predicate Finished(s: State) {
      && s.disk == Final() && s.file == s.vols && FinishedList(s.vols)
    }

    ghost predicate FinishedList(list: seq<Record>) {
      IsList(list) && Listed(list) && !list[|s0.vols|].pending && list[|s0.vols|].subvolID == SubvolID()
    }
  }

  function After(s: State, a: Answer): State {
    if a.Killed? then Restart(s) else s
  }

  lemma FindLast(j: Job, list: seq<Record>)
    requires j.Valid() && j.IsList(list)
    ensures Find(list, j.key) == if j.Listed(list) then Some(list[|j.s0.vols|]) else None
  {
    if j.Listed(list) { FindAppended(j.s0.vols, list[|j.s0.vols|]); }
  }

  lemma FindAppended(vols: seq<Record>, r: Record)
    requires Find(vols, r.key).None?
    ensures Find(vols + [r], r.key) == Some(r)
  {
    if vols != [] {
      assert (vols + [r])[1..] == vols[1..] + [r];
      assert vols[0] in vols;
      FindAppended(vols[1..], r);
    }
  }

  lemma UpdateAppended(vols: seq<Record>, r: Record, r': Record)
    requires Find(vols, r.key).None? && r'.key == r.key
    ensures Update(vols + [r], r') == vols + [r']
  {
    forall i | 0 <= i < |vols| ensures Update(vols + [r], r')[i] == vols[i] {
      assert vols[i] in vols;
    }
  }

  // The state while the backend works: memory ends in the pending record r.
  ghost predicate Working(j: Job, s: State, r: Record) {
    j.Midway(s) && r.pending && s.vols == j.s0.vols + [r] && j.IsRecord(r) && j.Listed(s.file)
  }

  lemma MakeMidway(j: Job, s: State, r: Record, o: Outcome)
    requires j.Valid() && Working(j, s, r)
    ensures var (s1, v) := MakeStep(j.p, s, r.key, o);
      && Working(j, s1, r) && s1.vols == s.vols && s1.file == s.file
      && (v.Okay? ==> j.key in s1.disk.entries && Owned(j.p, s1.disk, r).Ours?)
      && (v.Okay? <==> o.Done?)
  {
  }

  lemma TagMidway(j: Job, s: State, r: Record, o: Outcome)
    requires j.Valid() && Working(j, s, r) && j.key in s.disk.entries
    ensures var (s1, r1) := TagStep(j.p, s, r, o);
      && Working(j, s1, r1) && s1.file == s.file && j.key in s1.disk.entries
      && (o.Done? ==> s1.disk.entries[j.key].id == j.ID() && r1.subvolID == j.SubvolID())
  {
    var (s1, r1) := TagStep(j.p, s, r, o);
    UpdateAppended(j.s0.vols, r, r1);
    if j.p.kind.Project? && s1.disk != s.disk {
      assert s1.disk.entries == j.s0.disk.entries[j.key := s1.disk.entries[j.key]];
      assert s.disk.entries[j.key].group ==> s1.disk == s.disk;
    }
  }

  lemma LimitMidway(j: Job, s: State, r: Record, o: Outcome)
    requires j.Valid() && Working(j, s, r) && j.key in s.disk.entries && s.disk.entries[j.key].id == j.ID() && r.subvolID == j.SubvolID()
    ensures var s1 := LimitStep(j.p, s, r, r.quota, o);
      && Working(j, s1, r) && s1.disk.entries == s.disk.entries && s1.file == s.file
      && (o.Done? ==> s1.disk.limits == j.Final().limits)
  {
    var s1 := LimitStep(j.p, s, r, r.quota, o);
    assert LimitID(j.p, r) == j.ID();
    if Happens(o) {
      assert s1.disk.limits == j.Final().limits;
      assert s.disk == j.Final() ==> s1.disk == s.disk;
    }
  }

  lemma GroupMidway(j: Job, s: State, r: Record, o: Outcome)
    requires j.Valid() && Working(j, s, r) && j.key in s.disk.entries && s.disk.entries[j.key].id == j.ID() && r.subvolID == j.SubvolID()
    requires s.disk.limits == j.Final().limits
    ensures var s1 := GroupStep(s, r.key, o);
      Working(j, s1, r) && s1.file == s.file && (o.Done? ==> s1.disk == j.Final())
  {
    var s1 := GroupStep(s, r.key, o);
    if Happens(o) { assert s1.disk.entries == j.Final().entries; }
  }

  lemma BuildMidway(j: Job, s: State, r: Record, f: CreateFaults)
    requires j.Valid() && Working(j, s, r)
    ensures var (s1, r1, v) := Build(j.p, s, r, f);
      && Working(j, s1, r1) && s1.file == s.file && !v.Taken?
      && (v.Whole? ==> s1.disk == j.Final() && r1.subvolID == j.SubvolID())
      && (f.make.Done? && f.check.Done? && f.tag.Done? && f.limit.Done? && f.group.Done? ==> v.Whole?)
  {
    hide Working, Owned;
    WorkingFacts(j, s, r);
    var (s1, v1) := MakeStep(j.p, s, r.key, f.make);
    MakeMidway(j, s, r, f.make);
    if v1.Okay? && f.check.Done? {
      WorkingFacts(j, s1, r);
      var (s2, r2) := TagStep(j.p, s1, r, f.tag);
      TagMidway(j, s1, r, f.tag);
      if f.tag.Done? {
        WorkingFacts(j, s2, r2);
        var s3 := LimitStep(j.p, s2, r2, r2.quota, f.limit);
        LimitMidway(j, s2, r2, f.limit);
        if f.limit.Done? { GroupMidway(j, s3, r2, f.group); }
      }
    }
  }

  lemma WorkingFacts(j: Job, s: State, r: Record)
    requires Working(j, s, r)
    ensures r.key == j.key && (j.key in s.disk.entries ==> s.disk.entries[j.key].Dir?)
  {
  }

  // Saved or not, a finished record is half way at least.
  lemma DoneMidway(j: Job, s: State, r: Record, o: Outcome)
    requires j.Valid() && Working(j, s, r) && s.disk == j.Final() && r.subvolID == j.SubvolID()
    ensures var s' := SaveStep(s.(vols := Update(s.vols, r.(pending := false))), o);
      j.Midway(s') && (o.Done? ==> j.Finished(s'))
  {
    UpdateAppended(j.s0.vols, r, r.(pending := false));
  }

  lemma DropMidway(j: Job, s: State, r: Record, o: Outcome)
    requires j.Valid() && Working(j, s, r) && r.key !in s.disk.entries
    ensures j.Midway(SaveStep(s.(vols := Remove(s.vols, r.key)), o))
  {
    RemoveAppended(j.s0.vols, r);
  }

  lemma SettleMidway(j: Job, s: State, r: Record, v: Built, f: CreateFaults)
    requires j.Valid() && Working(j, s, r) && !v.Taken?
    requires v.Whole? ==> s.disk == j.Final() && r.subvolID == j.SubvolID()
    ensures var (s', a) := Settle(s, r, v, f);
      j.Midway(s') && (v.Whole? && f.saveDone.Done? ==> a == Made(true) && j.Finished(s'))
  {
    if v.Whole? { DoneMidway(j, s, r, f.saveDone); }
    else if v.Unbuilt? && r.key !in s.disk.entries { DropMidway(j, s, r, f.saveDrop); }
  }

  lemma FinishMidway(j: Job, s: State, r: Record, f: CreateFaults)
    requires j.Valid() && Working(j, s, r)
    ensures var (s', a) := Finish(j.p, s, r, f);
      j.Midway(s') && (f == CLEAN_CREATE ==> a == Made(true) && j.Finished(s'))
  {
    hide Working, Build, Settle;
    var (s1, r1, v) := Build(j.p, s, r, f);
    BuildMidway(j, s, r, f);
    SettleMidway(j, s1, r1, v, f);
  }

  // A first attempt, or one after a creation that came to nothing.
  lemma BeginMidway(c: Config, j: Job, s: State, q: CreateReq, f: CreateFaults)
    requires j.Valid() && j.Midway(s) && s.vols == j.s0.vols && q.key == j.key && q.quota == j.quota
    requires q.key.parent in c.parents && c.parents[q.key.parent] == j.p
    ensures var (s', a) := Begin(j.p, s, q, f);
      j.Midway(After(s', a)) && (f == CLEAN_CREATE && !NoRoom(q.free, q.quota) ==> a == Made(true) && j.Finished(s'))
  {
    hide Begin, Finish, Working;
    BeginShape(c, s, q, f);
    var r := NewRecord(j.p, s, q);
    var both := s.(vols := s.vols + [r], file := s.vols + [r]);
    StartsWorking(j, s, r);
    FinishMidway(j, both, r, f);
  }

  lemma StartsWorking(j: Job, s: State, r: Record)
    requires j.Valid() && j.Midway(s) && s.vols == j.s0.vols && j.IsRecord(r) && r.pending && r.subvolID == 0
    ensures Working(j, s.(vols := s.vols + [r], file := s.vols + [r]), r)
    ensures j.Midway(s.(file := s.vols + [r])) && j.Midway(Restart(s.(vols := s.vols + [r])))
  {
  }

  predicate Asks(c: Config, j: Job, q: CreateReq) {
    && q.key == j.key && q.quota == j.quota && !BadTarget(c, q.key) && BadQuota(c, q.quota).None?
    && c.parents[q.key.parent] == j.p
  }

  lemma CreateMidway(c: Config, j: Job, s: State, q: CreateReq, f: CreateFaults)
    requires j.Valid() && j.Midway(s) && Asks(c, j, q)
    ensures j.Midway(Next(c, s, OpCreate(q, f)))
    ensures f == CLEAN_CREATE && (!NoRoom(q.free, q.quota) || j.Listed(s.vols)) ==>
      var (s', a) := Create(c, s, q, f);
      && a.Made? && s'.disk == j.Final() && j.FinishedList(s'.vols)
      && (if a.created then s'.file == s'.vols else s' == s)
  {
    hide Begin, Finish;
    FindLast(j, s.vols);
    if !j.Listed(s.vols) {
      BeginMidway(c, j, s, q, f);
    } else {
      var r := s.vols[|j.s0.vols|];
      if r.pending {
        PendingIsWorking(j, s, r);
        FinishMidway(j, s, r, f);
      }
    }
  }

  // Memory has the record only once the file does too.
  lemma PendingIsWorking(j: Job, s: State, r: Record)
    requires j.Valid() && j.Midway(s) && j.Listed(s.vols) && r == s.vols[|j.s0.vols|] && r.pending
    ensures Working(j, s, r)
  {
  }

  // Calls that ask for the job's volume again, and restarts between them.
  ghost predicate Repeats(j: Job, ops: seq<Op>) {
    forall i :: 0 <= i < |ops| ==> ops[i].OpRestart? || (ops[i].OpCreate? && ops[i].req.key == j.key && ops[i].req.quota == j.quota)
  }

  lemma {:induction false} RepeatsMidway(c: Config, j: Job, q: CreateReq, ops: seq<Op>)
    requires j.Valid() && Asks(c, j, q) && Repeats(j, ops)
    ensures j.Midway(Exec(c, j.s0, ops))
    decreases |ops|
  {
    hide Create;
    if ops != [] {
      RepeatsMidway(c, j, q, ops[..|ops| - 1]);
      var s, op := Exec(c, j.s0, ops[..|ops| - 1]), ops[|ops| - 1];
      if op.OpCreate? { CreateMidway(c, j, s, op.req, op.createFaults); }
    }
  }

  // The same volumes, whenever they were created.
  ghost predicate SameVolumes(a: seq<Record>, b: seq<Record>) {
    |a| == |b| && forall i :: 0 <= i < |a| ==> a[i].(created := 0) == b[i].(created := 0)
  }

  function JobOf(c: Config, s0: State, q: CreateReq): Job
    requires q.key.parent in c.parents
  {
    Job(c.parents[q.key.parent], s0, q.key, q.quota)
  }

  // A creation that succeeds on a fresh name is a job, and ends as it says.
  lemma CleanIsJob(c: Config, s0: State, q: CreateReq)
    requires ValidConfig(c) && s0.disk.nextID > 0 && s0.file == s0.vols && Find(s0.vols, q.key).None?
    requires Create(c, s0, q, CLEAN_CREATE).1.Made?
    ensures q.key.parent in c.parents
    ensures var j := JobOf(c, s0, q);
      && j.Valid() && Asks(c, j, q) && !NoRoom(q.free, q.quota) && j.Finished(Create(c, s0, q, CLEAN_CREATE).0)
  {
    var j := JobOf(c, s0, q);
    var p := j.p;
    BeginShape(c, s0, q, CLEAN_CREATE);
    if Admits(p, s0, q, CLEAN_CREATE) {
      assert j.Valid() && j.Midway(s0);
      CreateMidway(c, j, s0, q, CLEAN_CREATE);
    }
  }

  // Wherever a creation is cut off, and however often it is tried with faults,
  // a restart and the same creation without one end in the records and the disk
  // of a creation that was never interrupted.
  lemma CreateResumes(c: Config, s0: State, q: CreateReq, ops: seq<Op>, last: CreateReq)
    requires ValidConfig(c) && s0.disk.nextID > 0 && s0.file == s0.vols && Find(s0.vols, q.key).None?
    requires Create(c, s0, q, CLEAN_CREATE).1.Made? && Repeats(JobOf(c, s0, q), ops)
    requires last.key == q.key && last.quota == q.quota && !NoRoom(last.free, last.quota)
    ensures var once := Create(c, s0, q, CLEAN_CREATE).0;
      var (s, a) := Create(c, Restart(Exec(c, s0, ops)), last, CLEAN_CREATE);
      && a.Made? && s.disk == once.disk && s.file == s.vols && SameVolumes(s.vols, once.vols)
  {
    hide Create;
    CleanIsJob(c, s0, q);
    var j := JobOf(c, s0, q);
    RepeatsMidway(c, j, q, ops);
    CreateMidway(c, j, Restart(Exec(c, s0, ops)), last, CLEAN_CREATE);
  }

  // Memory already calls the volume finished, the file does not yet.
  predicate Unsaved(s: State, k: Key) {
    && Find(s.vols, k).Some? && !Find(s.vols, k).value.pending
    && Find(s.file, k).Some? && Find(s.file, k).value.pending
  }

  // Without the restart too, except that a creation whose last save failed is
  // answered from memory, and the file goes on calling the volume unfinished.
  lemma CreateResumesInProcess(c: Config, s0: State, q: CreateReq, ops: seq<Op>, last: CreateReq)
    requires ValidConfig(c) && s0.disk.nextID > 0 && s0.file == s0.vols && Find(s0.vols, q.key).None?
    requires Create(c, s0, q, CLEAN_CREATE).1.Made? && Repeats(JobOf(c, s0, q), ops)
    requires last.key == q.key && last.quota == q.quota && !NoRoom(last.free, last.quota)
    ensures var once := Create(c, s0, q, CLEAN_CREATE).0;
      var before := Exec(c, s0, ops);
      var (s, a) := Create(c, before, last, CLEAN_CREATE);
      && a.Made? && s.disk == once.disk && SameVolumes(s.vols, once.vols)
      && (SameVolumes(s.file, once.file) <==> !Unsaved(before, q.key))
  {
    hide Create, Begin, Finish;
    CleanIsJob(c, s0, q);
    var j := JobOf(c, s0, q);
    RepeatsMidway(c, j, q, ops);
    var before := Exec(c, s0, ops);
    CreateMidway(c, j, before, last, CLEAN_CREATE);
    FindLast(j, before.vols);
    FindLast(j, before.file);
    AnsweredFromMemory(c, j, before, last);
  }

  lemma AnsweredFromMemory(c: Config, j: Job, s: State, q: CreateReq)
    requires j.Valid() && j.Midway(s) && Asks(c, j, q)
    ensures Create(c, s, q, CLEAN_CREATE).1 == Made(false) ==> j.Listed(s.vols) && !s.vols[|j.s0.vols|].pending
    ensures j.Listed(s.vols) && !s.vols[|j.s0.vols|].pending ==> Create(c, s, q, CLEAN_CREATE).0 == s
  {
    hide Build;
    FindLast(j, s.vols);
  }

  // A creation whose last save failed: memory calls the volume finished and the
  // file does not, and the creation, repeated, is answered from memory.
  lemma UnsavedRun(name: string)
    requires ValidName(name)
    ensures var k := Key("disk", name);
      var q := CreateReq(k, 7, 0, None);
      var s := Exec(ONE_DISK, NOTHING, [OpCreate(q, CLEAN_CREATE.(saveDone := Fail))]);
      Unsaved(s, k) && Create(ONE_DISK, s, q, CLEAN_CREATE) == (s, Made(false))
  {
    var k := Key("disk", name);
    var q := CreateReq(k, 7, 0, None);
    var f := CLEAN_CREATE.(saveDone := Fail);
    var r := HalfMade(name).vols[0];
    assert LowestFree([], 5, 9) == Some(5);
    assert NewRecord(ONE_DISK.parents["disk"], NOTHING, q) == r;
    BeginShape(ONE_DISK, NOTHING, q, f);
    assert [] + [r] == [r];
    assert Update([r], r.(pending := false)) == [r.(pending := false)];
    assert [OpCreate(q, f)][..0] == [];
    assert Exec(ONE_DISK, NOTHING, []) == NOTHING;
  }
}
