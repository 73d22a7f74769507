/** The provisioner as the process runs it: one object whose methods change its
    records, the file and the disk in place, each proved to do what the
    transaction it implements says. */
module ProvisionService {
  import opened Wrappers
  import opened Provision

  class Service {
    const config: Config
    var vols: seq<Record>
    var file: seq<Record>
    var disk: Disk

    // The start: what the file records is what memory holds.
    constructor (c: Config, kept: seq<Record>, d: Disk)
      ensures config == c && View() == State(kept, kept, d)
    {
      config, vols, file, disk := c, kept, kept, d;
    }

    function View(): State
      reads this
    {
      State(vols, file, disk)
    }

    method Get(k: Key) returns (r: Option<Record>)
      ensures r == Find(vols, k)
    {
      var i := 0;
      while i < |vols|
        invariant 0 <= i <= |vols|
        invariant Find(vols, k) == Find(vols[i..], k)
      {
        if vols[i].key == k { return Some(vols[i]); }
        assert vols[i..][1..] == vols[i + 1..];
        i := i + 1;
      }
      return None;
    }

    // The lowest id of the range no record holds, or none only when the records
    // hold them all.
    method Allocate(p: Parent) returns (id: Option<nat>)
      ensures id.Some? ==> p.lo <= id.value <= p.hi && !Held(vols, id.value) && forall j :: p.lo <= j < id.value ==> Held(vols, j)
      ensures id.None? ==> forall j :: p.lo <= j <= p.hi ==> Held(vols, j)
      ensures id == LowestFree(vols, p.lo, p.hi)
    {
      var held: set<nat> := {};
      var i := 0;
      while i < |vols|
        invariant 0 <= i <= |vols|
        invariant forall j :: j in held <==> Held(vols[..i], j)
      {
        if vols[i].projectID != 0 { held := held + {vols[i].projectID}; }
        HeldGrows(vols, i);
        i := i + 1;
      }
      assert vols[..i] == vols;
      var n := p.lo;
      while n <= p.hi
        invariant p.lo <= n
        invariant forall j :: p.lo <= j < n ==> Held(vols, j)
        invariant LowestFree(vols, p.lo, p.hi) == LowestFree(vols, n, p.hi)
        decreases p.hi + 1 - n
      {
        if n !in held { return Some(n); }
        n := n + 1;
      }
      return None;
    }

    method Save(o: Outcome)
      modifies this
      ensures View() == SaveStep(old(View()), o)
    {
      if Happens(o) { file := vols; }
    }

    // What Go changes through the record's pointer.
    method Rewrite(r: Record)
      modifies this
      ensures View() == old(View()).(vols := Update(old(vols), r))
    {
      var next := [];
      var i := 0;
      while i < |vols|
        invariant 0 <= i <= |vols| && |next| == i && View() == old(View())
        invariant forall j :: 0 <= j < i ==> next[j] == Update(vols, r)[j]
      {
        next := next + [if vols[i].key == r.key then r else vols[i]];
        i := i + 1;
      }
      vols := next;
      assert vols == Update(old(vols), r);
    }

    method Drop(k: Key)
      modifies this
      ensures View() == old(View()).(vols := Remove(old(vols), k))
    {
      var kept: seq<Record> := [];
      var i := 0;
      while i < |vols|
        invariant 0 <= i <= |vols| && View() == old(View())
        invariant kept + Remove(vols[i..], k) == Remove(vols, k)
      {
        RemoveStep(kept, vols, k, i);
        if vols[i].key != k { kept := kept + [vols[i]]; }
        i := i + 1;
      }
      vols := kept;
    }

    /********** The backend's effects **********/

    method Make(p: Parent, k: Key, o: Outcome) returns (v: Verdict)
      modifies this
      ensures (View(), v) == MakeStep(p, old(View()), k, o)
    {
      v := VerdictOf(o);
      if k in disk.entries {
        if o.Done? && p.kind.Project? && disk.entries[k].Other? { v := Errored; }
      } else if Happens(o) {
        if p.kind.Project? {
          disk := disk.(entries := disk.entries[k := Dir(0, false, {})]);
        } else {
          disk := disk.(entries := disk.entries[k := Dir(disk.nextID, false, {})], nextID := disk.nextID + 1);
        }
      }
    }

    method Tag(p: Parent, r0: Record, o: Outcome) returns (r: Record)
      requires r0.key in disk.entries && disk.entries[r0.key].Dir?
      modifies this
      ensures (View(), r) == TagStep(p, old(View()), r0, o)
    {
      r := r0;
      if p.kind.Subvolume? {
        if o.Done? {
          r := r0.(subvolID := disk.entries[r0.key].id);
          Rewrite(r);
        }
      } else if Happens(o) {
        disk := disk.(entries := disk.entries[r.key := disk.entries[r.key].(id := r.projectID)]);
      }
    }

    method SetLimit(p: Parent, r: Record, quota: nat, o: Outcome)
      modifies this
      ensures View() == LimitStep(p, old(View()), r, quota, o)
    {
      if Happens(o) { disk := disk.(limits := disk.limits[(r.key.parent, LimitID(p, r)) := quota]); }
    }

    method LiftLimit(p: Parent, r: Record, o: Outcome)
      modifies this
      ensures View() == UnlimitStep(p, old(View()), r, o)
    {
      if Happens(o) { disk := disk.(limits := disk.limits - {(r.key.parent, LimitID(p, r))}); }
    }

    method GiveToGroup(k: Key, o: Outcome)
      requires k in disk.entries && disk.entries[k].Dir?
      modifies this
      ensures View() == GroupStep(old(View()), k, o)
    {
      if Happens(o) { disk := disk.(entries := disk.entries[k := disk.entries[k].(group := true)]); }
    }

    method BackendCreate(p: Parent, r0: Record, f: CreateFaults) returns (r: Record, built: Built)
      modifies this
      ensures (View(), r, built) == Build(p, old(View()), r0, f)
    {
      r := r0;
      var v := Make(p, r.key, f.make);
      if !v.Okay? { return r, Failing(v); }
      if !f.check.Done? { return r, Failing(VerdictOf(f.check)); }
      match Owned(p, disk, r)
      case NotOurs => return r, Taken;
      case Absent => return r, Unbuilt;
      case Ours =>
        r := Tag(p, r, f.tag);
        if !f.tag.Done? { return r, Failing(VerdictOf(f.tag)); }
        SetLimit(p, r, r.quota, f.limit);
        if !f.limit.Done? { return r, Failing(VerdictOf(f.limit)); }
        GiveToGroup(r.key, f.group);
        built := if f.group.Done? then Whole else Failing(VerdictOf(f.group));
    }

    /********** The calls **********/

    method CreateVolume(q: CreateReq, f: CreateFaults) returns (a: Answer)
      modifies this
      ensures (View(), a) == Create(config, old(View()), q, f)
    {
      if BadTarget(config, q.key) { return Refused(InvalidArgument); }
      if BadQuota(config, q.quota).Some? { return Refused(BadQuota(config, q.quota).value); }
      var p := config.parents[q.key.parent];
      var found := Get(q.key);
      match found
      case Some(r) =>
        if r.quota != q.quota { return Refused(AlreadyExists); }
        if !r.pending {
          if !f.look.Done? { return if f.look.Crash? then Killed else Broken; }
          return if Owned(p, disk, r).Ours? then Made(false) else Refused(FailedPrecondition);
        }
        a := FinishVolume(p, r, f);
      case None =>
        a := BeginVolume(p, q, f);
    }

    method BeginVolume(p: Parent, q: CreateReq, f: CreateFaults) returns (a: Answer)
      requires Find(vols, q.key).None?
      modifies this
      ensures (View(), a) == Begin(p, old(View()), q, f)
    {
      if !f.look.Done? { return if f.look.Crash? then Killed else Broken; }
      if q.key in disk.entries { return Refused(AlreadyExists); }
      if NoRoom(q.free, q.quota) { return Refused(ResourceExhausted); }
      var r := Record(q.key, q.quota, q.now, true, 0, 0, []);
      if p.kind.Project? {
        var id := Allocate(p);
        if id.None? { return Refused(ResourceExhausted); }
        r := r.(projectID := id.value);
      }
      assert r == NewRecord(p, View(), q);
      vols := vols + [r];
      Save(f.savePending);
      match VerdictOf(f.savePending)
      case Died => a := Killed;
      case Errored =>
        Drop(q.key);
        a := Broken;
      case Okay => a := FinishVolume(p, r, f);
    }

    method FinishVolume(p: Parent, r0: Record, f: CreateFaults) returns (a: Answer)
      modifies this
      ensures (View(), a) == Finish(p, old(View()), r0, f)
    {
      var r, built := BackendCreate(p, r0, f);
      match built
      case Taken => a := Refused(AlreadyExists);
      case Dead => a := Killed;
      case Unbuilt =>
        if f.lookAfter.Crash? { return Killed; }
        if !f.lookAfter.Done? || r.key in disk.entries { return Broken; }
        Drop(r.key);
        Save(f.saveDrop);
        a := if f.saveDrop.Crash? then Killed else Broken;
      case Whole =>
        Rewrite(r.(pending := false));
        Save(f.saveDone);
        a := match VerdictOf(f.saveDone) case Okay => Made(true) case Errored => Broken case Died => Killed;
    }

    method DestroyProject(p: Parent, r: Record, f: DeleteFaults) returns (v: Verdict)
      modifies this
      ensures (View(), v) == RemoveProject(p, old(View()), r, f)
    {
      if r.key in disk.entries {
        if disk.entries[r.key].Other? { return Errored; }
        var e := disk.entries[r.key];
        disk := disk.(entries := disk.entries[r.key := e.(files := if Happens(f.tree) then {} else e.files * f.left)]);
        if !f.tree.Done? { return VerdictOf(f.tree); }
        if Happens(f.dir) { disk := disk.(entries := disk.entries - {r.key}); }
        if !f.dir.Done? { return VerdictOf(f.dir); }
      }
      if r.projectID == 0 { return Okay; }
      LiftLimit(p, r, f.unlimit);
      v := VerdictOf(f.unlimit);
    }

    method DestroySnapshots(r: Record, snaps: seq<string>, f: DeleteFaults) returns (v: Verdict)
      modifies this
      ensures (View(), v) == RemoveSnapshots(old(View()), r, snaps, f)
    {
      var stop := if Happens(f.snaps) || f.cut >= |snaps| then |snaps| else f.cut;
      var i := 0;
      WithoutMore(disk, r.key, {}, "");
      assert Names(snaps[..0]) == {};
      while i < stop
        invariant 0 <= i <= stop <= |snaps|
        invariant View() == old(View()).(disk := Without(old(disk), r.key, Names(snaps[..i])))
      {
        NamesGrow(snaps, i);
        WithoutMore(old(disk), r.key, Names(snaps[..i]), snaps[i]);
        if r.key in disk.snaps { disk := disk.(snaps := disk.snaps[r.key := disk.snaps[r.key] - {snaps[i]}]); }
        i := i + 1;
      }
      assert snaps[..|snaps|] == snaps;
      if !f.snaps.Done? { return VerdictOf(f.snaps); }
      if r.key in disk.snaps && disk.snaps[r.key] != {} { return Errored; }
      if Happens(f.snapDir) { disk := disk.(snaps := disk.snaps - {r.key}); }
      v := VerdictOf(f.snapDir);
    }

    method DestroySubvolume(p: Parent, r: Record, snaps: seq<string>, f: DeleteFaults) returns (v: Verdict)
      modifies this
      ensures (View(), v) == RemoveSubvolume(p, old(View()), r, snaps, f)
    {
      v := DestroySnapshots(r, snaps, f);
      if !v.Okay? { return; }
      if f.seen.Crash? { return Died; }
      if f.seen.Done? && r.key in disk.entries {
        if Happens(f.dir) { disk := disk.(entries := disk.entries - {r.key}); }
        if !f.dir.Done? { return VerdictOf(f.dir); }
      }
      if r.subvolID != 0 {
        if f.unlimit.Crash? { return Died; }
        LiftLimit(p, r, f.unlimit);
      }
    }

    method DestroyVolume(p: Parent, r: Record, snaps: seq<string>, f: DeleteFaults, deleted: bool) returns (a: Answer)
      modifies this
      ensures (View(), a) == Destroy(p, old(View()), r, snaps, f, deleted)
    {
      var v: Verdict;
      if p.kind.Project? { v := DestroyProject(p, r, f); } else { v := DestroySubvolume(p, r, snaps, f); }
      match v
      case Died => a := Killed;
      case Errored => a := Broken;
      case Okay =>
        Drop(r.key);
        Save(f.save);
        a := match VerdictOf(f.save) case Okay => Gone(deleted) case Errored => Broken case Died => Killed;
    }

    method DeleteVolume(k: Key, destroyData: bool, f: DeleteFaults) returns (a: Answer)
      modifies this
      ensures (View(), a) == Delete(config, old(View()), k, destroyData, f)
    {
      if BadTarget(config, k) { return Refused(InvalidArgument); }
      var p := config.parents[k.parent];
      var found := Get(k);
      match found
      case None =>
        if !f.look.Done? { return if f.look.Crash? then Killed else Broken; }
        a := if k in disk.entries then Refused(FailedPrecondition) else Gone(false);
      case Some(r) =>
        if !f.check.Done? { return if f.check.Crash? then Killed else Broken; }
        match Owned(p, disk, r)
        case Absent => a := DestroyVolume(p, r, [], f, false);
        case NotOurs => a := Refused(FailedPrecondition);
        case Ours =>
          if r.snapshots != [] && !destroyData { return Refused(FailedPrecondition); }
          if !destroyData && !f.empty.Done? { return if f.empty.Crash? then Killed else Broken; }
          if !destroyData && disk.entries[k].files != {} { return Refused(FailedPrecondition); }
          a := DestroyVolume(p, r, r.snapshots, f, true);
    }

    method ResizeVolume(q: ResizeReq, f: ChangeFaults) returns (a: Answer)
      modifies this
      ensures (View(), a) == Resize(config, old(View()), q, f)
    {
      if BadQuota(config, q.quota).Some? { return Refused(BadQuota(config, q.quota).value); }
      match Recorded(config, View(), q.key, f.check)
      case Err(refusal) => a := refusal;
      case Ok(r) =>
        if q.quota == r.quota { return Changed; }
        if q.used.None? { return Broken; }
        if q.quota < q.used.value { return Refused(FailedPrecondition); }
        if q.quota > r.quota && NoRoom(q.free, q.quota - r.quota) { return Refused(ResourceExhausted); }
        SetLimit(config.parents[q.key.parent], r, q.quota, f.effect);
        match VerdictOf(f.effect)
        case Errored => a := Broken;
        case Died => a := Killed;
        case Okay =>
          Rewrite(r.(quota := q.quota));
          Save(f.save);
          a := match VerdictOf(f.save) case Okay => Changed case Errored => Broken case Died => Killed;
    }

    method SnapshotVolume(k: Key, name: string, f: ChangeFaults) returns (a: Answer)
      modifies this
      ensures (View(), a) == Snapshot(config, old(View()), k, name, f)
    {
      if !ValidName(name) { return Refused(InvalidArgument); }
      match Recorded(config, View(), k, f.check)
      case Err(refusal) => a := refusal;
      case Ok(r) =>
        if config.parents[k.parent].kind.Project? { return Refused(Unimplemented); }
        if name in r.snapshots { return Changed; }
        var have := if k in disk.snaps then disk.snaps[k] else {};
        if name in have { return Broken; }
        if Happens(f.effect) { disk := disk.(snaps := disk.snaps[k := have + {name}]); }
        match VerdictOf(f.effect)
        case Errored => a := Broken;
        case Died => a := Killed;
        case Okay =>
          Rewrite(r.(snapshots := r.snapshots + [name]));
          Save(f.save);
          a := match VerdictOf(f.save) case Okay => Changed case Errored => Broken case Died => Killed;
    }
  }

  lemma RemoveStep(kept: seq<Record>, vols: seq<Record>, k: Key, i: nat)
    requires i < |vols|
    ensures kept + Remove(vols[i..], k) == (if vols[i].key == k then kept else kept + [vols[i]]) + Remove(vols[i + 1..], k)
  {
    assert vols[i..][1..] == vols[i + 1..];
  }

  function Without(d: Disk, k: Key, gone: set<string>): Disk {
    if k in d.snaps then d.(snaps := d.snaps[k := d.snaps[k] - gone]) else d
  }

  lemma WithoutMore(d: Disk, k: Key, gone: set<string>, name: string)
    ensures Without(d, k, {}) == d
    ensures Without(Without(d, k, gone), k, {name}) == Without(d, k, gone + {name})
  {
    if k in d.snaps {
      assert d.snaps[k] - {} == d.snaps[k] && d.snaps[k := d.snaps[k]] == d.snaps;
      assert d.snaps[k] - gone - {name} == d.snaps[k] - (gone + {name});
      assert d.snaps[k := d.snaps[k] - gone][k := d.snaps[k] - gone - {name}] == d.snaps[k := d.snaps[k] - (gone + {name})];
    }
  }

  lemma HeldGrows(vols: seq<Record>, i: nat)
    requires i < |vols|
    ensures forall j :: Held(vols[..i + 1], j) <==> Held(vols[..i], j) || (j != 0 && j == vols[i].projectID)
  {
    forall j | Held(vols[..i], j) ensures Held(vols[..i + 1], j) {
      var n :| 0 <= n < i && vols[..i][n].projectID == j;
      assert vols[..i + 1][n].projectID == j;
    }
    forall j | Held(vols[..i + 1], j) && j != vols[i].projectID ensures Held(vols[..i], j) {
      var n :| 0 <= n < i + 1 && vols[..i + 1][n].projectID == j;
      assert vols[..i][n].projectID == j;
    }
    assert vols[..i + 1][i] == vols[i];
  }

  lemma NamesGrow(snaps: seq<string>, i: nat)
    requires i < |snaps|
    ensures Names(snaps[..i + 1]) == Names(snaps[..i]) + {snaps[i]}
  {
    assert snaps[..i + 1] == snaps[..i] + [snaps[i]];
    forall x | x in Names(snaps[..i]) ensures x in Names(snaps[..i + 1]) {
      var n :| 0 <= n < i && snaps[..i][n] == x;
      assert snaps[..i + 1][n] == x;
    }
    assert snaps[..i + 1][i] == snaps[i];
  }
}
