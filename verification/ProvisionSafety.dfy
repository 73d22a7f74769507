/** What every run of the provisioner keeps, whichever calls fail or die half way. */
module ProvisionSafety {
  import opened Wrappers
  import opened Provision

  // What the configuration is checked for: ranges without id 0 that do not meet.
  ghost predicate ValidConfig(c: Config) {
    && (forall p :: p in c.parents ==>
          if c.parents[p].kind.Project? then 1 <= c.parents[p].lo <= c.parents[p].hi < 0xFFFF_FFFF
          else c.parents[p].lo == c.parents[p].hi == 0)
    && (forall p, q :: p in c.parents && q in c.parents && p != q && c.parents[p].kind.Project? && c.parents[q].kind.Project? ==>
          c.parents[p].hi < c.parents[q].lo || c.parents[q].hi < c.parents[p].lo)
  }

  ghost predicate UniqueKeys(vols: seq<Record>) {
    forall i, j :: 0 <= i < j < |vols| ==> vols[i].key != vols[j].key
  }

  ghost predicate DistinctIDs(vols: seq<Record>) {
    forall i, j :: 0 <= i < j < |vols| && vols[i].projectID != 0 ==> vols[i].projectID != vols[j].projectID
  }

  ghost predicate RecordOk(c: Config, d: Disk, r: Record) {
    && r.key.parent in c.parents && r.quota > 0 && (r.pending ==> r.snapshots == [])
    && (if c.parents[r.key.parent].kind.Project? then
          c.parents[r.key.parent].lo <= r.projectID <= c.parents[r.key.parent].hi && r.subvolID == 0 && r.snapshots == []
        else
          r.projectID == 0 && r.subvolID < d.nextID && OnlyAt(c, d, r.subvolID, r.key))
  }

  // A subvolume id a record took is at that record's place, or nowhere.
  ghost predicate OnlyAt(c: Config, d: Disk, id: nat, k: Key) {
    id != 0 ==> forall j :: IsSubvol(c, d, j) && d.entries[j].id == id ==> j == k
  }

  predicate IsSubvol(c: Config, d: Disk, k: Key) {
    k in d.entries && d.entries[k].Dir? && k.parent in c.parents && c.parents[k.parent].kind.Subvolume? && d.entries[k].id != 0
  }

  // A directory tagged out of its parent's range.
  predicate IsTagged(c: Config, d: Disk, k: Key) {
    k in d.entries && d.entries[k].Dir? && k.parent in c.parents && c.parents[k.parent].kind.Project?
    && c.parents[k.parent].lo <= d.entries[k].id <= c.parents[k.parent].hi
  }

  predicate IsShared(c: Config, d: Disk, k: Key) {
    k in d.entries && d.entries[k].Dir? && k.parent in c.parents && d.entries[k].group
  }

  ghost predicate Has(vols: seq<Record>, k: Key, id: nat) {
    exists i :: 0 <= i < |vols| && vols[i].key == k && vols[i].projectID == id
  }

  // A list of records the disk agrees with.
  ghost predicate ListOk(c: Config, d: Disk, vols: seq<Record>) {
    && UniqueKeys(vols) && DistinctIDs(vols)
    && (forall i :: 0 <= i < |vols| ==> RecordOk(c, d, vols[i]))
    && (forall k :: IsTagged(c, d, k) ==> Has(vols, k, d.entries[k].id))
  }

  // A root given to the group is marked: tagged out of its range, or a subvolume.
  ghost predicate GroupMarked(c: Config, d: Disk) {
    forall k :: IsShared(c, d, k) ==> IsTagged(c, d, k) || IsSubvol(c, d, k)
  }

  ghost predicate DiskOk(c: Config, d: Disk) {
    && d.nextID > 0
    && (forall x :: x in d.limits ==> d.limits[x] > 0)
    && (forall k :: IsSubvol(c, d, k) ==> d.entries[k].id < d.nextID)
    && (forall j, k :: IsSubvol(c, d, j) && IsSubvol(c, d, k) && d.entries[j].id == d.entries[k].id ==> j == k)
  }

  // Everything memory records, the file records with the same id.
  ghost predicate Covered(vols: seq<Record>, file: seq<Record>) {
    forall i :: 0 <= i < |vols| ==> Has(file, vols[i].key, vols[i].projectID)
  }

  ghost predicate FileOk(c: Config, s: State) {
    DiskOk(c, s.disk) && GroupMarked(c, s.disk) && ListOk(c, s.disk, s.file)
  }

  ghost predicate Inv(c: Config, s: State) {
    FileOk(c, s) && ListOk(c, s.disk, s.vols) && Covered(s.vols, s.file)
  }

  lemma InvFacts(c: Config, s: State)
    requires Inv(c, s)
    ensures FileOk(c, s) && GroupMarked(c, s.disk) && Covered(s.vols, s.file) && ListOk(c, s.disk, s.vols)
  {
  }

  // The process starts again and reads the file.
  function Restart(s: State): State {
    s.(vols := s.file)
  }

  lemma RestartKeeps(c: Config, s: State)
    requires FileOk(c, s)
    ensures Inv(c, Restart(s))
  {
    forall i | 0 <= i < |s.file| ensures Has(s.file, s.file[i].key, s.file[i].projectID) {
    }
  }

  /********** The record list **********/

  lemma FindAt(vols: seq<Record>, k: Key, i: nat)
    requires UniqueKeys(vols) && i < |vols| && vols[i].key == k
    ensures Find(vols, k) == Some(vols[i])
  {
    assert vols[i] in vols;
    var r := Find(vols, k);
    var j :| 0 <= j < |vols| && vols[j] == r.value;
  }

  lemma RemoveUnique(vols: seq<Record>, k: Key)
    requires UniqueKeys(vols)
    ensures UniqueKeys(Remove(vols, k))
  {
    if vols != [] {
      RemoveUnique(vols[1..], k);
      var rest := Remove(vols[1..], k);
      forall i | 0 <= i < |rest| ensures rest[i].key != vols[0].key { assert rest[i] in vols[1..]; }
    }
  }

  lemma RemoveDistinct(vols: seq<Record>, k: Key)
    requires DistinctIDs(vols)
    ensures DistinctIDs(Remove(vols, k))
  {
    if vols != [] {
      RemoveDistinct(vols[1..], k);
      var rest := Remove(vols[1..], k);
      forall i | 0 <= i < |rest| && vols[0].projectID != 0 ensures rest[i].projectID != vols[0].projectID {
        assert rest[i] in vols[1..];
      }
    }
  }

  lemma RemoveAppended(vols: seq<Record>, r: Record)
    requires Find(vols, r.key).None?
    ensures Remove(vols + [r], r.key) == vols
  {
    if vols == [] {
      assert vols + [r] == [r];
      assert Remove([r], r.key) == Remove([], r.key);
    } else {
      assert (vols + [r])[1..] == vols[1..] + [r];
      assert vols[0] in vols;
      forall x | x in vols[1..] ensures x.key != r.key { assert x in vols; }
      RemoveAppended(vols[1..], r);
    }
  }

  // Removing a record whose place holds nothing.
  lemma RemoveKeeps(c: Config, d: Disk, vols: seq<Record>, k: Key)
    requires ListOk(c, d, vols) && !IsTagged(c, d, k)
    ensures ListOk(c, d, Remove(vols, k))
  {
    var rest := Remove(vols, k);
    RemoveUnique(vols, k);
    RemoveDistinct(vols, k);
    forall j | IsTagged(c, d, j) ensures Has(rest, j, d.entries[j].id) {
      var i :| 0 <= i < |vols| && vols[i].key == j && vols[i].projectID == d.entries[j].id;
      assert vols[i] in rest;
      var n :| 0 <= n < |rest| && rest[n] == vols[i];
    }
    forall i | 0 <= i < |rest| ensures RecordOk(c, d, rest[i]) {
      assert rest[i] in rest;
      var n :| 0 <= n < |vols| && vols[n] == rest[i];
    }
  }

  lemma RemoveCovered(vols: seq<Record>, file: seq<Record>, k: Key)
    requires Covered(vols, file)
    ensures Covered(Remove(vols, k), file)
  {
    var rest := Remove(vols, k);
    forall i | 0 <= i < |rest| ensures Has(file, rest[i].key, rest[i].projectID) {
      assert rest[i] in rest;
      var n :| 0 <= n < |vols| && vols[n] == rest[i];
    }
  }

  lemma SaveKeeps(c: Config, s: State, o: Outcome)
    requires DiskOk(c, s.disk) && GroupMarked(c, s.disk) && ListOk(c, s.disk, s.vols)
    requires ListOk(c, s.disk, s.file)
    ensures FileOk(c, SaveStep(s, o))
    ensures Covered(s.vols, s.file) || Happens(o) ==> Inv(c, SaveStep(s, o))
  {
    forall i | 0 <= i < |s.vols| ensures Has(s.vols, s.vols[i].key, s.vols[i].projectID) {
    }
  }

  /********** CreateVolume keeps it **********/

  lemma PutKeeps(c: Config, d: Disk, vols: seq<Record>, r: Record)
    requires ListOk(c, d, vols) && Find(vols, r.key).None? && RecordOk(c, d, r)
    requires r.projectID != 0 ==> !Held(vols, r.projectID)
    ensures ListOk(c, d, vols + [r])
  {
    var next := vols + [r];
    forall i | 0 <= i < |vols| ensures next[i].key != r.key && (r.projectID != 0 ==> next[i].projectID != r.projectID) {
      assert vols[i] in vols;
    }
    forall k | IsTagged(c, d, k) ensures Has(next, k, d.entries[k].id) {
      var i :| 0 <= i < |vols| && vols[i].key == k && vols[i].projectID == d.entries[k].id;
      assert next[i] == vols[i];
    }
  }

  lemma CoverMore(vols: seq<Record>, file: seq<Record>, more: seq<Record>)
    requires Covered(vols, file)
    ensures Covered(vols, file + more)
  {
    forall i | 0 <= i < |vols| ensures Has(file + more, vols[i].key, vols[i].projectID) {
      assert Has(file, vols[i].key, vols[i].projectID);
      var j :| 0 <= j < |file| && file[j].key == vols[i].key && file[j].projectID == vols[i].projectID;
      assert (file + more)[j] == file[j];
    }
  }

  // A record replaced by one of the same key and project id.
  lemma UpdateKeeps(c: Config, d: Disk, vols: seq<Record>, file: seq<Record>, r: Record)
    requires ListOk(c, d, vols) && Covered(vols, file) && RecordOk(c, d, r) && Has(vols, r.key, r.projectID)
    ensures ListOk(c, d, Update(vols, r)) && Covered(Update(vols, r), file)
    ensures r in Update(vols, r)
  {
    var next := Update(vols, r);
    var n :| 0 <= n < |vols| && vols[n].key == r.key && vols[n].projectID == r.projectID;
    assert next[n] == r;
    forall i | 0 <= i < |vols| ensures next[i].key == vols[i].key && next[i].projectID == vols[i].projectID && RecordOk(c, d, next[i]) {
      if vols[i].key == r.key { assert i == n; }
    }
    forall k | IsTagged(c, d, k) ensures Has(next, k, d.entries[k].id) {
      var i :| 0 <= i < |vols| && vols[i].key == k && vols[i].projectID == d.entries[k].id;
      assert next[i].key == k;
    }
  }

  // The lists still agree with a disk whose only new marks they already record.
  lemma DiskChanged(c: Config, d: Disk, e: Disk, vols: seq<Record>)
    requires ListOk(c, d, vols) && d.nextID <= e.nextID
    requires forall k :: IsTagged(c, e, k) ==> (IsTagged(c, d, k) && d.entries[k].id == e.entries[k].id) || Has(vols, k, e.entries[k].id)
    requires forall k :: IsSubvol(c, e, k) ==> (IsSubvol(c, d, k) && d.entries[k].id == e.entries[k].id) || e.entries[k].id >= d.nextID
    ensures ListOk(c, e, vols)
  {
  }

  // The disk changed at one place only: what must be checked is that place.
  lemma EntryChanged(c: Config, s: State, e: Disk, k: Key)
    requires Inv(c, s) && s.disk.nextID <= e.nextID && e.limits == s.disk.limits
    requires forall j :: j != k ==> (j in e.entries <==> j in s.disk.entries) && (j in e.entries ==> e.entries[j] == s.disk.entries[j])
    requires IsTagged(c, e, k) ==> Has(s.vols, k, e.entries[k].id) && Has(s.file, k, e.entries[k].id)
    requires IsSubvol(c, e, k) ==>
      (IsSubvol(c, s.disk, k) && s.disk.entries[k].id == e.entries[k].id) || s.disk.nextID <= e.entries[k].id < e.nextID
    requires IsShared(c, e, k) ==> IsTagged(c, e, k) || IsSubvol(c, e, k)
    ensures Inv(c, s.(disk := e))
  {
    DiskChanged(c, s.disk, e, s.vols);
    DiskChanged(c, s.disk, e, s.file);
    assert GroupMarked(c, e) by {
      forall j | IsShared(c, e, j) ensures IsTagged(c, e, j) || IsSubvol(c, e, j) {
        if j != k { assert IsShared(c, s.disk, j); }
      }
    }
    assert DiskOk(c, e) by {
      forall j | j != k ensures IsSubvol(c, e, j) <==> IsSubvol(c, s.disk, j) {
      }
    }
  }

  // r is the record a creation works on: in memory, and so in the file.
  ghost predicate Working(c: Config, s: State, r: Record) {
    && Inv(c, s) && r in s.vols && r.key.parent in c.parents && RecordOk(c, s.disk, r)
    && Has(s.vols, r.key, r.projectID) && Has(s.file, r.key, r.projectID)
  }

  lemma WorkingOn(c: Config, s: State, r: Record)
    requires Inv(c, s) && r in s.vols
    ensures Working(c, s, r)
  {
    var n :| 0 <= n < |s.vols| && s.vols[n] == r;
    assert RecordOk(c, s.disk, s.vols[n]);
  }

  lemma MakeKeeps(c: Config, s: State, r: Record, o: Outcome)
    requires ValidConfig(c) && Working(c, s, r)
    ensures var s1 := MakeStep(c.parents[r.key.parent], s, r.key, o).0;
      Working(c, s1, r) && s1.vols == s.vols && s1.file == s.file
  {
    var s1 := MakeStep(c.parents[r.key.parent], s, r.key, o).0;
    if s1 != s {
      EntryChanged(c, s, s1.disk, r.key);
      assert s1 == s.(disk := s1.disk);
      WorkingOn(c, s1, r);
    }
  }

  // The entry is marked as r's: r's project id on it, or its id in r.
  predicate Marked(c: Config, d: Disk, r: Record) {
    && r.key in d.entries && d.entries[r.key].Dir? && r.key.parent in c.parents
    && LimitID(c.parents[r.key.parent], r) == d.entries[r.key].id && (IsTagged(c, d, r.key) || IsSubvol(c, d, r.key))
  }

  lemma TagProjectKeeps(c: Config, s: State, r: Record, o: Outcome)
    requires ValidConfig(c) && Working(c, s, r) && Owned(c.parents[r.key.parent], s.disk, r).Ours?
    requires c.parents[r.key.parent].kind.Project?
    ensures var (s1, r1) := TagStep(c.parents[r.key.parent], s, r, o);
      Working(c, s1, r1) && r1 == r && s1.file == s.file && (o.Done? ==> Marked(c, s1.disk, r1))
  {
    var s1 := TagStep(c.parents[r.key.parent], s, r, o).0;
    if Happens(o) {
      EntryChanged(c, s, s1.disk, r.key);
      assert s1 == s.(disk := s1.disk);
      WorkingOn(c, s1, r);
    }
  }

  lemma TagKeeps(c: Config, s: State, r: Record, o: Outcome)
    requires ValidConfig(c) && Working(c, s, r) && Owned(c.parents[r.key.parent], s.disk, r).Ours?
    ensures var (s1, r1) := TagStep(c.parents[r.key.parent], s, r, o);
      && Working(c, s1, r1) && r1.key == r.key && r1.quota == r.quota && s1.file == s.file
      && (o.Done? ==> Marked(c, s1.disk, r1))
  {
    var p := c.parents[r.key.parent];
    if p.kind.Project? {
      TagProjectKeeps(c, s, r, o);
    } else if o.Done? {
      assert IsSubvol(c, s.disk, r.key);
      UpdateKeeps(c, s.disk, s.vols, s.file, TagStep(p, s, r, o).1);
      WorkingOn(c, TagStep(p, s, r, o).0, TagStep(p, s, r, o).1);
    }
  }

  lemma LimitKeeps(c: Config, s: State, r: Record, quota: nat, o: Outcome)
    requires ValidConfig(c) && Working(c, s, r) && quota > 0
    ensures Working(c, LimitStep(c.parents[r.key.parent], s, r, quota, o), r)
  {
    var s1 := LimitStep(c.parents[r.key.parent], s, r, quota, o);
    DiskChanged(c, s.disk, s1.disk, s.vols);
    DiskChanged(c, s.disk, s1.disk, s.file);
  }

  lemma GroupKeeps(c: Config, s: State, r: Record, o: Outcome)
    requires ValidConfig(c) && Working(c, s, r) && Marked(c, s.disk, r)
    ensures Working(c, GroupStep(s, r.key, o), r)
  {
    var s1 := GroupStep(s, r.key, o);
    if Happens(o) {
      EntryChanged(c, s, s1.disk, r.key);
      assert s1 == s.(disk := s1.disk);
      WorkingOn(c, s1, r);
    }
  }

  // Once it is marked: the limit, then the group.
  lemma GiveKeeps(c: Config, s: State, r: Record, f: CreateFaults)
    requires ValidConfig(c) && Working(c, s, r) && Marked(c, s.disk, r)
    ensures var s3 := LimitStep(c.parents[r.key.parent], s, r, r.quota, f.limit);
      Working(c, s3, r) && Marked(c, s3.disk, r) && Working(c, GroupStep(s3, r.key, f.group), r)
  {
    LimitKeeps(c, s, r, r.quota, f.limit);
    var s3 := LimitStep(c.parents[r.key.parent], s, r, r.quota, f.limit);
    GroupKeeps(c, s3, r, f.group);
  }

  lemma BuildKeeps(c: Config, s: State, r: Record, f: CreateFaults)
    requires ValidConfig(c) && Working(c, s, r)
    ensures var (s1, r1, v) := Build(c.parents[r.key.parent], s, r, f);
      Working(c, s1, r1) && r1.key == r.key
  {
    hide Inv, RecordOk, Marked;
    var p := c.parents[r.key.parent];
    var (s1, v1) := MakeStep(p, s, r.key, f.make);
    MakeKeeps(c, s, r, f.make);
    if v1.Okay? && f.check.Done? && Owned(p, s1.disk, r).Ours? {
      var (s2, r2) := TagStep(p, s1, r, f.tag);
      TagKeeps(c, s1, r, f.tag);
      if f.tag.Done? { GiveKeeps(c, s2, r2, f); }
    }
  }

  // What the backend's create can have done, however far it came.
  lemma BuildShape(p: Parent, s: State, r: Record, f: CreateFaults)
    ensures var (s1, r1, v) := Build(p, s, r, f);
      && s1.file == s.file && (s1.vols == s.vols || s1.vols == Update(s.vols, r1))
      && r1.key == r.key && r1.projectID == r.projectID
      && (forall x :: x in s1.disk.limits ==> x in s.disk.limits || x == (r.key.parent, LimitID(p, r1)))
  {
    var (s1, v1) := MakeStep(p, s, r.key, f.make);
    assert s1.vols == s.vols && s1.file == s.file && s1.disk.limits == s.disk.limits;
    if r.key in s1.disk.entries && s1.disk.entries[r.key].Dir? {
      var (s2, r2) := TagStep(p, s1, r, f.tag);
      assert s2.file == s.file && s2.disk.limits == s.disk.limits;
    }
  }

  lemma BuildAbsent(p: Parent, s: State, r: Record, f: CreateFaults)
    ensures var (s1, r1, v) := Build(p, s, r, f);
      && (r.key !in s1.disk.entries ==> s1 == s && r1 == r && r.key !in s.disk.entries && (f.make.Fail? || f.make.Crash?))
      && (r.key !in s.disk.entries && f.make.Fail? ==> v.Unbuilt? && s1 == s)
      && (f.make.Crash? ==> v.Dead?)
  {
    var (s1, v1) := MakeStep(p, s, r.key, f.make);
    assert r.key !in s1.disk.entries ==> !v1.Okay? && s1 == s;
  }

  // The record of a place that holds nothing goes, from memory and then from the file.
  lemma ForgetKeeps(c: Config, s: State, r: Record, o: Outcome)
    requires ValidConfig(c) && Working(c, s, r) && !IsTagged(c, s.disk, r.key)
    ensures Inv(c, SaveStep(s.(vols := Remove(s.vols, r.key)), o))
  {
    RemoveKeeps(c, s.disk, s.vols, r.key);
    RemoveCovered(s.vols, s.file, r.key);
    SaveKeeps(c, s.(vols := Remove(s.vols, r.key)), o);
  }

  lemma ChangeKeeps(c: Config, s: State, r: Record, r': Record, o: Outcome)
    requires ValidConfig(c) && Working(c, s, r) && r'.key == r.key && r'.projectID == r.projectID && RecordOk(c, s.disk, r')
    ensures Inv(c, SaveStep(s.(vols := Update(s.vols, r')), o))
  {
    UpdateKeeps(c, s.disk, s.vols, s.file, r');
    SaveKeeps(c, s.(vols := Update(s.vols, r')), o);
  }

  lemma SettleKeeps(c: Config, s: State, r: Record, v: Built, f: CreateFaults)
    requires ValidConfig(c) && Working(c, s, r)
    ensures Inv(c, Settle(s, r, v, f).0)
  {
    if v.Whole? { ChangeKeeps(c, s, r, r.(pending := false), f.saveDone); }
    else if v.Unbuilt? && r.key !in s.disk.entries { ForgetKeeps(c, s, r, f.saveDrop); }
  }

  lemma FinishKeeps(c: Config, s: State, r: Record, f: CreateFaults)
    requires ValidConfig(c) && Working(c, s, r)
    ensures Inv(c, Finish(c.parents[r.key.parent], s, r, f).0)
  {
    var (s1, r1, v) := Build(c.parents[r.key.parent], s, r, f);
    BuildKeeps(c, s, r, f);
    SettleKeeps(c, s1, r1, v, f);
  }

  predicate Admits(p: Parent, s: State, q: CreateReq, f: CreateFaults) {
    && f.look.Done? && q.key !in s.disk.entries && !NoRoom(q.free, q.quota)
    && (p.kind.Project? ==> LowestFree(s.vols, p.lo, p.hi).Some?)
  }

  // Written down: the pending record, before anything is made.
  lemma PendingSaved(c: Config, s: State, q: CreateReq)
    requires ValidConfig(c) && Inv(c, s) && q.key.parent in c.parents && q.quota > 0 && Find(s.vols, q.key).None?
    requires Admits(c.parents[q.key.parent], s, q, CLEAN_CREATE)
    ensures var r := NewRecord(c.parents[q.key.parent], s, q);
      && ListOk(c, s.disk, s.vols + [r]) && Working(c, s.(vols := s.vols + [r], file := s.vols + [r]), r)
      && (c.parents[q.key.parent].kind.Project? ==> !Held(s.vols, r.projectID))
  {
    var r := NewRecord(c.parents[q.key.parent], s, q);
    PutKeeps(c, s.disk, s.vols, r);
    var s0 := s.(vols := s.vols + [r]);
    SaveKeeps(c, s0, Done);
    WorkingOn(c, SaveStep(s0, Done), r);
  }

  // What Begin comes to once it admits the request, by the fate of its first save.
  lemma BeginShape(c: Config, s: State, q: CreateReq, f: CreateFaults)
    requires q.key.parent in c.parents && Find(s.vols, q.key).None?
    ensures var p := c.parents[q.key.parent];
      var r := NewRecord(p, s, q);
      var (s', a) := Begin(p, s, q, f);
      if !Admits(p, s, q, f) then s' == s
      else match f.savePending
        case Done => (s', a) == Finish(p, s.(vols := s.vols + [r], file := s.vols + [r]), r, f)
        case Fail => s' == s && !a.Killed?
        case FailLate => s' == s.(file := s.vols + [r]) && !a.Killed?
        case Crash => s' == s.(vols := s.vols + [r]) && a.Killed?
  {
    RemoveAppended(s.vols, NewRecord(c.parents[q.key.parent], s, q));
  }

  lemma BeginKeeps(c: Config, s: State, q: CreateReq, f: CreateFaults)
    requires ValidConfig(c) && Inv(c, s) && q.key.parent in c.parents && q.quota > 0 && Find(s.vols, q.key).None?
    ensures var (s', a) := Begin(c.parents[q.key.parent], s, q, f); FileOk(c, s') && (!a.Killed? ==> Inv(c, s'))
  {
    hide Inv, Working, FileOk, ListOk, Finish, Begin;
    InvFacts(c, s);
    var p := c.parents[q.key.parent];
    var r := NewRecord(p, s, q);
    BeginShape(c, s, q, f);
    if Admits(p, s, q, f) {
      PendingSaved(c, s, q);
      match f.savePending
      case Done => FinishKeeps(c, s.(vols := s.vols + [r], file := s.vols + [r]), r, f); InvFacts(c, Begin(p, s, q, f).0);
      case Fail =>
      case FailLate => OnlyInFile(c, s, r); InvFacts(c, s.(file := s.vols + [r]));
      case Crash => FileAlone(c, s, s.vols + [r]);
    }
  }

  lemma FileAlone(c: Config, s: State, vols: seq<Record>)
    requires FileOk(c, s)
    ensures FileOk(c, s.(vols := vols))
  {
  }

  // A save that wrote the pending record and reported an error: memory forgets
  // the record, the file keeps it.
  lemma OnlyInFile(c: Config, s: State, r: Record)
    requires Inv(c, s) && ListOk(c, s.disk, s.vols + [r])
    ensures Inv(c, s.(file := s.vols + [r]))
  {
    forall i | 0 <= i < |s.vols| ensures Has(s.vols, s.vols[i].key, s.vols[i].projectID) {
    }
    CoverMore(s.vols, s.vols, [r]);
  }

  lemma CreateKeeps(c: Config, s: State, q: CreateReq, f: CreateFaults)
    requires ValidConfig(c) && Inv(c, s)
    ensures var (s', a) := Create(c, s, q, f); FileOk(c, s') && (!a.Killed? ==> Inv(c, s'))
  {
    if !BadTarget(c, q.key) && BadQuota(c, q.quota).None? {
      match Find(s.vols, q.key)
      case Some(r) => if r.pending { WorkingOn(c, s, r); FinishKeeps(c, s, r, f); }
      case None => BeginKeeps(c, s, q, f);
    }
  }

  /********** DeleteVolume keeps it **********/

  lemma UnlimitKeeps(c: Config, s: State, r: Record, o: Outcome)
    requires ValidConfig(c) && Working(c, s, r)
    ensures Working(c, UnlimitStep(c.parents[r.key.parent], s, r, o), r)
  {
    var s1 := UnlimitStep(c.parents[r.key.parent], s, r, o);
    DiskChanged(c, s.disk, s1.disk, s.vols);
    DiskChanged(c, s.disk, s1.disk, s.file);
  }

  // Less inside, or nothing there at all.
  lemma EntryShrinks(c: Config, s: State, e: Disk, r: Record)
    requires ValidConfig(c) && Working(c, s, r) && e.nextID == s.disk.nextID && e.limits == s.disk.limits
    requires e.entries == s.disk.entries - {r.key} ||
      (r.key in s.disk.entries && s.disk.entries[r.key].Dir? && exists files :: e.entries == s.disk.entries[r.key := s.disk.entries[r.key].(files := files)])
      || e.entries == s.disk.entries
    ensures Working(c, s.(disk := e), r)
  {
    if IsTagged(c, e, r.key) { assert IsTagged(c, s.disk, r.key); TaggedInFile(c, s, r.key); }
    if IsShared(c, e, r.key) { assert IsShared(c, s.disk, r.key); }
    EntryChanged(c, s, e, r.key);
    WorkingOn(c, s.(disk := e), r);
  }

  lemma TaggedInFile(c: Config, s: State, k: Key)
    requires Inv(c, s) && IsTagged(c, s.disk, k)
    ensures Has(s.vols, k, s.disk.entries[k].id) && Has(s.file, k, s.disk.entries[k].id)
  {
  }

  lemma RemoveProjectKeeps(c: Config, s: State, r: Record, f: DeleteFaults)
    requires ValidConfig(c) && Working(c, s, r) && c.parents[r.key.parent].kind.Project?
    ensures var (s1, v) := RemoveProject(c.parents[r.key.parent], s, r, f);
      Working(c, s1, r) && s1.vols == s.vols && s1.file == s.file && (v.Okay? ==> r.key !in s1.disk.entries)
  {
    var p := c.parents[r.key.parent];
    var k := r.key;
    if k in s.disk.entries && s.disk.entries[k].Dir? {
      var e := s.disk.entries[k].(files := if Happens(f.tree) then {} else s.disk.entries[k].files * f.left);
      var s0 := s.(disk := s.disk.(entries := s.disk.entries[k := e]));
      EntryShrinks(c, s, s0.disk, r);
      if f.tree.Done? && Happens(f.dir) {
        var s1 := s0.(disk := s0.disk.(entries := s0.disk.entries - {k}));
        EntryShrinks(c, s0, s1.disk, r);
        UnlimitKeeps(c, s1, r, f.unlimit);
      }
    } else if k !in s.disk.entries {
      UnlimitKeeps(c, s, r, f.unlimit);
    }
  }

  lemma RemoveSnapshotsKeeps(c: Config, s: State, r: Record, snaps: seq<string>, f: DeleteFaults)
    requires ValidConfig(c) && Working(c, s, r)
    ensures var s1 := RemoveSnapshots(s, r, snaps, f).0;
      Working(c, s1, r) && s1.vols == s.vols && s1.file == s.file && s1.disk == s.disk.(snaps := s1.disk.snaps)
  {
    var s1 := RemoveSnapshots(s, r, snaps, f).0;
    assert s1 == s.(disk := s1.disk) && s1.disk == s.disk.(snaps := s1.disk.snaps);
    EntryShrinks(c, s, s1.disk, r);
  }

  lemma RemoveSubvolumeKeeps(c: Config, s: State, r: Record, snaps: seq<string>, f: DeleteFaults)
    requires ValidConfig(c) && Working(c, s, r) && c.parents[r.key.parent].kind.Subvolume?
    ensures var s1 := RemoveSubvolume(c.parents[r.key.parent], s, r, snaps, f).0;
      Working(c, s1, r) && s1.vols == s.vols && s1.file == s.file
  {
    hide Inv, RecordOk, RemoveSnapshots;
    var p := c.parents[r.key.parent];
    var (s1, v) := RemoveSnapshots(s, r, snaps, f);
    RemoveSnapshotsKeeps(c, s, r, snaps, f);
    if v.Okay? && !f.seen.Crash? {
      var there := f.seen.Done? && r.key in s1.disk.entries;
      var s2 := if there && Happens(f.dir) then s1.(disk := s1.disk.(entries := s1.disk.entries - {r.key})) else s1;
      EntryShrinks(c, s1, s2.disk, r);
      assert s2 == s1.(disk := s2.disk);
      UnlimitKeeps(c, s2, r, f.unlimit);
    }
  }

  // A project's record goes only when nothing tagged is left; a subvolume
  // carries no tag.
  lemma DestroyKeeps(c: Config, s: State, r: Record, snaps: seq<string>, f: DeleteFaults, deleted: bool)
    requires ValidConfig(c) && Working(c, s, r)
    ensures var (s', a) := Destroy(c.parents[r.key.parent], s, r, snaps, f, deleted);
      FileOk(c, s') && (!a.Killed? ==> Inv(c, s'))
  {
    var p := c.parents[r.key.parent];
    var (s1, v) := if p.kind.Project? then RemoveProject(p, s, r, f) else RemoveSubvolume(p, s, r, snaps, f);
    if p.kind.Project? { RemoveProjectKeeps(c, s, r, f); } else { RemoveSubvolumeKeeps(c, s, r, snaps, f); }
    if v.Okay? { ForgetKeeps(c, s1, r, f.save); }
  }

  lemma DeleteKeeps(c: Config, s: State, k: Key, destroyData: bool, f: DeleteFaults)
    requires ValidConfig(c) && Inv(c, s)
    ensures var (s', a) := Delete(c, s, k, destroyData, f); FileOk(c, s') && (!a.Killed? ==> Inv(c, s'))
  {
    hide Inv, Working, FileOk, Destroy;
    InvFacts(c, s);
    if !BadTarget(c, k) && Find(s.vols, k).Some? {
      var r := Find(s.vols, k).value;
      WorkingOn(c, s, r);
      DestroyKeeps(c, s, r, r.snapshots, f, true);
      DestroyKeeps(c, s, r, [], f, false);
    }
  }

  // A record keeps its place on the disk whatever its quota and its snapshots become.
  lemma RecordChanged(c: Config, s: State, r: Record, quota: nat, snapshots: seq<string>)
    requires Working(c, s, r) && quota > 0
    ensures RecordOk(c, s.disk, r.(quota := quota))
    ensures c.parents[r.key.parent].kind.Subvolume? && !r.pending ==> RecordOk(c, s.disk, r.(snapshots := snapshots))
  {
  }

  lemma ResizeKeeps(c: Config, s: State, q: ResizeReq, f: ChangeFaults)
    requires ValidConfig(c) && Inv(c, s)
    ensures Inv(c, Resize(c, s, q, f).0)
  {
    hide Inv, Working, RecordOk;
    if BadQuota(c, q.quota).None? && Recorded(c, s, q.key, f.check).Ok? {
      var r := Recorded(c, s, q.key, f.check).value;
      WorkingOn(c, s, r);
      LimitKeeps(c, s, r, q.quota, f.effect);
      var s1 := LimitStep(c.parents[q.key.parent], s, r, q.quota, f.effect);
      WorkingInv(c, s1, r);
      RecordChanged(c, s1, r, q.quota, []);
      ChangeKeeps(c, s1, r, r.(quota := q.quota), f.save);
    }
  }

  lemma WorkingInv(c: Config, s: State, r: Record)
    requires Working(c, s, r)
    ensures Inv(c, s)
  {
  }

  lemma SnapsChanged(c: Config, s: State, e: Disk)
    requires Inv(c, s) && e == s.disk.(snaps := e.snaps)
    ensures Inv(c, s.(disk := e))
  {
    DiskChanged(c, s.disk, e, s.vols);
    DiskChanged(c, s.disk, e, s.file);
    assert forall k :: IsShared(c, e, k) <==> IsShared(c, s.disk, k);
    assert forall k :: IsSubvol(c, e, k) <==> IsSubvol(c, s.disk, k);
  }

  lemma SnapshotKeeps(c: Config, s: State, k: Key, name: string, f: ChangeFaults)
    requires ValidConfig(c) && Inv(c, s)
    ensures Inv(c, Snapshot(c, s, k, name, f).0)
  {
    hide Inv, Working, RecordOk;
    if ValidName(name) && Recorded(c, s, k, f.check).Ok? && c.parents[k.parent].kind.Subvolume? {
      var r := Recorded(c, s, k, f.check).value;
      var have := if k in s.disk.snaps then s.disk.snaps[k] else {};
      if name !in have && name !in r.snapshots {
        var s1 := if Happens(f.effect) then s.(disk := s.disk.(snaps := s.disk.snaps[k := have + {name}])) else s;
        SnapsChanged(c, s, s1.disk);
        WorkingOn(c, s1, r);
        RecordChanged(c, s1, r, 1, r.snapshots + [name]);
        ChangeKeeps(c, s1, r, r.(snapshots := r.snapshots + [name]), f.save);
      }
    }
  }

  /********** Runs **********/

  datatype Op =
    | OpCreate(req: CreateReq, createFaults: CreateFaults)
    | OpDelete(key: Key, destroyData: bool, deleteFaults: DeleteFaults)
    | OpResize(resize: ResizeReq, faults: ChangeFaults)
    | OpSnapshot(key: Key, name: string, faults: ChangeFaults)
    | OpRestart

  function Perform(c: Config, s: State, op: Op): (State, Answer) {
    match op
    case OpCreate(q, f) => Create(c, s, q, f)
    case OpDelete(k, dd, f) => Delete(c, s, k, dd, f)
    case OpResize(q, f) => Resize(c, s, q, f)
    case OpSnapshot(k, name, f) => Snapshot(c, s, k, name, f)
    case OpRestart => (s, Killed)
  }

  // A call that died is followed by a start from the file.
  function Next(c: Config, s: State, op: Op): State {
    var (s', a) := Perform(c, s, op);
    if a.Killed? then Restart(s') else s'
  }

  // Nothing recorded, and on the disk nothing of the provisioner's: whatever
  // else lies under the roots carries no project id it could give out.
  ghost predicate Initial(c: Config, s: State) {
    && s.vols == [] && s.file == [] && s.disk.limits == map[] && s.disk.nextID > 0
    && (forall k :: !IsTagged(c, s.disk, k) && !IsShared(c, s.disk, k))
    && (forall k :: IsSubvol(c, s.disk, k) ==> s.disk.entries[k].id < s.disk.nextID)
    && (forall j, k :: IsSubvol(c, s.disk, j) && IsSubvol(c, s.disk, k) && s.disk.entries[j].id == s.disk.entries[k].id ==> j == k)
  }

  function Exec(c: Config, s0: State, ops: seq<Op>): State
    decreases |ops|
  {
    if ops == [] then s0 else Next(c, Exec(c, s0, ops[..|ops| - 1]), ops[|ops| - 1])
  }

  lemma NextKeeps(c: Config, s: State, op: Op)
    requires ValidConfig(c) && Inv(c, s)
    ensures Inv(c, Next(c, s, op))
  {
    match op
    case OpCreate(q, f) => CreateKeeps(c, s, q, f);
    case OpDelete(k, dd, f) => DeleteKeeps(c, s, k, dd, f);
    case OpResize(q, f) => ResizeKeeps(c, s, q, f);
    case OpSnapshot(k, name, f) => SnapshotKeeps(c, s, k, name, f);
    case OpRestart =>
    var (s', a) := Perform(c, s, op);
    if a.Killed? { RestartKeeps(c, s'); }
  }

  lemma {:induction false} RunKeeps(c: Config, s0: State, ops: seq<Op>)
    requires ValidConfig(c) && Initial(c, s0)
    ensures Inv(c, Exec(c, s0, ops))
    decreases |ops|
  {
    hide Next;
    if ops != [] {
      RunKeeps(c, s0, ops[..|ops| - 1]);
      NextKeeps(c, Exec(c, s0, ops[..|ops| - 1]), ops[|ops| - 1]);
    }
  }

  // In every reachable state, whatever failed: no two volumes are tagged alike,
  // each is recorded with its tag in memory and in the file, and no two records
  // share a project id.
  lemma NoSharedProjectIDs(c: Config, s0: State, ops: seq<Op>)
    requires ValidConfig(c) && Initial(c, s0)
    ensures var s := Exec(c, s0, ops);
      && (forall j, k :: IsTagged(c, s.disk, j) && IsTagged(c, s.disk, k) && j != k ==> s.disk.entries[j].id != s.disk.entries[k].id)
      && (forall k :: IsTagged(c, s.disk, k) ==> Has(s.vols, k, s.disk.entries[k].id) && Has(s.file, k, s.disk.entries[k].id))
      && UniqueKeys(s.vols) && DistinctIDs(s.vols) && UniqueKeys(s.file) && DistinctIDs(s.file)
  {
    var s := Exec(c, s0, ops);
    RunKeeps(c, s0, ops);
    forall j, k | IsTagged(c, s.disk, j) && IsTagged(c, s.disk, k) && j != k ensures s.disk.entries[j].id != s.disk.entries[k].id {
      TaggedInFile(c, s, j);
      TaggedInFile(c, s, k);
    }
  }

  // Nothing these two kinds of storage carry makes an unrecorded volume ours.
  lemma ProbeIsNeverOurs(p: Parent, d: Disk, k: Key)
    requires p.kind.Project? ==> p.lo >= 1
    ensures !Owned(p, d, Record(k, 0, 0, false, 0, 0, [])).Ours?
  {
  }

  // Where the runs shown begin.
  const ONE_DISK := Config(map["disk" := Parent(Project, 5, 9)], 100)
  const NOTHING := State([], [], Disk(map[], map[], map[], 1))
}
