/** What a request about a volume's size, or for a snapshot of it, is answered, and
    what it leaves. */
module ProvisionQuota {
  import opened Wrappers
  import opened Provision
  import opened ProvisionSafety
  import opened ProvisionFrame
  import opened ProvisionSnapshots

  /********** What is asked, and answered **********/

  // A finished volume that is there and its own.
  predicate Standing(c: Config, d: Disk, list: seq<Record>, k: Key) {
    && !BadTarget(c, k) && Find(list, k).Some? && !Find(list, k).value.pending
    && k in d.entries && d.entries[k].Dir? && d.entries[k].id != 0
    && d.entries[k].id == LimitID(c.parents[k.parent], Find(list, k).value)
  }

  lemma StandingIsOurs(c: Config, s: State, k: Key)
    requires ValidConfig(c) && Inv(c, s) && !BadTarget(c, k) && Find(s.vols, k).Some? && !Find(s.vols, k).value.pending
    ensures Standing(c, s.disk, s.vols, k) <==> Owned(c.parents[k.parent], s.disk, Find(s.vols, k).value).Ours?
  {
    WorkingOn(c, s, Find(s.vols, k).value);
  }

  // The request leads to a new limit: another size than recorded, not below what
  // is used, and with room for what is added.
  predicate Grants(c: Config, s: State, q: ResizeReq, f: ChangeFaults) {
    && 0 < q.quota <= c.maxVolume && Standing(c, s.disk, s.vols, q.key) && f.check.Done?
    && var old_ := Find(s.vols, q.key).value.quota;
      && q.quota != old_ && q.used.Some? && q.used.value <= q.quota
      && (q.free.Some? ==> q.quota <= old_ + q.free.value || q.quota < old_)
  }

  // What a resize leaves, and what it answers, in terms of what was asked: a new
  // limit on the id that stands there, the size recorded, and the list saved, as
  // far as it came; anything that does not lead to a new limit changes nothing.
  lemma ResizeLeaves(c: Config, s: State, q: ResizeReq, f: ChangeFaults)
    requires ValidConfig(c) && Inv(c, s)
    ensures var (s', a) := Resize(c, s, q, f);
      if !Grants(c, s, q, f) then s' == s
      else
        var x := (q.key.parent, s.disk.entries[q.key].id);
        && s'.disk == (if Happens(f.effect) then s.disk.(limits := s.disk.limits[x := q.quota]) else s.disk)
        && (if f.effect.Done? then
              && Find(s'.vols, q.key) == Some(Find(s.vols, q.key).value.(quota := q.quota))
              && (forall k :: k != q.key ==> Find(s'.vols, k) == Find(s.vols, k))
              && s'.file == (if Happens(f.save) then s'.vols else s.file)
            else s'.vols == s.vols && s'.file == s.file)
        && (a == Changed <==> f.effect.Done? && f.save.Done?)
  {
    hide Update, Find, Inv;
    if !BadTarget(c, q.key) && Find(s.vols, q.key).Some? && !Find(s.vols, q.key).value.pending {
      StandingIsOurs(c, s, q.key);
      var r := Find(s.vols, q.key).value.(quota := q.quota);
      forall k ensures Find(Update(s.vols, r), k) == if k == q.key then Some(r) else Find(s.vols, k) {
        FindAfterUpdate(s.vols, r, k);
      }
    }
  }

  // And how one that leads to none is answered, when nothing fails.
  lemma ResizeRefuses(c: Config, s: State, q: ResizeReq, f: ChangeFaults)
    requires ValidConfig(c) && Inv(c, s) && 0 < q.quota <= c.maxVolume && Standing(c, s.disk, s.vols, q.key) && f.check.Done? && q.used.Some?
    ensures var old_ := Find(s.vols, q.key).value.quota;
      var a := Resize(c, s, q, f).1;
      && (a == Refused(FailedPrecondition) <==> q.quota != old_ && q.quota < q.used.value)
      && (a == Refused(ResourceExhausted) <==>
            q.quota > old_ && q.quota >= q.used.value && q.free.Some? && q.free.value < q.quota - old_)
      && (q.quota == old_ ==> a == Changed)
  {
    StandingIsOurs(c, s, q.key);
  }

  // What a creation answers of a volume that is finished, and of one that cannot
  // be begun.
  lemma CreateAnswers(c: Config, s: State, q: CreateReq, f: CreateFaults)
    requires ValidConfig(c) && Inv(c, s) && ValidName(q.key.name) && q.key.parent in c.parents && f.look.Done?
    ensures var a := Create(c, s, q, f).1;
      && (q.quota == 0 ==> a == Refused(InvalidArgument))
      && (q.quota > c.maxVolume && q.quota > 0 ==> a == Refused(OutOfRange))
      && (0 < q.quota <= c.maxVolume ==>
            match Find(s.vols, q.key)
            case Some(r) =>
              && (r.quota != q.quota ==> a == Refused(AlreadyExists) && Create(c, s, q, f).0 == s)
              && (r.quota == q.quota && !r.pending ==>
                    Create(c, s, q, f) == (s, if Standing(c, s.disk, s.vols, q.key) then Made(false) else Refused(FailedPrecondition)))
            case None =>
              && (q.key in s.disk.entries ==> a == Refused(AlreadyExists) && Create(c, s, q, f).0 == s)
              && (a == Refused(ResourceExhausted) ==> Create(c, s, q, f).0 == s)
              && (a == Refused(ResourceExhausted) <==>
                    && q.key !in s.disk.entries
                    && ((q.free.Some? && q.free.value < q.quota)
                        || forall id :: c.parents[q.key.parent].lo <= id <= c.parents[q.key.parent].hi ==> Held(s.vols, id))))
  {
    hide Inv, Finish;
    match Find(s.vols, q.key)
    case Some(r) => if !r.pending { StandingIsOurs(c, s, q.key); }
    case None =>
      BeginShape(c, s, q, f);
      FinishAnswers(c.parents[q.key.parent], s, NewRecord(c.parents[q.key.parent], s, q), f);
      FinishNeverExhausted(c, s, q, f);
      assert c.parents[q.key.parent].kind.Subvolume? ==> !Held(s.vols, c.parents[q.key.parent].lo);
  }

  lemma FinishAnswers(p: Parent, s: State, r: Record, f: CreateFaults)
    ensures Finish(p, s, r, f).1 != Refused(ResourceExhausted)
  {
    hide Build;
  }

  lemma FinishNeverExhausted(c: Config, s: State, q: CreateReq, f: CreateFaults)
    requires q.key.parent in c.parents && Find(s.vols, q.key).None?
    ensures forall s1, r :: Finish(c.parents[q.key.parent], s1, r, f).1 != Refused(ResourceExhausted)
  {
    forall s1, r ensures Finish(c.parents[q.key.parent], s1, r, f).1 != Refused(ResourceExhausted) {
      FinishAnswers(c.parents[q.key.parent], s1, r, f);
    }
  }

  /********** Snapshots **********/

  // The request leads to a new snapshot: of a subvolume, under a name neither
  // recorded nor taken by something beside it.
  predicate Takes(c: Config, s: State, k: Key, name: string, f: ChangeFaults) {
    && ValidName(name) && Standing(c, s.disk, s.vols, k) && f.check.Done? && c.parents[k.parent].kind.Subvolume?
    && name !in Find(s.vols, k).value.snapshots && name !in Beside(s.disk, k)
  }

  // It is there, its name after those recorded, and the list saved, as far as the
  // call came; any other request changes nothing, and is answered as done exactly
  // when the name is recorded already.
  lemma SnapshotLeaves(c: Config, s: State, k: Key, name: string, f: ChangeFaults)
    requires ValidConfig(c) && Inv(c, s)
    ensures var (s', a) := Snapshot(c, s, k, name, f);
      if !Takes(c, s, k, name, f) then
        && s' == s
        && (a == Changed <==>
              && ValidName(name) && Standing(c, s.disk, s.vols, k) && f.check.Done? && c.parents[k.parent].kind.Subvolume?
              && name in Find(s.vols, k).value.snapshots)
      else
        && s'.disk == (if Happens(f.effect) then s.disk.(snaps := s.disk.snaps[k := Beside(s.disk, k) + {name}]) else s.disk)
        && (if f.effect.Done? then
              && Find(s'.vols, k) == Some(Find(s.vols, k).value.(snapshots := Find(s.vols, k).value.snapshots + [name]))
              && (forall j :: j != k ==> Find(s'.vols, j) == Find(s.vols, j))
              && s'.file == (if Happens(f.save) then s'.vols else s.file)
            else s'.vols == s.vols && s'.file == s.file)
        && (a == Changed <==> f.effect.Done? && f.save.Done?)
  {
    hide Update, Find, Inv;
    if !BadTarget(c, k) && Find(s.vols, k).Some? && !Find(s.vols, k).value.pending {
      StandingIsOurs(c, s, k);
      var r := Find(s.vols, k).value;
      var r' := r.(snapshots := r.snapshots + [name]);
      forall j ensures Find(Update(s.vols, r'), j) == if j == k then Some(r') else Find(s.vols, j) {
        FindAfterUpdate(s.vols, r', j);
      }
    }
  }
}
