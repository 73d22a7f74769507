/** The provisioner's transactions: records in memory, the same records in a
    durable file, and the storage they describe, changed one effect at a time.
    Every effect may succeed, fail before or after it happened, or be the moment
    the process dies. Two kinds of storage share the transactions: directories
    under a project id (XFS, ext4) and btrfs subvolumes. */
module Provision {
  import opened Wrappers

  datatype Kind = Project | Subvolume

  // lo and hi bound the project ids a Project parent gives out.
  datatype Parent = Parent(kind: Kind, lo: nat, hi: nat)

  datatype Config = Config(parents: map<string, Parent>, maxVolume: nat)

  datatype Key = Key(parent: string, name: string)

  datatype Record = Record(
    key: Key,
    quota: nat,
    created: int,
    pending: bool,
    projectID: nat,
    subvolID: nat,
    snapshots: seq<string>)

  // What is at a volume's path. `id` is a directory's project id (0 when it has
  // none) or a subvolume's id (0 for a plain directory).
  datatype Entry = Other | Dir(id: nat, group: bool, files: set<string>)

  // limits: per parent and id, never 0. snaps: the snapshots kept beside a
  // subvolume. nextID: subvolume ids are never given out twice.
  datatype Disk = Disk(
    entries: map<Key, Entry>,
    limits: map<(string, nat), nat>,
    snaps: map<Key, set<string>>,
    nextID: nat)

  datatype State = State(vols: seq<Record>, file: seq<Record>, disk: Disk)

  datatype Outcome = Done | Fail | FailLate | Crash
  datatype Verdict = Okay | Errored | Died

  datatype Code = InvalidArgument | OutOfRange | AlreadyExists | NotFound | FailedPrecondition | ResourceExhausted | Unimplemented
  datatype Answer = Made(created: bool) | Gone(deleted: bool) | Changed | Refused(code: Code) | Broken | Killed

  function VerdictOf(o: Outcome): Verdict {
    match o case Done => Okay case Fail => Errored case FailLate => Errored case Crash => Died
  }

  predicate Happens(o: Outcome) {
    o.Done? || o.FailLate?
  }

  /********** The record list **********/

  function Find(vols: seq<Record>, k: Key): (r: Option<Record>)
    ensures r.Some? ==> r.value in vols && r.value.key == k
    ensures r.None? ==> forall x :: x in vols ==> x.key != k
  {
    if vols == [] then None else if vols[0].key == k then Some(vols[0]) else Find(vols[1..], k)
  }

  function Put(vols: seq<Record>, r: Record): seq<Record> {
    if Find(vols, r.key).None? then vols + [r] else vols
  }

  function Remove(vols: seq<Record>, k: Key): (rest: seq<Record>)
    ensures forall x :: x in rest <==> x in vols && x.key != k
  {
    if vols == [] then [] else (if vols[0].key == k then [] else [vols[0]]) + Remove(vols[1..], k)
  }

  // The record changed through its pointer.
  function Update(vols: seq<Record>, r: Record): (next: seq<Record>)
    ensures |next| == |vols|
    ensures forall i :: 0 <= i < |vols| ==> next[i] == if vols[i].key == r.key then r else vols[i]
  {
    seq(|vols|, i requires 0 <= i < |vols| => if vols[i].key == r.key then r else vols[i])
  }

  /********** The lowest free project id **********/

  predicate Held(vols: seq<Record>, id: nat) {
    id != 0 && exists i :: 0 <= i < |vols| && vols[i].projectID == id
  }

  function LowestFree(vols: seq<Record>, lo: nat, hi: nat): (id: Option<nat>)
    ensures id.Some? ==> lo <= id.value <= hi && !Held(vols, id.value) && forall j :: lo <= j < id.value ==> Held(vols, j)
    ensures id.None? ==> forall j :: lo <= j <= hi ==> Held(vols, j)
    decreases hi + 1 - lo
  {
    if lo > hi then None else if !Held(vols, lo) then Some(lo) else LowestFree(vols, lo + 1, hi)
  }

  /********** What is on disk **********/

  datatype Ownership = Ours | Absent | NotOurs

  function Owned(p: Parent, d: Disk, r: Record): Ownership {
    if r.key !in d.entries then Absent
    else match d.entries[r.key]
      case Other => NotOurs
      case Dir(id, _, _) =>
        if p.kind.Project? then
          if r.pending && id == 0 then Ours
          else if id < p.lo || id > p.hi then NotOurs
          else if r.projectID == 0 || id != r.projectID then NotOurs
          else Ours
        else if id == 0 then NotOurs
        else if r.subvolID == 0 then if r.pending then Ours else NotOurs
        else if id != r.subvolID then NotOurs
        else Ours
  }

  function SaveStep(s: State, o: Outcome): State {
    if Happens(o) then s.(file := s.vols) else s
  }

  // mkdir, or the creation of a subvolume: nothing when it is there already.
  function MakeStep(p: Parent, s: State, k: Key, o: Outcome): (State, Verdict) {
    if k in s.disk.entries then
      (s, if o.Done? && p.kind.Project? && s.disk.entries[k].Other? then Errored else VerdictOf(o))
    else if !Happens(o) then (s, VerdictOf(o))
    else if p.kind.Project? then
      (s.(disk := s.disk.(entries := s.disk.entries[k := Dir(0, false, {})])), VerdictOf(o))
    else
      (s.(disk := s.disk.(entries := s.disk.entries[k := Dir(s.disk.nextID, false, {})], nextID := s.disk.nextID + 1)), VerdictOf(o))
  }

  // SetProjectTree on a directory; what a subvolume is known by is its own id,
  // which the record takes instead.
  function TagStep(p: Parent, s: State, r: Record, o: Outcome): (State, Record)
    requires r.key in s.disk.entries && s.disk.entries[r.key].Dir?
  {
    var e := s.disk.entries[r.key];
    if p.kind.Subvolume? then
      if o.Done? then var r' := r.(subvolID := e.id); (s.(vols := Update(s.vols, r')), r') else (s, r)
    else if Happens(o) then (s.(disk := s.disk.(entries := s.disk.entries[r.key := e.(id := r.projectID)])), r)
    else (s, r)
  }

  function LimitID(p: Parent, r: Record): nat {
    if p.kind.Project? then r.projectID else r.subvolID
  }

  function LimitStep(p: Parent, s: State, r: Record, quota: nat, o: Outcome): State {
    if Happens(o) then s.(disk := s.disk.(limits := s.disk.limits[(r.key.parent, LimitID(p, r)) := quota])) else s
  }

  function UnlimitStep(p: Parent, s: State, r: Record, o: Outcome): State {
    if Happens(o) then s.(disk := s.disk.(limits := s.disk.limits - {(r.key.parent, LimitID(p, r))})) else s
  }

  function GroupStep(s: State, k: Key, o: Outcome): State
    requires k in s.disk.entries && s.disk.entries[k].Dir?
  {
    if Happens(o) then s.(disk := s.disk.(entries := s.disk.entries[k := s.disk.entries[k].(group := true)])) else s
  }

  /********** CreateVolume **********/

  // free: the parent's free bytes, when they can be read.
  datatype CreateReq = CreateReq(key: Key, quota: nat, now: int, free: Option<nat>)

  datatype CreateFaults = CreateFaults(
    look: Outcome, savePending: Outcome, make: Outcome, check: Outcome, tag: Outcome, limit: Outcome, group: Outcome,
    lookAfter: Outcome, saveDrop: Outcome, saveDone: Outcome)

  const CLEAN_CREATE := CreateFaults(Done, Done, Done, Done, Done, Done, Done, Done, Done, Done)

  // The names a volume may have: ^[a-z0-9][a-z0-9_-]{0,62}$
  predicate ValidName(name: string) {
    && 1 <= |name| <= 63
    && (forall i :: 0 <= i < |name| ==> 'a' <= name[i] <= 'z' || '0' <= name[i] <= '9' || (i > 0 && (name[i] == '_' || name[i] == '-')))
  }

  // The first refusal of a request, before anything is looked at.
  function BadTarget(c: Config, k: Key): bool {
    !ValidName(k.name) || k.parent !in c.parents
  }

  function BadQuota(c: Config, quota: nat): Option<Code> {
    if quota == 0 then Some(InvalidArgument) else if quota > c.maxVolume then Some(OutOfRange) else None
  }

  function NoRoom(free: Option<nat>, want: nat): bool {
    free.Some? && want > free.value
  }

  function Create(c: Config, s: State, q: CreateReq, f: CreateFaults): (State, Answer) {
    if BadTarget(c, q.key) then (s, Refused(InvalidArgument))
    else if BadQuota(c, q.quota).Some? then (s, Refused(BadQuota(c, q.quota).value))
    else
      var p := c.parents[q.key.parent];
      match Find(s.vols, q.key)
      case Some(r) =>
        if r.quota != q.quota then (s, Refused(AlreadyExists))
        else if !r.pending then
          if !f.look.Done? then (s, if f.look.Crash? then Killed else Broken)
          else if Owned(p, s.disk, r).Ours? then (s, Made(false)) else (s, Refused(FailedPrecondition))
        else Finish(p, s, r, f)
      case None => Begin(p, s, q, f)
  }

  // Nothing is recorded: something already there is not ours to take over --
  // neither kind of storage carries a mark of its own, see ProbeIsNeverOurs --
  // and an empty place gets a pending record before anything is made.
  function Begin(p: Parent, s: State, q: CreateReq, f: CreateFaults): (State, Answer) {
    if !f.look.Done? then (s, if f.look.Crash? then Killed else Broken)
    else if q.key in s.disk.entries then (s, Refused(AlreadyExists))
    else if NoRoom(q.free, q.quota) then (s, Refused(ResourceExhausted))
    else if p.kind.Project? && LowestFree(s.vols, p.lo, p.hi).None? then (s, Refused(ResourceExhausted))
    else
      var r := NewRecord(p, s, q);
      var s1 := SaveStep(s.(vols := Put(s.vols, r)), f.savePending);
      match VerdictOf(f.savePending)
      case Died => (s1, Killed)
      case Errored => (s1.(vols := Remove(s1.vols, q.key)), Broken)
      case Okay => Finish(p, s1, r, f)
  }

  function NewRecord(p: Parent, s: State, q: CreateReq): Record {
    var id := if p.kind.Project? then LowestFree(s.vols, p.lo, p.hi) else None;
    Record(q.key, q.quota, q.now, true, if id.Some? then id.value else 0, 0, [])
  }

  // r is pending: new, or left by a creation that did not finish.
  function Finish(p: Parent, s: State, r: Record, f: CreateFaults): (State, Answer) {
    var (s1, r1, v) := Build(p, s, r, f);
    Settle(s1, r1, v, f)
  }

  function Settle(s: State, r: Record, v: Built, f: CreateFaults): (State, Answer) {
    match v
    case Whole =>
      (SaveStep(s.(vols := Update(s.vols, r.(pending := false))), f.saveDone),
       match VerdictOf(f.saveDone) case Okay => Made(true) case Errored => Broken case Died => Killed)
    case Taken => (s, Refused(AlreadyExists))
    case Dead => (s, Killed)
    case Unbuilt =>
      // Nothing made: the record goes. Made in part: it stays pending.
      if f.lookAfter.Crash? then (s, Killed)
      else if !f.lookAfter.Done? || r.key in s.disk.entries then (s, Broken)
      else (SaveStep(s.(vols := Remove(s.vols, r.key)), f.saveDrop), if f.saveDrop.Crash? then Killed else Broken)
  }

  datatype Built = Whole | Taken | Unbuilt | Dead

  function Failing(v: Verdict): Built {
    if v.Died? then Dead else Unbuilt
  }

  // The backend's create: make it, mark it, limit it, and only then give it to the group.
  function Build(p: Parent, s: State, r: Record, f: CreateFaults): (State, Record, Built) {
    var (s1, v1) := MakeStep(p, s, r.key, f.make);
    if !v1.Okay? then (s1, r, Failing(v1))
    else if !f.check.Done? then (s1, r, Failing(VerdictOf(f.check)))
    else if Owned(p, s1.disk, r).NotOurs? then (s1, r, Taken)
    else if Owned(p, s1.disk, r).Absent? then (s1, r, Unbuilt)
    else
      var (s2, r2) := TagStep(p, s1, r, f.tag);
      if !f.tag.Done? then (s2, r2, Failing(VerdictOf(f.tag)))
      else
        var s3 := LimitStep(p, s2, r2, r2.quota, f.limit);
        if !f.limit.Done? then (s3, r2, Failing(VerdictOf(f.limit)))
        else
          var s4 := GroupStep(s3, r.key, f.group);
          (s4, r2, if f.group.Done? then Whole else Failing(VerdictOf(f.group)))
  }

  /********** DeleteVolume **********/

  // left: what a removal of the tree that did not finish leaves of it; cut: how
  // many of the recorded snapshots were deleted before one failed; seen: the
  // look for the subvolume whose error is ignored.
  datatype DeleteFaults = DeleteFaults(
    look: Outcome, check: Outcome, empty: Outcome, snaps: Outcome, cut: nat, snapDir: Outcome, seen: Outcome,
    tree: Outcome, left: set<string>, dir: Outcome, unlimit: Outcome, save: Outcome)

  const CLEAN_DELETE := DeleteFaults(Done, Done, Done, Done, 0, Done, Done, Done, {}, Done, Done, Done)

  function Delete(c: Config, s: State, k: Key, destroyData: bool, f: DeleteFaults): (State, Answer) {
    if BadTarget(c, k) then (s, Refused(InvalidArgument))
    else
      var p := c.parents[k.parent];
      match Find(s.vols, k)
      case None =>
        if !f.look.Done? then (s, if f.look.Crash? then Killed else Broken)
        else if k !in s.disk.entries then (s, Gone(false))
        else (s, Refused(FailedPrecondition))
      case Some(r) =>
        if !f.check.Done? then (s, if f.check.Crash? then Killed else Broken)
        else match Owned(p, s.disk, r)
          case Absent => Destroy(p, s, r, [], f, false)
          case NotOurs => (s, Refused(FailedPrecondition))
          case Ours =>
            if r.snapshots != [] && !destroyData then (s, Refused(FailedPrecondition))
            else if !destroyData && !f.empty.Done? then (s, if f.empty.Crash? then Killed else Broken)
            else if !destroyData && s.disk.entries[k].files != {} then (s, Refused(FailedPrecondition))
            else Destroy(p, s, r, r.snapshots, f, true)
  }

  function Destroy(p: Parent, s: State, r: Record, snaps: seq<string>, f: DeleteFaults, deleted: bool): (State, Answer) {
    var (s1, v) := if p.kind.Project? then RemoveProject(p, s, r, f) else RemoveSubvolume(p, s, r, snaps, f);
    match v
    case Died => (s1, Killed)
    case Errored => (s1, Broken)
    case Okay =>
      var s2 := SaveStep(s1.(vols := Remove(s1.vols, r.key)), f.save);
      (match VerdictOf(f.save) case Okay => (s2, Gone(deleted)) case Errored => (s2, Broken) case Died => (s2, Killed))
  }

  // The tree, then the project's limits.
  function RemoveProject(p: Parent, s: State, r: Record, f: DeleteFaults): (State, Verdict) {
    var (s1, v) :=
      if r.key !in s.disk.entries then (s, Okay)
      else if s.disk.entries[r.key].Other? then (s, Errored)
      else
        var e := s.disk.entries[r.key];
        var s0 := s.(disk := s.disk.(entries := s.disk.entries[r.key := e.(files := if Happens(f.tree) then {} else e.files * f.left)]));
        if !f.tree.Done? then (s0, VerdictOf(f.tree))
        else (if Happens(f.dir) then s0.(disk := s0.disk.(entries := s0.disk.entries - {r.key})) else s0, VerdictOf(f.dir));
    if !v.Okay? then (s1, v)
    else if r.projectID == 0 then (s1, Okay)
    else (UnlimitStep(p, s1, r, f.unlimit), VerdictOf(f.unlimit))
  }

  function Names(list: seq<string>): set<string> {
    set i | 0 <= i < |list| :: list[i]
  }

  // The snapshots recorded, and their directory, which must then be empty.
  function RemoveSnapshots(s: State, r: Record, snaps: seq<string>, f: DeleteFaults): (State, Verdict) {
    var gone := if Happens(f.snaps) || f.cut >= |snaps| then snaps else snaps[..f.cut];
    var kept := (if r.key in s.disk.snaps then s.disk.snaps[r.key] else {}) - Names(gone);
    var s1 := if r.key in s.disk.snaps then s.(disk := s.disk.(snaps := s.disk.snaps[r.key := kept])) else s;
    if !f.snaps.Done? then (s1, VerdictOf(f.snaps))
    else if kept != {} then (s1, Errored)
    else (if Happens(f.snapDir) then s1.(disk := s1.disk.(snaps := s1.disk.snaps - {r.key})) else s1, VerdictOf(f.snapDir))
  }

  // Then the subvolume, unless looking for it fails, and last its qgroup,
  // whatever comes of that.
  function RemoveSubvolume(p: Parent, s: State, r: Record, snaps: seq<string>, f: DeleteFaults): (State, Verdict) {
    var (s1, v) := RemoveSnapshots(s, r, snaps, f);
    if !v.Okay? then (s1, v)
    else if f.seen.Crash? then (s1, Died)
    else
      var there := f.seen.Done? && r.key in s1.disk.entries;
      var s2 := if there && Happens(f.dir) then s1.(disk := s1.disk.(entries := s1.disk.entries - {r.key})) else s1;
      if there && !f.dir.Done? then (s2, VerdictOf(f.dir))
      else if r.subvolID == 0 then (s2, Okay)
      else if f.unlimit.Crash? then (s2, Died)
      else (UnlimitStep(p, s2, r, f.unlimit), Okay)
  }

  /********** ResizeVolume and SnapshotVolume **********/

  datatype ResizeReq = ResizeReq(key: Key, quota: nat, used: Option<nat>, free: Option<nat>)
  datatype ChangeFaults = ChangeFaults(check: Outcome, effect: Outcome, save: Outcome)

  // A finished volume, checked to be ours.
  function Recorded(c: Config, s: State, k: Key, check: Outcome): Result<Record, Answer> {
    if BadTarget(c, k) then Err(Refused(InvalidArgument))
    else match Find(s.vols, k)
      case None => Err(Refused(NotFound))
      case Some(r) =>
        if r.pending then Err(Refused(FailedPrecondition))
        else if check.Crash? then Err(Killed)
        else if !check.Done? then Err(Broken)
        else if Owned(c.parents[k.parent], s.disk, r).Ours? then Ok(r)
        else Err(Refused(FailedPrecondition))
  }

  function SavedChange(s: State, o: Outcome): (State, Answer) {
    (SaveStep(s, o), match VerdictOf(o) case Okay => Changed case Errored => Broken case Died => Killed)
  }

  function Resize(c: Config, s: State, q: ResizeReq, f: ChangeFaults): (State, Answer) {
    if BadQuota(c, q.quota).Some? then (s, Refused(BadQuota(c, q.quota).value))
    else match Recorded(c, s, q.key, f.check)
      case Err(a) => (s, a)
      case Ok(r) =>
        if q.quota == r.quota then (s, Changed)
        else if q.used.None? then (s, Broken)
        else if q.quota < q.used.value then (s, Refused(FailedPrecondition))
        else if q.quota > r.quota && NoRoom(q.free, q.quota - r.quota) then (s, Refused(ResourceExhausted))
        else
          var s1 := LimitStep(c.parents[q.key.parent], s, r, q.quota, f.effect);
          match VerdictOf(f.effect)
          case Errored => (s1, Broken)
          case Died => (s1, Killed)
          case Okay => SavedChange(s1.(vols := Update(s1.vols, r.(quota := q.quota))), f.save)
  }

  function Snapshot(c: Config, s: State, k: Key, name: string, f: ChangeFaults): (State, Answer) {
    if !ValidName(name) then (s, Refused(InvalidArgument))
    else match Recorded(c, s, k, f.check)
      case Err(a) => (s, a)
      case Ok(r) =>
        if c.parents[k.parent].kind.Project? then (s, Refused(Unimplemented))
        else if name in r.snapshots then (s, Changed)
        else
          var have := if k in s.disk.snaps then s.disk.snaps[k] else {};
          if name in have then (s, Broken)
          else
            var s1 := if Happens(f.effect) then s.(disk := s.disk.(snaps := s.disk.snaps[k := have + {name}])) else s;
            match VerdictOf(f.effect)
            case Errored => (s1, Broken)
            case Died => (s1, Killed)
            case Okay => SavedChange(s1.(vols := Update(s1.vols, r.(snapshots := r.snapshots + [name]))), f.save)
  }
}
