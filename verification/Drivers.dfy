/** Who owns the drivers of the served shares, while admin changes and reloads
    build a new list, adopt or open what it needs, write the state down and swap.
    A driver is an index into the table of every driver ever opened. */
module Drivers {
  import opened Wrappers

  // The file as stat saw it when the block was opened; None when stat failed.
  datatype ImageKey = ImageKey(
    directory: bool, filesystem: string, partLabel: string, partUUID: string, partition: nat, file: Option<nat>)

  datatype Block = Block(
    name: string, readOnly: bool, noWriters: bool, system: bool,
    directory: bool, filesystem: string, partLabel: string, partUUID: string, partition: nat)

  // What opening an image comes to: a file that could not be opened for writing,
  // a device, a partition chosen.
  datatype Opened = Fails | Opens(fellBack: bool, device: bool, took: bool)

  // A block, and what the host and the directory of people answer about it.
  datatype Want = Want(block: Block, listsFail: bool, file: Option<nat>, result: Opened)

  // asked: whether writing was asked for when it was opened. closes: how many
  // times its closer ran.
  datatype Driver = Driver(key: ImageKey, readOnly: bool, fixed: bool, asked: bool, closes: nat)

  datatype Share = Share(
    block: Block, readOnly: bool, key: ImageKey, fsys: Option<nat>,
    openedReadOnly: bool, forcedReadOnly: bool, askedWrite: bool, closers: seq<nat>)

  predicate Same(k: ImageKey, o: ImageKey) {
    k == o && k.file.Some?
  }

  function KeyOf(w: Want): ImageKey {
    ImageKey(w.block.directory, w.block.filesystem, w.block.partLabel, w.block.partUUID, w.block.partition, w.file)
  }

  function SameImage(shares: seq<Share>, k: ImageKey): (r: Option<Share>)
    ensures r.Some? ==> r.value in shares && r.value.fsys.Some? && Same(r.value.key, k)
    ensures r.None? ==> forall i :: 0 <= i < |shares| ==> !(shares[i].fsys.Some? && Same(shares[i].key, k))
  {
    if shares == [] then None
    else if shares[0].fsys.Some? && Same(shares[0].key, k) then Some(shares[0])
    else SameImage(shares[1..], k)
  }

  function NewShare(w: Want): Share {
    Share(w.block, w.block.readOnly || w.block.noWriters, KeyOf(w), None, false, false, false, [])
  }

  function Adopt(sh: Share, prev: Share): Share {
    sh.(fsys := prev.fsys, openedReadOnly := prev.openedReadOnly, forcedReadOnly := prev.forcedReadOnly,
        askedWrite := prev.askedWrite, closers := prev.closers,
        readOnly := sh.readOnly || prev.openedReadOnly || prev.forcedReadOnly)
  }

  // A driver that was opened read-only, by a block that asked for no more, is
  // not made writable while it is served.
  predicate Refuses(prev: Share, b: Block) {
    prev.openedReadOnly && !b.readOnly && !prev.askedWrite
  }

  // The share a freshly opened driver gives, and the driver.
  function OpenImage(sh: Share, w: Want, id: nat): (Share, Driver)
    requires w.result.Opens?
  {
    var b := w.block;
    var ro := b.readOnly || (!b.directory && (w.result.fellBack || w.result.device));
    var fixed := !b.directory && (w.result.device || w.result.took);
    (sh.(fsys := Some(id), openedReadOnly := ro, forcedReadOnly := fixed, askedWrite := !b.readOnly, closers := [id],
         readOnly := sh.readOnly || ro || fixed),
     Driver(sh.key, ro, fixed, !b.readOnly, 0))
  }

  datatype Opening = Opening(drivers: seq<Driver>, made: seq<Share>, out: seq<Share>)

  // One block of the list: nothing for a share served as its people, the driver
  // that has the image open, or a new one.
  function OpenOne(previous: seq<Share>, o: Opening, w: Want): Option<Opening> {
    var sh := NewShare(w);
    var prev := SameImage(previous + o.out, sh.key);
    if w.listsFail then None
    else if w.block.system then Some(o.(made := o.made + [sh], out := o.out + [sh]))
    else if prev.Some? then
      if Refuses(prev.value, w.block) then None else Some(o.(out := o.out + [Adopt(sh, prev.value)]))
    else if w.result.Fails? then None
    else
      var (sh', d) := OpenImage(sh, w, |o.drivers|);
      Some(Opening(o.drivers + [d], o.made + [sh'], o.out + [sh']))
  }

  function CloseOne(drivers: seq<Driver>, id: nat): seq<Driver> {
    if id < |drivers| then drivers[id := drivers[id].(closes := drivers[id].closes + 1)] else drivers
  }

  function Close(drivers: seq<Driver>, sh: Share): seq<Driver>
    decreases |sh.closers|
  {
    if sh.closers == [] then drivers else Close(CloseOne(drivers, sh.closers[0]), sh.(closers := sh.closers[1..]))
  }

  function CloseAll(drivers: seq<Driver>, shares: seq<Share>): seq<Driver>
    decreases |shares|
  {
    if shares == [] then drivers else CloseAll(Close(drivers, shares[0]), shares[1..])
  }

  // The whole list, or nothing: what was opened for it is closed again.
  function OpenShares(previous: seq<Share>, o: Opening, wants: seq<Want>): (seq<Driver>, Option<seq<Share>>)
    decreases |wants|
  {
    if wants == [] then (o.drivers, Some(o.out))
    else match OpenOne(previous, o, wants[0])
      case None => (CloseAll(o.drivers, o.made), None)
      case Some(o') => OpenShares(previous, o', wants[1..])
  }

  predicate Keeps(keep: seq<Share>, sh: Share) {
    exists i :: 0 <= i < |keep| && keep[i].fsys == sh.fsys
  }

  function Release(drivers: seq<Driver>, shares: seq<Share>, keep: seq<Share>): seq<Driver>
    decreases |shares|
  {
    if shares == [] then drivers
    else Release(if Keeps(keep, shares[0]) then drivers else Close(drivers, shares[0]), shares[1..], keep)
  }

  /********** The server **********/

  datatype Write = Written | NotWritten | WrittenLate

  // running: a generation serves. state: the admin state being served; file:
  // the one written down.
  datatype State = State(shares: seq<Share>, drivers: seq<Driver>, running: bool, generation: nat, state: nat, file: nat)

  function Saved(s: State, to: nat, w: Write): State {
    if w.NotWritten? then s else s.(file := to)
  }

  // The generation is stopped, the list replaced, the next one started, and
  // only then what nobody serves any more is closed.
  function Swap(s: State, next: seq<Share>): Option<State> {
    if !s.running then None
    else Some(s.(shares := next, generation := s.generation + 1, drivers := Release(s.drivers, s.shares, next)))
  }

  // An admin change to the state `to`.
  function Apply(s: State, to: nat, wants: seq<Want>, write: Write, restore: Write): (State, bool) {
    var (drivers, next) := OpenShares(s.shares, Opening(s.drivers, [], []), wants);
    var s1 := s.(drivers := drivers);
    if next.None? then (s1, false)
    else
      var s2 := Saved(s1, to, write);
      if !write.Written? then (s2.(drivers := Release(drivers, next.value, s.shares)), false)
      else match Swap(s2, next.value)
        case Some(s3) => (s3.(state := to), true)
        case None => (Saved(s2.(drivers := Release(drivers, next.value, s.shares)), s.state, restore), false)
  }

  // A reload that rebuilds: the same blocks, opened again.
  function Reload(s: State, wants: seq<Want>): (State, bool) {
    var (drivers, next) := OpenShares(s.shares, Opening(s.drivers, [], []), wants);
    var s1 := s.(drivers := drivers);
    if next.None? then (s1, false)
    else match Swap(s1, next.value)
      case Some(s2) => (s2, true)
      case None => (s1.(drivers := Release(drivers, next.value, s.shares)), false)
  }

  /********** The same, in place **********/

  class Server {
    var shares: seq<Share>
    var drivers: seq<Driver>
    var running: bool
    var generation: nat
    var state: nat
    var file: nat

    function View(): State
      reads this
    {
      State(shares, drivers, running, generation, state, file)
    }

    method OpenSharesExpanding(wants: seq<Want>) returns (next: Option<seq<Share>>)
      modifies this`drivers
      ensures (drivers, next) == OpenShares(shares, Opening(old(drivers), [], []), wants)
    {
      var made: seq<Share>, out: seq<Share> := [], [];
      var i := 0;
      while i < |wants|
        invariant 0 <= i <= |wants|
        invariant OpenShares(shares, Opening(old(drivers), [], []), wants) == OpenShares(shares, Opening(drivers, made, out), wants[i..])
      {
        var w := wants[i];
        assert wants[i..][0] == w && wants[i..][1..] == wants[i + 1..];
        var sh := NewShare(w);
        if w.listsFail {
          CloseShares(made);
          return None;
        }
        var prev := SameImage(shares + out, sh.key);
        if prev.Some? && !w.block.system {
          if Refuses(prev.value, w.block) {
            CloseShares(made);
            return None;
          }
          out := out + [Adopt(sh, prev.value)];
        } else {
          if !w.block.system {
            if w.result.Fails? {
              CloseShares(made);
              return None;
            }
            var (opens, d) := OpenImage(sh, w, |drivers|);
            drivers, sh := drivers + [d], opens;
          }
          made, out := made + [sh], out + [sh];
        }
        i := i + 1;
      }
      next := Some(out);
    }

    method CloseShares(list: seq<Share>)
      modifies this`drivers
      ensures drivers == CloseAll(old(drivers), list)
    {
      var i := 0;
      while i < |list|
        invariant 0 <= i <= |list| && CloseAll(drivers, list[i..]) == CloseAll(old(drivers), list)
      {
        assert list[i..][0] == list[i] && list[i..][1..] == list[i + 1..];
        drivers := Close(drivers, list[i]);
        i := i + 1;
      }
    }

    method ReleaseShares(list: seq<Share>, keep: seq<Share>)
      modifies this`drivers
      ensures drivers == Release(old(drivers), list, keep)
    {
      var i := 0;
      while i < |list|
        invariant 0 <= i <= |list| && Release(drivers, list[i..], keep) == Release(old(drivers), list, keep)
      {
        assert list[i..][0] == list[i] && list[i..][1..] == list[i + 1..];
        if !Keeps(keep, list[i]) { drivers := Close(drivers, list[i]); }
        i := i + 1;
      }
    }

    method SwapTo(next: seq<Share>) returns (ok: bool)
      modifies this
      ensures ok <==> Swap(old(View()), next).Some?
      ensures View() == if ok then Swap(old(View()), next).value else old(View())
    {
      if !running { return false; }
      var prev := shares;
      shares := next;
      generation := generation + 1;
      ReleaseShares(prev, next);
      ok := true;
    }

    method ApplyChange(to: nat, wants: seq<Want>, write: Write, restore: Write) returns (ok: bool)
      modifies this
      ensures (View(), ok) == Apply(old(View()), to, wants, write, restore)
    {
      var prev := shares;
      var next := OpenSharesExpanding(wants);
      if next.None? { return false; }
      if !write.NotWritten? { file := to; }
      if !write.Written? {
        ReleaseShares(next.value, prev);
        return false;
      }
      ok := SwapTo(next.value);
      if ok {
        state := to;
      } else {
        ReleaseShares(next.value, prev);
        if !restore.NotWritten? { file := state; }
      }
    }

    method ReloadShares(wants: seq<Want>) returns (ok: bool)
      modifies this
      ensures (View(), ok) == Reload(old(View()), wants)
    {
      var prev := shares;
      var next := OpenSharesExpanding(wants);
      if next.None? { return false; }
      ok := SwapTo(next.value);
      if !ok { ReleaseShares(next.value, prev); }
    }
  }
}
