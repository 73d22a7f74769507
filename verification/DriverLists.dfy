/** What opening a list of blocks gives: a share for each, in their order, over a
    driver opened as its block asks; and when it gives none. */
module DriverLists {
  import opened Wrappers
  import opened Drivers
  import opened DriverOwnership

  // The image a block is about, as it was found.
  ghost predicate IsKey(k: ImageKey, w: Want) {
    && k.directory == w.block.directory && k.filesystem == w.block.filesystem && k.file == w.file
    && k.partLabel == w.block.partLabel && k.partUUID == w.block.partUUID && k.partition == w.block.partition
  }

  // A driver opened for the block: read-only when that is asked for, or the image
  // gives no more; fixed when it is a device or a partition of one.
  ghost predicate OpenedFor(d: Driver, w: Want) {
    && IsKey(d.key, w) && w.result.Opens? && !w.block.system && (d.asked <==> !w.block.readOnly) && d.closes == 0
    && (d.readOnly <==> w.block.readOnly || (!w.block.directory && (w.result.fellBack || w.result.device)))
    && (d.fixed <==> !w.block.directory && (w.result.device || w.result.took))
  }

  ghost predicate GivenFor(sh: Share, w: Want) {
    sh.block == w.block && IsKey(sh.key, w) && !w.listsFail
  }

  // A share for each want, in their order; every driver that was not there opened
  // for one of them.
  ghost predicate InOrder(base: nat, drivers: seq<Driver>, out: seq<Share>, wants: seq<Want>) {
    && |out| == |wants| && (forall i :: 0 <= i < |wants| ==> GivenFor(out[i], wants[i]))
    && (forall d :: base <= d < |drivers| ==> OpenedIn(drivers, out, wants, d))
  }

  ghost predicate OpenedIn(drivers: seq<Driver>, out: seq<Share>, wants: seq<Want>, d: nat)
    requires d < |drivers| && |out| == |wants|
  {
    exists i :: 0 <= i < |wants| && out[i].fsys == Some(d) && OpenedFor(drivers[d], wants[i])
  }

  // Its image is open already, over a driver nobody asked to write through, and
  // the block would.
  ghost predicate TooLate(drivers: seq<Driver>, served: seq<Share>, w: Want) {
    && !w.block.system && !w.block.readOnly
    && (exists j :: 0 <= j < |served| && Holds(served[j], w) && served[j].fsys.value < |drivers|
          && drivers[served[j].fsys.value].readOnly && !drivers[served[j].fsys.value].asked)
  }

  // It has the block's image open.
  ghost predicate Holds(sh: Share, w: Want) {
    sh.fsys.Some? && IsKey(sh.key, w) && sh.key.file.Some?
  }

  // No list of people, no image that can be opened, or one that is open and too
  // late to write through.
  ghost predicate Stops(drivers: seq<Driver>, served: seq<Share>, w: Want) {
    || w.listsFail || TooLate(drivers, served, w)
    || (!w.block.system && w.result.Fails? && forall j :: 0 <= j < |served| ==> !Holds(served[j], w))
  }

  lemma HeldIs(base: seq<Driver>, prev: seq<Share>, o: Opening, w: Want)
    requires Building(base, prev, o)
    ensures var held := SameImage(prev + o.out, KeyOf(w));
      && (held.Some? <==> exists j :: 0 <= j < |prev + o.out| && Holds((prev + o.out)[j], w))
      && (held.Some? && !w.block.system ==> (Refuses(held.value, w.block) <==> TooLate(o.drivers, prev + o.out, w)))
  {
    var all := prev + o.out;
    var held := SameImage(all, KeyOf(w));
    assert ListOk(o.drivers, all);
    if held.Some? {
      var n :| 0 <= n < |all| && all[n] == held.value;
      assert ShareOk(o.drivers, all[n]) && Holds(all[n], w);
      forall j | 0 <= j < |all| && Holds(all[j], w)
        ensures all[j].fsys.value < |o.drivers| && all[j].fsys == held.value.fsys
      {
        assert ShareOk(o.drivers, all[j]);
        OneOpen(o.drivers, all[j].fsys.value, all[n].fsys.value);
      }
    }
  }

  lemma OneOpen(drivers: seq<Driver>, d: nat, e: nat)
    requires OnePerImage(drivers) && IsOpen(drivers, d) && IsOpen(drivers, e) && Same(drivers[d].key, drivers[e].key)
    ensures d == e
  {
  }

  // A block is given its share exactly unless something stops it.
  lemma OneStops(base: seq<Driver>, prev: seq<Share>, o: Opening, w: Want)
    requires Building(base, prev, o)
    ensures OpenOne(prev, o, w).None? <==> Stops(o.drivers, prev + o.out, w)
  {
    HeldIs(base, prev, o, w);
  }

  lemma OneInOrder(base: seq<Driver>, prev: seq<Share>, o: Opening, done: seq<Want>, w: Want)
    requires Building(base, prev, o) && InOrder(|base|, o.drivers, o.out, done) && OpenOne(prev, o, w).Some?
    ensures var o' := OpenOne(prev, o, w).value; InOrder(|base|, o'.drivers, o'.out, done + [w])
  {
    var o' := OpenOne(prev, o, w).value;
    assert |o'.out| == |o.out| + 1 && o'.out[..|o.out|] == o.out && GivenFor(o'.out[|o.out|], w);
    forall d | |base| <= d < |o'.drivers| ensures OpenedIn(o'.drivers, o'.out, done + [w], d) {
      if d < |o.drivers| {
        assert OpenedIn(o.drivers, o.out, done, d);
        var i :| 0 <= i < |done| && o.out[i].fsys == Some(d) && OpenedFor(o.drivers[d], done[i]);
        assert o'.out[i] == o.out[i] && (done + [w])[i] == done[i];
      } else {
        assert o'.out[|done|].fsys == Some(d) && (done + [w])[|done|] == w;
      }
    }
  }

  lemma {:induction false} ListInOrder(base: seq<Driver>, prev: seq<Share>, o: Opening, done: seq<Want>, wants: seq<Want>)
    requires Building(base, prev, o) && InOrder(|base|, o.drivers, o.out, done)
    ensures var (drivers, next) := OpenShares(prev, o, wants);
      if next.Some? then InOrder(|base|, drivers, next.value, done + wants)
      else exists i :: 0 <= i < |wants| && (wants[i].listsFail || (!wants[i].block.system && (wants[i].result.Fails? || !wants[i].block.readOnly)))
    decreases |wants|
  {
    hide Building, InOrder;
    if wants == [] {
      assert done + wants == done;
    } else {
      OneStops(base, prev, o, wants[0]);
      if OpenOne(prev, o, wants[0]).Some? {
        OneBuilds(base, prev, o, wants[0]);
        OneInOrder(base, prev, o, done, wants[0]);
        ListInOrder(base, prev, OpenOne(prev, o, wants[0]).value, done + [wants[0]], wants[1..]);
        assert done + [wants[0]] + wants[1..] == done + wants;
        assert forall i :: 0 <= i < |wants[1..]| ==> wants[1..][i] == wants[i + 1];
      }
    }
  }

  // Letting go of the list before takes none of them away.
  lemma ReleasedInOrder(base: nat, drivers: seq<Driver>, prev: seq<Share>, next: seq<Share>, wants: seq<Want>)
    requires InOrder(base, drivers, next, wants) && base <= |drivers|
    requires ListOk(drivers, prev) && ListOk(drivers, next) && OnePerImage(drivers) && AllServed(drivers, prev + next)
    ensures InOrder(base, Release(drivers, prev, next), next, wants)
  {
    var after := Release(drivers, prev, next);
    ReleaseKeeps(drivers, prev, next);
    ClosersOf(drivers, prev);
    ReleaseCloses(drivers, prev, next);
    forall d | base <= d < |after| ensures OpenedIn(after, next, wants, d) {
      assert OpenedIn(drivers, next, wants, d);
      var i :| 0 <= i < |wants| && next[i].fsys == Some(d) && OpenedFor(drivers[d], wants[i]);
      assert Serves(next, d);
    }
  }

  // The state after a list for these wants has taken the place of the one before.
  ghost predicate Served(s: State, s': State, wants: seq<Want>) {
    InOrder(|s.drivers|, s'.drivers, s'.shares, wants) && s'.generation == s.generation + 1 && s'.running
  }

  // After a change or a reload that went through, what is served is a share for
  // each block asked for, in their order, over drivers there were or opened for
  // them; and the change is the one written down and served. A change goes through
  // exactly when the list could be opened and written down while the server runs.
  lemma ServedInOrder(s: State, to: nat, wants: seq<Want>, write: Write, restore: Write)
    requires Inv(s)
    ensures var (s', ok) := Apply(s, to, wants, write, restore); ok ==> Served(s, s', wants) && s'.state == to && s'.file == to
    ensures var (s', ok) := Reload(s, wants); ok ==> Served(s, s', wants) && s'.state == s.state && s'.file == s.file
    ensures var opens := OpenShares(s.shares, Opening(s.drivers, [], []), wants).1.Some?;
      && (Apply(s, to, wants, write, restore).1 <==> opens && write.Written? && s.running)
      && (Reload(s, wants).1 <==> opens && s.running)
  {
    hide Release, InOrder;
    assert s.shares + [] == s.shares;
    assert Building(s.drivers, s.shares, Opening(s.drivers, [], []));
    NothingInOrder(s.drivers);
    ListInOrder(s.drivers, s.shares, Opening(s.drivers, [], []), [], wants);
    assert [] + wants == wants;
    var (drivers, next) := OpenShares(s.shares, Opening(s.drivers, [], []), wants);
    if next.Some? {
      OpensFrom(s, wants);
      ReleasedInOrder(|s.drivers|, drivers, s.shares, next.value, wants);
    }
  }

  lemma NothingInOrder(drivers: seq<Driver>)
    ensures InOrder(|drivers|, drivers, [], [])
  {
  }
}
