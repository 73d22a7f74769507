/** Removing a directory and everything below it, on one device, through a
    directory listing read in batches and rewound. Any call may fail. */
module RemoveTree {
  import opened Wrappers

  // A directory, on a device, or anything else a name can stand for: a file, or
  // a link, which has a target nobody follows.
  datatype Node = Dir(dev: nat, entries: map<string, nat>) | Leaf(target: string)

  type Nodes = map<nat, Node>

  predicate IsDir(nodes: Nodes, n: nat) {
    n in nodes && nodes[n].Dir?
  }

  predicate Child(nodes: Nodes, d: nat, name: string, c: nat) {
    IsDir(nodes, d) && name in nodes[d].entries && nodes[d].entries[name] == c
  }

  // A directory has one parent and one name in it; files may have more.
  ghost predicate Tree(nodes: Nodes) {
    && (forall d, x, c :: Child(nodes, d, x, c) ==> c in nodes)
    && (forall d, x, e, y, c :: Child(nodes, d, x, c) && Child(nodes, e, y, c) && IsDir(nodes, c) ==> d == e && x == y)
  }

  // No directory is below itself: what rank counts down.
  ghost predicate Ranked(nodes: Nodes, rank: nat -> nat) {
    forall d, x, c :: Child(nodes, d, x, c) && IsDir(nodes, c) ==> rank(c) < rank(d)
  }

  // What a path of names leads to.
  function Walk(nodes: Nodes, d: nat, path: seq<string>): Option<nat>
    decreases |path|
  {
    if path == [] then Some(d)
    else if IsDir(nodes, d) && path[0] in nodes[d].entries then Walk(nodes, nodes[d].entries[path[0]], path[1..])
    else None
  }

  ghost predicate Below(nodes: Nodes, d: nat, n: nat) {
    exists path :: Walk(nodes, d, path) == Some(n)
  }

  /********** What the removal may do, and what it must **********/

  predicate Fewer(a: map<string, nat>, b: map<string, nat>) {
    forall x :: x in a ==> x in b && a[x] == b[x]
  }

  // Entries only go, and only from directories.
  ghost predicate Shrunk(before: Nodes, after: Nodes) {
    && after.Keys == before.Keys
    && (forall n :: n in before ==> if before[n].Leaf? then after[n] == before[n]
          else after[n].Dir? && after[n].dev == before[n].dev && Fewer(after[n].entries, before[n].entries))
  }

  // Nothing changed but directories of the tree below d, on one device.
  ghost predicate OnlyBelow(before: Nodes, after: Nodes, d: nat, dev: nat) {
    forall n :: n in before && n in after && after[n] != before[n] ==>
      Below(before, d, n) && before[n].Dir? && before[n].dev == dev
  }

  ghost predicate Untouched(before: Nodes, after: Nodes, d: nat) {
    forall n :: Below(before, d, n) && n in before ==> n in after && after[n] == before[n]
  }

  // Every directory of the tree is empty, and was on the device.
  ghost predicate Cleared(before: Nodes, after: Nodes, d: nat, dev: nat) {
    forall n :: Below(before, d, n) && IsDir(before, n) ==> IsDir(after, n) && after[n].entries == map[] && before[n].dev == dev
  }

  /********** Walking a tree that only shrinks **********/

  lemma {:induction false} WalkBefore(before: Nodes, after: Nodes, d: nat, path: seq<string>)
    requires Shrunk(before, after) && Walk(after, d, path).Some?
    ensures Walk(before, d, path) == Walk(after, d, path)
    decreases |path|
  {
    if path != [] { WalkBefore(before, after, after[d].entries[path[0]], path[1..]); }
  }

  lemma BelowBefore(before: Nodes, after: Nodes, d: nat, n: nat)
    requires Shrunk(before, after) && Below(after, d, n)
    ensures Below(before, d, n)
  {
    var path :| Walk(after, d, path) == Some(n);
    WalkBefore(before, after, d, path);
  }

  lemma ChildBelow(nodes: Nodes, d: nat, x: string, c: nat, n: nat)
    requires Child(nodes, d, x, c) && Below(nodes, c, n)
    ensures Below(nodes, d, n)
  {
    var path :| Walk(nodes, c, path) == Some(n);
    assert ([x] + path)[1..] == path;
    assert Walk(nodes, d, [x] + path) == Some(n);
  }

  lemma BelowItself(nodes: Nodes, d: nat)
    ensures Below(nodes, d, d)
  {
    assert Walk(nodes, d, []) == Some(d);
  }

  lemma BelowChild(nodes: Nodes, d: nat, n: nat) returns (x: string, c: nat)
    requires Below(nodes, d, n) && n != d
    ensures Child(nodes, d, x, c) && Below(nodes, c, n)
  {
    var path :| Walk(nodes, d, path) == Some(n);
    x, c := path[0], nodes[d].entries[path[0]];
    assert Walk(nodes, c, path[1..]) == Some(n);
  }

  lemma {:induction false} WalkAfter(before: Nodes, after: Nodes, d: nat, path: seq<string>)
    requires Tree(before) && d in before && Untouched(before, after, d) && Walk(before, d, path).Some?
    ensures Walk(after, d, path) == Walk(before, d, path)
    decreases |path|
  {
    if path != [] {
      var c := before[d].entries[path[0]];
      assert Child(before, d, path[0], c);
      BelowItself(before, d);
      forall n | Below(before, c, n) && n in before ensures n in after && after[n] == before[n] {
        ChildBelow(before, d, path[0], c, n);
      }
      WalkAfter(before, after, c, path[1..]);
    }
  }

  lemma BelowAfter(before: Nodes, after: Nodes, d: nat, n: nat)
    requires Tree(before) && d in before && Untouched(before, after, d) && Below(before, d, n)
    ensures Below(after, d, n)
  {
    var path :| Walk(before, d, path) == Some(n);
    WalkAfter(before, after, d, path);
  }

  lemma {:induction false} RankBelow(nodes: Nodes, rank: nat -> nat, d: nat, path: seq<string>)
    requires Ranked(nodes, rank) && Walk(nodes, d, path).Some? && IsDir(nodes, Walk(nodes, d, path).value)
    ensures Walk(nodes, d, path).value == d || rank(Walk(nodes, d, path).value) < rank(d)
    decreases |path|
  {
    if path != [] {
      var c := nodes[d].entries[path[0]];
      assert Child(nodes, d, path[0], c);
      RankBelow(nodes, rank, c, path[1..]);
    }
  }

  // No directory is below its own child.
  lemma NotBelowChild(nodes: Nodes, rank: nat -> nat, d: nat, x: string, c: nat)
    requires Ranked(nodes, rank) && Child(nodes, d, x, c)
    ensures !Below(nodes, c, d)
  {
    if Below(nodes, c, d) {
      var path :| Walk(nodes, c, path) == Some(d);
      RankBelow(nodes, rank, c, path);
    }
  }

  lemma {:induction false} WalkLast(nodes: Nodes, d: nat, path: seq<string>) returns (m: nat)
    requires path != [] && Walk(nodes, d, path).Some?
    ensures Walk(nodes, d, path[..|path| - 1]) == Some(m) && Child(nodes, m, path[|path| - 1], Walk(nodes, d, path).value)
    decreases |path|
  {
    if |path| == 1 {
      m := d;
    } else {
      m := WalkLast(nodes, nodes[d].entries[path[0]], path[1..]);
      assert path[1..][..|path| - 2] == path[..|path| - 1][1..];
    }
  }

  // Two names of one directory lead to trees with no directory in common.
  lemma {:induction false} SiblingsApart(
    nodes: Nodes, rank: nat -> nat, d: nat, x: string, c: nat, y: string, e: nat, p: seq<string>, q: seq<string>)
    requires Tree(nodes) && Ranked(nodes, rank) && Child(nodes, d, x, c) && Child(nodes, d, y, e) && x != y
    requires Walk(nodes, c, p).Some? && IsDir(nodes, Walk(nodes, c, p).value)
    ensures Walk(nodes, c, p) != Walk(nodes, e, q)
    decreases |p|
  {
    if Walk(nodes, c, p) == Walk(nodes, e, q) {
      NotBelowChild(nodes, rank, d, x, c);
      NotBelowChild(nodes, rank, d, y, e);
      if p == [] && q != [] {
        var m := WalkLast(nodes, e, q);
      } else if p != [] && q == [] {
        var m := WalkLast(nodes, c, p);
      } else if p != [] && q != [] {
        var m := WalkLast(nodes, c, p);
        var k := WalkLast(nodes, e, q);
        SiblingsApart(nodes, rank, d, x, c, y, e, p[..|p| - 1], q[..|q| - 1]);
      }
    }
  }

  lemma SiblingsShareNone(nodes: Nodes, rank: nat -> nat, d: nat, x: string, c: nat, y: string, e: nat, n: nat)
    requires Tree(nodes) && Ranked(nodes, rank) && Child(nodes, d, x, c) && Child(nodes, d, y, e) && x != y
    requires Below(nodes, c, n) && IsDir(nodes, n)
    ensures !Below(nodes, e, n)
  {
    if Below(nodes, e, n) {
      var p :| Walk(nodes, c, p) == Some(n);
      var q :| Walk(nodes, e, q) == Some(n);
      SiblingsApart(nodes, rank, d, x, c, y, e, p, q);
    }
  }

  lemma ShrunkStays(before: Nodes, after: Nodes, rank: nat -> nat)
    requires Shrunk(before, after) && Tree(before) && Ranked(before, rank)
    ensures Tree(after) && Ranked(after, rank)
  {
    forall d, x, c | Child(after, d, x, c) ensures Child(before, d, x, c) {
    }
  }

  /********** Half way through a directory **********/

  // Of d's names, the ones left have not been gone into, and behind the ones
  // gone every directory is empty.
  ghost predicate Progress(before: Nodes, now: Nodes, d: nat, dev: nat) {
    && Shrunk(before, now) && OnlyBelow(before, now, d, dev) && IsDir(before, d) && IsDir(now, d)
    && (forall x, c :: Child(before, d, x, c) ==>
          if x in now[d].entries then Untouched(before, now, c) else IsDir(before, c) ==> Cleared(before, now, c, dev))
  }

  function WithoutName(nodes: Nodes, d: nat, x: string): Nodes
    requires IsDir(nodes, d)
  {
    nodes[d := nodes[d].(entries := nodes[d].entries - {x})]
  }

  lemma StartsUntouched(before: Nodes, d: nat, dev: nat)
    requires IsDir(before, d)
    ensures Progress(before, before, d, dev)
  {
  }

  lemma FileGone(before: Nodes, now: Nodes, rank: nat -> nat, d: nat, dev: nat, x: string)
    requires Tree(before) && Ranked(before, rank) && Progress(before, now, d, dev) && before[d].dev == dev
    requires x in now[d].entries && !IsDir(now, now[d].entries[x])
    ensures Progress(before, WithoutName(now, d, x), d, dev)
  {
    var next := WithoutName(now, d, x);
    BelowItself(before, d);
    forall y, e | Child(before, d, y, e)
      ensures if y in next[d].entries then Untouched(before, next, e) else IsDir(before, e) ==> Cleared(before, next, e, dev)
    {
      NotBelowChild(before, rank, d, y, e);
      if y == x { assert before[e].Leaf?; }
    }
  }

  // What a removal below one child leaves of the rest of d.
  lemma ChildEmptied(before: Nodes, mid: Nodes, after: Nodes, rank: nat -> nat, d: nat, dev: nat, x: string, c: nat)
    requires Tree(before) && Ranked(before, rank) && Progress(before, mid, d, dev) && Child(mid, d, x, c) && IsDir(mid, c)
    requires Shrunk(mid, after) && OnlyBelow(mid, after, c, dev)
    ensures Shrunk(before, after) && OnlyBelow(before, after, d, dev) && IsDir(after, d) && after[d] == mid[d]
    ensures forall y, e :: Child(before, d, y, e) && y != x ==>
      if y in after[d].entries then Untouched(before, after, e) else IsDir(before, e) ==> Cleared(before, after, e, dev)
  {
    assert Child(before, d, x, c);
    NotBelowChild(before, rank, d, x, c);
    forall n | Below(mid, c, n) ensures Below(before, c, n) && Below(before, d, n) {
      BelowBefore(before, mid, c, n);
      ChildBelow(before, d, x, c, n);
    }
    forall y, e, n | Child(before, d, y, e) && y != x && y in mid[d].entries && Below(before, e, n) && n in before
      ensures n in after && after[n] == before[n]
    {
      if after[n] != mid[n] { SiblingsShareNone(before, rank, d, x, c, y, e, n); }
    }
    forall y, e, n | Child(before, d, y, e) && y !in mid[d].entries && IsDir(before, e) && Below(before, e, n) && IsDir(before, n)
      ensures IsDir(after, n) && after[n].entries == map[] && before[n].dev == dev
    {
      assert Cleared(before, mid, e, dev);
      assert mid[n].entries == map[] && Fewer(after[n].entries, mid[n].entries);
    }
  }

  // Cleared from half way is cleared from the start, and stays so without the name.
  lemma ClearedThrough(before: Nodes, mid: Nodes, after: Nodes, d: nat, dev: nat, x: string, c: nat)
    requires Tree(before) && c in before && Untouched(before, mid, c) && Cleared(mid, after, c, dev) && IsDir(after, d)
    requires !Below(before, c, d)
    ensures Cleared(before, WithoutName(after, d, x), c, dev)
  {
    forall n | Below(before, c, n) && IsDir(before, n)
      ensures n != d && IsDir(after, n) && after[n].entries == map[] && before[n].dev == dev
    {
      BelowAfter(before, mid, c, n);
    }
  }

  // Dropping a name of d changes nothing below another.
  lemma NameDropped(before: Nodes, after: Nodes, d: nat, x: string, e: nat, dev: nat)
    requires IsDir(after, d) && !Below(before, e, d)
    ensures Untouched(before, after, e) ==> Untouched(before, WithoutName(after, d, x), e)
    ensures Cleared(before, after, e, dev) ==> Cleared(before, WithoutName(after, d, x), e, dev)
  {
  }

  lemma ChildGone(before: Nodes, mid: Nodes, after: Nodes, rank: nat -> nat, d: nat, dev: nat, x: string, c: nat)
    requires Tree(before) && Ranked(before, rank) && Progress(before, mid, d, dev) && Child(mid, d, x, c) && IsDir(mid, c)
    requires before[d].dev == dev && Shrunk(mid, after) && OnlyBelow(mid, after, c, dev) && Cleared(mid, after, c, dev)
    ensures IsDir(after, d) && Progress(before, WithoutName(after, d, x), d, dev)
  {
    hide Below, Cleared, Untouched;
    ChildEmptied(before, mid, after, rank, d, dev, x, c);
    var next := WithoutName(after, d, x);
    BelowItself(before, d);
    assert Child(before, d, x, c) && Untouched(before, mid, c);
    NotBelowChild(before, rank, d, x, c);
    ClearedThrough(before, mid, after, d, dev, x, c);
    forall y, e | Child(before, d, y, e)
      ensures if y in next[d].entries then Untouched(before, next, e) else IsDir(before, e) ==> Cleared(before, next, e, dev)
    {
      NotBelowChild(before, rank, d, y, e);
      NameDropped(before, after, d, x, e, dev);
    }
  }

  lemma AllGone(before: Nodes, now: Nodes, d: nat, dev: nat)
    requires Progress(before, now, d, dev) && before[d].dev == dev && now[d].entries == map[]
    ensures Cleared(before, now, d, dev)
  {
    forall n | Below(before, d, n) && IsDir(before, n)
      ensures IsDir(now, n) && now[n].entries == map[] && before[n].dev == dev
    {
      if n != d {
        var x, c := BelowChild(before, d, n);
        if !IsDir(before, c) { LeafEnds(before, c, n); }
        assert Cleared(before, now, c, dev);
      }
    }
  }

  lemma LeafEnds(nodes: Nodes, c: nat, n: nat)
    requires !IsDir(nodes, c) && Below(nodes, c, n)
    ensures n == c
  {
    var path :| Walk(nodes, c, path) == Some(n);
  }

  /********** The removal **********/

  class FileSystem {
    var nodes: Nodes

    // unlinkat: rmdir takes an empty directory that is no mount and nothing else,
    // unlink anything else. A name that is gone already is no error.
    method Unlink(d: nat, x: string, rmdir: bool) returns (ok: bool)
      requires IsDir(nodes, d)
      modifies this
      ensures ok ==> nodes == WithoutName(old(nodes), d, x)
      ensures ok && x in old(nodes)[d].entries ==>
        if rmdir then IsDir(old(nodes), old(nodes)[d].entries[x]) && old(nodes)[old(nodes)[d].entries[x]] == Dir(old(nodes)[d].dev, map[])
        else !IsDir(old(nodes), old(nodes)[d].entries[x])
      ensures !ok ==> nodes == old(nodes)
    {
      if * { return false; }
      if x !in nodes[d].entries {
        assert nodes[d].entries - {x} == nodes[d].entries;
        return true;
      }
      var c := nodes[d].entries[x];
      if IsDir(nodes, c) != rmdir || (rmdir && nodes[c] != Dir(nodes[d].dev, map[])) { return false; }
      nodes := WithoutName(nodes, d, x);
      ok := true;
    }

    // Readdirnames from the start: up to 256 of the names there are, in any
    // order, and none only when there are none.
    method ReadNames(d: nat) returns (names: seq<string>, ok: bool)
      requires IsDir(nodes, d)
      ensures |names| <= 256 && (forall i :: 0 <= i < |names| ==> names[i] in nodes[d].entries)
      ensures forall i, j :: 0 <= i < j < |names| ==> names[i] != names[j]
      ensures ok && names == [] ==> nodes[d].entries == map[]
    {
      names, ok := [], true;
      var left := nodes[d].entries.Keys;
      while left != {} && |names| < 256
        invariant left <= nodes[d].entries.Keys && |names| <= 256 && ok
        invariant forall i :: 0 <= i < |names| ==> names[i] in nodes[d].entries && names[i] !in left
        invariant forall i, j :: 0 <= i < j < |names| ==> names[i] != names[j]
        invariant names == [] ==> left == nodes[d].entries.Keys
        decreases left
      {
        var enough: bool := *;
        if enough && names != [] { return; }
        if * {
          ok := false;
          return;
        }
        var x :| x in left;
        names, left := names + [x], left - {x};
      }
    }

    // Empties the directory d, which must be on dev. rank only says the calls
    // come to an end.
    method RemoveBelow(d: nat, dev: nat, ghost rank: nat -> nat) returns (ok: bool)
      requires IsDir(nodes, d) && Tree(nodes) && Ranked(nodes, rank)
      modifies this
      ensures Shrunk(old(nodes), nodes) && OnlyBelow(old(nodes), nodes, d, dev)
      ensures ok ==> Cleared(old(nodes), nodes, d, dev)
      decreases rank(d), 1, 0
    {
      if * { return false; }
      if nodes[d].dev != dev { return false; }
      ghost var before := nodes;
      StartsUntouched(before, d, dev);
      while true
        invariant Progress(before, nodes, d, dev)
        decreases nodes[d].entries.Keys
      {
        ghost var start := nodes;
        var names, read := ReadNames(d);
        ok := RemoveNames(d, dev, names, before, rank);
        if !ok { return; }
        if read && names == [] {
          AllGone(before, nodes, d, dev);
          return true;
        }
        if !read { return false; }
        if * { return false; }
        assert names[0] in start[d].entries && names[0] !in nodes[d].entries;
        assert nodes[d].entries.Keys < start[d].entries.Keys;
      }
    }

    // What was read is removed, name by name.
    method RemoveNames(d: nat, dev: nat, names: seq<string>, ghost before: Nodes, ghost rank: nat -> nat) returns (ok: bool)
      requires Tree(before) && Ranked(before, rank) && Progress(before, nodes, d, dev) && before[d].dev == dev
      requires forall i :: 0 <= i < |names| ==> names[i] in nodes[d].entries
      requires forall i, j :: 0 <= i < j < |names| ==> names[i] != names[j]
      modifies this
      ensures Shrunk(before, nodes) && OnlyBelow(before, nodes, d, dev) && IsDir(nodes, d)
      ensures ok ==> Progress(before, nodes, d, dev) && nodes[d].entries.Keys <= old(nodes)[d].entries.Keys
      ensures ok ==> forall i :: 0 <= i < |names| ==> names[i] !in nodes[d].entries
      decreases rank(d), 0, |names|
    {
      var i := 0;
      while i < |names|
        invariant 0 <= i <= |names| && Progress(before, nodes, d, dev)
        invariant nodes[d].entries.Keys <= old(nodes)[d].entries.Keys
        invariant forall j :: 0 <= j < i ==> names[j] !in nodes[d].entries
        invariant forall j :: i <= j < |names| ==> names[j] in nodes[d].entries
      {
        var x := names[i];
        var c := nodes[d].entries[x];
        if * { return false; }
        ghost var mid := nodes;
        ShrunkStays(before, mid, rank);
        assert Child(mid, d, x, c);
        if IsDir(nodes, c) {
          ok := RemoveBelow(c, dev, rank);
          ChildEmptied(before, mid, nodes, rank, d, dev, x, c);
          if !ok { return; }
          ChildGone(before, mid, nodes, rank, d, dev, x, c);
        } else {
          FileGone(before, mid, rank, d, dev, x);
        }
        ok := Unlink(d, x, IsDir(nodes, c));
        if !ok { return; }
        i := i + 1;
      }
      ok := true;
    }

    // Removes the directory of that name in p, and everything below it that is
    // on its device. On success exactly that tree is gone; whatever happens,
    // nothing outside it changed, nothing on a device other than its own, and no
    // file or link. emptied: it came as far as removing the directory itself.
    // What is not on p's device is safe exactly unless the directory is a mount
    // with something in it.
    method RemoveAll(p: nat, x: string, ghost rank: nat -> nat) returns (ok: bool, emptied: bool)
      requires IsDir(nodes, p) && Tree(nodes) && Ranked(nodes, rank)
      modifies this
      ensures Shrunk(old(nodes), nodes) && (ok ==> emptied)
      ensures x !in old(nodes)[p].entries ==> !emptied && nodes == old(nodes)
      ensures x in old(nodes)[p].entries && !IsDir(old(nodes), old(nodes)[p].entries[x]) ==> !emptied && nodes == old(nodes)
      ensures x in old(nodes)[p].entries && IsDir(old(nodes), old(nodes)[p].entries[x]) ==>
        var c := old(nodes)[p].entries[x];
        var dev := old(nodes)[c].dev;
        && OnlyBelow(old(nodes), nodes[p := old(nodes)[p]], c, dev)
        && nodes[p] == (if ok then old(nodes)[p].(entries := old(nodes)[p].entries - {x}) else old(nodes)[p])
        && (emptied ==> Cleared(old(nodes), nodes, c, dev))
        && (ok ==> dev == old(nodes)[p].dev)
        && (dev == old(nodes)[p].dev ==> OffDeviceSame(old(nodes), nodes, old(nodes)[p].dev))
        && (emptied ==> (OffDeviceSame(old(nodes), nodes, old(nodes)[p].dev) <==> dev == old(nodes)[p].dev || old(nodes)[c].entries == map[]))
    {
      ok, emptied := false, false;
      ghost var before := nodes;
      if * { return; }
      if x !in nodes[p].entries { return; }
      var c := nodes[p].entries[x];
      if !IsDir(nodes, c) { return; }
      assert Child(before, p, x, c);
      NotBelowChild(before, rank, p, x, c);
      emptied := RemoveBelow(c, nodes[c].dev, rank);
      if emptied { ok := Unlink(p, x, true); }
      StaysOnDevice(before, nodes, p, c);
    }
  }

  /********** The device that is not left **********/

  ghost predicate OffDeviceSame(before: Nodes, after: Nodes, dev: nat) {
    forall n :: IsDir(before, n) && before[n].dev != dev ==> n in after && after[n] == before[n]
  }

  // A removal stays on the device of the directory it is given. That is the
  // parent's, unless the directory is a mount: then it is what is mounted.
  lemma StaysOnDevice(before: Nodes, after: Nodes, p: nat, c: nat)
    requires IsDir(before, p) && IsDir(before, c) && Shrunk(before, after)
    requires OnlyBelow(before, after[p := before[p]], c, before[c].dev)
    ensures before[c].dev == before[p].dev ==> OffDeviceSame(before, after, before[p].dev)
    ensures Cleared(before, after, c, before[c].dev) ==>
      (OffDeviceSame(before, after, before[p].dev) <==> before[c].dev == before[p].dev || before[c].entries == map[])
  {
    BelowItself(before, c);
    if before[c].entries == map[] {
      OnlyItself(before, c);
      assert Fewer(after[c].entries, before[c].entries);
      assert after[c].entries == map[];
    }
  }

  lemma OnlyItself(nodes: Nodes, c: nat)
    requires IsDir(nodes, c) && nodes[c].entries == map[]
    ensures forall n :: Below(nodes, c, n) ==> n == c
  {
    forall n, path | Walk(nodes, c, path) == Some(n) ensures n == c {
      assert path == [];
    }
  }

  const MOUNTED: Nodes := map[0 := Dir(1, map["volume" := 1]), 1 := Dir(2, map["file" := 2]), 2 := Leaf("")]

  lemma MountedIsTree()
    ensures Tree(MOUNTED) && Ranked(MOUNTED, (n: nat) => if n == 0 then 1 else 0)
  {
    forall d, x, c | Child(MOUNTED, d, x, c) ensures (d == 0 && x == "volume" && c == 1) || (d == 1 && x == "file" && c == 2) {
    }
  }

  // Nothing stands in the way of that removal.
  lemma MountCanBeEmptied()
    ensures var after := MOUNTED[1 := Dir(2, map[])]; Shrunk(MOUNTED, after) && Cleared(MOUNTED, after, 1, 2) && Tree(after)
  {
    var after := MOUNTED[1 := Dir(2, map[])];
    forall n, path | Walk(MOUNTED, 1, path) == Some(n) ensures n == 1 || n == 2 {
      if path != [] {
        assert IsDir(MOUNTED, 1) && path[0] == "file" && Walk(MOUNTED, 2, path[1..]) == Some(n);
        assert !IsDir(MOUNTED, 2);
      }
    }
    forall d, x, c | Child(after, d, x, c) ensures Child(MOUNTED, d, x, c) {
    }
    MountedIsTree();
  }

  // A volume that is a mount: a removal that came to its end has emptied what is
  // mounted, on another device than the parent's.
  lemma MountIsEmptied(after: Nodes)
    requires Shrunk(MOUNTED, after) && Cleared(MOUNTED, after, 1, 2)
    ensures MOUNTED[0].dev != MOUNTED[1].dev && !OffDeviceSame(MOUNTED, after, MOUNTED[0].dev) && after[1] == Dir(2, map[])
  {
    hide Below;
    BelowItself(MOUNTED, 1);
    assert IsDir(MOUNTED, 1) && MOUNTED[1].entries["file"] == 2;
    assert after[1].entries == map[] && after[1] != MOUNTED[1];
  }
}
