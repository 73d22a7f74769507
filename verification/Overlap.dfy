/** No share is a way into another: sources compared as paths, and only what a
    change writes compared with everything. */
module Overlap {
  import opened Wrappers
  import opened Access

  // A path made absolute and clean: its components, none of them empty, a dot or two.
  type Path = seq<string>

  predicate ValidComponent(c: string) {
    c != "" && c != "." && c != ".." && '/' !in c
  }

  ghost predicate ValidPath(p: Path) {
    forall i :: 0 <= i < |p| ==> ValidComponent(p[i])
  }

  /********** pathWithin **********/

  function Common(a: Path, b: Path): (n: nat)
    ensures n <= |a| && n <= |b| && a[..n] == b[..n] && (n < |a| && n < |b| ==> a[n] != b[n])
  {
    if a != [] && b != [] && a[0] == b[0] then 1 + Common(a[1..], b[1..]) else 0
  }

  function Ups(n: nat): seq<string> {
    if n == 0 then [] else [".."] + Ups(n - 1)
  }

  function JoinPath(parts: seq<string>): string {
    if parts == [] then "." else if |parts| == 1 then parts[0] else parts[0] + "/" + JoinPath(parts[1..])
  }

  // The way from base to target, written relative to base.
  function Rel(base: Path, target: Path): string {
    var n := Common(base, target);
    JoinPath(Ups(|base| - n) + target[n..])
  }

  // dir itself, or inside it, judged by how the relative path is written.
  predicate PathWithin(dir: Path, path: Path) {
    var rel := Rel(dir, path);
    rel == "." || (rel != ".." && !HasPrefix(rel, "../"))
  }

  // What the text of a relative path says of its first component.
  lemma JoinStarts(parts: seq<string>)
    requires parts != [] && (parts[0] == ".." || ValidComponent(parts[0]))
    ensures JoinPath(parts) != "."
    ensures JoinPath(parts) == ".." || HasPrefix(JoinPath(parts), "../") <==> parts[0] == ".."
  {
    var s := JoinPath(parts);
    if |parts| > 1 {
      var rest := JoinPath(parts[1..]);
      assert s == parts[0] + "/" + rest;
      assert s[|parts[0]|] == '/' && s[..|parts[0]|] == parts[0];
      if parts[0] == ".." {
        assert s[..3] == "../";
      } else {
        StartsWithDots(parts[0], rest);
      }
    } else if parts[0] != ".." {
      assert |s| >= 3 ==> s[2] != '/';
    }
  }

  lemma StartsWithDots(c: string, rest: string)
    requires ValidComponent(c)
    ensures c + "/" + rest != ".." && !HasPrefix(c + "/" + rest, "../")
  {
    var s := c + "/" + rest;
    if |c| >= 3 {
      assert s[2] == c[2] && c[2] != '/';
    } else if |c| == 2 {
      assert c == [c[0], c[1]] && s[0] == c[0] && s[1] == c[1];
    } else {
      assert s[1] == '/';
    }
  }

  // The test on the text decides exactly whether the directory's components
  // begin the path's -- also for a component that itself begins with two dots.
  lemma WithinIsPrefix(dir: Path, path: Path)
    requires ValidPath(dir) && ValidPath(path)
    ensures PathWithin(dir, path) <==> dir <= path
  {
    var n := Common(dir, path);
    var parts := Ups(|dir| - n) + path[n..];
    if n == |dir| {
      assert dir == path[..n] && parts == path[n..];
      if parts != [] {
        assert parts[0] == path[n];
        JoinStarts(parts);
      }
    } else {
      assert parts[0] == "..";
      JoinStarts(parts);
      assert n < |path| ==> dir[n] != path[n];
    }
  }

  /********** Shares over sources **********/

  // Which partition a share chose, as it was written.
  datatype Choice = Number(n: int) | Label(text: string) | UUID(lower: string)

  datatype Block = Block(
    name: string, directory: bool, source: Path, partition: Option<int>, partLabel: string, partUUID: string)

  function ChoosesPartition(b: Block): Option<Choice> {
    if b.partition.Some? then Some(Number(b.partition.value))
    else if b.partLabel != "" then Some(Label(b.partLabel))
    else if b.partUUID != "" then Some(UUID(Lower(b.partUUID)))
    else None
  }

  // Two shares choosing different partitions of one image.
  predicate Apart(b: Block, o: Block) {
    && b.source == o.source && !b.directory && !o.directory
    && ChoosesPartition(b).Some? && ChoosesPartition(o).Some? && ChoosesPartition(b) != ChoosesPartition(o)
  }

  predicate Overlaps(b: Block, o: Block) {
    if b.source == o.source then !Apart(b, o)
    else (o.directory && PathWithin(o.source, b.source)) || (b.directory && PathWithin(b.source, o.source))
  }

  // Nothing changed overlaps anything there is under another name.
  predicate NoneHeld(all: seq<Block>, changed: seq<Block>) {
    forall i, j :: 0 <= i < |changed| && 0 <= j < |all| && !SameName(all[j].name, changed[i].name) ==> !Overlaps(changed[i], all[j])
  }

  method CheckNoShareHoldsShare(all: seq<Block>, changed: seq<Block>) returns (ok: bool)
    ensures ok <==> NoneHeld(all, changed)
  {
    var i := 0;
    while i < |changed|
      invariant 0 <= i <= |changed| && NoneHeld(all, changed[..i])
    {
      var b := changed[i];
      var j := 0;
      while j < |all|
        invariant 0 <= j <= |all|
        invariant forall k :: 0 <= k < j && !SameName(all[k].name, b.name) ==> !Overlaps(b, all[k])
      {
        var o := all[j];
        if !SameName(o.name, b.name) {
          if b.source == o.source {
            var bp, op := ChoosesPartition(b), ChoosesPartition(o);
            if b.directory || o.directory || bp.None? || op.None? || bp == op { return false; }
          } else if o.directory && PathWithin(o.source, b.source) {
            return false;
          } else if b.directory && PathWithin(b.source, o.source) {
            return false;
          }
        }
        j := j + 1;
      }
      i := i + 1;
    }
    ok := true;
  }

  /********** What not overlapping means **********/

  // What a share reaches: its image, or its directory and everything in it.
  predicate Reaches(b: Block, q: Path) {
    if b.directory then b.source <= q else b.source == q
  }

  // Two shares overlap exactly when some path is reached through both -- but
  // for two that choose different partitions of the one image.
  lemma OverlapIsSharing(b: Block, o: Block)
    requires ValidPath(b.source) && ValidPath(o.source)
    ensures Overlaps(b, o) <==> (exists q :: Reaches(b, q) && Reaches(o, q)) && !Apart(b, o)
    ensures Overlaps(b, o) <==> Overlaps(o, b)
  {
    WithinIsPrefix(b.source, o.source);
    WithinIsPrefix(o.source, b.source);
    if b.source <= o.source && Overlaps(b, o) { assert Reaches(o, o.source); assert Reaches(b, o.source) || b.source == o.source; }
    if o.source <= b.source && Overlaps(b, o) { assert Reaches(b, b.source); assert Reaches(o, b.source) || b.source == o.source; }
    forall q | Reaches(b, q) && Reaches(o, q) ensures b.source <= o.source || o.source <= b.source {
      assert b.source == q[..|b.source|] && o.source == q[..|o.source|];
      if |b.source| <= |o.source| { assert o.source[..|b.source|] == b.source; } else { assert b.source[..|o.source|] == o.source; }
    }
  }

  /********** Every accepted change keeps it **********/

  ghost predicate AllApart(all: seq<Block>) {
    forall i, j :: 0 <= i < |all| && 0 <= j < |all| && !SameName(all[i].name, all[j].name) ==> !Overlaps(all[i], all[j])
  }

  ghost predicate AllValid(all: seq<Block>) {
    forall i :: 0 <= i < |all| ==> ValidPath(all[i].source)
  }

  function Find(shares: seq<Block>, name: string): (b: Option<Block>)
    ensures b.Some? ==> b.value in shares && SameName(b.value.name, name)
  {
    if shares == [] then None else if SameName(shares[0].name, name) then Some(shares[0]) else Find(shares[1..], name)
  }

  // The shares next defines differently from the ones there are.
  function ChangedBlocks(shares: seq<Block>, next: seq<Block>): (changed: seq<Block>)
    ensures forall b :: b in next && b !in changed ==> b in shares
    ensures forall b :: b in changed ==> b in next
  {
    if next == [] then []
    else (if Find(shares, next[0].name) == Some(next[0]) then [] else [next[0]]) + ChangedBlocks(shares, next[1..])
  }

  // A change that is accepted leaves everything apart, although only what it
  // writes is compared.
  lemma ChangeKeepsApart(files: seq<Block>, shares: seq<Block>, next: seq<Block>)
    requires AllValid(files + next) && AllApart(files + shares) && NoneHeld(files + next, ChangedBlocks(shares, next))
    ensures AllApart(files + next)
  {
    var all := files + next;
    var was := files + shares;
    var changed := ChangedBlocks(shares, next);
    forall i, j | 0 <= i < |all| && 0 <= j < |all| && !SameName(all[i].name, all[j].name) ensures !Overlaps(all[i], all[j]) {
      OverlapIsSharing(all[i], all[j]);
      if all[i] in changed {
        var n :| 0 <= n < |changed| && changed[n] == all[i];
        assert !Overlaps(changed[n], all[j]);
      } else if all[j] in changed {
        var n :| 0 <= n < |changed| && changed[n] == all[j];
        assert !Overlaps(changed[n], all[i]);
      } else {
        WasThere(files, shares, next, all[i]);
        WasThere(files, shares, next, all[j]);
        var m :| 0 <= m < |was| && was[m] == all[i];
        var n :| 0 <= n < |was| && was[n] == all[j];
        assert !Overlaps(was[m], was[n]);
      }
    }
  }

  lemma WasThere(files: seq<Block>, shares: seq<Block>, next: seq<Block>, b: Block)
    requires b in files + next && b !in ChangedBlocks(shares, next)
    ensures b in files + shares
  {
    if b in files { assert b in files + shares; } else { assert b in next && b in shares; }
  }

  // A start that is accepted, and then every list the API's shares become.
  function Exec(files: seq<Block>, start: seq<Block>, lists: seq<seq<Block>>): seq<Block>
    decreases |lists|
  {
    if lists == [] then start
    else
      var shares := Exec(files, start, lists[..|lists| - 1]);
      var next := lists[|lists| - 1];
      if NoneHeld(files + next, ChangedBlocks(shares, next)) then next else shares
  }

  // Whatever is asked of the API, in every order, no share ever reaches what
  // another does, but for different partitions of one image.
  lemma {:induction false} NeverAWayIn(files: seq<Block>, start: seq<Block>, lists: seq<seq<Block>>)
    requires AllValid(files + start) && NoneHeld(files + start, files + start)
    requires forall n :: 0 <= n < |lists| ==> AllValid(lists[n])
    ensures AllApart(files + Exec(files, start, lists)) && AllValid(files + Exec(files, start, lists))
    decreases |lists|
  {
    if lists == [] {
      var all := files + start;
      forall i, j | 0 <= i < |all| && 0 <= j < |all| && !SameName(all[i].name, all[j].name) ensures !Overlaps(all[i], all[j]) {
        assert !SameName(all[j].name, all[i].name);
      }
    } else {
      var next := lists[|lists| - 1];
      NeverAWayIn(files, start, lists[..|lists| - 1]);
      var shares := Exec(files, start, lists[..|lists| - 1]);
      forall i | 0 <= i < |files + next| ensures ValidPath((files + next)[i].source) {
        if i < |files| { assert (files + start)[i] == files[i]; }
      }
      if NoneHeld(files + next, ChangedBlocks(shares, next)) { ChangeKeepsApart(files, shares, next); }
    }
  }

  lemma NoPathTwice(files: seq<Block>, start: seq<Block>, lists: seq<seq<Block>>, i: nat, j: nat, q: Path)
    requires AllValid(files + start) && NoneHeld(files + start, files + start)
    requires forall n :: 0 <= n < |lists| ==> AllValid(lists[n])
    requires var all := files + Exec(files, start, lists);
      i < |all| && j < |all| && !SameName(all[i].name, all[j].name) && Reaches(all[i], q) && Reaches(all[j], q)
    ensures var all := files + Exec(files, start, lists); Apart(all[i], all[j])
  {
    hide Exec;
    NeverAWayIn(files, start, lists);
    var all := files + Exec(files, start, lists);
    OverlapIsSharing(all[i], all[j]);
  }
}
