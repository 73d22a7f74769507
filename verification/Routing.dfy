/** Several shares seen as one tree: a path is resolved before it is split into a
    share and what is inside it. */
module Routing {
  import opened Wrappers

  datatype Entry = Entry(name: string, readOnly: bool)

  // What stands between the slashes of a path, empty and dotted ones included.
  type Path = seq<string>

  datatype Place = Nowhere | Root | At(entry: nat, inside: Path)

  datatype Denial = NotExist | ReadOnly | CrossesShares

  predicate Plain(c: string) {
    c != "" && c != "." && c != ".."
  }

  predicate AllPlain(p: Path) {
    forall i :: 0 <= i < |p| ==> Plain(p[i])
  }

  // A rooted path made clean, from where it has got to: two dots at the root stay there.
  function Resolve(at: Path, p: Path): (r: Path)
    requires AllPlain(at)
    ensures AllPlain(r)
    decreases |p|
  {
    if p == [] then at
    else if p[0] == ".." then Resolve(if at == [] then [] else at[..|at| - 1], p[1..])
    else if Plain(p[0]) then Resolve(at + [p[0]], p[1..])
    else Resolve(at, p[1..])
  }

  function Find(entries: seq<Entry>, name: string): (i: Option<nat>)
    ensures i.Some? ==> i.value < |entries| && entries[i.value].name == name
    ensures i.None? ==> forall j :: 0 <= j < |entries| ==> entries[j].name != name
  {
    if entries == [] then None
    else if entries[0].name == name then Some(0)
    else match Find(entries[1..], name) case None => None case Some(i) => Some(i + 1)
  }

  function Placed(entries: seq<Entry>, clean: Path): Place {
    if clean == [] then Root
    else match Find(entries, clean[0]) case None => Nowhere case Some(i) => At(i, clean[1..])
  }

  // gone: the session's credential was revoked.
  function Route(entries: seq<Entry>, gone: bool, p: Path): Place {
    if gone then Nowhere else Placed(entries, Resolve([], p))
  }

  // The root and a share's own directory belong to the configuration.
  function Writable(entries: seq<Entry>, gone: bool, p: Path): Result<(nat, Path), Denial> {
    match Route(entries, gone, p)
    case Nowhere => Err(NotExist)
    case Root => Err(ReadOnly)
    case At(i, inside) => if inside == [] || i >= |entries| || entries[i].readOnly then Err(ReadOnly) else Ok((i, inside))
  }

  function Rename(entries: seq<Entry>, gone: bool, from: Path, to: Path): Result<(nat, Path, Path), Denial> {
    match (Writable(entries, gone, from), Writable(entries, gone, to))
    case (Err(e), _) => Err(e)
    case (_, Err(e)) => Err(e)
    case (Ok((i, a)), Ok((j, b))) => if i != j then Err(CrossesShares) else Ok((i, a, b))
  }

  method FindEntry(entries: seq<Entry>, gone: bool, p: Path) returns (place: Place)
    ensures place == Route(entries, gone, p)
  {
    if gone { return Nowhere; }
    var clean := Resolve([], p);
    if clean == [] { return Root; }
    var i := 0;
    while i < |entries|
      invariant 0 <= i <= |entries|
      invariant Find(entries, clean[0]) == match Find(entries[i..], clean[0]) case None => None case Some(n) => Some(i + n)
    {
      assert entries[i..][1..] == entries[i + 1..];
      if entries[i].name == clean[0] { return At(i, clean[1..]); }
      i := i + 1;
    }
    place := Nowhere;
  }

  /********** Where a path can lead **********/

  // How far below where it starts a path has got; None once it has climbed above.
  function Depth(d: nat, p: Path): Option<nat>
    decreases |p|
  {
    if p == [] then Some(d)
    else if p[0] == ".." then if d == 0 then None else Depth(d - 1, p[1..])
    else Depth(if Plain(p[0]) then d + 1 else d, p[1..])
  }

  // A path that does not climb leaves what it started from alone.
  lemma {:induction false} ResolveBelow(base: Path, at: Path, p: Path)
    requires AllPlain(base) && AllPlain(at) && Depth(|at|, p).Some?
    ensures AllPlain(base + at) && Resolve(base + at, p) == base + Resolve(at, p)
    decreases |p|
  {
    if p != [] {
      if p[0] == ".." {
        assert (base + at)[..|base + at| - 1] == base + at[..|at| - 1];
        ResolveBelow(base, at[..|at| - 1], p[1..]);
      } else if Plain(p[0]) {
        assert base + at + [p[0]] == base + (at + [p[0]]);
        ResolveBelow(base, at + [p[0]], p[1..]);
      } else {
        ResolveBelow(base, at, p[1..]);
      }
    }
  }

  lemma {:induction false} ResolveInTwo(at: Path, p: Path, q: Path)
    requires AllPlain(at)
    ensures Resolve(at, p + q) == Resolve(Resolve(at, p), q)
    decreases |p|
  {
    if p == [] {
      assert p + q == q;
    } else {
      assert (p + q)[1..] == p[1..] + q;
      var next := if p[0] == ".." then (if at == [] then [] else at[..|at| - 1]) else if Plain(p[0]) then at + [p[0]] else at;
      ResolveInTwo(next, p[1..], q);
    }
  }

  // What a driver is handed is clean, and is in the share the path names: it is
  // that share's own place exactly as long as the path does not climb out of it.
  lemma StaysInItsShare(entries: seq<Entry>, name: string, q: Path)
    requires Plain(name) && Find(entries, name).Some? && Depth(0, q).Some?
    ensures var place := Route(entries, false, [name] + q);
      place == At(Find(entries, name).value, Resolve([], q)) && AllPlain(place.inside)
  {
    ResolveInTwo([], [name], q);
    assert Resolve([], [name]) == Resolve([] + [name], []) == [name];
    ResolveBelow([name], [], q);
    assert [name] + [] == [name];
    assert Resolve([], [name] + q) == [name] + Resolve([], q);
  }

  // And one that climbs out is at the root by the step it does: it reaches what
  // the rest of it names from there, and nothing else.
  lemma ClimbsToTheRoot(entries: seq<Entry>, name: string, q: Path, rest: Path)
    requires Plain(name) && Depth(0, q) == Some(0)
    ensures Route(entries, false, [name] + q + [".."] + rest) == Route(entries, false, rest)
  {
    var p := [name] + q + [".."];
    ResolveInTwo([], p, rest);
    ResolveInTwo([], [name] + q, [".."]);
    ResolveInTwo([], [name], q);
    assert Resolve([], [name]) == Resolve([] + [name], []) == [name];
    ResolveBelow([name], [], q);
    assert [name] + [] == [name];
    DepthIsLength([], q);
    assert Resolve([], q) == [];
    assert Resolve([name], [".."]) == Resolve([], []) == [];
  }

  lemma {:induction false} DepthIsLength(at: Path, p: Path)
    requires AllPlain(at) && Depth(|at|, p).Some?
    ensures Depth(|at|, p) == Some(|Resolve(at, p)|)
    decreases |p|
  {
    if p != [] {
      var next := if p[0] == ".." then at[..|at| - 1] else if Plain(p[0]) then at + [p[0]] else at;
      DepthIsLength(next, p[1..]);
    }
  }

  // A write reaches a driver exactly for a path inside a share this person's
  // view of which is not read-only; and a rename exactly within one of those.
  lemma WritesOnlyInside(entries: seq<Entry>, gone: bool, p: Path, i: nat, inside: Path)
    ensures Writable(entries, gone, p) == Ok((i, inside)) <==>
      && !gone && i < |entries| && !entries[i].readOnly && inside != [] && Resolve([], p) == [entries[i].name] + inside
      && Find(entries, entries[i].name) == Some(i)
  {
    var clean := Resolve([], p);
    if clean != [] { assert clean == [clean[0]] + clean[1..]; }
  }

  lemma RenamesWithinOne(entries: seq<Entry>, gone: bool, from: Path, to: Path, i: nat, a: Path, b: Path)
    ensures Rename(entries, gone, from, to) == Ok((i, a, b)) <==>
      Writable(entries, gone, from) == Ok((i, a)) && Writable(entries, gone, to) == Ok((i, b))
    ensures Rename(entries, gone, from, to) == Ok((i, a, b)) ==>
      i < |entries| && !entries[i].readOnly && Resolve([], from)[..1] == Resolve([], to)[..1] == [entries[i].name]
  {
    if Rename(entries, gone, from, to) == Ok((i, a, b)) {
      WritesOnlyInside(entries, gone, from, i, a);
      WritesOnlyInside(entries, gone, to, i, b);
    }
  }
}
