/** The provisioner's parents, checked apart: what the transactions rely on of
    the configuration is what its check accepts. */
module ProvisionConfig {
  import opened Wrappers
  import opened Provision
  import ProvisionSafety
  import Identity
  import Overlap

  /********** Project id ranges **********/

  predicate IsSpace(c: char) {
    c == ' ' || c == '\t' || c == '\n' || c == '\r'
  }

  function TrimLeft(s: string): string {
    if s != "" && IsSpace(s[0]) then TrimLeft(s[1..]) else s
  }

  function TrimRight(s: string): string {
    if s != "" && IsSpace(s[|s| - 1]) then TrimRight(s[..|s| - 1]) else s
  }

  // What is before and after the first dash.
  function CutDash(s: string): Option<(string, string)> {
    if s == "" then None
    else if s[0] == '-' then Some(("", s[1..]))
    else match CutDash(s[1..])
      case None => None
      case Some((before, after)) => Some(([s[0]] + before, after))
  }

  // "lo-hi", without project 0 and without the kernel's invalid one.
  function ParseRange(s: string): Option<(nat, nat)> {
    match CutDash(s)
    case None => None
    case Some((a, b)) =>
      match (Identity.ParseUint(TrimRight(TrimLeft(a)), Identity.WIDTH), Identity.ParseUint(TrimRight(TrimLeft(b)), Identity.WIDTH))
      case (Some(lo), Some(hi)) => if lo == 0 || hi >= Identity.NO_CHANGE || lo > hi then None else Some((lo, hi))
      case _ => None
  }

  lemma {:induction false} CutAtDash(a: string, b: string)
    requires '-' !in a
    ensures CutDash(a + "-" + b) == Some((a, b))
  {
    var s := a + "-" + b;
    if a == "" {
      assert s[1..] == b;
    } else {
      assert s[1..] == a[1..] + "-" + b;
      CutAtDash(a[1..], b);
      assert [s[0]] + a[1..] == a;
    }
  }

  lemma NothingToTrim(n: nat)
    ensures var s := Identity.FormatUint(n); '-' !in s && TrimRight(TrimLeft(s)) == s
  {
    var s := Identity.FormatUint(n);
    assert Identity.IsDigit(s[0]) && Identity.IsDigit(s[|s| - 1]);
    hide Identity.FormatUint;
    assert !IsSpace(s[0]) && !IsSpace(s[|s| - 1]);
  }

  // A range written in decimal is read as it was meant, exactly when it is one
  // the kernel can give out.
  lemma RangeRoundTrip(lo: nat, hi: nat)
    requires lo < Identity.WIDTH && hi < Identity.WIDTH
    ensures ParseRange(Identity.FormatUint(lo) + "-" + Identity.FormatUint(hi)) ==
      if 1 <= lo <= hi < 0xFFFF_FFFF then Some((lo, hi)) else None
  {
    var a, b := Identity.FormatUint(lo), Identity.FormatUint(hi);
    NothingToTrim(lo);
    NothingToTrim(hi);
    hide Identity.FormatUint, Identity.ParseUint, TrimLeft, TrimRight, CutDash;
    CutAtDash(a, b);
    Identity.UintRoundTrip(lo, Identity.WIDTH);
    Identity.UintRoundTrip(hi, Identity.WIDTH);
  }

  /********** Names **********/

  predicate Alphanumeric(c: char) {
    ('a' <= c && c <= 'z') || ('0' <= c && c <= '9')
  }

  // A name is a letter or a digit, then up to 62 of those, dashes or underscores;
  // so it is one component of a path, and never a way out of its parent's root.
  lemma NamesAreComponents(name: string)
    ensures ValidName(name) <==>
      && name != "" && |name| < 64 && Alphanumeric(name[0])
      && forall i :: 1 <= i < |name| ==> Alphanumeric(name[i]) || name[i] in "-_"
    ensures ValidName(name) ==> Overlap.ValidComponent(name)
  {
    assert "-_"[0] == '-' && "-_"[1] == '_';
    if ValidName(name) {
      assert '/' !in name;
      assert name[0] != '.';
    }
  }

  /********** Parents apart **********/

  datatype ParentBlock = ParentBlock(id: string, kind: Kind, root: Overlap.Path, ids: string)

  // A parent of directories needs a range, one of subvolumes has none.
  function RangeOf(p: ParentBlock): Option<(nat, nat)> {
    if p.kind.Project? then ParseRange(p.ids) else if p.ids == "" then Some((0, 0)) else None
  }

  predicate RangesMeet(a: ParentBlock, b: ParentBlock) {
    && RangeOf(a).Some? && RangeOf(b).Some? && RangeOf(a).value.1 != 0 && RangeOf(b).value.1 != 0
    && RangeOf(a).value.0 <= RangeOf(b).value.1 && RangeOf(b).value.0 <= RangeOf(a).value.1
  }

  predicate Meet(a: ParentBlock, b: ParentBlock) {
    Overlap.PathWithin(a.root, b.root) || Overlap.PathWithin(b.root, a.root) || RangesMeet(a, b)
  }

  predicate EachApart(parents: seq<ParentBlock>, files: seq<Overlap.Path>) {
    && (forall i, j :: 0 <= i < j < |parents| ==> !Meet(parents[i], parents[j]))
    && (forall i, n :: 0 <= i < |parents| && 0 <= n < |files| ==> !Overlap.PathWithin(parents[i].root, files[n]))
  }

  // files: the state file and the socket.
  method CheckApart(parents: seq<ParentBlock>, files: seq<Overlap.Path>) returns (ok: bool)
    ensures ok <==> EachApart(parents, files)
  {
    hide Meet, Overlap.PathWithin;
    var i := 0;
    while i < |parents|
      invariant 0 <= i <= |parents|
      invariant forall k, j :: 0 <= k < i && k < j < |parents| ==> !Meet(parents[k], parents[j])
      invariant forall k, n :: 0 <= k < i && 0 <= n < |files| ==> !Overlap.PathWithin(parents[k].root, files[n])
    {
      var n := 0;
      while n < |files|
        invariant 0 <= n <= |files|
        invariant forall m :: 0 <= m < n ==> !Overlap.PathWithin(parents[i].root, files[m])
      {
        if Overlap.PathWithin(parents[i].root, files[n]) { return false; }
        n := n + 1;
      }
      var j := i + 1;
      while j < |parents|
        invariant i < j <= |parents|
        invariant forall m :: i < m < j ==> !Meet(parents[i], parents[m])
      {
        if Meet(parents[i], parents[j]) { return false; }
        j := j + 1;
      }
      i := i + 1;
    }
    ok := true;
  }

  predicate Below(root: Overlap.Path, q: Overlap.Path) {
    root <= q
  }

  predicate InRange(p: ParentBlock, id: nat) {
    p.kind.Project? && RangeOf(p).Some? && RangeOf(p).value.0 <= id <= RangeOf(p).value.1
  }

  // Two parents meet exactly when some path is below both their roots, or some
  // project id is in both their ranges.
  lemma MeetingIsSharing(a: ParentBlock, b: ParentBlock)
    requires Overlap.ValidPath(a.root) && Overlap.ValidPath(b.root)
    ensures Meet(a, b) <==> (exists q :: Below(a.root, q) && Below(b.root, q)) || (exists id: nat :: InRange(a, id) && InRange(b, id))
  {
    Overlap.WithinIsPrefix(a.root, b.root);
    Overlap.WithinIsPrefix(b.root, a.root);
    if a.root <= b.root { assert Below(a.root, b.root) && Below(b.root, b.root); }
    if b.root <= a.root { assert Below(a.root, a.root) && Below(b.root, a.root); }
    forall q | Below(a.root, q) && Below(b.root, q) ensures a.root <= b.root || b.root <= a.root {
      assert a.root == q[..|a.root|] && b.root == q[..|b.root|];
      if |a.root| <= |b.root| { assert b.root[..|a.root|] == a.root; } else { assert a.root[..|b.root|] == b.root; }
    }
    if RangesMeet(a, b) {
      var id := if RangeOf(a).value.0 >= RangeOf(b).value.0 then RangeOf(a).value.0 else RangeOf(b).value.0;
      assert InRange(a, id) && InRange(b, id);
    }
  }

  /********** What the transactions rely on **********/

  predicate Accepted(parents: seq<ParentBlock>, files: seq<Overlap.Path>) {
    && (forall i :: 0 <= i < |parents| ==> RangeOf(parents[i]).Some?)
    && (forall i, j :: 0 <= i < j < |parents| ==> parents[i].id != parents[j].id)
    && EachApart(parents, files)
  }

  // The configuration those parents are.
  function ConfigOf(parents: seq<ParentBlock>, maxVolume: nat): Config
    requires forall i :: 0 <= i < |parents| ==> RangeOf(parents[i]).Some?
  {
    if parents == [] then Config(map[], maxVolume)
    else
      var init := parents[..|parents| - 1];
      var p := parents[|parents| - 1];
      assert forall i :: 0 <= i < |init| ==> init[i] == parents[i];
      Config(ConfigOf(init, maxVolume).parents[p.id := Parent(p.kind, RangeOf(p).value.0, RangeOf(p).value.1)], maxVolume)
  }

  predicate Is(p: ParentBlock, id: string, parent: Parent) {
    p.id == id && RangeOf(p).Some? && parent == Parent(p.kind, RangeOf(p).value.0, RangeOf(p).value.1)
  }

  // The bounds of a range that was read.
  lemma RangeBounds(p: ParentBlock)
    requires RangeOf(p).Some?
    ensures var (lo, hi) := RangeOf(p).value;
      if p.kind.Project? then 1 <= lo <= hi < 0xFFFF_FFFF else lo == hi == 0
  {
  }

  lemma ApartIDs(a: ParentBlock, b: ParentBlock)
    requires !Meet(a, b) && RangeOf(a).Some? && RangeOf(b).Some? && a.kind.Project? && b.kind.Project?
    ensures RangeOf(a).value.1 < RangeOf(b).value.0 || RangeOf(b).value.1 < RangeOf(a).value.0
  {
    RangeBounds(a);
    RangeBounds(b);
  }

  lemma {:induction false} ParentsAre(parents: seq<ParentBlock>, maxVolume: nat, id: string)
    requires forall i :: 0 <= i < |parents| ==> RangeOf(parents[i]).Some?
    requires id in ConfigOf(parents, maxVolume).parents
    ensures exists i :: 0 <= i < |parents| && Is(parents[i], id, ConfigOf(parents, maxVolume).parents[id])
    decreases |parents|
  {
    if parents != [] && id != parents[|parents| - 1].id {
      var init := parents[..|parents| - 1];
      ParentsAre(init, maxVolume, id);
      var i :| 0 <= i < |init| && Is(init[i], id, ConfigOf(init, maxVolume).parents[id]);
      assert parents[i] == init[i];
    }
  }

  // A configuration that is accepted is one the provisioner's guarantees hold for.
  lemma AcceptedIsValid(parents: seq<ParentBlock>, files: seq<Overlap.Path>, maxVolume: nat)
    requires Accepted(parents, files)
    ensures ProvisionSafety.ValidConfig(ConfigOf(parents, maxVolume))
  {
    hide RangeOf, Meet, ConfigOf;
    var c := ConfigOf(parents, maxVolume);
    forall x | x in c.parents
      ensures if c.parents[x].kind.Project? then 1 <= c.parents[x].lo <= c.parents[x].hi < 0xFFFF_FFFF
        else c.parents[x].lo == c.parents[x].hi == 0
    {
      ParentsAre(parents, maxVolume, x);
      var i :| 0 <= i < |parents| && Is(parents[i], x, c.parents[x]);
      RangeBounds(parents[i]);
    }
    forall x, y | x in c.parents && y in c.parents && x != y && c.parents[x].kind.Project? && c.parents[y].kind.Project?
      ensures c.parents[x].hi < c.parents[y].lo || c.parents[y].hi < c.parents[x].lo
    {
      ParentsAre(parents, maxVolume, x);
      ParentsAre(parents, maxVolume, y);
      var i :| 0 <= i < |parents| && Is(parents[i], x, c.parents[x]);
      var j :| 0 <= j < |parents| && Is(parents[j], y, c.parents[y]);
      if i < j { ApartIDs(parents[i], parents[j]); } else { ApartIDs(parents[j], parents[i]); }
    }
  }
}
