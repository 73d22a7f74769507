/** The cheap reload: when nobody is gone or changed and no list expands
    differently, people are added in place and the served shares stay. */
module Reload {
  import opened Wrappers
  import opened Access
  import opened Ordering

  predicate SameSet(a: seq<string>, b: seq<string>) {
    Canonical(a, StringLe) == Canonical(b, StringLe)
  }

  // A served share: its block, whether its image forced it read-only, and the
  // rules it is served with.
  datatype Served = Served(block: Lists, forced: bool, rules: Rules)

  // Everybody, and the fingerprint of what would end their sessions if it changed.
  type People = map<string, string>

  datatype Path = Failed | Unchanged | InPlace(added: set<string>) | Rebuild

  function Expanded(dir: Directory, b: Lists): Option<(seq<string>, seq<string>)> {
    match (SplitRules(b.allow), SplitRules(b.writers))
    case (Some((allowNames, _)), Some((writerNames, _))) =>
      (match (TolerantExpand(dir, allowNames), TolerantExpand(dir, writerNames))
       case (Some(allow), Some(writers)) => Some((allow, writers))
       case _ => None)
    case _ => None
  }

  predicate ListsChanged(sh: Served, allow: seq<string>, writers: seq<string>) {
    !SameSet(allow, sh.rules.allow) || (!sh.rules.readOnly && !SameSet(writers, sh.rules.writers))
  }

  // The path a reload takes. Everybody is compared, and every share's lists are
  // expanded again, before anything is replaced.
  method ChoosePath(prev: People, next: People, shares: seq<Served>, dir: Directory) returns (path: Path)
    ensures path.Failed? <==> exists i :: 0 <= i < |shares| && Expanded(dir, shares[i].block).None?
    ensures path.Unchanged? || path.InPlace? <==> KeepsServed(prev, next, shares, dir)
    ensures path.InPlace? ==> path.added == next.Keys - prev.Keys && path.added != {}
    ensures path.Unchanged? ==> next.Keys == prev.Keys
  {
    var added: set<string>, changed: set<string>, removed: set<string> := {}, {}, {};
    var left := next.Keys;
    while left != {}
      invariant left <= next.Keys
      invariant added == (next.Keys - left) - prev.Keys
      invariant changed == set n | n in next.Keys - left && n in prev && prev[n] != next[n]
      decreases left
    {
      var n :| n in left;
      if n !in prev { added := added + {n}; } else if prev[n] != next[n] { changed := changed + {n}; }
      left := left - {n};
    }
    left := prev.Keys;
    while left != {}
      invariant left <= prev.Keys
      invariant removed == (prev.Keys - left) - next.Keys
      decreases left
    {
      var n :| n in left;
      if n !in next { removed := removed + {n}; }
      left := left - {n};
    }
    var listsChanged := false;
    var i := 0;
    while i < |shares|
      invariant 0 <= i <= |shares|
      invariant forall j :: 0 <= j < i ==> Expanded(dir, shares[j].block).Some?
      invariant listsChanged <==> exists j :: 0 <= j < i && !SameLists(shares[j], dir)
    {
      var lists := Expanded(dir, shares[i].block);
      if lists.None? { return Failed; }
      if ListsChanged(shares[i], lists.value.0, lists.value.1) { listsChanged := true; }
      assert ListsChanged(shares[i], lists.value.0, lists.value.1) <==> !SameLists(shares[i], dir);
      i := i + 1;
    }
    PeopleCompared(prev, next, changed, removed);
    if removed == {} && changed == {} && !listsChanged {
      path := if added == {} then Unchanged else InPlace(added);
      assert added == next.Keys - prev.Keys;
      if added == {} {
        assert next.Keys <= prev.Keys by { assert forall n :: n in next.Keys ==> n in prev.Keys || n in added; }
      }
    } else {
      path := Rebuild;
    }
  }

  lemma PeopleCompared(prev: People, next: People, changed: set<string>, removed: set<string>)
    requires changed == set n | n in next.Keys && n in prev && prev[n] != next[n]
    requires removed == prev.Keys - next.Keys
    ensures removed == {} && changed == {} <==> forall n :: n in prev ==> n in next && next[n] == prev[n]
  {
    if removed == {} && changed == {} {
      forall n | n in prev ensures n in next && next[n] == prev[n] {
        assert n !in removed && n !in changed;
      }
    }
  }

  predicate SameLists(sh: Served, dir: Directory) {
    Expanded(dir, sh.block).Some? && !ListsChanged(sh, Expanded(dir, sh.block).value.0, Expanded(dir, sh.block).value.1)
  }

  predicate KeepsServed(prev: People, next: People, shares: seq<Served>, dir: Directory) {
    && (forall n :: n in prev ==> n in next && next[n] == prev[n])
    && (forall i :: 0 <= i < |shares| ==> SameLists(shares[i], dir))
  }

  // Sorted, compacted and compared: the two lists name the same people.
  lemma SameSetDecides(a: seq<string>, b: seq<string>)
    ensures SameSet(a, b) <==> SameElements(a, b)
  {
    StringLeTotal();
    CanonicalDecides(a, b, StringLe);
  }

  /********** What the cheap path rests on **********/

  // A share served with the rules its block had when `then` was the directory.
  predicate Honest(sh: Served, was: Directory) {
    RulesOf(was, sh.block, sh.forced) == Some(sh.rules)
  }

  predicate SameAccess(r: Rules, q: Rules, p: Principal) {
    (MayUse(r, p) <==> MayUse(q, p)) && (ReadOnlyFor(r, p) <==> ReadOnlyFor(q, p))
  }

  lemma ListsGiveAccess(sh: Served, was: Directory, dir: Directory, p: Principal)
    requires Honest(sh, was) && SameLists(sh, dir)
    ensures RulesOf(dir, sh.block, sh.forced).Some?
    ensures SameAccess(RulesOf(dir, sh.block, sh.forced).value, sh.rules, p)
  {
    var (allow, writers) := Expanded(dir, sh.block).value;
    SameSetDecides(allow, sh.rules.allow);
    SameSetDecides(writers, sh.rules.writers);
    if allow != [] { assert allow[0] in sh.rules.allow; }
    if sh.rules.allow != [] { assert sh.rules.allow[0] in allow; }
    if !sh.rules.readOnly {
      if writers != [] { assert writers[0] in sh.rules.writers; }
      if sh.rules.writers != [] { assert sh.rules.writers[0] in writers; }
    }
  }

  function Local(name: string): Principal {
    Principal(name, false, [], false)
  }

  // A name that one list has and the other has not is somebody whose access differs.
  lemma DifferenceShows(sh: Served, was: Directory, dir: Directory)
    requires Honest(sh, was) && Expanded(dir, sh.block).Some? && !SameLists(sh, dir)
    ensures RulesOf(dir, sh.block, sh.forced).Some?
    ensures exists p :: !SameAccess(RulesOf(dir, sh.block, sh.forced).value, sh.rules, p)
  {
    var (allow, writers) := Expanded(dir, sh.block).value;
    var now := RulesOf(dir, sh.block, sh.forced).value;
    SameSetDecides(allow, sh.rules.allow);
    SameSetDecides(writers, sh.rules.writers);
    ExpandsToNone(dir, SplitRules(sh.block.allow).value.0);
    ExpandsToNone(was, SplitRules(sh.block.allow).value.0);
    ExpandsToNone(dir, SplitRules(sh.block.writers).value.0);
    ExpandsToNone(was, SplitRules(sh.block.writers).value.0);
    if !SameSet(allow, sh.rules.allow) {
      var n :| n in allow <==> n !in sh.rules.allow;
      assert !SameAccess(now, sh.rules, Local(n));
    } else {
      var n :| n in writers <==> n !in sh.rules.writers;
      assert !SameAccess(now, sh.rules, Local(n));
    }
  }

  lemma ExpandsToNone(dir: Directory, names: seq<string>)
    ensures names == [] ==> TolerantExpand(dir, names) == Some([])
  {
  }

  // The cheap path is taken exactly when it is sound: nobody known before is
  // gone or changed, and on every share every principal has, by the lists as
  // they expand now, the access they are served with.
  lemma CheapPathIsExact(prev: People, next: People, shares: seq<Served>, was: seq<Directory>, dir: Directory)
    requires |was| == |shares| && forall i :: 0 <= i < |shares| ==> Honest(shares[i], was[i])
    requires forall i :: 0 <= i < |shares| ==> Expanded(dir, shares[i].block).Some?
    ensures KeepsServed(prev, next, shares, dir) <==>
      && (forall n :: n in prev ==> n in next && next[n] == prev[n])
      && (forall i :: 0 <= i < |shares| ==>
            RulesOf(dir, shares[i].block, shares[i].forced).Some?
            && forall p :: SameAccess(RulesOf(dir, shares[i].block, shares[i].forced).value, shares[i].rules, p))
  {
    forall i | 0 <= i < |shares|
      ensures SameLists(shares[i], dir) <==>
        RulesOf(dir, shares[i].block, shares[i].forced).Some?
        && forall p :: SameAccess(RulesOf(dir, shares[i].block, shares[i].forced).value, shares[i].rules, p)
    {
      if SameLists(shares[i], dir) {
        forall p ensures RulesOf(dir, shares[i].block, shares[i].forced).Some?
          && SameAccess(RulesOf(dir, shares[i].block, shares[i].forced).value, shares[i].rules, p)
        {
          ListsGiveAccess(shares[i], was[i], dir, p);
        }
      } else {
        DifferenceShows(shares[i], was[i], dir);
      }
    }
  }
}
