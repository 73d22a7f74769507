/** What every run of admin changes and reloads keeps: a driver is open exactly
    while a served share holds it. */
module DriverOwnership {
  import opened Wrappers
  import opened Drivers

  predicate IsOpen(drivers: seq<Driver>, d: nat) {
    d < |drivers| && drivers[d].closes == 0
  }

  predicate Serves(shares: seq<Share>, d: nat) {
    exists i :: 0 <= i < |shares| && shares[i].fsys == Some(d)
  }

  // A share agrees with the driver it holds; a share served as its people has none.
  predicate ShareOk(drivers: seq<Driver>, sh: Share) {
    if sh.block.system then
      sh.fsys.None? && sh.closers == [] && sh.readOnly == (sh.block.readOnly || sh.block.noWriters)
    else
      && sh.fsys.Some? && sh.closers == [sh.fsys.value] && IsOpen(drivers, sh.fsys.value)
      && var d := drivers[sh.fsys.value];
        && d.key == sh.key && d.readOnly == sh.openedReadOnly && d.fixed == sh.forcedReadOnly
        && d.asked == sh.askedWrite && (d.readOnly && !sh.block.readOnly ==> d.asked)
        && sh.readOnly == (sh.block.readOnly || sh.block.noWriters || d.readOnly || d.fixed)
  }

  predicate ListOk(drivers: seq<Driver>, shares: seq<Share>) {
    forall i :: 0 <= i < |shares| ==> ShareOk(drivers, shares[i])
  }

  // Two open drivers are never over one image.
  ghost predicate OnePerImage(drivers: seq<Driver>) {
    forall i, j :: 0 <= i < j < |drivers| && IsOpen(drivers, i) && IsOpen(drivers, j) ==> !Same(drivers[i].key, drivers[j].key)
  }

  ghost predicate AllServed(drivers: seq<Driver>, shares: seq<Share>) {
    forall d :: IsOpen(drivers, d) ==> Serves(shares, d)
  }

  ghost predicate Inv(s: State) {
    ListOk(s.drivers, s.shares) && OnePerImage(s.drivers) && AllServed(s.drivers, s.shares)
  }

  /********** Opening a list **********/

  // While the list is built: nothing that was open has changed, and everything
  // new is in `made`.
  ghost predicate Building(base: seq<Driver>, prev: seq<Share>, o: Opening) {
    && base <= o.drivers && ListOk(o.drivers, prev) && ListOk(o.drivers, o.out) && ListOk(o.drivers, o.made)
    && OnePerImage(o.drivers) && AllServed(o.drivers, prev + o.out)
    && (forall d :: |base| <= d < |o.drivers| ==> Serves(o.made, d))
    && (forall i :: 0 <= i < |o.made| && o.made[i].fsys.Some? ==> o.made[i].fsys.value >= |base|)
  }

  lemma ServesMore(a: seq<Share>, b: seq<Share>, d: nat)
    requires Serves(a, d)
    ensures Serves(a + b, d) && Serves(b + a, d)
  {
    var i :| 0 <= i < |a| && a[i].fsys == Some(d);
    assert (a + b)[i] == a[i] && (b + a)[|b| + i] == a[i];
  }

  lemma ServesEither(a: seq<Share>, b: seq<Share>, d: nat)
    requires Serves(a + b, d)
    ensures Serves(a, d) || Serves(b, d)
  {
    var i :| 0 <= i < |a + b| && (a + b)[i].fsys == Some(d);
    if i < |a| { assert a[i].fsys == Some(d); } else { assert b[i - |a|].fsys == Some(d); }
  }

  lemma AdoptOk(drivers: seq<Driver>, sh: Share, prev: Share, w: Want)
    requires sh == NewShare(w) && !w.block.system && ShareOk(drivers, prev) && prev.fsys.Some? && Same(prev.key, sh.key)
      && !Refuses(prev, w.block)
    ensures ShareOk(drivers, Adopt(sh, prev))
  {
  }

  lemma OneAdopted(base: seq<Driver>, prev: seq<Share>, o: Opening, w: Want, sh: Share)
    requires Building(base, prev, o) && ShareOk(o.drivers, sh)
    ensures Building(base, prev, o.(out := o.out + [sh]))
  {
    forall d: nat | IsOpen(o.drivers, d) ensures Serves(prev + (o.out + [sh]), d) {
      ServesMore(prev + o.out, [sh], d);
      assert prev + o.out + [sh] == prev + (o.out + [sh]);
    }
  }

  lemma OneMore(drivers: seq<Driver>, d: Driver, shares: seq<Share>)
    requires ListOk(drivers, shares)
    ensures ListOk(drivers + [d], shares)
  {
  }

  // A new driver is over an image no other open driver is over.
  lemma NewKeyIsNew(drivers: seq<Driver>, shares: seq<Share>, d: Driver)
    requires OnePerImage(drivers) && AllServed(drivers, shares) && ListOk(drivers, shares) && SameImage(shares, d.key).None?
    ensures OnePerImage(drivers + [d])
  {
    forall i | 0 <= i < |drivers| && IsOpen(drivers, i) ensures !Same(drivers[i].key, d.key) {
      assert Serves(shares, i);
      var n :| 0 <= n < |shares| && shares[n].fsys == Some(i);
      assert ShareOk(drivers, shares[n]);
    }
    forall i, j | 0 <= i < j < |drivers + [d]| && IsOpen(drivers + [d], i) && IsOpen(drivers + [d], j)
      ensures !Same((drivers + [d])[i].key, (drivers + [d])[j].key)
    {
      assert IsOpen(drivers, i);
      if j < |drivers| { assert IsOpen(drivers, j); }
    }
  }

  lemma OneOpened(base: seq<Driver>, prev: seq<Share>, o: Opening, w: Want)
    requires Building(base, prev, o) && !w.block.system && w.result.Opens? && SameImage(prev + o.out, KeyOf(w)).None?
    ensures var (sh, d) := OpenImage(NewShare(w), w, |o.drivers|);
      Building(base, prev, Opening(o.drivers + [d], o.made + [sh], o.out + [sh]))
  {
    var (sh, d) := OpenImage(NewShare(w), w, |o.drivers|);
    var drivers := o.drivers + [d];
    NewKeyIsNew(o.drivers, prev + o.out, d);
    OneMore(o.drivers, d, prev);
    OneMore(o.drivers, d, o.out);
    OneMore(o.drivers, d, o.made);
    forall i: nat | IsOpen(drivers, i) ensures Serves(prev + (o.out + [sh]), i) {
      assert prev + o.out + [sh] == prev + (o.out + [sh]);
      if i < |o.drivers| { assert IsOpen(o.drivers, i); ServesMore(prev + o.out, [sh], i); }
      else { assert (prev + o.out + [sh])[|prev + o.out|].fsys == Some(i); }
    }
    forall i | |base| <= i < |drivers| ensures Serves(o.made + [sh], i) {
      if i < |o.drivers| { ServesMore(o.made, [sh], i); } else { assert (o.made + [sh])[|o.made|].fsys == Some(i); }
    }
  }

  lemma OneBuilds(base: seq<Driver>, prev: seq<Share>, o: Opening, w: Want)
    requires Building(base, prev, o) && OpenOne(prev, o, w).Some?
    ensures Building(base, prev, OpenOne(prev, o, w).value)
  {
    var sh := NewShare(w);
    var found := SameImage(prev + o.out, sh.key);
    if w.block.system {
      OneAdopted(base, prev, o, w, sh);
      var o1 := o.(out := o.out + [sh]);
      forall d | |base| <= d < |o.drivers| ensures Serves(o.made + [sh], d) {
        ServesMore(o.made, [sh], d);
      }
      assert Building(base, prev, o1.(made := o.made + [sh]));
    } else if found.Some? {
      assert ListOk(o.drivers, prev + o.out);
      AdoptOk(o.drivers, sh, found.value, w);
      OneAdopted(base, prev, o, w, Adopt(sh, found.value));
    } else {
      OneOpened(base, prev, o, w);
    }
  }

  /********** Closing **********/

  lemma CloseOk(drivers: seq<Driver>, sh: Share)
    ensures |Close(drivers, sh)| == |drivers|
    ensures forall d :: 0 <= d < |drivers| ==>
      && Close(drivers, sh)[d].(closes := 0) == drivers[d].(closes := 0) && Close(drivers, sh)[d].closes >= drivers[d].closes
      && (d !in sh.closers ==> Close(drivers, sh)[d] == drivers[d])
      && (d in sh.closers ==> Close(drivers, sh)[d].closes > 0)
    decreases |sh.closers|
  {
    if sh.closers != [] { CloseOk(CloseOne(drivers, sh.closers[0]), sh.(closers := sh.closers[1..])); }
  }

  ghost predicate SameButClosed(drivers: seq<Driver>, after: seq<Driver>) {
    |after| == |drivers| && forall d :: 0 <= d < |drivers| ==>
      after[d].(closes := 0) == drivers[d].(closes := 0) && after[d].closes >= drivers[d].closes
  }

  lemma {:induction false} CloseAllCloses(drivers: seq<Driver>, shares: seq<Share>)
    requires forall i :: 0 <= i < |shares| ==> shares[i].closers == if shares[i].fsys.Some? then [shares[i].fsys.value] else []
    ensures SameButClosed(drivers, CloseAll(drivers, shares))
    ensures forall d :: 0 <= d < |drivers| ==>
      if Serves(shares, d) then CloseAll(drivers, shares)[d].closes > 0 else CloseAll(drivers, shares)[d] == drivers[d]
    decreases |shares|
  {
    if shares != [] {
      var drivers1 := Close(drivers, shares[0]);
      CloseOk(drivers, shares[0]);
      CloseAllCloses(drivers1, shares[1..]);
      forall d | 0 <= d < |drivers| ensures Serves(shares, d) <==> shares[0].fsys == Some(d) || Serves(shares[1..], d) {
        assert shares == [shares[0]] + shares[1..];
        if Serves(shares[1..], d) { ServesMore(shares[1..], [shares[0]], d); }
        if Serves(shares, d) { ServesEither([shares[0]], shares[1..], d); }
      }
    }
  }

  // Releasing a list against another closes exactly what only the first holds.
  lemma {:induction false} ReleaseCloses(drivers: seq<Driver>, shares: seq<Share>, keep: seq<Share>)
    requires forall i :: 0 <= i < |shares| ==> shares[i].closers == if shares[i].fsys.Some? then [shares[i].fsys.value] else []
    ensures SameButClosed(drivers, Release(drivers, shares, keep))
    ensures forall d :: 0 <= d < |drivers| ==>
      if Serves(shares, d) && !Serves(keep, d) then Release(drivers, shares, keep)[d].closes > 0
      else Release(drivers, shares, keep)[d] == drivers[d]
    decreases |shares|
  {
    if shares != [] {
      var sh := shares[0];
      var drivers1 := if Keeps(keep, sh) then drivers else Close(drivers, sh);
      CloseOk(drivers, sh);
      ReleaseCloses(drivers1, shares[1..], keep);
      forall d | 0 <= d < |drivers| ensures Serves(shares, d) <==> sh.fsys == Some(d) || Serves(shares[1..], d) {
        assert shares == [sh] + shares[1..];
        if Serves(shares[1..], d) { ServesMore(shares[1..], [sh], d); }
        if Serves(shares, d) { ServesEither([sh], shares[1..], d); }
      }
      if sh.fsys.Some? { assert Keeps(keep, sh) <==> Serves(keep, sh.fsys.value); }
    }
  }

  lemma ClosersOf(drivers: seq<Driver>, shares: seq<Share>)
    requires ListOk(drivers, shares)
    ensures forall i :: 0 <= i < |shares| ==> shares[i].closers == if shares[i].fsys.Some? then [shares[i].fsys.value] else []
  {
    forall i | 0 <= i < |shares| ensures shares[i].closers == if shares[i].fsys.Some? then [shares[i].fsys.value] else [] {
      assert ShareOk(drivers, shares[i]);
    }
  }

  // What nobody closed, nobody lost.
  lemma StillOk(drivers: seq<Driver>, after: seq<Driver>, shares: seq<Share>)
    requires ListOk(drivers, shares) && SameButClosed(drivers, after)
    requires forall d :: 0 <= d < |drivers| && Serves(shares, d) ==> after[d] == drivers[d]
    ensures ListOk(after, shares)
  {
    forall i | 0 <= i < |shares| ensures ShareOk(after, shares[i]) {
      assert ShareOk(drivers, shares[i]);
      if shares[i].fsys.Some? { assert Serves(shares, shares[i].fsys.value); }
    }
  }

  lemma StillOne(drivers: seq<Driver>, after: seq<Driver>)
    requires OnePerImage(drivers) && SameButClosed(drivers, after)
    ensures OnePerImage(after)
  {
    forall i, j | 0 <= i < j < |after| && IsOpen(after, i) && IsOpen(after, j) ensures !Same(after[i].key, after[j].key) {
      assert IsOpen(drivers, i) && IsOpen(drivers, j);
      assert after[i].(closes := 0) == drivers[i].(closes := 0) && after[j].(closes := 0) == drivers[j].(closes := 0);
    }
  }

  // A list released against the one that stays: the invariant, for the latter.
  lemma ReleaseKeeps(drivers: seq<Driver>, gone: seq<Share>, keep: seq<Share>)
    requires ListOk(drivers, gone) && ListOk(drivers, keep) && OnePerImage(drivers) && AllServed(drivers, gone + keep)
    ensures var after := Release(drivers, gone, keep);
      && ListOk(after, keep) && OnePerImage(after) && AllServed(after, keep)
      && (forall d :: 0 <= d < |drivers| && Serves(keep, d) ==> after[d] == drivers[d])
  {
    var after := Release(drivers, gone, keep);
    ClosersOf(drivers, gone);
    ReleaseCloses(drivers, gone, keep);
    StillOk(drivers, after, keep);
    StillOne(drivers, after);
    forall d: nat | IsOpen(after, d) ensures Serves(keep, d) {
      assert IsOpen(drivers, d);
      ServesEither(gone, keep, d);
    }
  }

  // A list that could not be opened leaves every driver that was open open, and none of its own.
  lemma AbandonKeeps(base: seq<Driver>, prev: seq<Share>, o: Opening)
    requires Building(base, prev, o) && ListOk(base, prev) && AllServed(base, prev)
    ensures var after := CloseAll(o.drivers, o.made);
      && ListOk(after, prev) && OnePerImage(after) && AllServed(after, prev) && base <= after
  {
    var after := CloseAll(o.drivers, o.made);
    ClosersOf(o.drivers, o.made);
    CloseAllCloses(o.drivers, o.made);
    forall d | 0 <= d < |base| ensures after[d] == base[d] {
      assert o.drivers[d] == base[d];
      assert !Serves(o.made, d);
    }
    forall d | 0 <= d < |o.drivers| && Serves(prev, d) ensures after[d] == o.drivers[d] {
      var i :| 0 <= i < |prev| && prev[i].fsys == Some(d);
      assert ShareOk(base, prev[i]);
    }
    StillOk(o.drivers, after, prev);
    StillOne(o.drivers, after);
    forall d: nat | IsOpen(after, d) ensures Serves(prev, d) {
      if d < |base| { assert IsOpen(base, d); }
    }
  }

  lemma {:induction false} OpenSharesBuilds(base: seq<Driver>, prev: seq<Share>, o: Opening, wants: seq<Want>)
    requires Building(base, prev, o) && ListOk(base, prev) && AllServed(base, prev)
    ensures var (drivers, next) := OpenShares(prev, o, wants);
      && base <= drivers
      && (if next.None? then ListOk(drivers, prev) && OnePerImage(drivers) && AllServed(drivers, prev)
          else ListOk(drivers, prev) && ListOk(drivers, next.value) && OnePerImage(drivers) && AllServed(drivers, prev + next.value))
    decreases |wants|
  {
    hide Building, ListOk, OnePerImage, AllServed;
    BuildingFacts(base, prev, o);
    if wants != [] {
      if OpenOne(prev, o, wants[0]).None? {
        AbandonKeeps(base, prev, o);
      } else {
        OneBuilds(base, prev, o, wants[0]);
        OpenSharesBuilds(base, prev, OpenOne(prev, o, wants[0]).value, wants[1..]);
      }
    }
  }

  lemma BuildingFacts(base: seq<Driver>, prev: seq<Share>, o: Opening)
    requires Building(base, prev, o)
    ensures base <= o.drivers && ListOk(o.drivers, prev) && ListOk(o.drivers, o.out) && OnePerImage(o.drivers)
    ensures AllServed(o.drivers, prev + o.out)
  {
  }

  lemma OpensFrom(s: State, wants: seq<Want>)
    requires Inv(s)
    ensures var (drivers, next) := OpenShares(s.shares, Opening(s.drivers, [], []), wants);
      && s.drivers <= drivers
      && (if next.None? then Inv(s.(drivers := drivers))
          else ListOk(drivers, s.shares) && ListOk(drivers, next.value) && OnePerImage(drivers) && AllServed(drivers, s.shares + next.value))
  {
    assert s.shares + [] == s.shares;
    assert Building(s.drivers, s.shares, Opening(s.drivers, [], []));
    OpenSharesBuilds(s.drivers, s.shares, Opening(s.drivers, [], []), wants);
  }

  lemma Swapped(drivers: seq<Driver>, a: seq<Share>, b: seq<Share>)
    requires AllServed(drivers, a + b)
    ensures AllServed(drivers, b + a)
  {
    forall d: nat | IsOpen(drivers, d) ensures Serves(b + a, d) {
      ServesEither(a, b, d);
      if Serves(a, d) { ServesMore(a, b, d); } else { ServesMore(b, a, d); }
    }
  }

  /********** Runs **********/

  datatype Action =
    | Change(to: nat, wants: seq<Want>, write: Write, restore: Write)
    | Refresh(wants: seq<Want>)
    | Start
    | Shutdown

  // Close, once the server no longer runs, is not an action: it closes everything.
  function Next(s: State, a: Action): State {
    match a
    case Change(to, wants, write, restore) => Apply(s, to, wants, write, restore).0
    case Refresh(wants) => Reload(s, wants).0
    case Start => s.(running := true)
    case Shutdown => s.(running := false)
  }

  // A server as it is made, with the shares its configuration and its state file
  // name open; one that cannot open them closes what it opened and is not made.
  function Made(boot: seq<Want>): State {
    var (drivers, shares) := OpenShares([], Opening([], [], []), boot);
    State(if shares.None? then [] else shares.value, drivers, false, 0, 0, 0)
  }

  lemma MadeOk(boot: seq<Want>)
    ensures Inv(Made(boot))
  {
    var none := State([], [], false, 0, 0, 0);
    OpensFrom(none, boot);
    var (drivers, shares) := OpenShares([], Opening([], [], []), boot);
    if shares.Some? { assert [] + shares.value == shares.value; }
  }

  function Exec(boot: seq<Want>, acts: seq<Action>): State
    decreases |acts|
  {
    if acts == [] then Made(boot) else Next(Exec(boot, acts[..|acts| - 1]), acts[|acts| - 1])
  }

  // What a change that was refused, or failed at any step, must leave alone.
  ghost predicate Untouched(s: State, s': State) {
    && s'.shares == s.shares && s'.generation == s.generation && s'.state == s.state && s.drivers <= s'.drivers
    && (forall d :: |s.drivers| <= d < |s'.drivers| ==> !IsOpen(s'.drivers, d))
  }

  lemma FailureUntouched(s: State, wants: seq<Want>)
    requires Inv(s)
    ensures var (drivers, next) := OpenShares(s.shares, Opening(s.drivers, [], []), wants);
      var s' := s.(drivers := if next.None? then drivers else Release(drivers, next.value, s.shares));
      Inv(s') && Untouched(s, s')
  {
    var (drivers, next) := OpenShares(s.shares, Opening(s.drivers, [], []), wants);
    OpensFrom(s, wants);
    var s' := s.(drivers := if next.None? then drivers else Release(drivers, next.value, s.shares));
    if next.Some? {
      Swapped(drivers, s.shares, next.value);
      ReleaseKeeps(drivers, next.value, s.shares);
      ClosersOf(drivers, next.value);
      ReleaseCloses(drivers, next.value, s.shares);
      forall d | 0 <= d < |s.drivers| ensures s'.drivers[d] == s.drivers[d] {
        KeptOrClosed(s, drivers, next.value, d);
      }
    }
    forall d | |s.drivers| <= d < |s'.drivers| ensures !IsOpen(s'.drivers, d) {
      if IsOpen(s'.drivers, d) { NotServedYet(s, d); }
    }
  }

  lemma NotServedYet(s: State, d: nat)
    requires ListOk(s.drivers, s.shares) && d >= |s.drivers|
    ensures !Serves(s.shares, d)
  {
    forall i | 0 <= i < |s.shares| ensures s.shares[i].fsys != Some(d) {
      assert ShareOk(s.drivers, s.shares[i]);
    }
  }

  // A driver from before is untouched by the release of a list that failed:
  // either the served list holds it too, or it was closed before.
  lemma KeptOrClosed(s: State, drivers: seq<Driver>, next: seq<Share>, d: nat)
    requires Inv(s) && s.drivers <= drivers && d < |s.drivers| && ListOk(drivers, next)
    ensures Serves(next, d) ==> Serves(s.shares, d)
  {
    if Serves(next, d) {
      var i :| 0 <= i < |next| && next[i].fsys == Some(d);
      assert ShareOk(drivers, next[i]);
      assert IsOpen(s.drivers, d);
    }
  }

  // A failed change leaves the list, the generation and every driver as they
  // were; and what is written down too, exactly when its write did not happen
  // or was put back.
  lemma FailedChange(s: State, to: nat, wants: seq<Want>, write: Write, restore: Write)
    requires Inv(s) && s.file == s.state && to != s.state && !Apply(s, to, wants, write, restore).1
    ensures var s' := Apply(s, to, wants, write, restore).0;
      && Inv(s') && Untouched(s, s') && s'.running == s.running
      && (s'.file == s.file <==>
           OpenShares(s.shares, Opening(s.drivers, [], []), wants).1.None? || write.NotWritten? || (write.Written? && !restore.NotWritten?))
  {
    FailureUntouched(s, wants);
  }

  lemma SwapKeeps(s: State, wants: seq<Want>)
    requires Inv(s) && OpenShares(s.shares, Opening(s.drivers, [], []), wants).1.Some? && s.running
    ensures var (drivers, next) := OpenShares(s.shares, Opening(s.drivers, [], []), wants);
      Inv(Swap(s.(drivers := drivers), next.value).value)
  {
    var (drivers, next) := OpenShares(s.shares, Opening(s.drivers, [], []), wants);
    OpensFrom(s, wants);
    ReleaseKeeps(drivers, s.shares, next.value);
  }

  lemma NextKeeps(s: State, a: Action)
    requires Inv(s)
    ensures Inv(Next(s, a))
  {
    if a.Change? || a.Refresh? {
      FailureUntouched(s, a.wants);
      var (drivers, next) := OpenShares(s.shares, Opening(s.drivers, [], []), a.wants);
      if next.Some? && s.running { SwapKeeps(s, a.wants); }
    }
  }

  lemma {:induction false} RunKeeps(boot: seq<Want>, acts: seq<Action>)
    ensures Inv(Exec(boot, acts))
    decreases |acts|
  {
    if acts == [] {
      MadeOk(boot);
    } else {
      RunKeeps(boot, acts[..|acts| - 1]);
      NextKeeps(Exec(boot, acts[..|acts| - 1]), acts[|acts| - 1]);
    }
  }

  // Over every run of a server made with any shares, whatever failed: a driver is
  // open exactly when a served share holds it; two open ones are never over one
  // image; and a share that may be written to holds one opened for writing and not
  // forced read-only.
  lemma OpenIffServed(boot: seq<Want>, acts: seq<Action>)
    ensures var s := Exec(boot, acts);
      && (forall d :: 0 <= d < |s.drivers| ==> (IsOpen(s.drivers, d) <==> Serves(s.shares, d)))
      && (forall i, j :: 0 <= i < |s.drivers| && 0 <= j < |s.drivers| && i != j && IsOpen(s.drivers, i) && IsOpen(s.drivers, j) ==>
            !Same(s.drivers[i].key, s.drivers[j].key))
      && (forall i :: 0 <= i < |s.shares| && !s.shares[i].block.system && !s.shares[i].readOnly ==>
            s.shares[i].fsys.Some? && IsOpen(s.drivers, s.shares[i].fsys.value)
            && !s.drivers[s.shares[i].fsys.value].readOnly && !s.drivers[s.shares[i].fsys.value].fixed)
  {
    var s := Exec(boot, acts);
    RunKeeps(boot, acts);
    forall d | 0 <= d < |s.drivers| && Serves(s.shares, d) ensures IsOpen(s.drivers, d) {
      var i :| 0 <= i < |s.shares| && s.shares[i].fsys == Some(d);
      assert ShareOk(s.drivers, s.shares[i]);
    }
    forall i, j | 0 <= i < |s.drivers| && 0 <= j < |s.drivers| && IsOpen(s.drivers, i) && IsOpen(s.drivers, j) && i != j
      ensures !Same(s.drivers[i].key, s.drivers[j].key)
    {
      if i > j { assert !Same(s.drivers[j].key, s.drivers[i].key); }
    }
    forall i | 0 <= i < |s.shares| ensures ShareOk(s.drivers, s.shares[i]) {
    }
  }

  // Over every run a share is read-only exactly when its block says so, nobody
  // may write it, or its driver cannot be written through; and a block that
  // would write is never served over a driver that was opened without trying.
  lemma ReadOnlyExactly(boot: seq<Want>, acts: seq<Action>, i: nat)
    requires i < |Exec(boot, acts).shares|
    ensures var s := Exec(boot, acts);
      var sh := s.shares[i];
      if sh.block.system then sh.fsys.None? && (sh.readOnly <==> sh.block.readOnly || sh.block.noWriters)
      else
        && sh.fsys.Some? && sh.fsys.value < |s.drivers|
        && var d := s.drivers[sh.fsys.value];
          && (sh.readOnly <==> sh.block.readOnly || sh.block.noWriters || d.readOnly || d.fixed)
          && (d.readOnly && !d.asked ==> sh.block.readOnly)
  {
    hide Exec;
    RunKeeps(boot, acts);
    assert ShareOk(Exec(boot, acts).drivers, Exec(boot, acts).shares[i]);
  }

  // Two shares of one image that is there are served over one driver.
  lemma OneImageOneDriver(boot: seq<Want>, acts: seq<Action>, i: nat, j: nat)
    requires var s := Exec(boot, acts); i < |s.shares| && j < |s.shares| && Same(s.shares[i].key, s.shares[j].key)
    requires var s := Exec(boot, acts); !s.shares[i].block.system && !s.shares[j].block.system
    ensures Exec(boot, acts).shares[i].fsys == Exec(boot, acts).shares[j].fsys
  {
    hide Exec;
    RunKeeps(boot, acts);
    SharesOfOneImage(Exec(boot, acts), i, j);
  }

  lemma SharesOfOneImage(s: State, i: nat, j: nat)
    requires Inv(s) && i < |s.shares| && j < |s.shares| && Same(s.shares[i].key, s.shares[j].key)
    requires !s.shares[i].block.system && !s.shares[j].block.system
    ensures s.shares[i].fsys == s.shares[j].fsys
  {
    assert ShareOk(s.drivers, s.shares[i]) && ShareOk(s.drivers, s.shares[j]);
  }
}
