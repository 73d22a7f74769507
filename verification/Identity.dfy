/** What a worker may run as: the policy, the ids printed on its command line and
    read back, and the worker's own check of what it finds itself running as. */
module Identity {
  import opened Wrappers
  import opened Ordering

  const WIDTH := 0x1_0000_0000
  // (uid_t)-1, which setresuid reads as "leave it as it is".
  const NO_CHANGE := 0xFFFF_FFFF

  type ID = x: nat | x < WIDTH

  datatype Account = Account(uid: ID, gid: ID, groups: seq<nat>, dropped: seq<nat>)

  // Group ids are as wide as the others.
  predicate Fits(a: Account) {
    forall g :: g in a.groups ==> g < WIDTH
  }

  datatype Policy = Policy(minUID: ID, minGID: ID, denyUIDs: seq<nat>)

  /********** The policy **********/

  predicate Refused(p: Policy, a: Account) {
    || a.uid == 0 || a.uid == NO_CHANGE || a.gid == NO_CHANGE || a.gid == 0
    || a.uid < p.minUID || a.gid < p.minGID || a.uid in p.denyUIDs
  }

  predicate Allowed(p: Policy, g: nat) {
    g != 0 && g != NO_CHANGE && g >= p.minGID
  }

  // The groups the policy allows, or the ones it does not.
  function Sift(p: Policy, groups: seq<nat>, allowed: bool): (kept: seq<nat>)
    ensures forall g :: g in kept <==> g in groups && Allowed(p, g) == allowed
  {
    if groups == [] then [] else (if Allowed(p, groups[0]) == allowed then [groups[0]] else []) + Sift(p, groups[1..], allowed)
  }

  // The account as the policy lets it run: None when it may not.
  function Applied(p: Policy, a: Account): Option<Account> {
    if Refused(p, a) then None
    else Some(a.(groups := Canonical([a.gid] + Sift(p, a.groups, true), NatLe),
                 dropped := Canonical(Sift(p, a.groups, false), NatLe)))
  }

  method Apply(p: Policy, a: Account) returns (r: Option<Account>)
    ensures r == Applied(p, a)
  {
    if a.uid == 0 { return None; }
    if a.uid == NO_CHANGE || a.gid == NO_CHANGE { return None; }
    if a.gid == 0 { return None; }
    if a.uid < p.minUID { return None; }
    if a.gid < p.minGID { return None; }
    if a.uid in p.denyUIDs { return None; }
    var kept, dropped := SiftGroups(p, a.groups);
    r := Some(a.(groups := Canonical([a.gid] + kept, NatLe), dropped := Canonical(dropped, NatLe)));
  }

  method SiftGroups(p: Policy, all: seq<nat>) returns (kept: seq<nat>, dropped: seq<nat>)
    ensures kept == Sift(p, all, true) && dropped == Sift(p, all, false)
  {
    kept, dropped := [], [];
    var i := 0;
    while i < |all|
      invariant 0 <= i <= |all|
      invariant kept + Sift(p, all[i..], true) == Sift(p, all, true)
      invariant dropped + Sift(p, all[i..], false) == Sift(p, all, false)
    {
      SiftStep(p, kept, all, i, true);
      SiftStep(p, dropped, all, i, false);
      if Allowed(p, all[i]) { kept := kept + [all[i]]; } else { dropped := dropped + [all[i]]; }
      i := i + 1;
    }
  }

  lemma SiftStep(p: Policy, acc: seq<nat>, all: seq<nat>, i: nat, allowed: bool)
    requires i < |all|
    ensures acc + Sift(p, all[i..], allowed) ==
      (if Allowed(p, all[i]) == allowed then acc + [all[i]] else acc) + Sift(p, all[i + 1..], allowed)
  {
    assert all[i..][1..] == all[i + 1..];
  }

  // Who may run, number by number; and what an accepted account's groups are:
  // sorted, each once, the primary one among them, and otherwise exactly the ones
  // asked for that are not root's, not (gid_t)-1 and not below the lowest.
  lemma AppliedExactly(p: Policy, a: Account)
    ensures Applied(p, a).Some? <==>
      && a.uid != 0 && a.uid != 0xFFFF_FFFF && p.minUID <= a.uid && a.uid !in p.denyUIDs
      && a.gid != 0 && a.gid != 0xFFFF_FFFF && p.minGID <= a.gid
    ensures Applied(p, a).Some? ==> var b := Applied(p, a).value;
      && b.uid == a.uid && b.gid == a.gid
      && (forall i, j :: 0 <= i < j < |b.groups| ==> b.groups[i] < b.groups[j])
      && (forall i, j :: 0 <= i < j < |b.dropped| ==> b.dropped[i] < b.dropped[j])
      && (forall g :: g in b.groups <==> g == a.gid || (g in a.groups && g != 0 && g != 0xFFFF_FFFF && p.minGID <= g))
      && (forall g :: g in b.dropped <==> g in a.groups && (g == 0 || g == 0xFFFF_FFFF || g < p.minGID))
  {
    NatLeTotal();
    CanonicalIs([a.gid] + Sift(p, a.groups, true), NatLe);
    CanonicalIs(Sift(p, a.groups, false), NatLe);
  }

  /********** Decimal numbers, and lists of them **********/

  function Digit(d: nat): char
    requires d < 10
  {
    '0' + d as char
  }

  predicate IsDigit(c: char) {
    '0' <= c <= '9'
  }

  function FormatUint(n: nat): (s: string)
    ensures s != "" && forall i :: 0 <= i < |s| ==> IsDigit(s[i])
  {
    (if n < 10 then "" else FormatUint(n / 10)) + [Digit(n % 10)]
  }

  // Decimal digits only, at least one, and no more than the width holds.
  function ParseDigits(s: string): Option<nat> {
    if s == "" then Some(0)
    else if !IsDigit(s[|s| - 1]) then None
    else match ParseDigits(s[..|s| - 1])
      case None => None
      case Some(n) => Some(n * 10 + (s[|s| - 1] as nat - '0' as nat))
  }

  function ParseUint(s: string, limit: nat): Option<nat> {
    if s == "" then None
    else match ParseDigits(s) case None => None case Some(n) => if n < limit then Some(n) else None
  }

  lemma {:induction false} DigitsRoundTrip(n: nat)
    ensures ParseDigits(FormatUint(n)) == Some(n)
  {
    var s := FormatUint(n);
    assert s[|s| - 1] == Digit(n % 10);
    if n < 10 {
      assert s[..|s| - 1] == "";
    } else {
      assert s[..|s| - 1] == FormatUint(n / 10);
      DigitsRoundTrip(n / 10);
    }
  }

  lemma UintRoundTrip(n: nat, limit: nat)
    ensures ParseUint(FormatUint(n), limit) == if n < limit then Some(n) else None
  {
    DigitsRoundTrip(n);
  }

  function Join(parts: seq<string>): string {
    if parts == [] then "" else if |parts| == 1 then parts[0] else parts[0] + "," + Join(parts[1..])
  }

  // Never an empty list: what has no comma is one part.
  function Split(s: string): (parts: seq<string>)
    ensures parts != []
  {
    if s == "" then [""]
    else if s[0] == ',' then [""] + Split(s[1..])
    else var rest := Split(s[1..]); [[s[0]] + rest[0]] + rest[1..]
  }

  lemma {:induction false} SplitFirst(part: string, rest: string)
    requires ',' !in part
    ensures Split(part + "," + rest) == [part] + Split(rest)
  {
    var s := part + "," + rest;
    if part == "" {
      assert s[1..] == rest;
    } else {
      assert s[1..] == part[1..] + "," + rest;
      SplitFirst(part[1..], rest);
      assert [s[0]] + part[1..] == part;
    }
  }

  lemma {:induction false} SplitOne(part: string)
    requires ',' !in part
    ensures Split(part) == [part]
  {
    if part != "" {
      SplitOne(part[1..]);
      assert [part[0]] + part[1..] == part;
    }
  }

  lemma {:induction false} JoinSplit(parts: seq<string>)
    requires parts != [] && forall i :: 0 <= i < |parts| ==> ',' !in parts[i]
    ensures Split(Join(parts)) == parts
  {
    if |parts| == 1 {
      SplitOne(parts[0]);
    } else {
      JoinSplit(parts[1..]);
      SplitFirst(parts[0], Join(parts[1..]));
    }
  }

  /********** A worker's arguments **********/

  datatype Args = Args(uid: string, gid: string, groups: string)

  datatype Expect = Expect(uid: nat, gid: nat, groups: seq<nat>)

  function Printed(groups: seq<nat>): seq<string> {
    seq(|groups|, i requires 0 <= i < |groups| => FormatUint(groups[i]))
  }

  function WorkerArgs(a: Account): Args {
    Args(FormatUint(a.uid), FormatUint(a.gid), Join(Printed(a.groups)))
  }

  function ParseGroups(parts: seq<string>): Option<seq<nat>> {
    if parts == [] then Some([])
    else match (ParseUint(parts[0], WIDTH), ParseGroups(parts[1..]))
      case (Some(g), Some(rest)) => if g == NO_CHANGE then None else Some([g] + rest)
      case _ => None
  }

  function After(gs: seq<nat>, rest: Option<seq<nat>>): Option<seq<nat>> {
    match rest case None => None case Some(more) => Some(gs + more)
  }

  lemma AfterStep(gs: seq<nat>, parts: seq<string>, i: nat)
    requires i < |parts|
    ensures After([], ParseGroups(parts)) == ParseGroups(parts) && parts[0..] == parts
    ensures var g := ParseUint(parts[i], WIDTH);
      After(gs, ParseGroups(parts[i..])) ==
        if g.None? || g.value == NO_CHANGE then None else After(gs + [g.value], ParseGroups(parts[i + 1..]))
  {
    assert parts[i..][1..] == parts[i + 1..];
    if ParseGroups(parts).Some? { assert [] + ParseGroups(parts).value == ParseGroups(parts).value; }
    var g := ParseUint(parts[i], WIDTH);
    if g.Some? && ParseGroups(parts[i + 1..]).Some? {
      var rest := ParseGroups(parts[i + 1..]).value;
      assert gs + ([g.value] + rest) == gs + [g.value] + rest;
    }
  }

  function ParsedExpect(uid: nat, gid: nat, groups: string): Option<Expect> {
    if uid >= NO_CHANGE || gid >= NO_CHANGE then None
    else if groups == "" then Some(Expect(uid, gid, []))
    else match ParseGroups(Split(groups)) case None => None case Some(gs) => Some(Expect(uid, gid, gs))
  }

  method ParseExpect(uid: nat, gid: nat, groups: string) returns (e: Option<Expect>)
    ensures e == ParsedExpect(uid, gid, groups)
  {
    if uid > WIDTH - 2 || gid > WIDTH - 2 { return None; }
    if groups == "" { return Some(Expect(uid, gid, [])); }
    var parts := Split(groups);
    var gs: seq<nat> := [];
    var i := 0;
    AfterStep(gs, parts, 0);
    while i < |parts|
      invariant 0 <= i <= |parts|
      invariant ParseGroups(parts) == After(gs, ParseGroups(parts[i..]))
    {
      AfterStep(gs, parts, i);
      var g := ParseUint(parts[i], WIDTH);
      if g.None? || g.value == WIDTH - 1 { return None; }
      gs := gs + [g.value];
      i := i + 1;
    }
    assert gs + [] == gs;
    e := Some(Expect(uid, gid, gs));
  }

  // What the launcher writes, the worker reads.
  function ReadBack(args: Args): Option<Expect> {
    match (ParseUint(args.uid, WIDTH * WIDTH), ParseUint(args.gid, WIDTH * WIDTH))
    case (Some(uid), Some(gid)) => ParsedExpect(uid, gid, args.groups)
    case _ => None
  }

  predicate AllIDs(groups: seq<nat>) {
    forall i :: 0 <= i < |groups| ==> groups[i] < 0xFFFF_FFFF
  }

  lemma {:induction false} ParsePrinted(groups: seq<nat>)
    ensures ParseGroups(Printed(groups)) == if AllIDs(groups) then Some(groups) else None
  {
    hide FormatUint, ParseUint;
    if groups != [] {
      var g, rest := groups[0], groups[1..];
      assert groups == [g] + rest;
      UintRoundTrip(g, WIDTH);
      assert Printed(groups)[0] == FormatUint(g) && Printed(groups)[1..] == Printed(rest);
      ParsePrinted(rest);
    } else {
      assert Printed(groups) == [];
    }
  }

  // Printed numbers are read as they were meant, exactly when each is an id: of 32
  // bits, and not the one that means none.
  lemma GroupsRoundTrip(uid: nat, gid: nat, groups: seq<nat>)
    ensures ParsedExpect(uid, gid, Join(Printed(groups))) ==
      if uid < 0xFFFF_FFFF && gid < 0xFFFF_FFFF && AllIDs(groups) then Some(Expect(uid, gid, groups)) else None
  {
    hide FormatUint, Split, ParseUint, ParseGroups;
    var parts := Printed(groups);
    if groups != [] {
      forall i | 0 <= i < |parts| ensures ',' !in parts[i] && parts[i] != "" {
        assert parts[i] == FormatUint(groups[i]);
      }
      JoinSplit(parts);
      assert Join(parts) != "";
      ParsePrinted(groups);
    }
  }

  lemma ArgsRoundTrip(a: Account)
    ensures ReadBack(WorkerArgs(a)) ==
      if a.uid < 0xFFFF_FFFF && a.gid < 0xFFFF_FFFF && AllIDs(a.groups) then Some(Expect(a.uid, a.gid, a.groups)) else None
  {
    hide ParseUint, FormatUint, ParsedExpect;
    UintRoundTrip(a.uid, WIDTH * WIDTH);
    UintRoundTrip(a.gid, WIDTH * WIDTH);
    GroupsRoundTrip(a.uid, a.gid, a.groups);
  }

  /********** The worker's check **********/

  // What the process is running as. groups: None when getgroups fails.
  datatype Process = Process(
    uid: int, euid: int, gid: int, egid: int, groups: Option<seq<int>>, becomesRoot: bool, joinsRoot: bool)

  function Truncated(groups: seq<int>): seq<nat> {
    seq(|groups|, i requires 0 <= i < |groups| => groups[i] % WIDTH)
  }

  function Drop(groups: seq<nat>, gid: nat): (rest: seq<nat>)
    ensures forall g :: g in rest <==> g in groups && g != gid
  {
    if groups == [] then [] else (if groups[0] != gid then [groups[0]] else []) + Drop(groups[1..], gid)
  }

  function WithoutGID(groups: seq<nat>, gid: nat): seq<nat> {
    Drop(Canonical(groups, NatLe), gid)
  }

  // Exactly the expected ids, and exactly the expected groups as a set, the
  // primary one aside; not root, and no way back to it.
  ghost predicate RunsAs(p: Process, e: Expect) {
    && e.uid != 0 && p.uid == p.euid == e.uid && p.gid == p.egid == e.gid && !p.becomesRoot && !p.joinsRoot
    && p.groups.Some? && (forall g: nat :: g != e.gid ==> (g in Truncated(p.groups.value) <==> g in e.groups))
  }

  method Verify(p: Process, e: Expect) returns (ok: bool)
    ensures ok <==> RunsAs(p, e)
  {
    if e.uid == 0 { return false; }
    if p.uid != e.uid || p.euid != e.uid { return false; }
    if p.gid != e.gid || p.egid != e.gid { return false; }
    if p.groups.None? { return false; }
    var have: seq<nat> := [];
    var i := 0;
    while i < |p.groups.value|
      invariant 0 <= i <= |p.groups.value|
      invariant have == Truncated(p.groups.value)[..i]
    {
      have := have + [p.groups.value[i] % WIDTH];
      i := i + 1;
    }
    assert have == Truncated(p.groups.value);
    GroupsCompared(have, e.groups, e.gid);
    if WithoutGID(have, e.gid) != WithoutGID(e.groups, e.gid) { return false; }
    ok := !p.becomesRoot && !p.joinsRoot;
  }

  lemma {:induction false} DropKeepsOrder(groups: seq<nat>, gid: nat)
    requires Sorted(groups, NatLe) && NoDuplicates(groups)
    ensures Sorted(Drop(groups, gid), NatLe) && NoDuplicates(Drop(groups, gid))
  {
    if groups != [] {
      DropKeepsOrder(groups[1..], gid);
      var rest := Drop(groups[1..], gid);
      forall i | 0 <= i < |rest| ensures NatLe(groups[0], rest[i]) && groups[0] != rest[i] {
        assert rest[i] in groups[1..];
      }
    }
  }

  lemma GroupsCompared(have: seq<nat>, want: seq<nat>, gid: nat)
    ensures WithoutGID(have, gid) == WithoutGID(want, gid) <==> forall g: nat :: g != gid ==> (g in have <==> g in want)
  {
    NatLeTotal();
    CanonicalIs(have, NatLe);
    CanonicalIs(want, NatLe);
    DropKeepsOrder(Canonical(have, NatLe), gid);
    DropKeepsOrder(Canonical(want, NatLe), gid);
    if forall g: nat :: g != gid ==> (g in have <==> g in want) {
      CanonicalIsUnique(WithoutGID(have, gid), WithoutGID(want, gid), NatLe);
    }
    if WithoutGID(have, gid) == WithoutGID(want, gid) {
      forall g: nat | g != gid ensures g in have <==> g in want {
        assert g in WithoutGID(have, gid) <==> g in have;
        assert g in WithoutGID(want, gid) <==> g in want;
      }
    }
  }

  // From the policy to the check: an accepted account, printed and read back, is
  // what the worker checks for -- its ids, and the groups it may have, the primary
  // one aside, which getgroups may leave out.
  lemma WorkerRunsAsAccount(p: Policy, a: Account, proc: Process)
    requires Fits(a) && Applied(p, a).Some?
    ensures var b := Applied(p, a).value;
      var e := ReadBack(WorkerArgs(b));
      && e.Some?
      && (RunsAs(proc, e.value) <==>
            proc.uid == proc.euid == a.uid && proc.gid == proc.egid == a.gid && !proc.becomesRoot && !proc.joinsRoot
            && proc.groups.Some?
            && forall g: nat :: g != a.gid ==> (g in Truncated(proc.groups.value) <==> g in a.groups && g != 0 && g != 0xFFFF_FFFF && p.minGID <= g))
  {
    AppliedExactly(p, a);
    var b := Applied(p, a).value;
    forall i | 0 <= i < |b.groups| ensures b.groups[i] < NO_CHANGE {
      assert b.groups[i] in b.groups;
    }
    ArgsRoundTrip(b);
  }
}
