/** Who may use a share, and who may write to it: the rules a share's two lists
    come to once the directory and the identity provider have answered. */
module Access {
  import opened Wrappers

  // Somebody who authenticated. groups is what the identity provider said, and
  // means nothing for anybody it did not vouch for.
  datatype Principal = Principal(name: string, federated: bool, groups: seq<string>, localName: bool)

  datatype ClaimRule = ClaimRule(kind: string, value: string)

  predicate HasPrefix(s: string, prefix: string) {
    prefix <= s
  }

  function TrimPrefix(s: string, prefix: string): string {
    if HasPrefix(s, prefix) then s[|prefix|..] else s
  }

  // What is before and after the first colon.
  function CutColon(s: string): (r: Option<(string, string)>)
    ensures r.Some? ==> s == r.value.0 + ":" + r.value.1 && ':' !in r.value.0
    ensures r.None? ==> ':' !in s
  {
    if s == "" then None
    else if s[0] == ':' then Some(("", s[1..]))
    else match CutColon(s[1..])
      case None => None
      case Some((before, after)) => Some(([s[0]] + before, after))
  }

  lemma CutAt(kind: string, v: string)
    requires ':' !in kind
    ensures CutColon(kind + ":" + v) == Some((kind, v))
  {
    var s := kind + ":" + v;
    if kind == "" {
      assert s[1..] == v;
    } else {
      assert s[1..] == kind[1..] + ":" + v;
      CutAt(kind[1..], v);
      assert [s[0]] + kind[1..] == kind;
    }
  }

  predicate IsRule(who: string) {
    HasPrefix(who, "oidc:")
  }

  predicate IsGroup(who: string) {
    HasPrefix(who, "@")
  }

  // The rule an entry spells, if it does.
  function RuleOf(entry: string): Option<ClaimRule> {
    match CutColon(TrimPrefix(entry, "oidc:"))
    case None => None
    case Some((kind, value)) =>
      if value == "" || (kind != "groups" && kind != "user" && kind != "domain") then None else Some(ClaimRule(kind, value))
  }

  // The names the directory answers for, and the rules the provider answers for.
  function SplitRules(list: seq<string>): Option<(seq<string>, seq<ClaimRule>)> {
    if list == [] then Some(([], []))
    else match SplitRules(list[1..])
      case None => None
      case Some((names, rules)) =>
        if !IsRule(list[0]) then Some(([list[0]] + names, rules))
        else if RuleOf(list[0]).None? then None
        else Some((names, [RuleOf(list[0]).value] + rules))
  }

  /********** What a principal is **********/

  predicate ByName(p: Principal) {
    !p.federated || p.localName
  }

  function Lower(s: string): string {
    seq(|s|, i requires 0 <= i < |s| => if 'A' <= s[i] <= 'Z' then s[i] - 'A' + 'a' else s[i])
  }

  // Names compared the way SMB compares them.
  predicate SameName(a: string, b: string) {
    Lower(a) == Lower(b)
  }

  function AfterLastAt(s: string): Option<string> {
    if s == "" then None
    else match AfterLastAt(s[1..])
      case Some(rest) => Some(rest)
      case None => if s[0] == '@' then Some(s[1..]) else None
  }

  // low is d in small letters.
  predicate IsLower(low: string, d: string) {
    |low| == |d| && forall i :: 0 <= i < |d| ==> low[i] == if 'A' <= d[i] <= 'Z' then d[i] - 'A' + 'a' else d[i]
  }

  // d is what follows the last @ of the name.
  predicate Follows(name: string, x: string, d: string) {
    name == x + "@" + d && '@' !in d
  }

  lemma {:induction false} AfterTheLast(name: string)
    ensures forall d :: AfterLastAt(name) == Some(d) <==> exists x :: Follows(name, x, d)
    ensures AfterLastAt(name).None? <==> '@' !in name
  {
    if name != "" {
      AfterTheLast(name[1..]);
      assert name == [name[0]] + name[1..];
      forall d ensures AfterLastAt(name) == Some(d) <==> exists x :: Follows(name, x, d) {
        if AfterLastAt(name[1..]) == Some(d) {
          var x :| Follows(name[1..], x, d);
          assert Follows(name, [name[0]] + x, d);
        } else if AfterLastAt(name) == Some(d) {
          assert name == "" + "@" + d;
          assert Follows(name, "", d);
        }
        if x :| Follows(name, x, d) {
          if x == "" {
            assert name[1..] == d;
          } else {
            assert name[1..] == x[1..] + "@" + d;
            assert Follows(name[1..], x[1..], d);
          }
        }
      }
    }
  }

  lemma LowerIs(d: string, low: string)
    ensures IsLower(low, d) <==> low == Lower(d)
  {
  }

  function Domain(name: string): string {
    match AfterLastAt(name) case None => "" case Some(rest) => Lower(rest)
  }

  predicate MatchesRule(p: Principal, r: ClaimRule) {
    p.federated &&
    if r.kind == "user" then r.value == p.name
    else if r.kind == "groups" then r.value in p.groups
    else r.kind == "domain" && Domain(p.name) != "" && Domain(p.name) == Lower(r.value)
  }

  predicate Matches(p: Principal, rules: seq<ClaimRule>) {
    exists i :: 0 <= i < |rules| && MatchesRule(p, rules[i])
  }

  /********** The directory **********/

  // groups: who is in each group there is, none for an emptied one. down: the
  // groups the directory cannot answer about.
  datatype Directory = Directory(groups: map<string, seq<string>>, down: set<string>)

  // Expanded as a reload expands: a group that is gone or emptied grants
  // nothing, an outage is an error.
  function TolerantExpand(dir: Directory, names: seq<string>): Option<seq<string>> {
    if names == [] then Some([])
    else if IsGroup(names[0]) && names[0] in dir.down then None
    else match TolerantExpand(dir, names[1..])
      case None => None
      case Some(rest) =>
        var members := if !IsGroup(names[0]) then [names[0]] else if names[0] in dir.groups then dir.groups[names[0]] else [];
        Some(members + rest)
  }

  /********** A share's rules **********/

  datatype Lists = Lists(allow: seq<string>, writers: seq<string>, readOnly: bool, noWriters: bool)

  datatype Rules = Rules(
    readOnly: bool, allow: seq<string>, writers: seq<string>, allowClaims: seq<ClaimRule>, writerClaims: seq<ClaimRule>,
    allowNamed: bool, writersNamed: bool)

  // forced: the image could only be opened read-only.
  function RulesOf(dir: Directory, b: Lists, forced: bool): Option<Rules> {
    match (SplitRules(b.allow), SplitRules(b.writers))
    case (Some((allowNames, allowClaims)), Some((writerNames, writerClaims))) =>
      (match (TolerantExpand(dir, allowNames), TolerantExpand(dir, writerNames))
       case (Some(allow), Some(writers)) =>
         Some(Rules(b.readOnly || b.noWriters || forced, allow, if forced then [] else writers, allowClaims, writerClaims,
                    allowNames != [], writerNames != []))
       case _ => None)
    case _ => None
  }

  predicate AllowsAnyone(r: Rules) {
    !r.allowNamed && r.allow == [] && r.allowClaims == []
  }

  predicate AnyAllowedWrites(r: Rules) {
    !r.writersNamed && r.writers == [] && r.writerClaims == []
  }

  predicate MayUse(r: Rules, p: Principal) {
    AllowsAnyone(r) || (ByName(p) && p.name in r.allow) || Matches(p, r.allowClaims)
  }

  predicate ReadOnlyFor(r: Rules, p: Principal) {
    r.readOnly || (!AnyAllowedWrites(r) && !(ByName(p) && p.name in r.writers) && !Matches(p, r.writerClaims))
  }

  /********** What the lists mean, entry by entry **********/

  // One entry of a list, as it reads.
  predicate Covers(dir: Directory, entry: string, p: Principal) {
    if IsRule(entry) then RuleOf(entry).Some? && MatchesRule(p, RuleOf(entry).value)
    else ByName(p) && (if IsGroup(entry) then entry in dir.groups && p.name in dir.groups[entry] else p.name == entry)
  }

  predicate CoveredBy(dir: Directory, list: seq<string>, p: Principal) {
    exists i :: 0 <= i < |list| && Covers(dir, list[i], p)
  }

  lemma MatchesMore(p: Principal, r: ClaimRule, rules: seq<ClaimRule>)
    ensures Matches(p, [r] + rules) <==> MatchesRule(p, r) || Matches(p, rules)
  {
    var all := [r] + rules;
    if MatchesRule(p, r) { assert MatchesRule(p, all[0]); }
    if Matches(p, rules) {
      var i :| 0 <= i < |rules| && MatchesRule(p, rules[i]);
      assert all[i + 1] == rules[i];
    }
  }

  lemma CoveredMore(dir: Directory, list: seq<string>, p: Principal)
    requires list != []
    ensures CoveredBy(dir, list, p) <==> Covers(dir, list[0], p) || CoveredBy(dir, list[1..], p)
  {
    if CoveredBy(dir, list[1..], p) {
      var i :| 0 <= i < |list[1..]| && Covers(dir, list[1..][i], p);
      assert list[i + 1] == list[1..][i];
    }
    if CoveredBy(dir, list, p) && !Covers(dir, list[0], p) {
      var i :| 0 <= i < |list| && Covers(dir, list[i], p);
      assert list[1..][i - 1] == list[i];
    }
  }

  // Splitting a list and expanding its names answers for exactly what its
  // entries cover.
  lemma {:induction false} SplitCovers(dir: Directory, list: seq<string>, p: Principal)
    requires SplitRules(list).Some? && TolerantExpand(dir, SplitRules(list).value.0).Some?
    ensures var (names, rules) := SplitRules(list).value;
      && ((ByName(p) && p.name in TolerantExpand(dir, names).value) || Matches(p, rules) <==> CoveredBy(dir, list, p))
      && (list == [] <==> names == [] && rules == [])
  {
    if list != [] {
      var (names, rules) := SplitRules(list).value;
      var (restNames, restRules) := SplitRules(list[1..]).value;
      CoveredMore(dir, list, p);
      if IsRule(list[0]) {
        MatchesMore(p, RuleOf(list[0]).value, restRules);
        SplitCovers(dir, list[1..], p);
      } else {
        assert names[1..] == restNames;
        SplitCovers(dir, list[1..], p);
      }
    }
  }

  // A share that writes anything in its allow list admits exactly whom its
  // entries cover, also when every group among them has emptied; one that
  // writes nothing there admits everybody. The same for writers.
  lemma RulesMean(dir: Directory, b: Lists, forced: bool, p: Principal)
    requires RulesOf(dir, b, forced).Some?
    ensures var r := RulesOf(dir, b, forced).value;
      && (MayUse(r, p) <==> b.allow == [] || CoveredBy(dir, b.allow, p))
      && (!ReadOnlyFor(r, p) <==> !forced && !b.readOnly && !b.noWriters && (b.writers == [] || CoveredBy(dir, b.writers, p)))
  {
    SplitCovers(dir, b.allow, p);
    SplitCovers(dir, b.writers, p);
  }
}
