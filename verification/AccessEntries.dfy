/** What one entry of a share's lists says, in its own spelling, and which lists
    come to no rules at all. */
module AccessEntries {
  import opened Wrappers
  import opened Access

  // What is after the last @ of the name, in capitals or not.
  ghost predicate InDomain(name: string, v: string) {
    exists x, d, low :: Follows(name, x, d) && d != "" && IsLower(low, d) && IsLower(low, v)
  }

  ghost predicate SpellsRule(entry: string) {
    exists v: string :: v != "" && (entry == "oidc:groups:" + v || entry == "oidc:user:" + v || entry == "oidc:domain:" + v)
  }

  lemma RuleExactly(entry: string, kind: string, v: string)
    requires IsRule(entry)
    ensures RuleOf(entry) == Some(ClaimRule(kind, v)) <==>
      v != "" && (kind == "groups" || kind == "user" || kind == "domain") && entry == "oidc:" + kind + ":" + v
  {
    assert entry == "oidc:" + entry[5..];
    if v != "" && (kind == "groups" || kind == "user" || kind == "domain") && entry == "oidc:" + kind + ":" + v {
      assert entry[5..] == kind + ":" + v;
      CutAt(kind, v);
    }
    if RuleOf(entry) == Some(ClaimRule(kind, v)) { assert entry == "oidc:" + (kind + ":" + v) == "oidc:" + kind + ":" + v; }
  }

  lemma RuleSpelt(entry: string)
    requires IsRule(entry)
    ensures RuleOf(entry).Some? <==> SpellsRule(entry)
  {
    hide RuleOf;
    if RuleOf(entry).Some? {
      var r := RuleOf(entry).value;
      RuleExactly(entry, r.kind, r.value);
      assert entry == "oidc:" + r.kind + ":" + r.value;
      assert "oidc:" + "groups" + ":" == "oidc:groups:" && "oidc:" + "user" + ":" == "oidc:user:" && "oidc:" + "domain" + ":" == "oidc:domain:";
    }
    if SpellsRule(entry) {
      var v: string :| v != "" && (entry == "oidc:groups:" + v || entry == "oidc:user:" + v || entry == "oidc:domain:" + v);
      assert "oidc:" + "groups" + ":" == "oidc:groups:" && "oidc:" + "user" + ":" == "oidc:user:" && "oidc:" + "domain" + ":" == "oidc:domain:";
      RuleExactly(entry, "groups", v);
      RuleExactly(entry, "user", v);
      RuleExactly(entry, "domain", v);
    }
  }

  lemma DomainIs(name: string, v: string)
    ensures InDomain(name, v) <==> Domain(name) != "" && Domain(name) == Lower(v)
  {
    AfterTheLast(name);
    if Domain(name) != "" && Domain(name) == Lower(v) {
      var d := AfterLastAt(name).value;
      var x :| Follows(name, x, d);
      LowerIs(d, Lower(d));
      LowerIs(v, Lower(d));
    }
    if InDomain(name, v) {
      var x, d, low :| Follows(name, x, d) && d != "" && IsLower(low, d) && IsLower(low, v);
      LowerIs(d, low);
      LowerIs(v, low);
      assert AfterLastAt(name) == Some(d);
    }
  }

  // An entry admits, when it is a rule, somebody the provider vouches for and says
  // is in that group, goes by that name, or comes from that domain; otherwise
  // somebody known here by name, who is in that group or is that one.
  lemma EntryMeans(dir: Directory, entry: string, p: Principal)
    ensures Covers(dir, entry, p) <==>
      if "oidc:" <= entry then
        && p.federated
        && (|| (exists g :: g in p.groups && g != "" && entry == "oidc:groups:" + g)
            || (p.name != "" && entry == "oidc:user:" + p.name)
            || (exists v: string :: v != "" && entry == "oidc:domain:" + v && InDomain(p.name, v)))
      else
        && (!p.federated || p.localName)
        && if "@" <= entry then entry in dir.groups && p.name in dir.groups[entry] else p.name == entry
  {
    hide RuleOf, Domain, Lower;
    if IsRule(entry) {
      assert "oidc:" + "groups" + ":" == "oidc:groups:" && "oidc:" + "user" + ":" == "oidc:user:" && "oidc:" + "domain" + ":" == "oidc:domain:";
      forall g: string ensures RuleOf(entry) == Some(ClaimRule("groups", g)) <==> g != "" && entry == "oidc:groups:" + g {
        RuleExactly(entry, "groups", g);
      }
      forall v: string ensures RuleOf(entry) == Some(ClaimRule("domain", v)) <==> v != "" && entry == "oidc:domain:" + v {
        RuleExactly(entry, "domain", v);
      }
      RuleExactly(entry, "user", p.name);
      if RuleOf(entry).Some? {
        var r := RuleOf(entry).value;
        RuleExactly(entry, r.kind, r.value);
        DomainIs(p.name, r.value);
        assert r == ClaimRule(r.kind, r.value);
      }
    }
  }

  /********** Lists that come to no rules **********/

  lemma {:induction false} SplitsExactly(list: seq<string>)
    ensures SplitRules(list).None? <==> exists i :: 0 <= i < |list| && IsRule(list[i]) && RuleOf(list[i]).None?
    ensures SplitRules(list).Some? ==> forall x :: x in SplitRules(list).value.0 <==> x in list && !IsRule(x)
  {
    hide RuleOf;
    if list != [] {
      var rest := list[1..];
      SplitsExactly(rest);
      assert list == [list[0]] + rest;
      if i :| 0 <= i < |rest| && IsRule(rest[i]) && RuleOf(rest[i]).None? { assert list[i + 1] == rest[i]; }
      if i :| 0 <= i < |list| && IsRule(list[i]) && RuleOf(list[i]).None? {
        if i > 0 { assert rest[i - 1] == list[i]; }
      }
    }
  }

  lemma {:induction false} ExpandsExactly(dir: Directory, names: seq<string>)
    ensures TolerantExpand(dir, names).None? <==> exists x :: x in names && IsGroup(x) && x in dir.down
  {
    if names != [] {
      ExpandsExactly(dir, names[1..]);
      assert names == [names[0]] + names[1..];
    }
  }

  // A share's lists come to no rules exactly when one of them has a rule that is
  // not spelled as one, or names a group the directory cannot answer about.
  lemma RefusedExactly(dir: Directory, b: Lists, forced: bool)
    ensures RulesOf(dir, b, forced).None? <==>
      exists entry :: entry in b.allow + b.writers && if "oidc:" <= entry then !SpellsRule(entry) else "@" <= entry && entry in dir.down
  {
    hide SplitRules, TolerantExpand, RuleOf, SpellsRule;
    SplitsExactly(b.allow);
    SplitsExactly(b.writers);
    forall entry: string | IsRule(entry) ensures RuleOf(entry).Some? <==> SpellsRule(entry) { RuleSpelt(entry); }
    if SplitRules(b.allow).Some? && SplitRules(b.writers).Some? {
      ExpandsExactly(dir, SplitRules(b.allow).value.0);
      ExpandsExactly(dir, SplitRules(b.writers).value.0);
    }
  }
}
