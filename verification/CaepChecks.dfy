/** What voids a person's credential, in the words of the events received: the
    account, the provider's issuer and subject, and the institution. */
module CaepChecks {
  import opened Wrappers
  import opened Access
  import opened Caep
  import opened CaepRuns

  ghost predicate NamesScope(k: string, name: string) {
    exists x, d, low :: Follows(name, x, d) && d != "" && IsLower(low, d) && k == "scope:" + low
  }

  // The key names the person.
  ghost predicate Names(k: string, name: string, iss: string, sub: string) {
    k == "acct:" + name || (iss != "" && sub != "" && k == "iss_sub:" + iss + " " + sub) || NamesScope(k, name)
  }

  lemma ScopeIs(k: string, name: string)
    ensures NamesScope(k, name) <==> DomainOf(name) != "" && k == ScopeKey(DomainOf(name))
  {
    AfterTheLast(name);
    if DomainOf(name) != "" && k == ScopeKey(DomainOf(name)) {
      var d := DomainOf(name);
      var x :| Follows(name, x, d);
      LowerIs(d, Lower(d));
    }
    if NamesScope(k, name) {
      var x, d, low :| Follows(name, x, d) && d != "" && IsLower(low, d) && k == "scope:" + low;
      LowerIs(d, low);
      assert AfterLastAt(name) == Some(d);
    }
  }

  lemma KeysAre(k: string, name: string, iss: string, sub: string)
    ensures k in KeysOf(name, iss, sub) <==> Names(k, name, iss, sub)
  {
    ScopeIs(k, name);
    hide NamesScope, DomainOf, Lower;
    var keys := KeysOf(name, iss, sub);
    assert keys[0] == "acct:" + name;
    if iss != "" && sub != "" { assert keys[1] == "iss_sub:" + iss + " " + sub; }
    if DomainOf(name) != "" { assert keys[|keys| - 1] == ScopeKey(DomainOf(name)); }
  }

  // An event that is not cut off names the person and is not before the issue time.
  ghost predicate Hits(s: State, e: Event, k: string, name: string, iss: string, sub: string, issued: Option<Time>) {
    && e in s.log && k in e.keys && e.at > 0 && e.at >= s.cutoff && Names(k, name, iss, sub)
    && (issued.None? || issued.value <= e.at)
  }

  // Over every run a credential is void exactly when, with the transmitter heard,
  // some event since the last prune's cutoff, no earlier than its issue time --
  // any, when that is not known -- names the account, the issuer and subject when
  // both are known, or the institution after the last @ of the name.
  lemma VoidExactly(
    retain: nat, start: nat, steps: seq<Step>, maxAge: Time, name: string, iss: string, sub: string, issued: Option<Time>)
    ensures var s := Exec(retain, start, steps);
      var a := Answers(s.entries, s.heard, s.clock, maxAge, name, iss, sub, issued);
      && (a == Unheard <==> s.heard.None? || s.clock - s.heard.value > maxAge)
      && (a == Void <==> a != Unheard && exists e, k :: Hits(s, e, k, name, iss, sub, issued))
  {
    hide Exec, KeysOf, Names;
    RunKeeps(retain, start, steps);
    var s := Exec(retain, start, steps);
    var keys := KeysOf(name, iss, sub);
    if e, k :| Hits(s, e, k, name, iss, sub, issued) {
      KeysAre(k, name, iss, sub);
      LogMaxIs(s.log, k);
      var i :| 0 <= i < |keys| && keys[i] == k;
      assert Voids(s.entries, keys[i], issued);
    }
    if AnyVoids(s.entries, keys, issued) {
      var i :| 0 <= i < |keys| && Voids(s.entries, keys[i], issued);
      KeysAre(keys[i], name, iss, sub);
      LogMaxIs(s.log, keys[i]);
      var e :| e in s.log && keys[i] in e.keys && e.at == LogMax(s.log, keys[i]);
      assert Hits(s, e, keys[i], name, iss, sub, issued);
    }
  }
}
