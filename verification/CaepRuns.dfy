/** The pruned store against the log of everything received: it is the pointwise
    maximum of the log, cut at what no credential can still need. */
module CaepRuns {
  import opened Wrappers
  import opened Access
  import opened Caep

  // The latest revocation of a subject in a log; 0 when there is none.
  function LogMax(log: seq<Event>, k: string): (t: Time)
    ensures t >= 0
    decreases |log|
  {
    if log == [] then 0
    else
      var before := LogMax(log[..|log| - 1], k);
      var e := log[|log| - 1];
      if k in e.keys && e.at > before then e.at else before
  }

  // What the full log would hold, were nothing ever pruned.
  ghost predicate IsFull(entries: Entries, log: seq<Event>) {
    forall k :: (k in entries <==> LogMax(log, k) > 0) && (k in entries ==> entries[k] == LogMax(log, k))
  }

  // The store of a log pruned at cutoff.
  ghost predicate IsStore(entries: Entries, log: seq<Event>, cutoff: Time) {
    forall k :: (k in entries <==> LogMax(log, k) > 0 && LogMax(log, k) >= cutoff) && (k in entries ==> entries[k] == LogMax(log, k))
  }

  lemma {:induction false} LogMaxIs(log: seq<Event>, k: string)
    ensures forall e :: e in log && k in e.keys ==> e.at <= LogMax(log, k)
    ensures LogMax(log, k) > 0 ==> exists e :: e in log && k in e.keys && e.at == LogMax(log, k)
    decreases |log|
  {
    if log != [] {
      var before := log[..|log| - 1];
      LogMaxIs(before, k);
      assert log == before + [log[|log| - 1]];
      if LogMax(log, k) > 0 && LogMax(log, k) == LogMax(before, k) {
        var e :| e in before && k in e.keys && e.at == LogMax(before, k);
        assert e in log;
      }
    }
  }

  /********** One revocation **********/

  lemma {:induction false} RevokedIs(entries: Entries, keys: seq<string>, at: Time)
    ensures forall k :: Get(Revoked(entries, keys, at), k) == if k in keys && at > Get(entries, k) then at else Get(entries, k)
    ensures forall k :: k in Revoked(entries, keys, at) <==> k in entries || (k in keys && at > Get(entries, k))
    decreases |keys|
  {
    if keys != [] {
      var next := if at > Get(entries, keys[0]) then entries[keys[0] := at] else entries;
      RevokedIs(next, keys[1..], at);
      assert keys == [keys[0]] + keys[1..];
    }
  }

  // Revoking and pruning keeps the store of the log, as long as the cutoff only rises.
  lemma RevokeStores(entries: Entries, log: seq<Event>, cutoff: Time, e: Event, cutoff': Time)
    requires IsStore(entries, log, cutoff) && cutoff <= cutoff' && (forall k :: k in entries ==> entries[k] > 0)
    ensures IsStore(Pruned(Revoked(entries, e.keys, e.at), cutoff'), log + [e], cutoff')
    ensures forall k :: k in Pruned(Revoked(entries, e.keys, e.at), cutoff') ==> Pruned(Revoked(entries, e.keys, e.at), cutoff')[k] > 0
  {
    RevokedIs(entries, e.keys, e.at);
    var after := Revoked(entries, e.keys, e.at);
    assert (log + [e])[..|log|] == log;
    forall k ensures LogMax(log + [e], k) == if k in e.keys && e.at > LogMax(log, k) then e.at else LogMax(log, k) {
    }
    forall k ensures k in Pruned(after, cutoff') <==> LogMax(log + [e], k) > 0 && LogMax(log + [e], k) >= cutoff' {
      assert Get(after, k) == if k in after then after[k] else 0;
    }
    forall k | k in Pruned(after, cutoff') ensures after[k] == LogMax(log + [e], k) {
      assert Get(after, k) == after[k];
    }
  }

  /********** Runs: revocations, saves that fail, polls and restarts **********/

  // log: the events memory answers for. saved: the ones the file does. acked:
  // the ones the transmitter was told are safe. cutoff: the last prune's.
  datatype State = State(
    entries: Entries, file: Entries, heard: Option<Time>, clock: Time,
    log: seq<Event>, cutoff: Time, saved: seq<Event>, savedCutoff: Time, acked: seq<Event>)

  datatype Step =
    | Receive(e: Event, write: Write)
    | Heard
    | Wait(d: nat)
    | Restart

  function Next(retain: nat, s: State, a: Step): State {
    match a
    case Receive(e, write) =>
      var entries := Pruned(Revoked(s.entries, e.keys, e.at), s.clock - retain);
      var s1 := s.(entries := entries, log := s.log + [e], cutoff := s.clock - retain);
      var s2 := if write.NotWritten? then s1 else s1.(file := entries, saved := s1.log, savedCutoff := s1.cutoff);
      if write.Written? then s2.(acked := s2.acked + [e]) else s2
    case Heard => s.(heard := Some(s.clock))
    case Wait(d) => s.(clock := s.clock + d)
    case Restart => s.(entries := s.file, heard := None, log := s.saved, cutoff := s.savedCutoff)
  }

  function Exec(retain: nat, start: nat, steps: seq<Step>): State
    decreases |steps|
  {
    if steps == [] then State(map[], map[], None, start, [], -(retain as int), [], -(retain as int), [])
    else Next(retain, Exec(retain, start, steps[..|steps| - 1]), steps[|steps| - 1])
  }

  ghost predicate Positive(entries: Entries) {
    forall k :: k in entries ==> entries[k] > 0
  }

  ghost predicate Inv(retain: nat, s: State) {
    && IsStore(s.entries, s.log, s.cutoff) && IsStore(s.file, s.saved, s.savedCutoff)
    && Positive(s.entries) && Positive(s.file)
    && s.cutoff <= s.clock - retain && s.savedCutoff <= s.clock - retain
    && (forall e :: e in s.acked ==> e in s.saved && e in s.log)
  }

  lemma NextKeeps(retain: nat, s: State, a: Step)
    requires Inv(retain, s)
    ensures Inv(retain, Next(retain, s, a))
  {
    hide IsStore, Revoked, Pruned;
    if a.Receive? {
      RevokeStores(s.entries, s.log, s.cutoff, a.e, s.clock - retain);
      assert a.e in s.log + [a.e];
      forall e | e in s.acked ensures e in s.log + [a.e] {
      }
    }
  }

  lemma {:induction false} RunKeeps(retain: nat, start: nat, steps: seq<Step>)
    ensures Inv(retain, Exec(retain, start, steps))
    decreases |steps|
  {
    if steps != [] {
      RunKeeps(retain, start, steps[..|steps| - 1]);
      NextKeeps(retain, Exec(retain, start, steps[..|steps| - 1]), steps[|steps| - 1]);
    }
  }

  /********** The store answers as the log **********/

  // In every state the store is the pointwise maximum of the events it answers
  // for, less what was too old to matter at the last revocation.
  lemma StoreIsPrunedLog(retain: nat, start: nat, steps: seq<Step>, k: string)
    ensures var s := Exec(retain, start, steps);
      && (k in s.entries <==> LogMax(s.log, k) > 0 && LogMax(s.log, k) >= s.cutoff)
      && (k in s.entries ==> s.entries[k] == LogMax(s.log, k))
      && s.cutoff <= s.clock - retain
  {
    RunKeeps(retain, start, steps);
  }

  // The order events arrive in, and how often each does, leaves no trace.
  lemma OrderLeavesNoTrace(a: seq<Event>, b: seq<Event>, cutoff: Time, x: Entries, y: Entries)
    requires IsStore(x, a, cutoff) && IsStore(y, b, cutoff)
    requires forall k, at :: Says(a, k, at) <==> Says(b, k, at)
    ensures x == y
  {
    forall k ensures LogMax(a, k) == LogMax(b, k) {
      LogMaxBelow(a, b, k);
      LogMaxBelow(b, a, k);
    }
  }

  ghost predicate Says(log: seq<Event>, k: string, at: Time) {
    exists e :: e in log && k in e.keys && e.at == at
  }

  lemma LogMaxBelow(a: seq<Event>, b: seq<Event>, k: string)
    requires forall at :: Says(a, k, at) ==> Says(b, k, at)
    ensures LogMax(a, k) <= LogMax(b, k)
  {
    LogMaxIs(a, k);
    LogMaxIs(b, k);
    if LogMax(a, k) > 0 {
      assert Says(a, k, LogMax(a, k));
      assert Says(b, k, LogMax(a, k));
    }
  }

  // The latest revocation of any of a person's keys.
  function Latest(log: seq<Event>, keys: seq<string>): (t: Time)
    ensures t >= 0 && forall i :: 0 <= i < |keys| ==> LogMax(log, keys[i]) <= t
    ensures t > 0 ==> exists i :: 0 <= i < |keys| && LogMax(log, keys[i]) == t
    decreases |keys|
  {
    if keys == [] then 0
    else
      var rest := Latest(log, keys[..|keys| - 1]);
      var last := LogMax(log, keys[|keys| - 1]);
      assert forall i :: 0 <= i < |keys| - 1 ==> keys[..|keys| - 1][i] == keys[i];
      if last > rest then last else rest
  }

  // A revocation at that time voids a credential issued then.
  predicate VoidedBy(latest: Time, issued: Option<Time>) {
    latest > 0 && (issued.None? || issued.value <= latest)
  }

  // The whole log voids a credential by its keys' latest revocation; the store
  // does when that is not older than the last prune's cutoff.
  lemma VoidsByLatest(retain: nat, s: State, full: Entries, keys: seq<string>, issued: Option<Time>)
    requires Inv(retain, s) && IsFull(full, s.log)
    ensures AnyVoids(full, keys, issued) <==> VoidedBy(Latest(s.log, keys), issued)
    ensures AnyVoids(s.entries, keys, issued) <==> VoidedBy(Latest(s.log, keys), issued) && Latest(s.log, keys) >= s.cutoff
  {
    var latest := Latest(s.log, keys);
    if latest > 0 {
      var i :| 0 <= i < |keys| && LogMax(s.log, keys[i]) == latest;
      if VoidedBy(latest, issued) {
        assert Voids(full, keys[i], issued);
        if latest >= s.cutoff { assert Voids(s.entries, keys[i], issued); }
      }
    }
    forall i | 0 <= i < |keys| && (Voids(full, keys[i], issued) || Voids(s.entries, keys[i], issued))
      ensures VoidedBy(latest, issued) && (Voids(s.entries, keys[i], issued) ==> latest >= s.cutoff)
    {
      assert LogMax(s.log, keys[i]) <= latest;
    }
  }

  // Whatever credential is asked about, the store and the whole log answer the
  // same exactly unless the transmitter is heard, the latest revocation of the
  // person is before the last prune's cutoff, and the credential was issued no
  // later than it -- or its issue time is not known.
  lemma CheckIsExact(retain: nat, start: nat, steps: seq<Step>, full: Entries, maxAge: Time, keys: seq<string>, issued: Option<Time>)
    requires IsFull(full, Exec(retain, start, steps).log)
    ensures var s := Exec(retain, start, steps);
      var latest := Latest(s.log, keys);
      Checked(s.entries, s.heard, s.clock, maxAge, keys, issued) == Checked(full, s.heard, s.clock, maxAge, keys, issued) <==>
        !(s.heard.Some? && s.clock - s.heard.value <= maxAge
          && 0 < latest < s.cutoff && (issued.None? || issued.value <= latest))
  {
    hide Exec;
    RunKeeps(retain, start, steps);
    VoidsByLatest(retain, Exec(retain, start, steps), full, keys, issued);
  }

  // So for every credential issued at a known time no longer ago than retain --
  // longer than any lives -- the answer is the one of the whole log.
  lemma LivingCredentialsSeeWholeLog(
    retain: nat, start: nat, steps: seq<Step>, full: Entries, maxAge: Time, name: string, iss: string, sub: string, issued: Time)
    requires IsFull(full, Exec(retain, start, steps).log) && issued >= Exec(retain, start, steps).clock - retain
    ensures var s := Exec(retain, start, steps);
      Checked(s.entries, s.heard, s.clock, maxAge, KeysOf(name, iss, sub), Some(issued))
        == Checked(full, s.heard, s.clock, maxAge, KeysOf(name, iss, sub), Some(issued))
  {
    hide Exec, KeysOf;
    RunKeeps(retain, start, steps);
    CheckIsExact(retain, start, steps, full, maxAge, KeysOf(name, iss, sub), Some(issued));
  }

  // And no earlier bound would do: an issue time is safe whatever was received
  // exactly from the cutoff on.
  lemma CutoffIsTheBound(cutoff: Time, issued: Time)
    requires cutoff > 1
    ensures issued >= cutoff <==> forall log, keys :: VoidedBy(Latest(log, keys), Some(issued)) ==> Latest(log, keys) >= cutoff
  {
    if issued < cutoff {
      var log := [Event(["acct:a"], if issued > 1 then issued else 1)];
      assert log[..0] == [] && LogMax(log, "acct:a") == log[0].at;
      assert Latest(log, ["acct:a"]) == log[0].at;
      assert VoidedBy(Latest(log, ["acct:a"]), Some(issued));
    }
  }

  function Forgetting(): (steps: seq<Step>) {
    [Receive(Event(["acct:a"], 5), Written), Wait(100), Receive(Event(["acct:b"], 100), Written), Heard]
  }

  // A credential whose issue time is not known is let in by forgetting: it is
  // refused, the revocation is pruned by another's, and it is good again, though
  // the whole log says it is void.
  lemma UnknownIssueTimeForgets(full: Entries)
    requires IsFull(full, Exec(10, 5, Forgetting()).log)
    ensures var s := Exec(10, 5, Forgetting());
      && Checked(s.entries, s.heard, s.clock, 60, KeysOf("a", "", ""), None) == Good
      && Checked(full, s.heard, s.clock, 60, KeysOf("a", "", ""), None) == Void
  {
    ForgettingReached();
    var s := Exec(10, 5, Forgetting());
    OnlyByName();
    hide KeysOf, Exec;
    assert s.log[..1] == [Event(["acct:a"], 5)] && s.log[..1][..0] == [];
    assert LogMax(s.log[..1], "acct:a") == 5 && LogMax(s.log, "acct:a") == 5;
    assert Voids(full, ["acct:a"][0], None);
  }

  lemma OnlyByName()
    ensures KeysOf("a", "", "") == ["acct:a"]
  {
    assert "a"[1..] == "" && AfterLastAt("") == None && AfterLastAt("a") == None;
    assert DomainOf("a") == "" && AccountKey("a") == "acct:a";
  }

  lemma FirstRevoked()
    ensures var s := Exec(10, 5, Forgetting()[..2]);
      s.log == [Event(["acct:a"], 5)] && s.entries == map["acct:a" := 5] && s.clock == 105
  {
    var steps := Forgetting();
    var s0 := Exec(10, 5, []);
    RevokedIs(s0.entries, ["acct:a"], 5);
    assert steps[..2][..1][..0] == [] && steps[..2][..1] == [steps[0]];
    var s1 := Next(10, s0, steps[0]);
    assert Exec(10, 5, steps[..2][..1]) == s1;
    assert forall k :: k in s1.entries ==> k == "acct:a";
    assert Get(s1.entries, "acct:a") == 5;
  }

  lemma ForgettingReached()
    ensures var s := Exec(10, 5, Forgetting());
      && s.log == [Event(["acct:a"], 5), Event(["acct:b"], 100)] && "acct:a" !in s.entries
      && s.heard == Some(105) && s.clock == 105
  {
    var steps := Forgetting();
    var s2 := Exec(10, 5, steps[..2]);
    var s3 := Next(10, s2, steps[2]);
    FirstRevoked();
    RevokedIs(s2.entries, ["acct:b"], 100);
    hide Exec;
    assert steps[..3][..2] == steps[..2] && steps[..3][2] == steps[2] && |steps[..3]| == 3;
    Onwards(steps[..3]);
    Onwards(steps);
    assert Exec(10, 5, steps) == Next(10, s3, steps[3]);
  }

  lemma Onwards(steps: seq<Step>)
    requires steps != []
    ensures Exec(10, 5, steps) == Next(10, Exec(10, 5, steps[..|steps| - 1]), steps[|steps| - 1])
  {
  }

  /********** What was acknowledged **********/

  // Whatever saves fail and however often the process starts again, a revocation
  // that was acknowledged voids every credential issued up to it, for as long as
  // one that old can still be valid.
  lemma AcknowledgedHolds(
    retain: nat, start: nat, steps: seq<Step>, e: Event, maxAge: Time, name: string, iss: string, sub: string, issued: Option<Time>)
    requires var s := Exec(retain, start, steps);
      && e in s.acked && e.at > 0 && e.at >= s.clock - retain
      && (exists i :: 0 <= i < |KeysOf(name, iss, sub)| && KeysOf(name, iss, sub)[i] in e.keys)
      && (issued.Some? ==> issued.value <= e.at)
    ensures var s := Exec(retain, start, steps);
      Checked(s.entries, s.heard, s.clock, maxAge, KeysOf(name, iss, sub), issued) != Good
  {
    hide Exec, KeysOf;
    RunKeeps(retain, start, steps);
    var s := Exec(retain, start, steps);
    var keys := KeysOf(name, iss, sub);
    var i :| 0 <= i < |keys| && keys[i] in e.keys;
    LogMaxIs(s.log, keys[i]);
    assert Voids(s.entries, keys[i], issued);
  }

  // And the store refuses nobody without an event that says so.
  lemma NothingInvented(retain: nat, start: nat, steps: seq<Step>, k: string)
    requires k in Exec(retain, start, steps).entries
    ensures Says(Exec(retain, start, steps).log, k, Exec(retain, start, steps).entries[k])
  {
    RunKeeps(retain, start, steps);
    LogMaxIs(Exec(retain, start, steps).log, k);
  }

  /********** Naming a person **********/

  // An account, a provider's subject and an institution are never the same key;
  // two provider subjects are, only when a space moves between issuer and subject.
  lemma KeysDoNotMeet(name: string, iss: string, sub: string, scope: string)
    ensures AccountKey(name) != IssSubKey(iss, sub) && AccountKey(name) != ScopeKey(scope) && IssSubKey(iss, sub) != ScopeKey(scope)
  {
    assert AccountKey(name)[0] == 'a' && IssSubKey(iss, sub)[0] == 'i' && ScopeKey(scope)[0] == 's';
  }

  // A space of an issuer and a subject written one after the other, with one
  // between them: not that one, and neither the first character nor the last.
  predicate InnerSpace(iss: string, sub: string, i: nat) {
    var s := iss + " " + sub;
    0 < i < |s| - 1 && i != |iss| && s[i] == ' '
  }

  lemma PartedAt(iss: string, sub: string, i: nat) returns (iss': string, sub': string)
    requires InnerSpace(iss, sub, i)
    ensures iss' != "" && sub' != "" && iss' != iss && IssSubKey(iss', sub') == IssSubKey(iss, sub)
  {
    var s := iss + " " + sub;
    iss', sub' := s[..i], s[i + 1..];
    assert s == iss' + " " + sub' && |iss'| != |iss|;
    KeyIs(iss, sub);
    KeyIs(iss', sub');
  }

  lemma KeyIs(iss: string, sub: string)
    ensures IssSubKey(iss, sub) == "iss_sub:" + (iss + " " + sub)
  {
  }

  lemma OtherParts(iss: string, sub: string, iss': string, sub': string)
    requires iss' != "" && sub' != "" && (iss' != iss || sub' != sub) && IssSubKey(iss', sub') == IssSubKey(iss, sub)
    ensures InnerSpace(iss, sub, |iss'|)
  {
    var s, k := iss + " " + sub, IssSubKey(iss', sub');
    assert k[8..] == iss' + " " + sub' && k[8..] == s;
    assert s[|iss'|] == ' ' && |s| == |iss'| + 1 + |sub'|;
    assert s[..|iss|] == iss && s[|iss| + 1..] == sub && s[..|iss'|] == iss' && s[|iss'| + 1..] == sub';
  }

  // Another provider's subject has the key of this one exactly when there is a
  // space to part the two at instead.
  lemma SameKeyExactly(iss: string, sub: string)
    requires iss != "" && sub != ""
    ensures (exists iss', sub' :: iss' != "" && sub' != "" && (iss' != iss || sub' != sub) && IssSubKey(iss', sub') == IssSubKey(iss, sub))
      <==> exists i :: InnerSpace(iss, sub, i)
  {
    hide InnerSpace, IssSubKey;
    if i :| InnerSpace(iss, sub, i) {
      var iss', sub' := PartedAt(iss, sub, i);
    }
    forall iss', sub' | iss' != "" && sub' != "" && (iss' != iss || sub' != sub) && IssSubKey(iss', sub') == IssSubKey(iss, sub)
      ensures InnerSpace(iss, sub, |iss'|)
    {
      OtherParts(iss, sub, iss', sub');
    }
  }

  // Issuers without spaces are never confused, whatever the subjects hold.
  lemma IssSubIsOne(iss: string, sub: string, iss': string, sub': string)
    requires ' ' !in iss && ' ' !in iss' && IssSubKey(iss, sub) == IssSubKey(iss', sub')
    ensures iss == iss' && sub == sub'
  {
    var k := IssSubKey(iss, sub);
    assert k[8..] == iss + " " + sub && k[8..] == iss' + " " + sub';
    SpaceSplits(iss, sub, iss', sub');
  }

  lemma SpaceSplits(a: string, x: string, b: string, y: string)
    requires ' ' !in a && ' ' !in b && a + " " + x == b + " " + y
    ensures a == b && x == y
  {
    var s := a + " " + x;
    assert s[|a|] == ' ' && s[|b|] == ' ';
    forall i | 0 <= i < |a| ensures s[i] != ' ' { assert s[i] == a[i]; }
    forall i | 0 <= i < |b| ensures s[i] != ' ' { assert s[i] == b[i]; }
    assert s[..|a|] == a && s[..|a|] == b && s[|a| + 1..] == x && s[|a| + 1..] == y;
  }

  // Two different subjects with one key.
  lemma SpacesMeet()
    ensures IssSubKey("a b", "c") == IssSubKey("a", "b c")
  {
  }
}
