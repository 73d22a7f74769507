/** What every run of admin calls keeps, and what a share's grants come to. */
module AdminRuns {
  import opened Wrappers
  import opened Access
  import opened Admin

  /********** Subjects round trip **********/

  // A subject that is accepted reads back as it was given; so no two subjects
  // are spelled alike, and none is read as another kind.
  lemma SubjectRoundTrip(s: Subject)
    requires SubjectOf(s).Ok?
    ensures SubjectView(SubjectOf(s).value) == s
  {
    var t := SubjectOf(s).value;
    match s
    case User(u) =>
      assert !("oidc:" <= u) ==> !("oidc:groups:" <= u) && !("oidc:user:" <= u);
    case Group(g) => assert t[1..] == g;
    case OidcGroup(v) =>
      assert t[..12] == "oidc:groups:" && t[12..] == v;
      assert t[0] == 'o' && !IsGroup(t);
    case OidcUser(v) =>
      assert t[..10] == "oidc:user:" && t[10..] == v;
      assert t[5] == 'u' && "oidc:groups:"[5] == 'g';
      assert !HasPrefix(t, "oidc:groups:");
      assert t[0] == 'o' && !IsGroup(t);
  }

  lemma GrantRoundTrip(q: GrantRequest)
    requires GrantOf(q).Ok?
    ensures GrantView(GrantOf(q).value) == q
  {
    SubjectRoundTrip(q.subject);
  }

  lemma DistinctSubjects(a: Subject, b: Subject)
    requires SubjectOf(a).Ok? && SubjectOf(b).Ok? && a != b
    ensures SubjectOf(a).value != SubjectOf(b).value
  {
    SubjectRoundTrip(a);
    SubjectRoundTrip(b);
  }

  /********** The invariant **********/

  // An entry the API could have written: one of its four kinds, accepted.
  ghost predicate Spelled(subject: string) {
    SubjectOf(SubjectView(subject)) == Ok(subject)
  }

  lemma SpelledByRequest(q: GrantRequest)
    requires GrantOf(q).Ok?
    ensures Spelled(GrantOf(q).value.subject)
  {
    SubjectRoundTrip(q.subject);
  }

  ghost predicate Distinct(grants: seq<Grant>) {
    forall i, j :: 0 <= i < j < |grants| ==> grants[i].subject != grants[j].subject
  }

  ghost predicate AllSpelled(grants: seq<Grant>) {
    forall i :: 0 <= i < |grants| ==> Spelled(grants[i].subject)
  }

  ghost predicate ShareOk(s: Share) {
    && 1 <= |s.grants| <= MAX_GRANTS && Distinct(s.grants) && AllSpelled(s.grants)
    && (s.readOnly ==> !AnyWrites(s.grants)) && s.name != ""
  }

  ghost predicate Inv(files: seq<string>, st: State) {
    && (forall i :: 0 <= i < |st.shares| ==> ShareOk(st.shares[i]) && !FromFiles(files, st.shares[i].name))
    && (forall i, j :: 0 <= i < j < |st.shares| ==> !SameName(st.shares[i].name, st.shares[j].name))
  }

  lemma {:induction false} GrantsOntoKeeps(out: seq<Grant>, asked: seq<GrantRequest>)
    requires Distinct(out) && AllSpelled(out) && GrantsOnto(out, asked).Ok?
    ensures var grants := GrantsOnto(out, asked).value; Distinct(grants) && AllSpelled(grants) && |grants| == |out| + |asked|
    decreases |asked|
  {
    if asked != [] {
      var g := GrantOf(asked[0]).value;
      SpelledByRequest(asked[0]);
      GrantsOntoKeeps(out + [g], asked[1..]);
    }
  }

  lemma GrantsOfKeeps(asked: seq<GrantRequest>)
    requires GrantsOf(asked).Ok?
    ensures var grants := GrantsOf(asked).value; Distinct(grants) && AllSpelled(grants) && |grants| == |asked| <= MAX_GRANTS
  {
    GrantsOntoKeeps([], asked);
  }

  // A grant is added, or replaces the subject's one; every other stays.
  lemma GrantOnKeeps(s: Share, g: Grant)
    requires ShareOk(s) && Spelled(g.subject) && GrantOn(s, g).Ok?
    ensures var t := GrantOn(s, g).value;
      && ShareOk(t) && t == s.(grants := t.grants)
      && (forall h :: h in t.grants <==> h == g || (h in s.grants && h.subject != g.subject))
  {
    var t := GrantOn(s, g).value;
    var i := GrantIndex(s.grants, g.subject);
    if i.Some? {
      assert t.grants[i.value] == g;
      forall h | h in s.grants && h.subject != g.subject ensures h in t.grants {
        var n :| 0 <= n < |s.grants| && s.grants[n] == h;
        assert t.grants[n] == h;
      }
    } else {
      assert t.grants[|s.grants|] == g;
      forall h | h in s.grants ensures h.subject != g.subject {
        var n :| 0 <= n < |s.grants| && s.grants[n] == h;
      }
    }
  }

  lemma RevokeOnKeeps(s: Share, subject: string)
    requires ShareOk(s) && RevokeOn(s, subject).Ok?
    ensures var t := RevokeOn(s, subject).value;
      && ShareOk(t) && t == s.(grants := t.grants) && !Grants(t.grants, subject)
      && (forall h :: h in t.grants <==> h in s.grants && h.subject != subject)
  {
    hide Spelled;
    var t := RevokeOn(s, subject).value;
    var i := GrantIndex(s.grants, subject).value;
    forall n | 0 <= n < |t.grants| ensures t.grants[n] == s.grants[if n < i then n else n + 1] {
    }
    forall h | h in s.grants && h.subject != subject ensures h in t.grants {
      var n :| 0 <= n < |s.grants| && s.grants[n] == h;
      assert t.grants[if n < i then n else n - 1] == h;
    }
  }

  lemma UpdateOnKeeps(s: Share, readOnly: Option<bool>, protocols: Option<seq<string>>)
    requires ShareOk(s) && UpdateOn(s, readOnly, protocols).Ok?
    ensures ShareOk(UpdateOn(s, readOnly, protocols).value)
  {
  }

  // An edit leaves the names as they were, but for one added or taken out.
  lemma ReplacedKeeps(files: seq<string>, st: State, i: nat, s: Share)
    requires Inv(files, st) && i < |st.shares| && ShareOk(s) && s.name == st.shares[i].name
    ensures Inv(files, st.(shares := st.shares[i := s]))
  {
  }

  lemma CreateKeeps(files: seq<string>, st: State, call: Call)
    requires Inv(files, st) && call.Create? && Edit(files, st, call).Ok?
    ensures Inv(files, Edit(files, st, call).value)
  {
    GrantsOfKeeps(call.asked);
  }

  lemma DeleteKeeps(files: seq<string>, st: State, i: nat, disabled: seq<string>)
    requires Inv(files, st) && i < |st.shares|
    ensures Inv(files, State(st.shares[..i] + st.shares[i + 1..], disabled))
  {
    var rest := st.shares[..i] + st.shares[i + 1..];
    forall n | 0 <= n < |rest| ensures rest[n] == st.shares[if n < i then n else n + 1] {
    }
  }

  lemma EditKeeps(files: seq<string>, st: State, call: Call)
    requires Inv(files, st) && Edit(files, st, call).Ok?
    ensures Inv(files, Edit(files, st, call).value)
  {
    hide Inv, ShareOk;
    match call
    case Create(_, _, _, _, _) => CreateKeeps(files, st, call);
    case Update(name, readOnly, protocols) =>
      var i := Managed(files, st, name).value;
      ShareIn(files, st, i);
      UpdateOnKeeps(st.shares[i], readOnly, protocols);
      ReplacedKeeps(files, st, i, UpdateOn(st.shares[i], readOnly, protocols).value);
    case Delete(name) => DeleteKeeps(files, st, Managed(files, st, name).value, WithoutName(st.disabled, name));
    case SetDisabled(_, _) => OnlyShares(files, st, Edit(files, st, call).value.disabled);
    case GrantCall(name, q) =>
      var i := Managed(files, st, name).value;
      var g := GrantsOf([q]).value[0];
      GrantsOfKeeps([q]);
      ShareIn(files, st, i);
      GrantOnKeeps(st.shares[i], g);
      ReplacedKeeps(files, st, i, GrantOn(st.shares[i], g).value);
    case Revoke(name, subject) =>
      var i := Managed(files, st, name).value;
      ShareIn(files, st, i);
      RevokeOnKeeps(st.shares[i], SubjectOf(subject).value);
      ReplacedKeeps(files, st, i, RevokeOn(st.shares[i], SubjectOf(subject).value).value);
  }

  lemma ShareIn(files: seq<string>, st: State, i: nat)
    requires Inv(files, st) && i < |st.shares|
    ensures ShareOk(st.shares[i])
  {
  }

  lemma OnlyShares(files: seq<string>, st: State, disabled: seq<string>)
    requires Inv(files, st)
    ensures Inv(files, st.(disabled := disabled))
  {
  }

  // What is asked, and whether the server could serve the result.
  datatype Step = Step(call: Call, served: bool)

  // From what the state file held at the start.
  function Exec(files: seq<string>, start: State, steps: seq<Step>): State
    decreases |steps|
  {
    if steps == [] then start
    else
      var last := steps[|steps| - 1];
      Change(files, Exec(files, start, steps[..|steps| - 1]), last.call, last.served)
  }

  lemma {:induction false} RunKeeps(files: seq<string>, start: State, steps: seq<Step>)
    requires Inv(files, start)
    ensures Inv(files, Exec(files, start, steps))
    decreases |steps|
  {
    hide Edit;
    if steps != [] {
      var st := Exec(files, start, steps[..|steps| - 1]);
      RunKeeps(files, start, steps[..|steps| - 1]);
      if Edit(files, st, steps[|steps| - 1].call).Ok? { EditKeeps(files, st, steps[|steps| - 1].call); }
    }
  }

  /********** Starts and restarts **********/

  // One life of the server: what the configuration files named, and the calls.
  datatype Session = Session(files: seq<string>, steps: seq<Step>)

  // What a start checks of the state file: no name is defined twice.
  ghost predicate Starts(files: seq<string>, st: State) {
    forall i :: 0 <= i < |st.shares| ==> !FromFiles(files, st.shares[i].name)
  }

  // The state file after some lives, under whatever configuration each began; a
  // start that is refused leaves it.
  ghost function Lived(earlier: seq<Session>): State
    decreases |earlier|
  {
    if earlier == [] then State([], [])
    else
      var st := Lived(earlier[..|earlier| - 1]);
      var last := earlier[|earlier| - 1];
      if Starts(last.files, st) then Exec(last.files, st, last.steps) else st
  }

  lemma {:induction false} LivedKeeps(earlier: seq<Session>)
    ensures Inv([], Lived(earlier))
    decreases |earlier|
  {
    hide ShareOk;
    if earlier != [] {
      var last := earlier[|earlier| - 1];
      var st := Lived(earlier[..|earlier| - 1]);
      LivedKeeps(earlier[..|earlier| - 1]);
      if Starts(last.files, st) { RunKeeps(last.files, st, last.steps); }
    }
  }

  // The shares after earlier lives, a start, and these calls.
  ghost function After(earlier: seq<Session>, files: seq<string>, steps: seq<Step>): State {
    Exec(files, Lived(earlier), steps)
  }

  lemma AfterKeeps(earlier: seq<Session>, files: seq<string>, steps: seq<Step>)
    requires Starts(files, Lived(earlier))
    ensures Inv(files, After(earlier, files, steps))
  {
    hide ShareOk;
    LivedKeeps(earlier);
    RunKeeps(files, Lived(earlier), steps);
  }

  // After every run of calls, served or refused, whatever earlier lives left in
  // the state file, every API share has from one to a thousand grants, each to
  // another subject, none that writes when the share is read-only; and names are
  // its own.
  lemma SharesStayGranted(earlier: seq<Session>, files: seq<string>, steps: seq<Step>, i: nat)
    requires Starts(files, Lived(earlier)) && i < |After(earlier, files, steps).shares|
    ensures var st := After(earlier, files, steps);
      var s := st.shares[i];
      && 1 <= |s.grants| <= 1000
      && (forall m, n :: 0 <= m < |s.grants| && 0 <= n < |s.grants| && m != n ==> s.grants[m].subject != s.grants[n].subject)
      && (s.readOnly ==> forall n :: 0 <= n < |s.grants| ==> !s.grants[n].write)
      && !FromFiles(files, s.name)
      && (forall j :: 0 <= j < |st.shares| && j != i ==> !SameName(st.shares[j].name, s.name))
  {
    hide After, Lived;
    AfterKeeps(earlier, files, steps);
    var st := After(earlier, files, steps);
    assert ShareOk(st.shares[i]);
    forall j | 0 <= j < |st.shares| && j != i ensures !SameName(st.shares[j].name, st.shares[i].name) {
      if j < i { assert !SameName(st.shares[j].name, st.shares[i].name); }
      else { assert !SameName(st.shares[i].name, st.shares[j].name); }
    }
  }

  /********** Grants against access **********/

  // One grant, read as it says: this user, somebody of this group, somebody the
  // provider says is in this group, the provider's user of this name.
  predicate GrantCovers(dir: Directory, subject: Subject, p: Principal) {
    match subject
    case User(u) => ByName(p) && p.name == u
    case Group(g) => ByName(p) && "@" + g in dir.groups && p.name in dir.groups["@" + g]
    case OidcGroup(v) => p.federated && v in p.groups
    case OidcUser(u) => p.federated && p.name == u
    case NoSubject => false
  }

  predicate Granted(dir: Directory, grants: seq<Grant>, p: Principal) {
    exists i :: 0 <= i < |grants| && GrantCovers(dir, SubjectView(grants[i].subject), p)
  }

  predicate GrantedWrite(dir: Directory, grants: seq<Grant>, p: Principal) {
    exists i :: 0 <= i < |grants| && grants[i].write && GrantCovers(dir, SubjectView(grants[i].subject), p)
  }

  lemma RuleSpelled(kind: string, v: string)
    requires (kind == "groups" || kind == "user") && v != ""
    ensures RuleOf("oidc:" + kind + ":" + v) == Some(ClaimRule(kind, v))
  {
    var s := "oidc:" + kind + ":" + v;
    assert s[5..] == kind + ":" + v;
    CutAt(kind, v);
  }

  // An entry covers exactly whom the subject it spells means.
  lemma CoversAsGranted(dir: Directory, entry: string, p: Principal)
    requires Spelled(entry)
    ensures Covers(dir, entry, p) <==> GrantCovers(dir, SubjectView(entry), p)
    ensures IsRule(entry) ==> RuleOf(entry).Some?
  {
    hide CutColon, Domain, Lower;
    match SubjectView(entry)
    case User(u) =>
    case Group(g) => assert entry == "@" + g;
    case OidcGroup(v) =>
      RuleSpelled("groups", v);
      assert entry == "oidc:" + "groups" + ":" + v;
    case OidcUser(v) =>
      RuleSpelled("user", v);
      assert entry == "oidc:" + "user" + ":" + v;
  }

  lemma {:induction false} WritersAre(grants: seq<Grant>)
    ensures forall s :: s in Writers(grants) <==> exists i :: 0 <= i < |grants| && grants[i].write && grants[i].subject == s
    ensures Writers(grants) == [] <==> !AnyWrites(grants)
  {
    if grants != [] {
      WritersAre(grants[1..]);
      assert grants == [grants[0]] + grants[1..];
      if AnyWrites(grants[1..]) {
        var i :| 0 <= i < |grants[1..]| && grants[1..][i].write;
        assert grants[i + 1].write;
      }
      forall s | s in Writers(grants[1..]) ensures exists i :: 0 <= i < |grants| && grants[i].write && grants[i].subject == s {
        var i :| 0 <= i < |grants[1..]| && grants[1..][i].write && grants[1..][i].subject == s;
        assert grants[i + 1].write && grants[i + 1].subject == s;
      }
      forall i | 0 <= i < |grants| && grants[i].write ensures grants[i].subject in Writers(grants) {
        if i > 0 { assert grants[1..][i - 1] == grants[i]; }
      }
    }
  }

  lemma {:induction false} AllSplit(list: seq<string>)
    requires forall i :: 0 <= i < |list| ==> Spelled(list[i])
    ensures SplitRules(list).Some?
  {
    if list != [] {
      CoversAsGranted(Directory(map[], {}), list[0], Principal("", false, [], false));
      AllSplit(list[1..]);
    }
  }

  lemma AllowedAsGranted(dir: Directory, grants: seq<Grant>, p: Principal)
    requires AllSpelled(grants)
    ensures CoveredBy(dir, Subjects(grants), p) <==> Granted(dir, grants, p)
    ensures CoveredBy(dir, Writers(grants), p) <==> GrantedWrite(dir, grants, p)
  {
    forall i | 0 <= i < |grants| ensures Covers(dir, grants[i].subject, p) <==> GrantCovers(dir, SubjectView(grants[i].subject), p) {
      CoversAsGranted(dir, grants[i].subject, p);
    }
    if Granted(dir, grants, p) {
      var i :| 0 <= i < |grants| && GrantCovers(dir, SubjectView(grants[i].subject), p);
      assert Covers(dir, Subjects(grants)[i], p);
    }
    WritersAre(grants);
    if GrantedWrite(dir, grants, p) {
      var i :| 0 <= i < |grants| && grants[i].write && GrantCovers(dir, SubjectView(grants[i].subject), p);
      assert grants[i].subject in Writers(grants);
    }
    if CoveredBy(dir, Writers(grants), p) {
      var n :| 0 <= n < |Writers(grants)| && Covers(dir, Writers(grants)[n], p);
      assert Writers(grants)[n] in Writers(grants);
    }
  }

  // After every run, a share opened from its block is used by exactly whom it
  // grants, and written by exactly whom it grants write when the image could be
  // opened for writing -- also when a group among them expands to nobody.
  lemma AccessIsGrants(earlier: seq<Session>, files: seq<string>, steps: seq<Step>, i: nat, dir: Directory, forced: bool, p: Principal)
    requires Starts(files, Lived(earlier)) && i < |After(earlier, files, steps).shares|
    requires RulesOf(dir, BlockOf(After(earlier, files, steps).shares[i]), forced).Some?
    ensures var s := After(earlier, files, steps).shares[i];
      var r := RulesOf(dir, BlockOf(s), forced).value;
      && (MayUse(r, p) <==> Granted(dir, s.grants, p))
      && (!ReadOnlyFor(r, p) <==> !forced && GrantedWrite(dir, s.grants, p))
  {
    hide After, Lived;
    AfterKeeps(earlier, files, steps);
    var s := After(earlier, files, steps).shares[i];
    assert ShareOk(s);
    ShareAccess(s, dir, forced, p);
  }

  lemma ShareAccess(s: Share, dir: Directory, forced: bool, p: Principal)
    requires ShareOk(s) && RulesOf(dir, BlockOf(s), forced).Some?
    ensures var r := RulesOf(dir, BlockOf(s), forced).value;
      && (MayUse(r, p) <==> Granted(dir, s.grants, p))
      && (!ReadOnlyFor(r, p) <==> !forced && GrantedWrite(dir, s.grants, p))
  {
    RulesMean(dir, BlockOf(s), forced, p);
    AllowedAsGranted(dir, s.grants, p);
    WritersAre(s.grants);
  }

  // Its rules are refused only by an outage of the directory.
  lemma OnlyOutagesRefuse(s: Share, dir: Directory, forced: bool)
    requires ShareOk(s) && dir.down == {}
    ensures RulesOf(dir, BlockOf(s), forced).Some?
  {
    WritersAre(s.grants);
    forall n | 0 <= n < |Writers(s.grants)| ensures Spelled(Writers(s.grants)[n]) {
      assert Writers(s.grants)[n] in Writers(s.grants);
    }
    AllSplit(Subjects(s.grants));
    AllSplit(Writers(s.grants));
    ExpandsWhenUp(dir, SplitRules(Subjects(s.grants)).value.0);
    ExpandsWhenUp(dir, SplitRules(Writers(s.grants)).value.0);
  }

  lemma {:induction false} ExpandsWhenUp(dir: Directory, names: seq<string>)
    requires dir.down == {}
    ensures TolerantExpand(dir, names).Some?
  {
    if names != [] { ExpandsWhenUp(dir, names[1..]); }
  }

  // A call takes offline, or brings back, exactly the share it names.
  lemma DisablesExactly(files: seq<string>, st: State, name: string, off: bool, other: string)
    requires Edit(files, st, SetDisabled(name, off)).Ok?
    ensures var st' := Edit(files, st, SetDisabled(name, off)).value;
      && st'.shares == st.shares
      && (IsDisabled(st', other) <==> if SameName(name, other) then off else IsDisabled(st, other))
  {
    var st' := Edit(files, st, SetDisabled(name, off)).value;
    forall x | x in st.disabled ensures exists i :: 0 <= i < |st.disabled| && st.disabled[i] == x {
    }
    if IsDisabled(st, other) && !SameName(name, other) {
      var i :| 0 <= i < |st.disabled| && SameName(st.disabled[i], other);
      assert st.disabled[i] in st'.disabled;
      var j :| 0 <= j < |st'.disabled| && st'.disabled[j] == st.disabled[i];
    }
    if IsDisabled(st', other) && !SameName(name, other) {
      var j :| 0 <= j < |st'.disabled| && SameName(st'.disabled[j], other);
      assert st'.disabled[j] in st.disabled;
    }
    if off && SameName(name, other) { assert st'.disabled[|st.disabled|] == name; }
    if !off && SameName(name, other) {
      forall j | 0 <= j < |st'.disabled| ensures !SameName(st'.disabled[j], other) {
        assert st'.disabled[j] in st'.disabled;
      }
    }
  }
}
