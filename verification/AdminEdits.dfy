/** What each admin call does to the share it names, and which are refused. A
    grant is read as the API shows it: a subject and whether it may write. */
module AdminEdits {
  import opened Wrappers
  import opened Access
  import opened Admin
  import opened AdminRuns

  /********** Subjects and grants as they are asked for **********/

  // 1 to 256 characters, none of them a control character.
  ghost predicate Readable(v: string) {
    1 <= |v| <= 256 && forall i :: 0 <= i < |v| ==> v[i] as int >= 32 && v[i] as int != 127
  }

  // A user or a group has no space, and is not spelled as another kind.
  ghost predicate Acceptable(s: Subject) {
    match s
    case User(u) => Readable(u) && ' ' !in u && u[0] != '@' && !("oidc:" <= u)
    case Group(g) => Readable(g) && ' ' !in g && g[0] != '@'
    case OidcGroup(v) => Readable(v)
    case OidcUser(v) => Readable(v)
    case NoSubject => false
  }

  lemma AcceptedSubjects(s: Subject)
    ensures SubjectOf(s).Ok? <==> Acceptable(s)
    ensures SubjectOf(s).Err? ==> SubjectOf(s).error == Invalid
  {
    match s
    case User(u) => NotPrinted(u);
    case Group(g) => NotPrinted(g);
    case OidcGroup(v) => NotPrinted(v);
    case OidcUser(v) => NotPrinted(v);
    case NoSubject =>
  }

  lemma NotPrinted(v: string)
    ensures Unreadable(v) <==> !Readable(v)
  {
    if v != "" && |v| <= 256 && Unreadable(v) {
      var i :| 0 <= i < |v| && !Printable(v[i]);
      assert v[i] as int < 32 || v[i] as int == 127;
    }
  }

  ghost predicate Complete(q: GrantRequest) {
    Acceptable(q.subject) && !q.access.AskedNothing?
  }

  ghost predicate Holds(s: Share, subject: Subject, write: bool) {
    exists i :: 0 <= i < |s.grants| && SubjectView(s.grants[i].subject) == subject && s.grants[i].write == write
  }

  ghost predicate Different(asked: seq<GrantRequest>) {
    forall i, j :: 0 <= i < j < |asked| ==> asked[i].subject != asked[j].subject
  }

  ghost predicate NoneOf(asked: seq<GrantRequest>, out: seq<Grant>) {
    forall i, j :: 0 <= i < |asked| && 0 <= j < |out| ==> asked[i].subject != SubjectView(out[j].subject)
  }

  // A list of grants is taken exactly when each is complete and no two are to one
  // subject; and it is the list that was asked for.
  lemma {:induction false} GrantsTaken(out: seq<Grant>, asked: seq<GrantRequest>)
    requires AllSpelled(out)
    ensures var r := GrantsOnto(out, asked);
      && (r.Err? ==> r.error == Invalid)
      && (r.Ok? <==> (forall i :: 0 <= i < |asked| ==> Complete(asked[i])) && Different(asked) && NoneOf(asked, out))
      && (r.Ok? ==>
            && |r.value| == |out| + |asked| && r.value[..|out|] == out
            && forall i :: 0 <= i < |asked| ==> GrantView(r.value[|out| + i]) == asked[i])
    decreases |asked|
  {
    hide SubjectView, SubjectOf, Acceptable, Spelled, Different, NoneOf;
    if asked == [] {
      NoneAsked(out, asked);
    } else {
      AcceptedSubjects(asked[0].subject);
      if GrantOf(asked[0]).Ok? {
        var g := GrantOf(asked[0]).value;
        GrantRoundTrip(asked[0]);
        SpelledByRequest(asked[0]);
        SameSubject(out, g.subject);
        GrantsTaken(out + [g], asked[1..]);
        OneMore(out, g, asked);
      }
    }
  }

  lemma NoneAsked(out: seq<Grant>, asked: seq<GrantRequest>)
    requires asked == []
    ensures Different(asked) && NoneOf(asked, out)
  {
  }

  // The entries granted are apart exactly as the subjects they spell are.
  lemma SameSubject(out: seq<Grant>, subject: string)
    requires AllSpelled(out) && Spelled(subject)
    ensures Grants(out, subject) <==> exists j :: 0 <= j < |out| && SubjectView(out[j].subject) == SubjectView(subject)
  {
    hide SubjectView, SubjectOf;
    forall j | 0 <= j < |out| && SubjectView(out[j].subject) == SubjectView(subject) ensures out[j].subject == subject {
      assert Spelled(out[j].subject);
    }
  }

  lemma OneMore(out: seq<Grant>, g: Grant, asked: seq<GrantRequest>)
    requires asked != [] && GrantView(g) == asked[0]
    ensures Different(asked) && NoneOf(asked, out) <==>
      Different(asked[1..]) && NoneOf(asked[1..], out + [g]) && forall j :: 0 <= j < |out| ==> SubjectView(out[j].subject) != asked[0].subject
  {
    hide SubjectView;
    var rest, more := asked[1..], out + [g];
    if Different(asked) && NoneOf(asked, out) {
      forall i, j | 0 <= i < j < |rest| ensures rest[i].subject != rest[j].subject {
        assert asked[i + 1].subject != asked[j + 1].subject;
      }
      forall i, j | 0 <= i < |rest| && 0 <= j < |more| ensures rest[i].subject != SubjectView(more[j].subject) {
        if j < |out| { assert asked[i + 1].subject != SubjectView(out[j].subject); }
        else { assert asked[0].subject != asked[i + 1].subject; }
      }
    }
    if Different(rest) && NoneOf(rest, more) && forall j :: 0 <= j < |out| ==> SubjectView(out[j].subject) != asked[0].subject {
      forall i, j | 0 <= i < j < |asked| ensures asked[i].subject != asked[j].subject {
        if i == 0 { assert rest[j - 1].subject != SubjectView(more[|out|].subject); }
        else { assert rest[i - 1].subject != rest[j - 1].subject; }
      }
      forall i, j | 0 <= i < |asked| && 0 <= j < |out| ensures asked[i].subject != SubjectView(out[j].subject) {
        if i > 0 { assert rest[i - 1].subject != SubjectView(more[j].subject); }
      }
    }
  }

  /********** The calls **********/

  ghost predicate Named(st: State, name: string, i: nat) {
    i < |st.shares| && SameName(st.shares[i].name, name)
  }

  ghost predicate Nobodys(st: State, name: string) {
    forall i :: 0 <= i < |st.shares| ==> !SameName(st.shares[i].name, name)
  }

  lemma Disabled(before: State, after: State, name: string, off: bool, other: string)
    requires after.disabled == WithoutName(before.disabled, name) + if off then [name] else []
    ensures IsDisabled(after, other) <==> if SameName(name, other) then off else IsDisabled(before, other)
  {
    hide Lower;
    var kept := WithoutName(before.disabled, name);
    if IsDisabled(before, other) && !SameName(name, other) {
      var i :| 0 <= i < |before.disabled| && SameName(before.disabled[i], other);
      assert before.disabled[i] in kept;
      var j :| 0 <= j < |kept| && kept[j] == before.disabled[i];
      assert after.disabled[j] == kept[j];
    }
    if IsDisabled(after, other) {
      var j :| 0 <= j < |after.disabled| && SameName(after.disabled[j], other);
      if j < |kept| {
        assert kept[j] in before.disabled && !SameName(kept[j], name);
        var i :| 0 <= i < |before.disabled| && before.disabled[i] == kept[j];
      }
    }
    if off { assert after.disabled[|kept|] == name; }
  }

  // A share is made exactly when it is named, 1 to 1000 complete grants are asked
  // for, each to another subject and none to write what is read-only, and nothing
  // has the name. It comes last, with what was asked for and nothing else, and is
  // disabled as was asked whatever an earlier share of the name was.
  lemma CreateDoes(files: seq<string>, st: State, call: Call, other: string)
    requires call.Create?
    ensures var r := Edit(files, st, call);
      var valid := && call.name != "" && 1 <= |call.asked| <= 1000
        && (forall i :: 0 <= i < |call.asked| ==> Complete(call.asked[i])) && Different(call.asked)
        && !(call.readOnly && exists i :: 0 <= i < |call.asked| && call.asked[i].access.AskedWrite?);
      && (r == Err(Invalid) <==> !valid)
      && (r == Err(Exists) <==> valid && (FromFiles(files, call.name) || !Nobodys(st, call.name)))
      && (r.Err? ==> r.error.Invalid? || r.error.Exists?)
      && (r.Ok? ==>
            && |r.value.shares| == |st.shares| + 1 && r.value.shares[..|st.shares|] == st.shares
            && Made(r.value.shares[|st.shares|], call)
            && (IsDisabled(r.value, other) <==> if SameName(call.name, other) then call.off else IsDisabled(st, other)))
  {
    hide Lower, IsDisabled, FromFiles, GrantView, Complete, Different, Spelled;
    GrantsTaken([], call.asked);
    var read := GrantsOf(call.asked);
    if read.Ok? {
      WritesAsked(read.value, call.asked);
      var r := Edit(files, st, call);
      if r.Ok? { Disabled(st, r.value, call.name, call.off, other); }
    }
  }

  ghost predicate Made(s: Share, call: Call)
    requires call.Create?
  {
    && s.name == call.name && s.readOnly == call.readOnly && s.protocols == call.protocols && |s.grants| == |call.asked|
    && forall i :: 0 <= i < |call.asked| ==> GrantView(s.grants[i]) == call.asked[i]
  }

  lemma WritesAsked(grants: seq<Grant>, asked: seq<GrantRequest>)
    requires |grants| == |asked| && forall i :: 0 <= i < |asked| ==> GrantView(grants[i]) == asked[i]
    ensures AnyWrites(grants) <==> exists i :: 0 <= i < |asked| && asked[i].access.AskedWrite?
  {
    hide SubjectView;
    forall i | 0 <= i < |asked| ensures grants[i].write <==> asked[i].access.AskedWrite? {
      assert GrantView(grants[i]) == asked[i];
    }
    if AnyWrites(grants) {
      var i :| 0 <= i < |grants| && grants[i].write;
      assert asked[i].access.AskedWrite?;
    }
  }

  // An update sets what was asked for on the share named, and nothing else
  // anywhere; it is refused when nothing is asked for, for a share of the
  // configuration, for one there is not, and to make one read-only while somebody
  // may write it.
  lemma UpdateDoes(files: seq<string>, st: State, call: Call, i: nat)
    requires Inv(files, st) && call.Update?
    ensures var r := Edit(files, st, call);
      var valid := call.newReadOnly.Some? || call.newProtocols.Some?;
      && (r == Err(Invalid) <==> !valid)
      && (valid && Nobodys(st, call.name) ==> r == Err(if FromFiles(files, call.name) then Precondition else Missing))
      && (valid && Named(st, call.name, i) ==>
            var s := st.shares[i];
            if call.newReadOnly == Some(true) && exists n :: 0 <= n < |s.grants| && s.grants[n].write then r == Err(Precondition)
            else
              && r.Ok? && |r.value.shares| == |st.shares|
              && r.value.shares[i].readOnly == (if call.newReadOnly.Some? then call.newReadOnly.value else s.readOnly)
              && r.value.shares[i].protocols == (if call.newProtocols.Some? then call.newProtocols.value else s.protocols)
              && r.value.shares[i].name == s.name && r.value.shares[i].grants == s.grants
              && OnlyThat(st, r.value, i))
  {
    hide Lower;
    if Named(st, call.name, i) { OneOfAName(files, st, call.name, i); }
  }

  // The share at i may have changed; every other, and who is disabled, has not.
  ghost predicate OnlyThat(before: State, after: State, i: nat) {
    && |after.shares| == |before.shares| && after.disabled == before.disabled
    && forall j :: 0 <= j < |before.shares| && j != i ==> after.shares[j] == before.shares[j]
  }

  lemma OneOfAName(files: seq<string>, st: State, name: string, i: nat)
    requires Inv(files, st) && Named(st, name, i)
    ensures IndexOf(st.shares, name) == Some(i) && !FromFiles(files, name)
  {
  }

  // A delete takes out the share named; the others stay, in their order, and the
  // name is free and not disabled.
  lemma DeleteDoes(files: seq<string>, st: State, call: Call, i: nat, other: string)
    requires Inv(files, st) && call.Delete?
    ensures var r := Edit(files, st, call);
      && (Nobodys(st, call.name) ==> r == Err(if FromFiles(files, call.name) then Precondition else Missing))
      && (Named(st, call.name, i) ==>
            && r.Ok? && |r.value.shares| == |st.shares| - 1 && Nobodys(r.value, call.name)
            && (forall j :: 0 <= j < |r.value.shares| ==> r.value.shares[j] == st.shares[if j < i then j else j + 1])
            && (IsDisabled(r.value, other) <==> !SameName(call.name, other) && IsDisabled(st, other)))
  {
    hide Lower, IsDisabled;
    if Named(st, call.name, i) {
      OneOfAName(files, st, call.name, i);
      var t := Edit(files, st, call).value;
      Disabled(st, t, call.name, false, other);
      forall j | 0 <= j < |t.shares| ensures t.shares[j] == st.shares[if j < i then j else j + 1] && !SameName(t.shares[j].name, call.name) {
        if j < i { assert !SameName(st.shares[j].name, st.shares[i].name); }
        else { assert !SameName(st.shares[i].name, st.shares[j + 1].name); }
      }
    }
  }

  // A share is taken offline, or brought back, exactly when it is one and is not
  // so already.
  lemma DisableDoes(files: seq<string>, st: State, call: Call)
    requires call.SetDisabled?
    ensures var r := Edit(files, st, call);
      && (r == Err(Missing) <==> !FromFiles(files, call.name) && Nobodys(st, call.name))
      && (r == Err(Precondition) <==> r != Err(Missing) && (IsDisabled(st, call.name) <==> call.off))
      && (r.Err? ==> r.error.Missing? || r.error.Precondition?)
  {
  }

  // A grant gives its subject what was asked, instead of what it had, on the share
  // named; no other subject's grant, and no other share, changes. It is refused
  // when it is incomplete, for a share there is not or that the configuration has,
  // for writing what is read-only, and for one more than a thousand.
  lemma GrantDoes(files: seq<string>, st: State, call: Call, i: nat, subject: Subject, write: bool)
    requires Inv(files, st) && call.GrantCall?
    ensures var r := Edit(files, st, call);
      && (r == Err(Invalid) <==> !Complete(call.grant))
      && (Complete(call.grant) && Nobodys(st, call.name) ==> r == Err(if FromFiles(files, call.name) then Precondition else Missing))
      && (Complete(call.grant) && Named(st, call.name, i) ==>
            var s := st.shares[i];
            var writes := call.grant.access.AskedWrite?;
            var had := Holds(s, call.grant.subject, true) || Holds(s, call.grant.subject, false);
            if (writes && s.readOnly) || (!had && |s.grants| >= 1000) then r == Err(Precondition)
            else
              && r.Ok? && OnlyThat(st, r.value, i) && r.value.shares[i] == s.(grants := r.value.shares[i].grants)
              && (Holds(r.value.shares[i], subject, write) <==>
                    if subject == call.grant.subject then write == writes else Holds(s, subject, write)))
  {
    hide Lower, SubjectView, SubjectOf, FromFiles, Spelled, ShareOk, Acceptable;
    GrantsTaken([], [call.grant]);
    Alone(call.grant);
    if Complete(call.grant) && Named(st, call.name, i) {
      OneOfAName(files, st, call.name, i);
      ShareIn(files, st, i);
      var g := GrantsOf([call.grant]).value[0];
      SpelledByRequest(call.grant);
      assert GrantsOf([call.grant]).value == [g] && GrantView(g) == call.grant;
      GrantsOfKeeps([call.grant]);
      GrantOnShare(st.shares[i], g, subject, write);
    }
  }

  lemma Alone(q: GrantRequest)
    ensures Different([q]) && NoneOf([q], []) && ([q][0] == q) && (Complete(q) <==> forall i :: 0 <= i < |[q]| ==> Complete([q][i]))
  {
    assert [q][0] == q;
  }

  lemma GrantOnShare(s: Share, g: Grant, subject: Subject, write: bool)
    requires ShareOk(s) && Spelled(g.subject)
    ensures var r := GrantOn(s, g);
      var to := SubjectView(g.subject);
      && (r.Err? ==> r.error == Precondition)
      && (r.Err? <==> (g.write && s.readOnly) || (!Holds(s, to, true) && !Holds(s, to, false) && |s.grants| >= 1000))
      && (r.Ok? ==>
            && r.value == s.(grants := r.value.grants)
            && (Holds(r.value, subject, write) <==> if subject == to then write == g.write else Holds(s, subject, write)))
  {
    hide SubjectView, SubjectOf, Spelled, Distinct;
    SameSubject(s.grants, g.subject);
    var r := GrantOn(s, g);
    if Grants(s.grants, g.subject) {
      var n :| 0 <= n < |s.grants| && s.grants[n].subject == g.subject;
      assert Holds(s, SubjectView(g.subject), s.grants[n].write);
    }
    if r.Ok? {
      GrantOnKeeps(s, g);
      HoldsByGrant(s, subject, write);
      HoldsByGrant(r.value, subject, write);
      IsSpelled(g.subject);
      if SubjectOf(subject).Ok? { SubjectRoundTrip(subject); }
    }
  }

  lemma IsSpelled(subject: string)
    requires Spelled(subject)
    ensures SubjectOf(SubjectView(subject)) == Ok(subject)
  {
  }

  // Somebody holds a grant when the entry their subject is spelled as is granted.
  lemma HoldsByGrant(s: Share, subject: Subject, write: bool)
    requires ShareOk(s)
    ensures Holds(s, subject, write) <==> SubjectOf(subject).Ok? && Grant(SubjectOf(subject).value, write) in s.grants
  {
    hide SubjectView, SubjectOf;
    if Holds(s, subject, write) {
      var n :| 0 <= n < |s.grants| && SubjectView(s.grants[n].subject) == subject && s.grants[n].write == write;
      assert Spelled(s.grants[n].subject);
    }
    if SubjectOf(subject).Ok? && Grant(SubjectOf(subject).value, write) in s.grants {
      var n :| 0 <= n < |s.grants| && s.grants[n] == Grant(SubjectOf(subject).value, write);
      SubjectRoundTrip(subject);
    }
  }

  // A revocation takes the subject's grant off the share named, and no other's; it
  // is refused when the subject has none there, or when it is the last one.
  lemma RevokeDoes(files: seq<string>, st: State, call: Call, i: nat, subject: Subject, write: bool)
    requires Inv(files, st) && call.Revoke?
    ensures var r := Edit(files, st, call);
      && (r == Err(Invalid) <==> !Acceptable(call.subject))
      && (Acceptable(call.subject) && Nobodys(st, call.name) ==> r == Err(if FromFiles(files, call.name) then Precondition else Missing))
      && (Acceptable(call.subject) && Named(st, call.name, i) ==>
            var s := st.shares[i];
            if !Holds(s, call.subject, true) && !Holds(s, call.subject, false) then r == Err(Missing)
            else if |s.grants| == 1 then r == Err(Precondition)
            else
              && r.Ok? && OnlyThat(st, r.value, i) && r.value.shares[i] == s.(grants := r.value.shares[i].grants)
              && (Holds(r.value.shares[i], subject, write) <==> subject != call.subject && Holds(s, subject, write)))
  {
    hide Lower, SubjectView, SubjectOf, FromFiles, Spelled, ShareOk, Acceptable;
    AcceptedSubjects(call.subject);
    if Acceptable(call.subject) && Named(st, call.name, i) {
      OneOfAName(files, st, call.name, i);
      ShareIn(files, st, i);
      RevokeOnShare(st.shares[i], call.subject, subject, write);
    }
  }

  lemma RevokeOnShare(s: Share, from: Subject, subject: Subject, write: bool)
    requires ShareOk(s) && SubjectOf(from).Ok?
    ensures var r := RevokeOn(s, SubjectOf(from).value);
      if !Holds(s, from, true) && !Holds(s, from, false) then r == Err(Missing)
      else if |s.grants| == 1 then r == Err(Precondition)
      else
        && r.Ok? && r.value == s.(grants := r.value.grants)
        && (Holds(r.value, subject, write) <==> subject != from && Holds(s, subject, write))
  {
    hide SubjectView, SubjectOf, Spelled;
    var spelled := SubjectOf(from).value;
    var r := RevokeOn(s, spelled);
    HoldsByGrant(s, from, true);
    HoldsByGrant(s, from, false);
    if Grants(s.grants, spelled) {
      var n :| 0 <= n < |s.grants| && s.grants[n].subject == spelled;
      assert s.grants[n] == Grant(spelled, s.grants[n].write);
    }
    if r.Ok? {
      RevokeOnKeeps(s, spelled);
      HoldsByGrant(s, subject, write);
      HoldsByGrant(r.value, subject, write);
      if SubjectOf(subject).Ok? {
        SubjectRoundTrip(subject);
        SubjectRoundTrip(from);
      }
    }
  }
}
