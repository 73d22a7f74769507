/** The admin API's edits of a state: shares made by the API, who is granted
    what on them, and which shares are taken offline. */
module Admin {
  import opened Wrappers
  import opened Access

  datatype Refusal = Invalid | Missing | Exists | Precondition

  datatype Subject = User(user: string) | Group(group: string) | OidcGroup(oidcGroup: string) | OidcUser(oidcUser: string) | NoSubject

  datatype Asked = AskedRead | AskedWrite | AskedNothing

  datatype GrantRequest = GrantRequest(subject: Subject, access: Asked)

  datatype Grant = Grant(subject: string, write: bool)

  const MAX_GRANTS := 1000

  /********** Subjects **********/

  predicate Printable(c: char) {
    c >= ' ' && c as int != 0x7F
  }

  predicate Unreadable(v: string) {
    v == "" || |v| > 256 || exists i :: 0 <= i < |v| && !Printable(v[i])
  }

  predicate Bad(v: string) {
    Unreadable(v) || ' ' in v
  }

  // Spelled the way the configuration spells it.
  function SubjectOf(s: Subject): Result<string, Refusal> {
    match s
    case User(u) => if Bad(u) || IsGroup(u) || IsRule(u) then Err(Invalid) else Ok(u)
    case Group(g) => if Bad(g) || IsGroup(g) then Err(Invalid) else Ok("@" + g)
    case OidcGroup(v) => if Unreadable(v) then Err(Invalid) else Ok("oidc:groups:" + v)
    case OidcUser(v) => if Unreadable(v) then Err(Invalid) else Ok("oidc:user:" + v)
    case NoSubject => Err(Invalid)
  }

  // And back, for a caller to be shown.
  function SubjectView(spelled: string): Subject {
    if IsGroup(spelled) then Group(TrimPrefix(spelled, "@"))
    else if HasPrefix(spelled, "oidc:groups:") then OidcGroup(TrimPrefix(spelled, "oidc:groups:"))
    else if HasPrefix(spelled, "oidc:user:") then OidcUser(TrimPrefix(spelled, "oidc:user:"))
    else User(spelled)
  }

  function GrantView(g: Grant): GrantRequest {
    GrantRequest(SubjectView(g.subject), if g.write then AskedWrite else AskedRead)
  }

  function GrantOf(q: GrantRequest): Result<Grant, Refusal> {
    match SubjectOf(q.subject)
    case Err(e) => Err(e)
    case Ok(subject) => if q.access.AskedNothing? then Err(Invalid) else Ok(Grant(subject, q.access.AskedWrite?))
  }

  predicate Grants(grants: seq<Grant>, subject: string) {
    exists i :: 0 <= i < |grants| && grants[i].subject == subject
  }

  predicate AnyWrites(grants: seq<Grant>) {
    exists i :: 0 <= i < |grants| && grants[i].write
  }

  // Grants read one after another onto `out`, each subject once.
  function GrantsOnto(out: seq<Grant>, asked: seq<GrantRequest>): Result<seq<Grant>, Refusal>
    decreases |asked|
  {
    if asked == [] then Ok(out)
    else match GrantOf(asked[0])
      case Err(e) => Err(e)
      case Ok(g) => if Grants(out, g.subject) then Err(Invalid) else GrantsOnto(out + [g], asked[1..])
  }

  function GrantsOf(asked: seq<GrantRequest>): Result<seq<Grant>, Refusal> {
    if |asked| > MAX_GRANTS then Err(Invalid) else GrantsOnto([], asked)
  }

  /********** Shares **********/

  datatype Share = Share(name: string, readOnly: bool, protocols: seq<string>, grants: seq<Grant>)

  datatype State = State(shares: seq<Share>, disabled: seq<string>)

  function Subjects(grants: seq<Grant>): seq<string> {
    seq(|grants|, i requires 0 <= i < |grants| => grants[i].subject)
  }

  function Writers(grants: seq<Grant>): seq<string> {
    if grants == [] then [] else (if grants[0].write then [grants[0].subject] else []) + Writers(grants[1..])
  }

  // The block a share is: everybody granted is allowed, the writers are the ones
  // granted write, and when nobody is the share is read-only.
  function BlockOf(s: Share): Lists {
    Lists(Subjects(s.grants), Writers(s.grants), s.readOnly, Writers(s.grants) == [])
  }

  function IndexOf(shares: seq<Share>, name: string): (i: Option<nat>)
    ensures i.Some? ==> i.value < |shares| && SameName(shares[i.value].name, name)
    ensures i.Some? ==> forall j :: 0 <= j < i.value ==> !SameName(shares[j].name, name)
    ensures i.None? ==> forall j :: 0 <= j < |shares| ==> !SameName(shares[j].name, name)
  {
    if shares == [] then None
    else if SameName(shares[0].name, name) then Some(0)
    else match IndexOf(shares[1..], name) case None => None case Some(i) => Some(i + 1)
  }

  function GrantIndex(grants: seq<Grant>, subject: string): (i: Option<nat>)
    ensures i.Some? ==> i.value < |grants| && grants[i.value].subject == subject
    ensures i.None? ==> !Grants(grants, subject)
  {
    if grants == [] then None
    else if grants[0].subject == subject then Some(0)
    else match GrantIndex(grants[1..], subject) case None => None case Some(i) => Some(i + 1)
  }

  predicate IsDisabled(st: State, name: string) {
    exists i :: 0 <= i < |st.disabled| && SameName(st.disabled[i], name)
  }

  function WithoutName(list: seq<string>, name: string): (rest: seq<string>)
    ensures forall x :: x in rest <==> x in list && !SameName(x, name)
  {
    if list == [] then [] else (if SameName(list[0], name) then [] else [list[0]]) + WithoutName(list[1..], name)
  }

  /********** The edits of one share **********/

  function GrantOn(s: Share, g: Grant): Result<Share, Refusal> {
    if g.write && s.readOnly then Err(Precondition)
    else match GrantIndex(s.grants, g.subject)
      case Some(i) => Ok(s.(grants := s.grants[i := g]))
      case None => if |s.grants| >= MAX_GRANTS then Err(Precondition) else Ok(s.(grants := s.grants + [g]))
  }

  function RevokeOn(s: Share, subject: string): Result<Share, Refusal> {
    match GrantIndex(s.grants, subject)
    case None => Err(Missing)
    case Some(i) => if |s.grants| == 1 then Err(Precondition) else Ok(s.(grants := s.grants[..i] + s.grants[i + 1..]))
  }

  function UpdateOn(s: Share, readOnly: Option<bool>, protocols: Option<seq<string>>): Result<Share, Refusal> {
    if readOnly == Some(true) && AnyWrites(s.grants) then Err(Precondition)
    else Ok(s.(readOnly := if readOnly.Some? then readOnly.value else s.readOnly,
               protocols := if protocols.Some? then protocols.value else s.protocols))
  }

  /********** The edits of a state **********/

  datatype Call =
    | Create(name: string, readOnly: bool, protocols: seq<string>, asked: seq<GrantRequest>, off: bool)
    | Update(name: string, newReadOnly: Option<bool>, newProtocols: Option<seq<string>>)
    | Delete(name: string)
    | SetDisabled(name: string, off: bool)
    | GrantCall(name: string, grant: GrantRequest)
    | Revoke(name: string, subject: Subject)

  predicate FromFiles(files: seq<string>, name: string) {
    exists i :: 0 <= i < |files| && SameName(files[i], name)
  }

  // Where an API share is, or why it is not changed here.
  function Managed(files: seq<string>, st: State, name: string): Result<nat, Refusal> {
    if FromFiles(files, name) then Err(Precondition)
    else match IndexOf(st.shares, name) case None => Err(Missing) case Some(i) => Ok(i)
  }

  function Edited(st: State, i: nat, s: Result<Share, Refusal>): Result<State, Refusal>
    requires i < |st.shares|
  {
    match s case Err(e) => Err(e) case Ok(share) => Ok(st.(shares := st.shares[i := share]))
  }

  // What a call makes of a state, or its refusal.
  function Edit(files: seq<string>, st: State, call: Call): Result<State, Refusal> {
    match call
    case Create(name, readOnly, protocols, asked, off) =>
      if name == "" then Err(Invalid)
      else (match GrantsOf(asked)
        case Err(e) => Err(e)
        case Ok(grants) =>
          if grants == [] || (readOnly && AnyWrites(grants)) then Err(Invalid)
          else if FromFiles(files, name) || IndexOf(st.shares, name).Some? then Err(Exists)
          else Ok(State(st.shares + [Share(name, readOnly, protocols, grants)],
                        WithoutName(st.disabled, name) + (if off then [name] else []))))
    case Update(name, readOnly, protocols) =>
      if readOnly.None? && protocols.None? then Err(Invalid)
      else (match Managed(files, st, name)
        case Err(e) => Err(e)
        case Ok(i) => Edited(st, i, UpdateOn(st.shares[i], readOnly, protocols)))
    case Delete(name) =>
      (match Managed(files, st, name)
       case Err(e) => Err(e)
       case Ok(i) => Ok(State(st.shares[..i] + st.shares[i + 1..], WithoutName(st.disabled, name))))
    case SetDisabled(name, off) =>
      if !FromFiles(files, name) && IndexOf(st.shares, name).None? then Err(Missing)
      else if IsDisabled(st, name) == off then Err(Precondition)
      else Ok(st.(disabled := if off then st.disabled + [name] else WithoutName(st.disabled, name)))
    case GrantCall(name, q) =>
      (match GrantsOf([q])
       case Err(e) => Err(e)
       case Ok(grants) =>
         if grants == [] then Err(Invalid)
         else match Managed(files, st, name)
           case Err(e) => Err(e)
           case Ok(i) => Edited(st, i, GrantOn(st.shares[i], grants[0])))
    case Revoke(name, subject) =>
      (match SubjectOf(subject)
       case Err(e) => Err(e)
       case Ok(spelled) =>
         match Managed(files, st, name)
         case Err(e) => Err(e)
         case Ok(i) => Edited(st, i, RevokeOn(st.shares[i], spelled)))
  }

  // A change is made on a copy, and kept when the server could serve it.
  function Change(files: seq<string>, st: State, call: Call, served: bool): State {
    match Edit(files, st, call) case Err(_) => st case Ok(next) => if served then next else st
  }

  /********** The same, in place **********/

  class ManagedShare {
    const name: string
    var readOnly: bool
    var protocols: seq<string>
    var grants: seq<Grant>

    constructor (n: string, ro: bool, p: seq<string>, g: seq<Grant>)
      ensures View() == Share(n, ro, p, g)
    {
      name, readOnly, protocols, grants := n, ro, p, g;
    }

    function View(): Share
      reads this
    {
      Share(name, readOnly, protocols, grants)
    }

    // Each edit leaves the share as it was when it refuses.
    method AddGrant(g: Grant) returns (refused: Option<Refusal>)
      modifies this
      ensures GrantOn(old(View()), g) == if refused.Some? then Err(refused.value) else Ok(View())
      ensures refused.Some? ==> View() == old(View())
    {
      if g.write && readOnly { return Some(Precondition); }
      var i := 0;
      while i < |grants|
        invariant 0 <= i <= |grants| && View() == old(View())
        invariant GrantIndex(grants, g.subject) == Shift(GrantIndex(grants[i..], g.subject), i)
      {
        assert grants[i..][1..] == grants[i + 1..];
        if grants[i].subject == g.subject {
          grants := grants[i := g];
          return None;
        }
        i := i + 1;
      }
      if |grants| >= MAX_GRANTS { return Some(Precondition); }
      grants := grants + [g];
      refused := None;
    }

    method RemoveGrant(subject: string) returns (refused: Option<Refusal>)
      modifies this
      ensures RevokeOn(old(View()), subject) == if refused.Some? then Err(refused.value) else Ok(View())
      ensures refused.Some? ==> View() == old(View())
    {
      var i := 0;
      while i < |grants| && grants[i].subject != subject
        invariant 0 <= i <= |grants| && View() == old(View())
        invariant GrantIndex(grants, subject) == Shift(GrantIndex(grants[i..], subject), i)
      {
        assert grants[i..][1..] == grants[i + 1..];
        i := i + 1;
      }
      if i == |grants| { return Some(Missing); }
      if |grants| == 1 { return Some(Precondition); }
      grants := grants[..i] + grants[i + 1..];
      refused := None;
    }

    method UpdateShare(newReadOnly: Option<bool>, newProtocols: Option<seq<string>>) returns (refused: Option<Refusal>)
      modifies this
      ensures UpdateOn(old(View()), newReadOnly, newProtocols) == if refused.Some? then Err(refused.value) else Ok(View())
      ensures refused.Some? ==> View() == old(View())
    {
      if newReadOnly.Some? {
        if newReadOnly.value && AnyWrites(grants) { return Some(Precondition); }
        readOnly := newReadOnly.value;
      }
      if newProtocols.Some? { protocols := newProtocols.value; }
      refused := None;
    }
  }

  function Shift(i: Option<nat>, n: nat): Option<nat> {
    if i.None? then None else Some(i.value + n)
  }

  method ReadGrants(asked: seq<GrantRequest>) returns (grants: Result<seq<Grant>, Refusal>)
    ensures grants == GrantsOf(asked)
  {
    if |asked| > MAX_GRANTS { return Err(Invalid); }
    var out := [];
    var i := 0;
    while i < |asked|
      invariant 0 <= i <= |asked|
      invariant GrantsOnto(out, asked[i..]) == GrantsOnto([], asked)
    {
      assert asked[i..][1..] == asked[i + 1..];
      var g := GrantOf(asked[i]);
      if g.Err? { return Err(g.error); }
      if Grants(out, g.value.subject) { return Err(Invalid); }
      out := out + [g.value];
      i := i + 1;
    }
    grants := Ok(out);
  }
}
