/** The same removal while another program changes the tree: between any two
    calls names may come and go, move, and turn into links. */
module RemoveRace {
  import opened Wrappers
  import opened RemoveTree

  // What one call is about to do in an open directory.
  datatype Pc =
    | Reading   // readdirnames, from the start
    | Looking   // fstatat of the first name read
    | Opening   // openat of it, found to be a directory
    | Dropping  // unlinkat of it, found to be anything else
    | Closing   // unlinkat of it with AT_REMOVEDIR, emptied

  // An open directory of the walk, the names read of it and not done with.
  datatype Frame = Frame(fd: nat, names: seq<string>, pc: Pc)

  datatype Status = Running | Removed | Stopped

  // The walk's open directories, the parent's first. theirs: the directories the
  // other program can change. touched: those the walk took a name out of.
  datatype State = State(nodes: Nodes, theirs: set<nat>, walk: seq<Frame>, status: Status, touched: set<nat>)

  // p, and the name in it of the volume, which is a directory on dev.
  datatype Volume = Volume(p: nat, name: string, dev: nat)

  /********** The other program **********/

  // What the program can change leads, on the device, only to what it can change.
  ghost predicate Closed(nodes: Nodes, theirs: set<nat>, dev: nat) {
    forall d, x, c :: d in theirs && Child(nodes, d, x, c) && IsDir(nodes, c) && nodes[c].dev == dev ==> c in theirs
  }

  // It makes new files, links and directories, and gives its directories any
  // entries it can reach.
  ghost predicate Allowed(v: Volume, s: State, after: Nodes) {
    && s.nodes.Keys <= after.Keys
    && (forall n :: n in s.nodes ==>
          if n in s.theirs && s.nodes[n].Dir? then after[n].Dir? && after[n].dev == s.nodes[n].dev else after[n] == s.nodes[n])
    && Closed(after, WithNew(s, after), v.dev)
  }

  function WithNew(s: State, after: Nodes): set<nat> {
    s.theirs + (after.Keys - s.nodes.Keys)
  }

  /********** The walk **********/

  // A call is answered with an error, or it is carried out; batch is what
  // readdirnames finds.
  datatype Action = Program(after: Nodes) | Call(fails: bool, batch: seq<string>)

  function Stop(s: State): State {
    s.(status := Stopped)
  }

  // Done with the first name of the last directory; done with the parent's is done.
  function Advance(s: State): State
    requires s.walk != [] && Top(s).names != []
  {
    var rest := Top(s).names[1..];
    if |s.walk| == 1 then s.(status := Removed)
    else s.(walk := s.walk[|s.walk| - 1 := Top(s).(names := rest, pc := if rest == [] then Reading else Looking)])
  }

  function Top(s: State): Frame
    requires s.walk != []
  {
    s.walk[|s.walk| - 1]
  }

  function At(s: State, pc: Pc): State
    requires s.walk != []
  {
    s.(walk := s.walk[|s.walk| - 1 := Top(s).(pc := pc)])
  }

  function TakeOut(s: State): State
    requires s.walk != [] && Top(s).names != [] && IsDir(s.nodes, Top(s).fd)
  {
    s.(nodes := WithoutName(s.nodes, Top(s).fd, Top(s).names[0]), touched := s.touched + {Top(s).fd})
  }

  predicate WalkOk(s: State) {
    && s.walk != []
    && (forall i :: 0 <= i < |s.walk| ==> IsDir(s.nodes, s.walk[i].fd))
    && (forall i :: 0 <= i < |s.walk| && (i < |s.walk| - 1 || !s.walk[i].pc.Reading?) ==> s.walk[i].names != [])
    && (forall i :: 0 <= i < |s.walk| - 1 ==> s.walk[i].pc.Closing?)
    && !s.walk[0].pc.Reading? && !s.walk[0].pc.Dropping?
  }

  // What the first name stands for at this moment.
  function Found(s: State): Option<nat>
    requires s.walk != [] && Top(s).names != [] && IsDir(s.nodes, Top(s).fd)
  {
    var entries := s.nodes[Top(s).fd].entries;
    if Top(s).names[0] in entries then Some(entries[Top(s).names[0]]) else None
  }

  // One system call of the walk, on the directory opened last: a name that is
  // gone is passed over but where it was to be opened, and the volume's own.
  function Walked(v: Volume, s: State, a: Action): State
    requires WalkOk(s) && a.Call?
  {
    var f := Top(s);
    if a.fails then Stop(s)
    else if f.pc.Reading? then
      s.(walk := if a.batch == [] then s.walk[..|s.walk| - 1] else s.walk[|s.walk| - 1 := Frame(f.fd, a.batch, Looking)])
    else if Found(s).None? then
      if f.pc.Opening? || (f.pc.Looking? && |s.walk| == 1) then Stop(s) else Advance(s)
    else
      var c := Found(s).value;
      if f.pc.Looking? then
        if IsDir(s.nodes, c) then At(s, Opening) else if |s.walk| == 1 then Stop(s) else At(s, Dropping)
      else if f.pc.Opening? then
        if IsDir(s.nodes, c) && s.nodes[c].dev == v.dev then s.(walk := At(s, Closing).walk + [Frame(c, [], Reading)]) else Stop(s)
      else if (if f.pc.Dropping? then !IsDir(s.nodes, c) else c in s.nodes && s.nodes[c] == Dir(s.nodes[f.fd].dev, map[])) then
        Advance(TakeOut(s))
      else Stop(s)
  }

  ghost predicate Enabled(v: Volume, s: State, a: Action) {
    match a
    case Program(after) => Allowed(v, s, after)
    case Call(_, batch) => s.status.Running? && WalkOk(s) && |batch| <= 256
  }

  ghost function Next(v: Volume, s: State, a: Action): State {
    if !Enabled(v, s, a) then s
    else match a
      case Program(after) => s.(nodes := after, theirs := WithNew(s, after))
      case Call(_, _) => Walked(v, s, a)
  }

  function Begin(v: Volume, nodes: Nodes, theirs: set<nat>): State {
    State(nodes, theirs, [Frame(v.p, [v.name], Looking)], Running, {})
  }

  ghost function Exec(v: Volume, s0: State, acts: seq<Action>): State
    decreases |acts|
  {
    if acts == [] then s0 else Next(v, Exec(v, s0, acts[..|acts| - 1]), acts[|acts| - 1])
  }

  /********** What it cannot reach **********/

  // The volume: what stands at its name is one of the program's directories, on
  // dev; what those lead to on the device is the program's too; its parent is not.
  ghost predicate Initial(v: Volume, nodes: Nodes, theirs: set<nat>) {
    && IsDir(nodes, v.p) && v.p !in theirs && theirs <= nodes.Keys && Closed(nodes, theirs, v.dev)
    && (v.name in nodes[v.p].entries ==> nodes[v.p].entries[v.name] in nodes)
    && (v.name in nodes[v.p].entries && IsDir(nodes, nodes[v.p].entries[v.name]) ==>
          nodes[v.p].entries[v.name] in theirs && nodes[nodes[v.p].entries[v.name]].dev == v.dev)
  }

  // Nothing that was there and is not the program's has changed, but the parent,
  // which may have lost the volume's name.
  ghost predicate Spared(v: Volume, before: Nodes, theirs: set<nat>, s: State) {
    && before.Keys <= s.nodes.Keys
    && (forall n :: n in before && n !in theirs && n != v.p ==> s.nodes[n] == before[n])
    && IsDir(before, v.p)
    && (s.nodes[v.p] == before[v.p]
        || (s.status.Removed? && s.nodes[v.p] == before[v.p].(entries := before[v.p].entries - {v.name})))
    && (s.status.Removed? ==> IsDir(s.nodes, v.p) && v.name !in s.nodes[v.p].entries)
  }

  // Every directory the walk has open is the program's, and on the device.
  ghost predicate Within(v: Volume, s: State) {
    && WalkOk(s) && s.walk[0].fd == v.p && s.walk[0].names == [v.name]
    && (forall i :: 1 <= i < |s.walk| ==> s.walk[i].fd in s.theirs && s.nodes[s.walk[i].fd].dev == v.dev)
  }

  ghost predicate TouchedOk(v: Volume, s: State) {
    forall n :: n in s.touched ==> n == v.p || (n in s.theirs && IsDir(s.nodes, n) && s.nodes[n].dev == v.dev)
  }

  ghost predicate Inv(v: Volume, before: Nodes, theirs: set<nat>, s: State) {
    && Spared(v, before, theirs, s) && Within(v, s) && TouchedOk(v, s)
    && Closed(s.nodes, s.theirs, v.dev) && v.p !in s.theirs && theirs <= s.theirs <= s.nodes.Keys && s.theirs * before.Keys == theirs
    && Initial(v, before, theirs)
  }

  lemma ProgramKeeps(v: Volume, before: Nodes, theirs: set<nat>, s: State, after: Nodes)
    requires Inv(v, before, theirs, s) && Allowed(v, s, after)
    ensures Inv(v, before, theirs, Next(v, s, Program(after)))
  {
  }

  lemma StopKeeps(v: Volume, before: Nodes, theirs: set<nat>, s: State)
    requires Inv(v, before, theirs, s) && s.status.Running?
    ensures Inv(v, before, theirs, Stop(s))
  {
  }

  lemma AtKeeps(v: Volume, before: Nodes, theirs: set<nat>, s: State, pc: Pc)
    requires Inv(v, before, theirs, s) && !Top(s).pc.Reading? && !pc.Reading? && (|s.walk| == 1 ==> !pc.Dropping?)
    ensures Inv(v, before, theirs, At(s, pc))
  {
  }

  lemma AdvanceKeeps(v: Volume, before: Nodes, theirs: set<nat>, s: State)
    requires Inv(v, before, theirs, s) && s.status.Running? && Top(s).names != []
    requires |s.walk| == 1 ==> v.name !in s.nodes[v.p].entries
    ensures Inv(v, before, theirs, Advance(s))
  {
  }

  lemma ReadKeeps(v: Volume, before: Nodes, theirs: set<nat>, s: State, batch: seq<string>)
    requires Inv(v, before, theirs, s) && Top(s).pc.Reading?
    ensures batch == [] ==> Inv(v, before, theirs, s.(walk := s.walk[..|s.walk| - 1]))
    ensures batch != [] ==> Inv(v, before, theirs, s.(walk := s.walk[|s.walk| - 1 := Frame(Top(s).fd, batch, Looking)]))
  {
    assert |s.walk| > 1;
  }

  // What is opened is behind a name of a directory the walk has open: under the
  // parent the volume itself, and below it the program's, on the device.
  lemma OpenKeeps(v: Volume, before: Nodes, theirs: set<nat>, s: State, c: nat)
    requires Inv(v, before, theirs, s) && s.status.Running? && Top(s).pc.Opening? && Found(s) == Some(c)
    requires IsDir(s.nodes, c) && s.nodes[c].dev == v.dev
    ensures Inv(v, before, theirs, s.(walk := At(s, Closing).walk + [Frame(c, [], Reading)]))
  {
    assert Child(s.nodes, Top(s).fd, Top(s).names[0], c);
    if |s.walk| == 1 {
      assert s.nodes[v.p] == before[v.p] && c in before;
    }
    assert c in s.theirs;
    AtKeeps(v, before, theirs, s, Closing);
    var next := s.(walk := At(s, Closing).walk + [Frame(c, [], Reading)]);
    assert forall i :: 0 <= i < |s.walk| ==> next.walk[i] == At(s, Closing).walk[i];
  }

  lemma TakeOutKeeps(v: Volume, before: Nodes, theirs: set<nat>, s: State)
    requires Inv(v, before, theirs, s) && s.status.Running? && |s.walk| > 1 && Top(s).names != []
    ensures Inv(v, before, theirs, TakeOut(s))
  {
    var t := TakeOut(s);
    forall d, x, c | d in t.theirs && Child(t.nodes, d, x, c) ensures Child(s.nodes, d, x, c) {
    }
  }

  // The volume's own name, the last to go.
  lemma LastKeeps(v: Volume, before: Nodes, theirs: set<nat>, s: State)
    requires Inv(v, before, theirs, s) && s.status.Running? && |s.walk| == 1 && Top(s).names != []
    ensures Inv(v, before, theirs, Advance(TakeOut(s)))
  {
    var t := Advance(TakeOut(s));
    forall d, x, c | d in t.theirs && Child(t.nodes, d, x, c) ensures Child(s.nodes, d, x, c) {
    }
  }

  lemma CallKeeps(v: Volume, before: Nodes, theirs: set<nat>, s: State, a: Action)
    requires Inv(v, before, theirs, s) && a.Call? && s.status.Running?
    ensures Inv(v, before, theirs, Walked(v, s, a))
  {
    var f := Top(s);
    StopKeeps(v, before, theirs, s);
    if !a.fails {
      if f.pc.Reading? {
        ReadKeeps(v, before, theirs, s, a.batch);
      } else if Found(s).None? {
        hide Inv, Advance;
        NotFoundKeeps(v, before, theirs, s);
      } else {
        FoundKeeps(v, before, theirs, s, a);
      }
    }
  }

  lemma NotFoundKeeps(v: Volume, before: Nodes, theirs: set<nat>, s: State)
    requires Inv(v, before, theirs, s) && s.status.Running? && !Top(s).pc.Reading? && Found(s).None?
    ensures Inv(v, before, theirs, Advance(s))
  {
    AdvanceKeeps(v, before, theirs, s);
  }

  lemma FoundKeeps(v: Volume, before: Nodes, theirs: set<nat>, s: State, a: Action)
    requires Inv(v, before, theirs, s) && a.Call? && !a.fails && s.status.Running? && !Top(s).pc.Reading? && Found(s).Some?
    ensures Inv(v, before, theirs, Walked(v, s, a))
  {
    var f, c := Top(s), Found(s).value;
    assert WalkOk(s);
    hide Inv, Advance, TakeOut, Within, Spared;
    StopKeeps(v, before, theirs, s);
    if f.pc.Looking? {
      AtKeeps(v, before, theirs, s, Opening);
      if |s.walk| > 1 { AtKeeps(v, before, theirs, s, Dropping); }
    } else if f.pc.Opening? {
      if IsDir(s.nodes, c) && s.nodes[c].dev == v.dev { OpenKeeps(v, before, theirs, s, c); }
    } else if |s.walk| == 1 {
      LastKeeps(v, before, theirs, s);
    } else {
      TakeOutKeeps(v, before, theirs, s);
      TakeOutWalk(s);
      AdvanceKeeps(v, before, theirs, TakeOut(s));
    }
  }

  lemma TakeOutWalk(s: State)
    requires s.walk != [] && Top(s).names != [] && IsDir(s.nodes, Top(s).fd)
    ensures TakeOut(s).walk == s.walk && TakeOut(s).status == s.status
  {
  }

  lemma {:induction false} RunKeeps(v: Volume, nodes: Nodes, theirs: set<nat>, acts: seq<Action>)
    requires Initial(v, nodes, theirs)
    ensures Inv(v, nodes, theirs, Exec(v, Begin(v, nodes, theirs), acts))
    decreases |acts|
  {
    if acts == [] {
    } else {
      var s, a := Exec(v, Begin(v, nodes, theirs), acts[..|acts| - 1]), acts[|acts| - 1];
      RunKeeps(v, nodes, theirs, acts[..|acts| - 1]);
      hide Inv, Walked, Exec, Allowed;
      if Enabled(v, s, a) {
        if a.Program? { ProgramKeeps(v, nodes, theirs, s, a.after); } else { CallKeeps(v, nodes, theirs, s, a); }
      }
      StepIs(v, Begin(v, nodes, theirs), acts);
    }
  }

  lemma StepIs(v: Volume, s0: State, acts: seq<Action>)
    requires acts != []
    ensures Exec(v, s0, acts) == Next(v, Exec(v, s0, acts[..|acts| - 1]), acts[|acts| - 1])
  {
  }

  // Whatever the other program does between any two calls, and whichever of them
  // fail: the removal takes names only out of directories of the program's on the
  // volume's device, and the volume's own out of its parent. Everything else that
  // was there is as it was -- other directories, what is mounted, every file and
  // link -- and when the removal ends well the volume's name is gone.
  lemma NothingElseTouched(v: Volume, nodes: Nodes, theirs: set<nat>, acts: seq<Action>, n: nat)
    requires Initial(v, nodes, theirs)
    ensures var s := Exec(v, Begin(v, nodes, theirs), acts);
      && (n in s.touched && n != v.p ==> n in s.theirs && IsDir(s.nodes, n) && s.nodes[n].dev == v.dev)
      && (n in s.touched && n in nodes && n != v.p ==> n in theirs)
      && (n in nodes && n !in theirs && n != v.p ==> n in s.nodes && s.nodes[n] == nodes[n])
      && v.p in s.nodes
      && s.nodes[v.p] == (if v.p in s.touched then nodes[v.p].(entries := nodes[v.p].entries - {v.name}) else nodes[v.p])
      && (s.status.Removed? ==> IsDir(s.nodes, v.p) && v.name !in s.nodes[v.p].entries)
  {
    RunKeeps(v, nodes, theirs, acts);
  }

  /********** The volume's own tree **********/

  ghost function DirsBelow(nodes: Nodes, c: nat): set<nat> {
    set n | n in nodes && IsDir(nodes, n) && Below(nodes, c, n)
  }

  lemma {:induction false} WalkOn(nodes: Nodes, c: nat, path: seq<string>, x: string, e: nat)
    requires Walk(nodes, c, path).Some? && Child(nodes, Walk(nodes, c, path).value, x, e)
    ensures Walk(nodes, c, path + [x]) == Some(e)
    decreases |path|
  {
    if path == [] {
      assert [x][1..] == [] && Walk(nodes, e, []) == Some(e);
    } else {
      assert (path + [x])[1..] == path[1..] + [x];
      WalkOn(nodes, nodes[c].entries[path[0]], path[1..], x, e);
    }
  }

  lemma BelowIsClosed(nodes: Nodes, c: nat, dev: nat)
    ensures Closed(nodes, DirsBelow(nodes, c), dev)
  {
    forall d, x, e | d in DirsBelow(nodes, c) && Child(nodes, d, x, e) && IsDir(nodes, e) ensures e in DirsBelow(nodes, c) {
      var path :| Walk(nodes, c, path) == Some(d);
      WalkOn(nodes, c, path, x, e);
    }
  }

  // So when a program can change no more than the volume's own tree, nothing but
  // directories of that tree has changed, however the two ran together.
  lemma OnlyTheVolume(v: Volume, nodes: Nodes, rank: nat -> nat, c: nat, acts: seq<Action>, n: nat)
    requires Ranked(nodes, rank) && Child(nodes, v.p, v.name, c) && IsDir(nodes, c) && nodes[c].dev == v.dev
    requires n in nodes && n != v.p && !(IsDir(nodes, n) && Below(nodes, c, n))
    ensures var s := Exec(v, Begin(v, nodes, DirsBelow(nodes, c)), acts); n in s.nodes && s.nodes[n] == nodes[n] && n !in s.touched
  {
    BelowIsClosed(nodes, c, v.dev);
    NotBelowChild(nodes, rank, v.p, v.name, c);
    BelowItself(nodes, c);
    NothingElseTouched(v, nodes, DirsBelow(nodes, c), acts, n);
  }
}
