/** A stop that has begun can always be carried to its end: whatever a generation
    took, and wherever each connection is, closing them makes way for the next. */
module GenerationStops {
  import opened Wrappers
  import opened Generation
  import opened GenerationRuns

  function Play(s: State, acts: seq<Action>): State
    decreases |acts|
  {
    if acts == [] then s else Play(Next(s, acts[0]), acts[1..])
  }

  lemma {:induction false} PlayOn(s: State, a: seq<Action>, b: seq<Action>)
    ensures Play(s, a + b) == Play(Play(s, a), b)
    decreases |a|
  {
    if a == [] {
      assert a + b == b;
    } else {
      assert (a + b)[1..] == a[1..] + b;
      PlayOn(Next(s, a[0]), a[1..], b);
    }
  }

  lemma {:induction false} PlayIsExec(feeds: nat, acts: seq<Action>, more: seq<Action>)
    ensures Exec(feeds, acts + more) == Play(Exec(feeds, acts), more)
    decreases |more|
  {
    if more == [] {
      assert acts + more == acts;
    } else {
      var next := acts + [more[0]];
      assert next[..|next| - 1] == acts;
      PlayIsExec(feeds, next, more[1..]);
      assert next + more[1..] == acts + more;
    }
  }

  lemma One(s: State, a: Action)
    requires Inv(s)
    ensures Play(s, [a]) == Next(s, a) && Inv(Next(s, a))
  {
    assert Play(s, [a]) == Play(Next(s, a), []);
    NextKeeps(s, a);
  }

  // Only this listener, and connections and counts, have moved.
  ghost predicate Apart(s: State, t: State, l: nat) {
    && Inv(t) && t.phase == s.phase && t.gen == s.gen && |t.lns| == |s.lns| && l < |s.lns|
    && |t.conns| == |s.conns| && |t.feeds| == |s.feeds|
    && (forall c :: 0 <= c < |s.conns| && s.conns[c].removed ==> t.conns[c].removed)
    && (forall m :: 0 <= m < |s.lns| && m != l ==> t.lns[m] == s.lns[m])
    && t.lns[l].gen == s.lns[l].gen && t.lns[l].taken == s.lns[l].taken
  }

  // What a shut leaves: nothing in the set, everything that was in it to be
  // closed, and nothing taken in any more.
  lemma ShutTakesAll(s: State, l: nat)
    requires Inv(s) && l < |s.lns|
    ensures var t := Next(s, Shut(l));
      && t.lns[l].stop && t.lns[l].conns == {} && s.lns[l].conns <= t.lns[l].shutting
      && t.lns[l].pending == s.lns[l].pending && t.lns[l].refused == s.lns[l].refused && Apart(s, t, l)
    ensures s.lns[l].stop ==> Next(s, Shut(l)) == s
  {
    NextKeeps(s, Shut(l));
    assert ListenerOk(s, s.lns[l]);
  }

  // Only the close of c has moved on.
  ghost predicate Closer(s: State, t: State, c: nat) {
    && Inv(t) && t.phase == s.phase && t.gen == s.gen && t.lns == s.lns && |t.feeds| == |s.feeds| && |t.conns| == |s.conns|
    && (forall d :: 0 <= d < |s.conns| && d != c ==> t.conns[d] == s.conns[d])
    && (c < |s.conns| && s.conns[c].removed ==> t.conns[c].removed)
  }

  lemma TakenFacts(s: State, l: nat, c: nat)
    requires Inv(s) && MayClose(s, l, c)
    ensures s.conns[c].feed < |s.feeds| && (s.lns[l].stop ==> s.lns[l].conns == {})
  {
    assert ListenerOk(s, s.lns[l]);
  }

  lemma WireCloses(s: State, l: nat, c: nat)
    requires Inv(s) && MayClose(s, l, c)
    ensures var t := Next(s, CloseWire(l, c)); Closer(s, t, c) && t.conns[c].wireClosed
  {
    hide Inv;
    NextKeeps(s, CloseWire(l, c));
  }

  lemma CountsOut(s: State, l: nat, c: nat)
    requires Inv(s) && MayClose(s, l, c) && s.conns[c].wireClosed
    ensures var t := Next(s, CountOut(l, c)); Closer(s, t, c) && t.conns[c].countedOut
  {
    hide Inv;
    NextKeeps(s, CountOut(l, c));
    TakenFacts(s, l, c);
  }

  lemma Removes(s: State, l: nat, c: nat)
    requires Inv(s) && MayClose(s, l, c) && s.conns[c].countedOut && s.lns[l].stop
    ensures var t := Next(s, RemoveConn(l, c)); Closer(s, t, c) && t.conns[c].removed
  {
    hide Inv;
    NextKeeps(s, RemoveConn(l, c));
    TakenFacts(s, l, c);
    assert s.lns[l].conns - {c} == s.lns[l].conns;
  }

  // Closing a connection a stopped listener took: the wire, the count, the set.
  lemma CloseOne(s: State, l: nat, c: nat) returns (acts: seq<Action>)
    requires Inv(s) && l < |s.lns| && s.lns[l].stop && c in s.lns[l].taken && c !in s.lns[l].pending
    ensures var t := Play(s, acts); Closer(s, t, c) && c < |t.conns| && t.conns[c].removed
  {
    hide Inv, Next;
    StoppedOk(s, l);
    acts := [CloseWire(l, c), CountOut(l, c), RemoveConn(l, c)];
    var s1 := Next(s, acts[0]);
    WireCloses(s, l, c);
    var s2 := Next(s1, acts[1]);
    CountsOut(s1, l, c);
    Removes(s2, l, c);
    ThreePlay(s, acts);
  }

  lemma ThreePlay(s: State, acts: seq<Action>)
    requires |acts| == 3
    ensures Play(s, acts) == Next(Next(Next(s, acts[0]), acts[1]), acts[2])
  {
    hide Next;
    var s1 := Next(s, acts[0]);
    var s2 := Next(s1, acts[1]);
    assert acts[1..][1..] == [acts[2]] && [acts[2]][1..] == [];
    assert Play(s1, acts[1..]) == Play(s2, [acts[2]]);
    assert Play(s2, [acts[2]]) == Play(Next(s2, acts[2]), []);
  }

  lemma ApartOn(s: State, a: State, b: State, l: nat)
    requires Apart(s, a, l) && Apart(a, b, l)
    ensures Apart(s, b, l)
  {
    hide Inv;
  }

  lemma CloserIsApart(s: State, t: State, l: nat, c: nat)
    requires Closer(s, t, c) && l < |s.lns|
    ensures Apart(s, t, l) && t.lns == s.lns
  {
    hide Inv;
  }

  lemma RegisterStep(s: State, l: nat, c: nat)
    requires Inv(s) && l < |s.lns| && s.lns[l].stop && c in s.lns[l].pending
    ensures var t := Next(s, Register(l, c));
      Apart(s, t, l) && t.lns[l] == s.lns[l].(pending := s.lns[l].pending - {c}, refused := s.lns[l].refused + {c})
  {
    hide Inv;
    NextKeeps(s, Register(l, c));
  }

  lemma RefusedStep(s: State, l: nat, c: nat)
    requires Inv(s) && l < |s.lns| && c < |s.conns| && s.conns[c].removed && c in s.lns[l].refused
    ensures var t := Next(s, RefusedDone(l, c)); Apart(s, t, l) && t.lns[l] == s.lns[l].(refused := s.lns[l].refused - {c})
  {
    hide Inv;
    NextKeeps(s, RefusedDone(l, c));
  }

  lemma ShutStep(s: State, l: nat, c: nat)
    requires Inv(s) && l < |s.lns| && c < |s.conns| && s.conns[c].removed && c in s.lns[l].shutting
    ensures var t := Next(s, ShutOne(l, c)); Apart(s, t, l) && t.lns[l] == s.lns[l].(shutting := s.lns[l].shutting - {c})
  {
    hide Inv;
    NextKeeps(s, ShutOne(l, c));
  }

  lemma StoppedOk(s: State, l: nat)
    requires Inv(s) && l < |s.lns|
    ensures s.lns[l].refused <= s.lns[l].taken && s.lns[l].shutting <= s.lns[l].taken && Apart(s, s, l)
    ensures forall c :: c in s.lns[l].taken ==> c < |s.conns|
  {
    assert ListenerOk(s, s.lns[l]);
  }

  // One listener emptied: what is inside Accept is refused, what was refused or
  // taken from the set is closed, and then its serve function returns.
  lemma {:induction false} DrainPending(s: State, l: nat) returns (acts: seq<Action>)
    requires Inv(s) && l < |s.lns| && s.lns[l].stop
    ensures var t := Play(s, acts); Apart(s, t, l) && t.lns[l] == s.lns[l].(pending := {}, refused := s.lns[l].refused + s.lns[l].pending)
    decreases |s.lns[l].pending|
  {
    hide Inv, Next;
    StoppedOk(s, l);
    var ln := s.lns[l];
    if ln.pending == {} {
      acts := [];
      assert ln.refused + ln.pending == ln.refused;
    } else {
      var c :| c in ln.pending;
      var s1 := Next(s, Register(l, c));
      RegisterStep(s, l, c);
      One(s, Register(l, c));
      assert ln.pending - {c} < ln.pending;
      var rest := DrainPending(s1, l);
      acts := [Register(l, c)] + rest;
      PlayOn(s, [Register(l, c)], rest);
      ApartOn(s, s1, Play(s1, rest), l);
      assert ln.refused + {c} + (ln.pending - {c}) == ln.refused + ln.pending;
    }
  }

  lemma {:induction false} DrainRefused(s: State, l: nat) returns (acts: seq<Action>)
    requires Inv(s) && l < |s.lns| && s.lns[l].stop && s.lns[l].pending == {}
    ensures var t := Play(s, acts); Apart(s, t, l) && t.lns[l] == s.lns[l].(refused := {})
    decreases |s.lns[l].refused|
  {
    hide Inv, Next, Closer;
    StoppedOk(s, l);
    if s.lns[l].refused == {} {
      acts := [];
    } else {
      var c :| c in s.lns[l].refused;
      var close := CloseOne(s, l, c);
      var s1 := Play(s, close);
      CloserIsApart(s, s1, l, c);
      var s2 := Next(s1, RefusedDone(l, c));
      RefusedStep(s1, l, c);
      One(s1, RefusedDone(l, c));
      assert s.lns[l].refused - {c} < s.lns[l].refused;
      var rest := DrainRefused(s2, l);
      acts := close + ([RefusedDone(l, c)] + rest);
      PlayOn(s, close, [RefusedDone(l, c)] + rest);
      PlayOn(s1, [RefusedDone(l, c)], rest);
      ApartOn(s, s1, s2, l);
      ApartOn(s, s2, Play(s2, rest), l);
    }
  }

  lemma {:induction false} DrainShutting(s: State, l: nat) returns (acts: seq<Action>)
    requires Inv(s) && l < |s.lns| && s.lns[l].stop && s.lns[l].pending == {}
    ensures var t := Play(s, acts); Apart(s, t, l) && t.lns[l] == s.lns[l].(shutting := {})
    decreases |s.lns[l].shutting|
  {
    hide Inv, Next, Closer;
    StoppedOk(s, l);
    if s.lns[l].shutting == {} {
      acts := [];
    } else {
      var c :| c in s.lns[l].shutting;
      var close := CloseOne(s, l, c);
      var s1 := Play(s, close);
      CloserIsApart(s, s1, l, c);
      var s2 := Next(s1, ShutOne(l, c));
      ShutStep(s1, l, c);
      One(s1, ShutOne(l, c));
      assert s.lns[l].shutting - {c} < s.lns[l].shutting;
      var rest := DrainShutting(s2, l);
      acts := close + ([ShutOne(l, c)] + rest);
      PlayOn(s, close, [ShutOne(l, c)] + rest);
      PlayOn(s1, [ShutOne(l, c)], rest);
      ApartOn(s, s1, s2, l);
      ApartOn(s, s2, Play(s2, rest), l);
    }
  }

  lemma Drain(s: State, l: nat) returns (acts: seq<Action>)
    requires Inv(s) && l < |s.lns|
    ensures var t := Play(s, acts); Apart(s, t, l) && Over(t.lns[l])
  {
    hide Inv, Next;
    ShutTakesAll(s, l);
    One(s, Shut(l));
    var s1 := Next(s, Shut(l));
    var a := DrainPending(s1, l);
    var s2 := Play(s1, a);
    var b := DrainRefused(s2, l);
    var s3 := Play(s2, b);
    var d := DrainShutting(s3, l);
    var s4 := Play(s3, d);
    One(s4, ServeReturns(l));
    Returns(s4, l);
    acts := [Shut(l)] + (a + (b + (d + [ServeReturns(l)])));
    PlayOn(s, [Shut(l)], a + (b + (d + [ServeReturns(l)])));
    PlayOn(s1, a, b + (d + [ServeReturns(l)]));
    PlayOn(s2, b, d + [ServeReturns(l)]);
    PlayOn(s3, d, [ServeReturns(l)]);
  }

  lemma Returns(s: State, l: nat)
    requires Inv(s) && l < |s.lns| && s.lns[l].stop && s.lns[l].pending == s.lns[l].refused == s.lns[l].shutting == {}
    ensures var t := Next(s, ServeReturns(l)); Apart(s, t, l) && Over(t.lns[l])
  {
    NextKeeps(s, ServeReturns(l));
  }

  lemma {:induction false} DrainFrom(s: State, n: nat) returns (acts: seq<Action>)
    requires Inv(s) && n <= |s.lns| && forall l :: 0 <= l < n ==> Over(s.lns[l])
    ensures var t := Play(s, acts);
      Inv(t) && t.phase == s.phase && t.gen == s.gen && |t.feeds| == |s.feeds| && forall l :: 0 <= l < |t.lns| ==> Over(t.lns[l])
    decreases |s.lns| - n
  {
    hide Inv, Next;
    if n == |s.lns| {
      acts := [];
    } else {
      var first := Drain(s, n);
      var s1 := Play(s, first);
      var rest := DrainFrom(s1, n + 1);
      acts := first + rest;
      PlayOn(s, first, rest);
    }
  }

  // The newest listener of the feed.
  predicate ServesAfresh(t: State, f: nat)
    requires f < |t.feeds| <= |t.lns|
  {
    var ln := t.lns[|t.lns| - |t.feeds| + f];
    ln.feed == f && ln.gen == t.gen && ln.serving && !ln.stop && ln.taken == {}
  }

  lemma EndIs(s: State)
    requires s.phase.Stopping? && forall l :: 0 <= l < |s.lns| ==> Over(s.lns[l])
    ensures var t := Next(s, EndStop);
      if s.phase.last then t.phase.Stopped?
      else
        && t.phase.Serving? && t.gen == s.gen + 1 && |t.feeds| == |s.feeds| <= |t.lns|
        && forall f :: 0 <= f < |t.feeds| ==> ServesAfresh(t, f)
  {
  }

  // From every reachable state in which a stop has begun there are steps, none of
  // them a feed's, after which the next generation serves every feed afresh, or
  // the server has stopped.
  lemma StopCanEnd(feeds: nat, acts: seq<Action>) returns (more: seq<Action>)
    requires Exec(feeds, acts).phase.Stopping?
    ensures var s, t := Exec(feeds, acts), Exec(feeds, acts + more);
      if s.phase.last then t.phase.Stopped?
      else
        && t.phase.Serving? && t.gen == s.gen + 1 && |t.feeds| == |s.feeds| <= |t.lns|
        && forall f :: 0 <= f < |t.feeds| ==> ServesAfresh(t, f)
  {
    hide Inv, Exec, Next;
    RunKeeps(feeds, acts);
    var s := Exec(feeds, acts);
    var drain := DrainFrom(s, 0);
    var s1 := Play(s, drain);
    One(s1, EndStop);
    EndIs(s1);
    more := drain + [EndStop];
    PlayOn(s, drain, [EndStop]);
    PlayIsExec(feeds, acts, more);
  }
}
