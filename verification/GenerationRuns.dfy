/** Over every interleaving of accepting, serving, closing, swapping and shutting
    down: one owner per connection, an exact count, and nothing left of an old
    generation when the next one starts. */
module GenerationRuns {
  import opened Wrappers
  import opened Generation

  /********** The invariant **********/

  predicate ConnOk(conn: Conn) {
    (conn.removed ==> conn.countedOut) && (conn.countedOut ==> conn.wireClosed && conn.received)
  }

  // A listener's connections are in exactly the hands that are still to close
  // them, or closed for good.
  ghost predicate ListenerOk(s: State, ln: Listener) {
    && ln.feed < |s.feeds| && ln.gen <= s.gen
    && ln.pending <= ln.taken && ln.refused <= ln.taken && ln.conns <= ln.taken && ln.shutting <= ln.taken
    && (ln.stop ==> ln.conns == {}) && (!ln.stop ==> ln.shutting == {} && ln.refused == {})
    && (!ln.serving ==> ln.pending == {} && ln.refused == {})
    && (forall c :: c in ln.taken ==> c < |s.conns| && s.conns[c].feed == ln.feed && s.conns[c].received)
    && (forall c :: c in ln.taken ==>
          c in ln.pending || c in ln.refused || c in ln.conns || c in ln.shutting || s.conns[c].removed)
    && (ln.gen < s.gen || s.phase.Stopped? ==> Over(ln))
  }

  // A connection of f that no listener took.
  predicate Waits(conns: seq<Conn>, f: nat, c: nat) {
    c < |conns| && conns[c].feed == f && !conns[c].received
  }

  // What the feed itself has was taken by no listener.
  ghost predicate FeedOk(s: State, f: nat, feed: Feed) {
    && (feed.holding.Some? ==> Waits(s.conns, f, feed.holding.value) && feed.holding.value !in feed.dropped && !feed.done)
    && (forall c :: c in feed.dropped ==> Waits(s.conns, f, c) && s.conns[c].wireClosed)
    && feed.open == |OpenConns(s.conns, f)|
  }

  // The connections of a feed that a listener took and nobody has counted out.
  function OpenConns(conns: seq<Conn>, f: nat): set<nat> {
    set c: nat | c < |conns| && conns[c].feed == f && conns[c].received && !conns[c].countedOut
  }

  predicate Taken(lns: seq<Listener>, c: nat) {
    exists l :: 0 <= l < |lns| && c in lns[l].taken
  }

  ghost predicate Disjoint(lns: seq<Listener>) {
    forall l, m :: 0 <= l < m < |lns| ==> lns[l].taken !! lns[m].taken
  }

  ghost predicate Owned(s: State) {
    forall c :: 0 <= c < |s.conns| ==>
      && s.conns[c].feed < |s.feeds| && ConnOk(s.conns[c])
      && (if s.conns[c].received then Taken(s.lns, c)
          else s.feeds[s.conns[c].feed].holding == Some(c) || c in s.feeds[s.conns[c].feed].dropped)
  }

  ghost predicate Inv(s: State) {
    && (forall l :: 0 <= l < |s.lns| ==> ListenerOk(s, s.lns[l]))
    && (forall f :: 0 <= f < |s.feeds| ==> FeedOk(s, f, s.feeds[f]))
    && Disjoint(s.lns) && Owned(s)
  }

  // The connections only moved on: none lost, none given another feed, none of
  // those a listener took given back or reopened.
  ghost predicate MovedOn(before: seq<Conn>, after: seq<Conn>) {
    |before| <= |after| && forall c :: 0 <= c < |before| ==>
      && after[c].feed == before[c].feed && (before[c].received ==> after[c].received)
      && (before[c].removed ==> after[c].removed) && (before[c].wireClosed ==> after[c].wireClosed)
  }

  lemma ListenersCarry(s: State, s': State)
    requires Inv(s) && MovedOn(s.conns, s'.conns) && |s'.feeds| == |s.feeds| && s'.gen == s.gen && s'.phase == s.phase
    ensures forall l :: 0 <= l < |s.lns| ==> ListenerOk(s', s.lns[l])
  {
    hide Owned, Disjoint, FeedOk;
    forall l | 0 <= l < |s.lns| ensures ListenerOk(s', s.lns[l]) {
      assert ListenerOk(s, s.lns[l]);
    }
  }

  // A feed whose untaken connections are as they were, and its count too.
  lemma FeedCarries(s: State, s': State, f: nat, feed: Feed)
    requires FeedOk(s, f, feed) && MovedOn(s.conns, s'.conns)
    requires forall c: nat :: Waits(s.conns, f, c) ==> Waits(s'.conns, f, c)
    requires OpenConns(s'.conns, f) == OpenConns(s.conns, f)
    ensures FeedOk(s', f, feed)
  {
  }

  lemma OthersKeepCount(before: seq<Conn>, after: seq<Conn>, c: nat, f: nat)
    requires c < |before| && |after| == |before| && (forall d :: 0 <= d < |before| && d != c ==> after[d] == before[d])
    requires before[c].feed == after[c].feed
    requires before[c].feed != f || (after[c].received && !after[c].countedOut <==> before[c].received && !before[c].countedOut)
    ensures OpenConns(after, f) == OpenConns(before, f)
  {
  }

  /********** One listener changed, and takes nothing new **********/

  lemma ListenerChanged(s: State, l: nat, ln: Listener)
    requires Inv(s) && l < |s.lns| && ListenerOk(s, ln) && ln.taken == s.lns[l].taken
    ensures Inv(WithListener(s, l, ln))
  {
    hide FeedOk;
    var s' := WithListener(s, l, ln);
    forall f | 0 <= f < |s.feeds| ensures FeedOk(s', f, s.feeds[f]) {
      assert FeedOk(s, f, s.feeds[f]);
      FeedCarries(s, s', f, s.feeds[f]);
    }
    forall m | 0 <= m < |s.lns| ensures ListenerOk(s', s'.lns[m]) {
      assert m != l ==> ListenerOk(s, s.lns[m]);
    }
    forall c | 0 <= c < |s.conns| && s.conns[c].received ensures Taken(s'.lns, c) {
      var m :| 0 <= m < |s.lns| && c in s.lns[m].taken;
      assert c in s'.lns[m].taken;
    }
  }

  // A connection's close moved on: only its own flags changed, and only upwards.
  lemma ConnChanged(s: State, c: nat, conn: Conn)
    requires Inv(s) && c < |s.conns| && ConnOk(conn) && conn.feed == s.conns[c].feed && conn.received == s.conns[c].received
    requires conn.countedOut == s.conns[c].countedOut && (s.conns[c].removed ==> conn.removed) && (s.conns[c].wireClosed ==> conn.wireClosed)
    ensures Inv(WithConn(s, c, conn))
  {
    var s' := WithConn(s, c, conn);
    forall f | 0 <= f < |s.feeds| ensures OpenConns(s'.conns, f) == OpenConns(s.conns, f) {
    }
    forall l | 0 <= l < |s.lns| ensures ListenerOk(s', s'.lns[l]) {
      assert ListenerOk(s, s.lns[l]);
    }
    forall f | 0 <= f < |s.feeds| ensures FeedOk(s', f, s'.feeds[f]) {
      assert FeedOk(s, f, s.feeds[f]);
    }
  }

  // A feed's own flags changed.
  lemma FeedChanged(s: State, f: nat, feed: Feed)
    requires Inv(s) && f < |s.feeds| && feed.holding == s.feeds[f].holding && feed.dropped == s.feeds[f].dropped
    requires feed.open == s.feeds[f].open && (feed.done ==> feed.holding.None?)
    ensures Inv(WithFeed(s, f, feed))
  {
    var s' := WithFeed(s, f, feed);
    forall g | 0 <= g < |s.feeds| ensures FeedOk(s', g, s'.feeds[g]) {
      assert FeedOk(s, g, s.feeds[g]);
    }
    forall l | 0 <= l < |s.lns| ensures ListenerOk(s', s'.lns[l]) {
      assert ListenerOk(s, s.lns[l]);
    }
  }

  /********** Each step **********/

  lemma AcceptsKeeps(s: State, f: nat)
    requires Inv(s) && Enabled(s, FeedAccepts(f))
    ensures Inv(Step(s, FeedAccepts(f)))
  {
    hide ListenerOk, FeedOk;
    var s' := Step(s, FeedAccepts(f));
    ListenersCarry(s, s');
    forall g | 0 <= g < |s.feeds| ensures FeedOk(s', g, s'.feeds[g]) {
      assert FeedOk(s, g, s.feeds[g]);
      assert OpenConns(s'.conns, g) == OpenConns(s.conns, g);
      FeedCarries(s, s', g, s.feeds[g]);
      if g == f { FeedHolds(s', f, s.feeds[f], |s.conns|); }
    }
  }

  lemma FeedHolds(s: State, f: nat, feed: Feed, c: nat)
    requires FeedOk(s, f, feed) && Waits(s.conns, f, c) && c !in feed.dropped && !feed.done
    ensures FeedOk(s, f, feed.(holding := Some(c)))
  {
  }

  lemma DropsKeeps(s: State, f: nat)
    requires Inv(s) && Enabled(s, FeedDrops(f))
    ensures Inv(Step(s, FeedDrops(f)))
  {
    hide ListenerOk;
    var s' := Step(s, FeedDrops(f));
    var c := s.feeds[f].holding.value;
    assert FeedOk(s, f, s.feeds[f]);
    ListenersCarry(s, s');
    forall g | 0 <= g < |s.feeds| ensures FeedOk(s', g, s'.feeds[g]) {
      assert FeedOk(s, g, s.feeds[g]);
      OthersKeepCount(s.conns, s'.conns, c, g);
      FeedCarries(s, s', g, s.feeds[g]);
    }
  }

  lemma ConnsOk(s: State, c: nat)
    requires Inv(s) && c < |s.conns|
    ensures ConnOk(s.conns[c])
  {
  }

  // The feed the connection came from holds it no more, and counts it.
  lemma ReceivedFrom(s: State, l: nat)
    requires Inv(s) && Enabled(s, Receive(l))
    ensures var s' := Received(s, l); FeedOk(s', s.lns[l].feed, s'.feeds[s.lns[l].feed])
  {
    hide ListenerOk, Owned, Disjoint;
    var s' := Received(s, l);
    var f := s.lns[l].feed;
    var c := s.feeds[f].holding.value;
    assert FeedOk(s, f, s.feeds[f]);
    ConnsOk(s, c);
    assert OpenConns(s'.conns, f) == OpenConns(s.conns, f) + {c};
    forall d | d in s.feeds[f].dropped ensures Waits(s'.conns, f, d) && s'.conns[d].wireClosed {
      assert Waits(s.conns, f, d) && d != c;
    }
  }

  lemma ReceiveCounts(s: State, l: nat)
    requires Inv(s) && Enabled(s, Receive(l))
    ensures var s' := Received(s, l); forall g :: 0 <= g < |s.feeds| ==> FeedOk(s', g, s'.feeds[g])
  {
    hide ListenerOk, Owned, Disjoint, FeedOk, OpenConns;
    var s' := Received(s, l);
    var f := s.lns[l].feed;
    var c := s.feeds[f].holding.value;
    ReceivedFrom(s, l);
    HeldWaits(s, f);
    forall g | 0 <= g < |s.feeds| ensures FeedOk(s', g, s'.feeds[g]) {
      if g != f {
        assert FeedOk(s, g, s.feeds[g]);
        OthersKeepCount(s.conns, s'.conns, c, g);
        FeedCarries(s, s', g, s.feeds[g]);
      }
    }
  }

  lemma HeldWaits(s: State, f: nat)
    requires Inv(s) && f < |s.feeds| && s.feeds[f].holding.Some?
    ensures Waits(s.conns, f, s.feeds[f].holding.value)
  {
    assert FeedOk(s, f, s.feeds[f]);
  }

  lemma ReceiveOwns(s: State, l: nat)
    requires Inv(s) && Enabled(s, Receive(l))
    ensures Owned(Received(s, l))
  {
    hide ListenerOk;
    var s' := Received(s, l);
    var f := s.lns[l].feed;
    var c := s.feeds[f].holding.value;
    assert FeedOk(s, f, s.feeds[f]);
    assert c in s'.lns[l].taken;
    forall d | 0 <= d < |s.conns| && s.conns[d].received ensures Taken(s'.lns, d) {
      assert Taken(s.lns, d);
      var m :| 0 <= m < |s.lns| && d in s.lns[m].taken;
      assert d in s'.lns[m].taken;
    }
  }

  lemma ReceiveKeeps(s: State, l: nat)
    requires Inv(s) && Enabled(s, Receive(l))
    ensures Inv(Step(s, Receive(l)))
  {
    hide Owned;
    var s' := Received(s, l);
    var c := s.feeds[s.lns[l].feed].holding.value;
    ReceiveCounts(s, l);
    ReceiveOwns(s, l);
    ListenersCarry(s, s');
    assert FeedOk(s, s.lns[l].feed, s.feeds[s.lns[l].feed]) && !s.conns[c].received;
    forall m | 0 <= m < |s.lns| ensures c !in s.lns[m].taken {
      assert ListenerOk(s, s.lns[m]);
    }
  }

  lemma CountOutKeeps(s: State, l: nat, c: nat)
    requires Inv(s) && Enabled(s, CountOut(l, c))
    ensures Inv(Step(s, CountOut(l, c)))
  {
    hide FeedOk, ListenerOk;
    var s' := Step(s, CountOut(l, c));
    TakenIsReceived(s, l, c);
    CountOutCounts(s, l, c);
    ListenersCarry(s, s');
    forall d | 0 <= d < |s.conns| && s.conns[d].received ensures Taken(s'.lns, d) {
      assert Taken(s.lns, d);
    }
  }

  lemma TakenIsReceived(s: State, l: nat, c: nat)
    requires Inv(s) && l < |s.lns| && c in s.lns[l].taken
    ensures c < |s.conns| && s.conns[c].received
  {
    assert ListenerOk(s, s.lns[l]);
  }

  lemma CountOutCounts(s: State, l: nat, c: nat)
    requires Inv(s) && Enabled(s, CountOut(l, c)) && s.conns[c].received
    ensures var s' := Step(s, CountOut(l, c)); forall g :: 0 <= g < |s.feeds| ==> FeedOk(s', g, s'.feeds[g])
  {
    hide ListenerOk, Owned, Disjoint;
    var s' := Step(s, CountOut(l, c));
    var f := s.conns[c].feed;
    forall g | 0 <= g < |s.feeds| ensures FeedOk(s', g, s'.feeds[g]) {
      assert FeedOk(s, g, s.feeds[g]);
      if g != f {
        OthersKeepCount(s.conns, s'.conns, c, g);
        FeedCarries(s, s', g, s.feeds[g]);
      } else {
        assert OpenConns(s'.conns, f) == OpenConns(s.conns, f) - {c};
      }
    }
  }

  // Removed first from the connection's point of view, then from the set's.
  lemma RemoveKeeps(s: State, l: nat, c: nat)
    requires Inv(s) && Enabled(s, RemoveConn(l, c))
    ensures Inv(Step(s, RemoveConn(l, c)))
  {
    var s1 := WithConn(s, c, s.conns[c].(removed := true));
    ConnChanged(s, c, s.conns[c].(removed := true));
    assert ListenerOk(s1, s1.lns[l]);
    ListenerChanged(s1, l, Removed(s.lns[l], c));
    assert Step(s, RemoveConn(l, c)) == WithListener(s1, l, Removed(s.lns[l], c));
  }

  lemma BeginStopKeeps(s: State, last: bool)
    requires Inv(s) && Enabled(s, BeginStop(last))
    ensures Inv(Step(s, BeginStop(last)))
  {
    var s' := Step(s, BeginStop(last));
    forall g | 0 <= g < |s.feeds| ensures FeedOk(s', g, s'.feeds[g]) {
      assert FeedOk(s, g, s.feeds[g]);
    }
    forall l | 0 <= l < |s.lns| ensures ListenerOk(s', s'.lns[l]) {
      assert ListenerOk(s, s.lns[l]);
    }
  }

  lemma EndStopKeeps(s: State)
    requires Inv(s) && Enabled(s, EndStop)
    ensures Inv(Step(s, EndStop))
  {
    hide FeedOk;
    var s' := Step(s, EndStop);
    forall g | 0 <= g < |s.feeds| ensures FeedOk(s', g, s'.feeds[g]) {
      assert FeedOk(s, g, s.feeds[g]);
      FeedCarries(s, s', g, s.feeds[g]);
    }
    forall l | 0 <= l < |s.lns| ensures ListenerOk(s', s'.lns[l]) {
      assert ListenerOk(s, s.lns[l]);
    }
    forall c | 0 <= c < |s.conns| && s.conns[c].received ensures Taken(s'.lns, c) {
      var m :| 0 <= m < |s.lns| && c in s.lns[m].taken;
      assert c in s'.lns[m].taken;
    }
  }

  lemma ListenerStepKeeps(s: State, a: Action)
    requires Inv(s) && Enabled(s, a) && (a.Register? || a.RefusedDone? || a.Shut? || a.ShutOne? || a.ServeReturns?)
    ensures Inv(Step(s, a))
  {
    hide FeedOk, Owned, Disjoint;
    assert ListenerOk(s, s.lns[a.l]);
    var ln := Step(s, a).lns[a.l];
    if a.Register? || a.RefusedDone? || a.ShutOne? { assert a.c in s.lns[a.l].taken; }
    ListenerChanged(s, a.l, ln);
  }

  lemma NextKeeps(s: State, a: Action)
    requires Inv(s)
    ensures Inv(Next(s, a))
  {
    hide Inv;
    if Enabled(s, a) {
      match a
      case FeedAccepts(f) => AcceptsKeeps(s, f);
      case FeedFails(f) => FeedChanged(s, f, s.feeds[f].(done := true));
      case FeedCloses(f) => FeedClosesKeeps(s, f);
      case FeedDrops(f) => DropsKeeps(s, f);
      case Receive(l) => ReceiveKeeps(s, l);
      case CloseWire(l, c) => CloseWireKeeps(s, l, c);
      case CountOut(l, c) => CountOutKeeps(s, l, c);
      case RemoveConn(l, c) => RemoveKeeps(s, l, c);
      case BeginStop(last) => BeginStopKeeps(s, last);
      case EndStop => EndStopKeeps(s);
      case _ => ListenerStepKeeps(s, a);
    }
  }

  lemma FeedClosesKeeps(s: State, f: nat)
    requires Inv(s) && f < |s.feeds|
    ensures Inv(Step(s, FeedCloses(f)))
  {
    assert FeedOk(s, f, s.feeds[f]);
    FeedChanged(s, f, s.feeds[f].(closing := true));
  }

  lemma CloseWireKeeps(s: State, l: nat, c: nat)
    requires Inv(s) && Enabled(s, CloseWire(l, c))
    ensures Inv(Step(s, CloseWire(l, c)))
  {
    assert ListenerOk(s, s.lns[l]) && ConnOk(s.conns[c]);
    ConnChanged(s, c, s.conns[c].(wireClosed := true));
  }

  lemma {:induction false} RunKeeps(feeds: nat, acts: seq<Action>)
    ensures Inv(Exec(feeds, acts))
    decreases |acts|
  {
    if acts == [] {
      var s := Start(feeds);
      forall f | 0 <= f < |s.feeds| ensures FeedOk(s, f, s.feeds[f]) {
        assert OpenConns(s.conns, f) == {};
      }
    } else {
      RunKeeps(feeds, acts[..|acts| - 1]);
      NextKeeps(Exec(feeds, acts[..|acts| - 1]), acts[|acts| - 1]);
    }
  }

  /********** What it comes to **********/

  // Where a connection can be: with its feed, closed by its feed, or taken by a listener.
  predicate HeldByFeed(s: State, c: nat) {
    exists f :: 0 <= f < |s.feeds| && s.feeds[f].holding == Some(c)
  }

  predicate DroppedByFeed(s: State, c: nat) {
    exists f :: 0 <= f < |s.feeds| && c in s.feeds[f].dropped
  }

  // Every accepted connection has exactly one owner, ever: at most one listener
  // took it, and one that its feed holds or dropped nobody took.
  lemma OneOwner(feeds: nat, acts: seq<Action>, c: nat)
    requires c < |Exec(feeds, acts).conns|
    ensures var s := Exec(feeds, acts);
      && (Taken(s.lns, c) <==> !HeldByFeed(s, c) && !DroppedByFeed(s, c)) && !(HeldByFeed(s, c) && DroppedByFeed(s, c))
      && (forall l, m :: 0 <= l < |s.lns| && 0 <= m < |s.lns| && c in s.lns[l].taken && c in s.lns[m].taken ==> l == m)
  {
    hide Exec;
    RunKeeps(feeds, acts);
    OwnerIn(Exec(feeds, acts), c);
  }

  lemma OwnerIn(s: State, c: nat)
    requires Inv(s) && c < |s.conns|
    ensures Taken(s.lns, c) <==> !HeldByFeed(s, c) && !DroppedByFeed(s, c)
    ensures !(HeldByFeed(s, c) && DroppedByFeed(s, c))
    ensures forall l, m :: 0 <= l < |s.lns| && 0 <= m < |s.lns| && c in s.lns[l].taken && c in s.lns[m].taken ==> l == m
  {
    forall f | 0 <= f < |s.feeds| && (s.feeds[f].holding == Some(c) || c in s.feeds[f].dropped)
      ensures !s.conns[c].received && s.conns[c].feed == f
    {
      assert FeedOk(s, f, s.feeds[f]);
    }
    if Taken(s.lns, c) {
      var l :| 0 <= l < |s.lns| && c in s.lns[l].taken;
      assert ListenerOk(s, s.lns[l]);
    }
    if !s.conns[c].received {
      var f := s.conns[c].feed;
      assert s.feeds[f].holding == Some(c) || c in s.feeds[f].dropped;
      assert FeedOk(s, f, s.feeds[f]);
    }
  }

  // The open count is the number of connections taken and not yet counted out.
  lemma OpenIsExact(feeds: nat, acts: seq<Action>, f: nat)
    requires f < |Exec(feeds, acts).feeds|
    ensures var s := Exec(feeds, acts); s.feeds[f].open == |OpenConns(s.conns, f)|
  {
    RunKeeps(feeds, acts);
    assert FeedOk(Exec(feeds, acts), f, Exec(feeds, acts).feeds[f]);
  }

  // Whatever an older generation took is closed, counted out and forgotten while
  // the current one serves; and after the last stop, whatever any of them took.
  lemma OldConnectionsClosed(feeds: nat, acts: seq<Action>, l: nat, c: nat)
    requires var s := Exec(feeds, acts);
      l < |s.lns| && c in s.lns[l].taken && (s.lns[l].gen < s.gen || s.phase.Stopped?)
    ensures var s := Exec(feeds, acts);
      c < |s.conns| && s.conns[c].wireClosed && s.conns[c].countedOut && s.conns[c].removed && s.lns[l].conns == {}
  {
    hide Exec;
    RunKeeps(feeds, acts);
    var s := Exec(feeds, acts);
    assert ListenerOk(s, s.lns[l]);
    assert ConnOk(s.conns[c]);
  }

  // The new list is served only by listeners that took nothing before: the step
  // that starts it finds every connection ever taken closed.
  lemma ServedAfterClosed(feeds: nat, acts: seq<Action>, c: nat)
    requires var s := Exec(feeds, acts); Enabled(s, EndStop) && c < |s.conns| && s.conns[c].received
    ensures Exec(feeds, acts).conns[c].wireClosed && Exec(feeds, acts).conns[c].countedOut
  {
    hide Exec;
    RunKeeps(feeds, acts);
    OverIsClosed(Exec(feeds, acts), c);
  }

  lemma OverIsClosed(s: State, c: nat)
    requires Inv(s) && GenerationOver(s) && c < |s.conns| && s.conns[c].received
    ensures s.conns[c].wireClosed && s.conns[c].countedOut
  {
    hide FeedOk, Disjoint;
    assert Taken(s.lns, c) && ConnOk(s.conns[c]);
    var l :| 0 <= l < |s.lns| && c in s.lns[l].taken;
    assert ListenerOk(s, s.lns[l]) && Over(s.lns[l]);
  }

  // Once the server has stopped and a feed's accepting has ended, every
  // connection it ever accepted is closed.
  lemma NothingLeftOpen(feeds: nat, acts: seq<Action>, c: nat)
    requires var s := Exec(feeds, acts);
      s.phase.Stopped? && c < |s.conns| && s.conns[c].feed < |s.feeds| && s.feeds[s.conns[c].feed].done
    ensures Exec(feeds, acts).conns[c].wireClosed
  {
    hide Exec;
    RunKeeps(feeds, acts);
    var s := Exec(feeds, acts);
    if s.conns[c].received {
      var l :| 0 <= l < |s.lns| && c in s.lns[l].taken;
      assert ListenerOk(s, s.lns[l]) && ConnOk(s.conns[c]);
    } else {
      assert FeedOk(s, s.conns[c].feed, s.feeds[s.conns[c].feed]);
    }
  }

  /********** What a listener's set holds **********/

  // Nothing that is closed for good is in a set, or still to be put in one.
  ghost predicate LiveSets(s: State) {
    forall l :: 0 <= l < |s.lns| ==> LiveSet(s, s.lns[l])
  }

  ghost predicate LiveSet(s: State, ln: Listener) {
    ln.conns !! ln.pending && forall c :: c in ln.conns + ln.pending ==> c < |s.conns| && !s.conns[c].removed
  }

  // Whatever a listener has it took.
  lemma TakenOnce(s: State, l: nat, m: nat, c: nat)
    requires Inv(s) && l < |s.lns| && m < |s.lns| && l != m && c in s.lns[l].taken
    ensures c !in s.lns[m].conns + s.lns[m].pending
  {
    assert ListenerOk(s, s.lns[m]);
    if l < m { assert s.lns[l].taken !! s.lns[m].taken; } else { assert s.lns[m].taken !! s.lns[l].taken; }
  }

  lemma StillLive(s: State, s': State, ln: Listener)
    requires LiveSet(s, ln) && |s.conns| <= |s'.conns|
    requires forall c :: 0 <= c < |s.conns| && s'.conns[c].removed && !s.conns[c].removed ==> c !in ln.conns + ln.pending
    ensures LiveSet(s', ln)
  {
  }

  lemma ReceivedIsLive(s: State, l: nat)
    requires Inv(s) && LiveSets(s) && Enabled(s, Receive(l))
    ensures LiveSets(Received(s, l))
  {
    var s' := Received(s, l);
    var c := s.feeds[s.lns[l].feed].holding.value;
    HeldWaits(s, s.lns[l].feed);
    ConnsOk(s, c);
    forall m | 0 <= m < |s'.lns| ensures LiveSet(s', s'.lns[m]) {
      assert LiveSet(s, s.lns[m]) && ListenerOk(s, s.lns[m]);
      hide Inv, ListenerOk, FeedOk, Owned;
      StillLive(s, s', s.lns[m]);
    }
  }

  // The one that took it is the only one that could have it in its set.
  lemma RemovedIsLive(s: State, l: nat, c: nat)
    requires Inv(s) && LiveSets(s) && Enabled(s, RemoveConn(l, c))
    ensures LiveSets(Step(s, RemoveConn(l, c)))
  {
    hide Inv;
    var s' := Step(s, RemoveConn(l, c));
    forall m | 0 <= m < |s'.lns| ensures LiveSet(s', s'.lns[m]) {
      var ln, ln' := s.lns[m], s'.lns[m];
      assert LiveSet(s, ln);
      assert ln'.pending == ln.pending && ln'.conns == (if m == l then ln.conns - {c} else ln.conns);
      if m == l { assert c !in ln.pending; } else { TakenOnce(s, l, m, c); }
      assert c !in ln'.conns + ln'.pending;
      forall d | d in ln'.conns + ln'.pending ensures d < |s'.conns| && !s'.conns[d].removed {
        assert d in ln.conns + ln.pending && s'.conns[d] == s.conns[d];
      }
    }
  }

  // A step that closes nothing for good, and hands a listener only what it had.
  lemma OtherIsLive(s: State, a: Action)
    requires LiveSets(s) && Enabled(s, a) && !a.Receive? && !a.RemoveConn? && !a.EndStop?
    ensures LiveSets(Step(s, a))
  {
    var s' := Step(s, a);
    assert |s'.lns| == |s.lns| && |s.conns| <= |s'.conns|;
    forall m | 0 <= m < |s'.lns| ensures LiveSet(s', s'.lns[m]) {
      var ln, ln' := s.lns[m], s'.lns[m];
      assert LiveSet(s, ln);
      assert ln'.conns + ln'.pending <= ln.conns + ln.pending && ln'.conns !! ln'.pending;
      assert forall c :: 0 <= c < |s.conns| ==> s'.conns[c].removed == s.conns[c].removed;
    }
  }

  lemma EndIsLive(s: State)
    requires LiveSets(s) && Enabled(s, EndStop)
    ensures LiveSets(Step(s, EndStop))
  {
    hide GenerationOver;
    var s' := Step(s, EndStop);
    forall m | 0 <= m < |s'.lns| ensures LiveSet(s', s'.lns[m]) {
      if m < |s.lns| { assert s'.lns[m] == s.lns[m] && LiveSet(s, s.lns[m]); }
    }
  }

  lemma {:induction false} RunIsLive(feeds: nat, acts: seq<Action>)
    ensures LiveSets(Exec(feeds, acts))
    decreases |acts|
  {
    hide Inv, Step, LiveSet;
    if acts == [] {
      StartIsLive(feeds);
    } else {
      var s, a := Exec(feeds, acts[..|acts| - 1]), acts[|acts| - 1];
      RunIsLive(feeds, acts[..|acts| - 1]);
      RunKeeps(feeds, acts[..|acts| - 1]);
      if Enabled(s, a) {
        match a
        case Receive(l) => ReceivedIsLive(s, l); ReceiveIs(s, l);
        case RemoveConn(l, c) => RemovedIsLive(s, l, c);
        case EndStop => EndIsLive(s);
        case _ => OtherIsLive(s, a);
      }
    }
  }

  lemma StartIsLive(feeds: nat)
    ensures LiveSets(Start(feeds))
  {
  }

  lemma ReceiveIs(s: State, l: nat)
    requires Enabled(s, Receive(l))
    ensures Step(s, Receive(l)) == Received(s, l)
  {
  }

  // Over every run, while a listener has not been stopped its set is exactly what
  // it took and let in and nobody has closed for good; after that it is empty.
  lemma SetIsExact(feeds: nat, acts: seq<Action>, l: nat, c: nat)
    requires l < |Exec(feeds, acts).lns| && c < |Exec(feeds, acts).conns|
    ensures var s := Exec(feeds, acts);
      var ln := s.lns[l];
      c in ln.conns <==> !ln.stop && c in ln.taken && c !in ln.pending && !s.conns[c].removed
  {
    hide Exec;
    RunKeeps(feeds, acts);
    RunIsLive(feeds, acts);
    var s := Exec(feeds, acts);
    assert ListenerOk(s, s.lns[l]) && LiveSet(s, s.lns[l]);
  }
}
