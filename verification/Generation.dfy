/** Who owns a connection while generations of protocol servers replace each
    other over sockets that stay open. Every action is one step between two
    points where another goroutine may run. */
module Generation {
  import opened Wrappers

  // received: a listener took it. Closing it closes the wire, counts it out
  // once, and removes it from its listener's set.
  datatype Conn = Conn(feed: nat, received: bool, wireClosed: bool, countedOut: bool, removed: bool)

  // holding: accepted and not yet handed on. dropped: closed by the feed itself.
  datatype Feed = Feed(open: int, closing: bool, done: bool, holding: Option<nat>, dropped: set<nat>)

  // conns is the listener's set. pending: received inside Accept, before its
  // lock; refused: found stopped there, being closed by Accept. shutting: what
  // shut took from the set and has yet to close. taken: everything received.
  datatype Listener = Listener(
    feed: nat, gen: nat, serving: bool, stop: bool, conns: set<nat>,
    pending: set<nat>, refused: set<nat>, shutting: set<nat>, taken: set<nat>)

  datatype Phase = Serving | Stopping(last: bool) | Stopped

  datatype State = State(feeds: seq<Feed>, lns: seq<Listener>, conns: seq<Conn>, gen: nat, phase: Phase)

  datatype Action =
    | FeedAccepts(f: nat)
    | FeedFails(f: nat)
    | FeedCloses(f: nat)
    | FeedDrops(f: nat)
    | Receive(l: nat)
    | Register(l: nat, c: nat)
    | RefusedDone(l: nat, c: nat)
    | CloseWire(l: nat, c: nat)
    | CountOut(l: nat, c: nat)
    | RemoveConn(l: nat, c: nat)
    | Shut(l: nat)
    | ShutOne(l: nat, c: nat)
    | ServeReturns(l: nat)
    | BeginStop(last: bool)
    | EndStop

  /********** The sections a lock makes one step **********/

  // Accept, locked: a listener stopped since the receive must not serve it.
  function Registered(ln: Listener, c: nat): Listener {
    if ln.stop then ln.(pending := ln.pending - {c}, refused := ln.refused + {c})
    else ln.(pending := ln.pending - {c}, conns := ln.conns + {c})
  }

  // shut, locked: the set is taken once.
  function ShutLocked(ln: Listener): Listener {
    if ln.stop then ln else ln.(stop := true, conns := {}, shutting := ln.conns)
  }

  function Removed(ln: Listener, c: nat): Listener {
    ln.(conns := ln.conns - {c})
  }

  // What stop waits for: every listener shut, and its serve function returned.
  predicate Over(ln: Listener) {
    ln.stop && ln.shutting == {} && !ln.serving
  }

  predicate GenerationOver(s: State) {
    forall l :: 0 <= l < |s.lns| && s.lns[l].gen == s.gen ==> Over(s.lns[l])
  }

  // One listener per feed.
  function StartGeneration(s: State): seq<Listener> {
    seq(|s.feeds|, f requires 0 <= f < |s.feeds| => Listener(f, s.gen + 1, true, false, {}, {}, {}, {}, {}))
  }

  // A connection of l that somebody may be closing: its server, shut, or Accept.
  predicate MayClose(s: State, l: nat, c: nat) {
    l < |s.lns| && c < |s.conns| && c in s.lns[l].taken && c !in s.lns[l].pending
  }

  /********** The steps **********/

  predicate Enabled(s: State, a: Action) {
    match a
    case FeedAccepts(f) => f < |s.feeds| && !s.feeds[f].done && s.feeds[f].holding.None?
    case FeedFails(f) => f < |s.feeds| && !s.feeds[f].done && s.feeds[f].holding.None?
    case FeedCloses(f) => f < |s.feeds|
    case FeedDrops(f) => f < |s.feeds| && s.feeds[f].closing && s.feeds[f].holding.Some? && s.feeds[f].holding.value < |s.conns|
    case Receive(l) =>
      && l < |s.lns| && s.lns[l].serving && s.lns[l].feed < |s.feeds|
      && s.feeds[s.lns[l].feed].holding.Some? && s.feeds[s.lns[l].feed].holding.value < |s.conns|
    case Register(l, c) => l < |s.lns| && c in s.lns[l].pending
    case RefusedDone(l, c) => l < |s.lns| && c < |s.conns| && c in s.lns[l].refused && s.conns[c].removed
    case CloseWire(l, c) => MayClose(s, l, c)
    case CountOut(l, c) => MayClose(s, l, c) && s.conns[c].wireClosed && !s.conns[c].countedOut && s.conns[c].feed < |s.feeds|
    case RemoveConn(l, c) => MayClose(s, l, c) && s.conns[c].countedOut && !s.conns[c].removed
    case Shut(l) => l < |s.lns|
    case ShutOne(l, c) => l < |s.lns| && c < |s.conns| && c in s.lns[l].shutting && s.conns[c].removed
    case ServeReturns(l) => l < |s.lns| && s.lns[l].pending == {} && s.lns[l].refused == {}
    case BeginStop(last) => s.phase.Serving?
    case EndStop => s.phase.Stopping? && GenerationOver(s)
  }

  function WithFeed(s: State, f: nat, feed: Feed): State
    requires f < |s.feeds|
  {
    s.(feeds := s.feeds[f := feed])
  }

  function WithListener(s: State, l: nat, ln: Listener): State
    requires l < |s.lns|
  {
    s.(lns := s.lns[l := ln])
  }

  function WithConn(s: State, c: nat, conn: Conn): State
    requires c < |s.conns|
  {
    s.(conns := s.conns[c := conn])
  }

  function Received(s: State, l: nat): State
    requires Enabled(s, Receive(l))
  {
    var ln := s.lns[l];
    var feed := s.feeds[ln.feed];
    var c := feed.holding.value;
    s.(feeds := s.feeds[ln.feed := feed.(holding := None, open := feed.open + 1)],
       lns := s.lns[l := ln.(pending := ln.pending + {c}, taken := ln.taken + {c})],
       conns := s.conns[c := s.conns[c].(received := true)])
  }

  function Step(s: State, a: Action): State
    requires Enabled(s, a)
  {
    match a
    case FeedAccepts(f) =>
      WithFeed(s, f, s.feeds[f].(holding := Some(|s.conns|))).(conns := s.conns + [Conn(f, false, false, false, false)])
    case FeedFails(f) => WithFeed(s, f, s.feeds[f].(done := true))
    case FeedCloses(f) => WithFeed(s, f, s.feeds[f].(closing := true))
    case FeedDrops(f) =>
      var c := s.feeds[f].holding.value;
      WithConn(WithFeed(s, f, s.feeds[f].(holding := None, done := true, dropped := s.feeds[f].dropped + {c})),
               c, s.conns[c].(wireClosed := true))
    case Receive(l) => Received(s, l)
    case Register(l, c) => WithListener(s, l, Registered(s.lns[l], c))
    case RefusedDone(l, c) => WithListener(s, l, s.lns[l].(refused := s.lns[l].refused - {c}))
    case CloseWire(l, c) => WithConn(s, c, s.conns[c].(wireClosed := true))
    case CountOut(l, c) =>
      var f := s.conns[c].feed;
      WithConn(WithFeed(s, f, s.feeds[f].(open := s.feeds[f].open - 1)), c, s.conns[c].(countedOut := true))
    case RemoveConn(l, c) => WithConn(WithListener(s, l, Removed(s.lns[l], c)), c, s.conns[c].(removed := true))
    case Shut(l) => WithListener(s, l, ShutLocked(s.lns[l]))
    case ShutOne(l, c) => WithListener(s, l, s.lns[l].(shutting := s.lns[l].shutting - {c}))
    case ServeReturns(l) => WithListener(s, l, s.lns[l].(serving := false))
    case BeginStop(last) =>
      s.(phase := Stopping(last),
         feeds := if last then seq(|s.feeds|, f requires 0 <= f < |s.feeds| => s.feeds[f].(closing := true)) else s.feeds)
    case EndStop =>
      if s.phase.last then s.(phase := Stopped)
      else s.(phase := Serving, lns := s.lns + StartGeneration(s), gen := s.gen + 1)
  }

  function Next(s: State, a: Action): State {
    if Enabled(s, a) then Step(s, a) else s
  }

  function Start(feeds: nat): State {
    var s := State(seq(feeds, f => Feed(0, false, false, None, {})), [], [], 0, Serving);
    s.(lns := StartGeneration(s), gen := 1)
  }

  function Exec(feeds: nat, acts: seq<Action>): State
    decreases |acts|
  {
    if acts == [] then Start(feeds) else Next(Exec(feeds, acts[..|acts| - 1]), acts[|acts| - 1])
  }

  /********** The locked sections, in place **********/

  class GenListener {
    const feed: nat
    const gen: nat
    var serving: bool
    var stop: bool
    var conns: set<nat>
    ghost var pending: set<nat>
    ghost var refused: set<nat>
    var shutting: set<nat>
    ghost var taken: set<nat>

    ghost function View(): Listener
      reads this
    {
      Listener(feed, gen, serving, stop, conns, pending, refused, shutting, taken)
    }

    constructor (f: nat, n: nat)
      ensures View() == Listener(f, n, true, false, {}, {}, {}, {}, {})
    {
      feed, gen, serving, stop := f, n, true, false;
      conns, pending, refused, shutting, taken := {}, {}, {}, {}, {};
    }

    method AcceptLocked(c: nat) returns (refuse: bool)
      modifies this
      ensures View() == Registered(old(View()), c) && refuse == old(stop)
    {
      refuse := stop;
      pending := pending - {c};
      if stop { refused := refused + {c}; } else { conns := conns + {c}; }
    }

    method ShutSection()
      modifies this
      ensures View() == ShutLocked(old(View()))
    {
      if stop { return; }
      stop := true;
      shutting := conns;
      conns := {};
    }

    method RemoveLocked(c: nat)
      modifies this
      ensures View() == Removed(old(View()), c)
    {
      conns := conns - {c};
    }
  }
}
