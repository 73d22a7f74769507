/** The pool with a clock: how long a worker has gone unused when an idle timer
    closes it. */
module WorkerPoolIdle {
  import opened Wrappers
  import opened WorkerPools
  import opened WorkerPoolRuns

  // armed, fired: when each timer was set and, once it has, when it fired. used:
  // when each worker was last acquired or released.
  datatype Clock = Clock(now: nat, armed: seq<nat>, fired: map<TimerId, nat>, used: seq<nat>)

  datatype Timed = Timed(s: State, clock: Clock)

  datatype Event = Wait(span: nat) | Do(action: Action)

  // A timer does not fire before its time is up; how much later it does, and
  // how much later its callback runs, is open.
  predicate Due(idle: nat, c: Clock, a: Action) {
    a.Fire? && a.timer < |c.armed| ==> c.armed[a.timer] + idle <= c.now
  }

  // What a step that takes the pool from p to q leaves on record.
  ghost function Noted(p: Pool, q: Pool, c: Clock, a: Action): Clock
    requires |c.armed| == |p.timers| <= |q.timers| && |c.used| == |p.workers| <= |q.workers|
  {
    Clock(
      c.now,
      seq(|q.timers|, t requires 0 <= t < |q.timers| => if t < |c.armed| then c.armed[t] else c.now),
      if a.Fire? && a.timer < |p.timers| && p.timers[a.timer].state.Armed? then c.fired[a.timer := c.now] else c.fired,
      seq(|q.workers|, w requires 0 <= w < |q.workers| =>
        if w < |p.workers| && q.workers[w].refs == p.workers[w].refs then c.used[w] else c.now))
  }

  ghost predicate Recorded(p: Pool, c: Clock) {
    |c.armed| == |p.timers| && |c.used| == |p.workers|
  }

  // One timer's share: an armed one is its worker's current one, a firing one
  // has run its time and is the current one or the worker was used since.
  ghost predicate TimerOk(idle: nat, p: Pool, c: Clock, t: TimerId)
    requires Recorded(p, c) && t < |p.timers| && p.timers[t].worker < |p.workers|
  {
    var w := p.timers[t].worker;
    && (p.timers[t].state.Armed? ==> p.workers[w].timer == Some(t))
    && (p.timers[t].state.Firing? ==>
          && t in c.fired && c.armed[t] + idle <= c.fired[t] <= c.now
          && (p.workers[w].timer == Some(t) || c.fired[t] <= c.used[w]))
  }

  // One worker's: its current timer was set when it was last used, and it is unused.
  ghost predicate LastOk(p: Pool, c: Clock, w: WorkerId)
    requires Recorded(p, c) && w < |p.workers|
  {
    && c.used[w] <= c.now
    && (p.workers[w].timer.Some? ==>
          p.workers[w].refs <= 0 && p.workers[w].timer.value < |c.armed| && c.armed[p.workers[w].timer.value] == c.used[w])
  }

  ghost predicate ClockOk(idle: nat, p: Pool, c: Clock)
    requires ValidPool(p)
  {
    && Recorded(p, c)
    && (forall t :: 0 <= t < |p.timers| ==> TimerOk(idle, p, c, t))
    && (forall w :: 0 <= w < |p.workers| ==> LastOk(p, c, w))
  }

  ghost predicate Steady(idle: nat, x: Timed) {
    Inv(x.s) && ClockOk(idle, x.s.pool, x.clock)
  }

  /********** Every step keeps it **********/

  // No use begins or ends, no timer is set, and timers only come to an end.
  ghost predicate Quiet(p: Pool, q: Pool) {
    && |q.timers| == |p.timers| && |q.workers| == |p.workers|
    && (forall w :: 0 <= w < |p.workers| ==> q.workers[w].refs == p.workers[w].refs && q.workers[w].timer == p.workers[w].timer)
    && (forall t :: 0 <= t < |p.timers| ==>
          q.timers[t].worker == p.timers[t].worker && (q.timers[t].state == p.timers[t].state || q.timers[t].state.Over?))
  }

  lemma QuietStep(idle: nat, p: Pool, q: Pool, c: Clock, a: Action)
    requires ValidPool(p) && ValidPool(q) && ClockOk(idle, p, c) && Quiet(p, q) && !a.Fire?
    ensures ClockOk(idle, q, Noted(p, q, c, a))
  {
    var d := Noted(p, q, c, a);
    assert d.armed == c.armed && d.used == c.used;
    forall t | 0 <= t < |q.timers| ensures TimerOk(idle, q, d, t) {
      assert TimerOk(idle, p, c, t);
    }
    forall w | 0 <= w < |q.workers| ensures LastOk(q, d, w) {
      assert LastOk(p, c, w);
    }
  }

  lemma StartStep(idle: nat, p: Pool, c: Clock, k: Key, now: int, a: Action)
    requires ValidPool(p) && ClockOk(idle, p, c) && Acquire(p, k, now).1.Start? && !a.Fire?
    ensures ValidPool(Acquire(p, k, now).0) && ClockOk(idle, Acquire(p, k, now).0, Noted(p, Acquire(p, k, now).0, c, a))
  {
    var q := Acquire(p, k, now).0;
    var d := Noted(p, q, c, a);
    forall t | 0 <= t < |q.timers| ensures TimerOk(idle, q, d, t) {
      assert TimerOk(idle, p, c, t);
    }
    forall w | 0 <= w < |q.workers| ensures LastOk(q, d, w) {
      if w < |p.workers| { assert LastOk(p, c, w); }
    }
  }

  // Taking an unused worker stops its timer; one that fired already goes on.
  lemma JoinStep(idle: nat, p: Pool, c: Clock, k: Key, now: int, a: Action)
    requires ValidPool(p) && ClockOk(idle, p, c) && Acquire(p, k, now).1.Join? && !a.Fire?
    ensures ValidPool(Acquire(p, k, now).0) && ClockOk(idle, Acquire(p, k, now).0, Noted(p, Acquire(p, k, now).0, c, a))
  {
    var q := Acquire(p, k, now).0;
    var d := Noted(p, q, c, a);
    forall t | 0 <= t < |q.timers| ensures TimerOk(idle, q, d, t) {
      assert TimerOk(idle, p, c, t);
    }
    forall w | 0 <= w < |q.workers| ensures LastOk(q, d, w) {
      assert LastOk(p, c, w);
    }
  }

  // A release: one use ends now, and perhaps one timer is set now.
  lemma ReleaseShape(p: Pool, w: WorkerId)
    requires ValidPool(p) && w < |p.workers|
    ensures var q := Release(p, w);
      && ValidPool(q) && |q.workers| == |p.workers|
      && q.workers == p.workers[w := p.workers[w].(refs := p.workers[w].refs - 1, timer := q.workers[w].timer)]
      && (if |q.timers| == |p.timers| then q.timers == p.timers && q.workers[w].timer == p.workers[w].timer
          else q.timers == p.timers + [Timer(w, Armed)] && q.workers[w].timer == Some(|p.timers|) && q.workers[w].refs <= 0)
  {
  }

  lemma ReleaseNoted(p: Pool, q: Pool, c: Clock, w: WorkerId, a: Action)
    requires Recorded(p, c) && w < |p.workers| == |q.workers| && |p.timers| <= |q.timers| <= |p.timers| + 1 && !a.Fire?
    requires q.workers[w].refs != p.workers[w].refs && forall v :: 0 <= v < |p.workers| && v != w ==> q.workers[v] == p.workers[v]
    ensures Noted(p, q, c, a) == Clock(c.now, if |q.timers| == |p.timers| then c.armed else c.armed + [c.now], c.fired, c.used[w := c.now])
  {
  }

  lemma ReleaseTimers(idle: nat, p: Pool, c: Clock, w: WorkerId, q: Pool, d: Clock, t: TimerId)
    requires ValidPool(p) && ClockOk(idle, p, c) && w < |p.workers| && p.workers[w].timer == None && t < |p.timers|
    requires Recorded(q, d) && |q.timers| >= |p.timers| && q.timers[t] == p.timers[t] && |q.workers| == |p.workers|
    requires forall v :: 0 <= v < |p.workers| && v != w ==> q.workers[v] == p.workers[v]
    requires d.now == c.now && d.fired == c.fired && c.armed <= d.armed && d.used == c.used[w := c.now]
    ensures TimerOk(idle, q, d, t)
  {
    assert TimerOk(idle, p, c, t);
  }

  lemma ReleaseStep(idle: nat, p: Pool, c: Clock, w: WorkerId, a: Action)
    requires ValidPool(p) && ClockOk(idle, p, c) && w < |p.workers| && p.workers[w].refs > 0 && !a.Fire?
    ensures ValidPool(Release(p, w)) && ClockOk(idle, Release(p, w), Noted(p, Release(p, w), c, a))
  {
    ReleaseShape(p, w);
    var q := Release(p, w);
    ReleaseNoted(p, q, c, w, a);
    var d := Noted(p, q, c, a);
    hide Release, Noted;
    assert LastOk(p, c, w);
    forall t | 0 <= t < |q.timers| ensures TimerOk(idle, q, d, t) {
      if t < |p.timers| { ReleaseTimers(idle, p, c, w, q, d, t); }
    }
    forall v | 0 <= v < |q.workers| ensures LastOk(q, d, v) {
      assert LastOk(p, c, v);
    }
  }

  lemma FireStep(idle: nat, p: Pool, c: Clock, t: TimerId)
    requires ValidPool(p) && ClockOk(idle, p, c) && t < |p.timers| && p.timers[t].state.Armed? && Due(idle, c, Fire(t))
    ensures var q := p.(timers := p.timers[t := p.timers[t].(state := Firing)]);
      ValidPool(q) && ClockOk(idle, q, Noted(p, q, c, Fire(t)))
  {
    var q := p.(timers := p.timers[t := p.timers[t].(state := Firing)]);
    var d := Noted(p, q, c, Fire(t));
    forall u | 0 <= u < |q.timers| ensures TimerOk(idle, q, d, u) {
      assert TimerOk(idle, p, c, u);
    }
    forall w | 0 <= w < |q.workers| ensures LastOk(q, d, w) {
      assert LastOk(p, c, w);
    }
  }

  // Whoever releases holds.
  lemma HolderCounts(s: State, t: ThreadId)
    requires Inv(s) && t < |s.threads| && (s.threads[t].FoundDead? || s.threads[t].Holding?)
    ensures s.threads[t].worker < |s.pool.workers| && s.pool.workers[s.threads[t].worker].refs > 0
  {
    var w := s.threads[t].worker;
    assert Known(s.pool, s.threads[t]) && WorkerOk(s.pool, s.threads, w);
    assert t in Holders(s.threads, w);
  }

  lemma ResetQuiet(p: Pool)
    requires ValidPool(p)
    ensures Quiet(p, Reset(p))
  {
  }

  lemma MostlyQuiet(s: State, a: Action)
    requires WellFormed(s) && Enabled(s, a) && !a.Enter? && !a.ReleaseDead? && !a.ReleaseIt? && !a.Fire?
    ensures Quiet(s.pool, Next(s, a).pool)
  {
    hide Reset, Acquire, Release;
    if a.ResetCall? || a.CloseReset? {
      ResetQuiet(s.pool);
      hide Quiet;
    }
  }

  lemma CallerStep(idle: nat, x: Timed, a: Action)
    requires Steady(idle, x) && Enabled(x.s, a) && (a.Enter? || a.ReleaseDead? || a.ReleaseIt?)
    ensures var q := Next(x.s, a).pool;
      && |q.timers| >= |x.s.pool.timers| && |q.workers| >= |x.s.pool.workers|
      && ValidPool(q) && ClockOk(idle, q, Noted(x.s.pool, q, x.clock, a))
  {
    var p, c := x.s.pool, x.clock;
    hide ClockOk, Noted, WorkerOk, Quiet, Release;
    if a.Enter? {
      var k := x.s.threads[a.thread].key;
      match Acquire(p, k, a.now).1
      case Refused(_) =>
        RefusedQuiet(p, k, a.now);
        QuietStep(idle, p, Acquire(p, k, a.now).0, c, a);
      case Start(_) => StartStep(idle, p, c, k, a.now, a);
      case Join(_) => JoinStep(idle, p, c, k, a.now, a);
    } else {
      var w := x.s.threads[a.thread].worker;
      HolderCounts(x.s, a.thread);
      ReleaseStep(idle, p, c, w, a);
      ReleaseGrows(p, w);
    }
  }

  lemma ReleaseGrows(p: Pool, w: WorkerId)
    requires w < |p.workers|
    ensures |Release(p, w).timers| >= |p.timers| && |Release(p, w).workers| == |p.workers|
  {
  }

  lemma RefusedQuiet(p: Pool, k: Key, now: int)
    requires ValidPool(p) && Acquire(p, k, now).1.Refused?
    ensures Quiet(p, Acquire(p, k, now).0) && ValidPool(Acquire(p, k, now).0)
  {
  }

  lemma StepKeeps(idle: nat, x: Timed, a: Action)
    requires Steady(idle, x) && Due(idle, x.clock, a) && Enabled(x.s, a)
    ensures var s' := Next(x.s, a);
      && Inv(s') && |s'.pool.timers| >= |x.s.pool.timers| && |s'.pool.workers| >= |x.s.pool.workers|
      && ClockOk(idle, s'.pool, Noted(x.s.pool, s'.pool, x.clock, a))
  {
    WorkerPoolRuns.NextKeeps(x.s, a);
    hide ClockOk, Noted, Acquire, Release, WorkerOk;
    if a.Enter? || a.ReleaseDead? || a.ReleaseIt? {
      CallerStep(idle, x, a);
    } else if a.Fire? {
      FireStep(idle, x.s.pool, x.clock, a.timer);
    } else {
      MostlyQuiet(x.s, a);
      QuietStep(idle, x.s.pool, Next(x.s, a).pool, x.clock, a);
    }
  }

  /********** Runs **********/

  lemma WaitKeeps(idle: nat, p: Pool, c: Clock, span: nat)
    requires ValidPool(p) && ClockOk(idle, p, c)
    ensures ClockOk(idle, p, c.(now := c.now + span))
  {
    var d := c.(now := c.now + span);
    forall t | 0 <= t < |p.timers| ensures TimerOk(idle, p, d, t) {
      assert TimerOk(idle, p, c, t);
    }
    forall w | 0 <= w < |p.workers| ensures LastOk(p, d, w) {
      assert LastOk(p, c, w);
    }
  }

  // A wait, or a step that is due; one that is not, or not possible, changes nothing.
  ghost function After(idle: nat, x: Timed, e: Event): (y: Timed)
    requires Steady(idle, x)
    ensures Steady(idle, y)
  {
    match e
    case Wait(span) =>
      WaitKeeps(idle, x.s.pool, x.clock, span);
      x.(clock := x.clock.(now := x.clock.now + span))
    case Do(a) =>
      if !Enabled(x.s, a) || !Due(idle, x.clock, a) then x
      else
        StepKeeps(idle, x, a);
        Timed(Next(x.s, a), Noted(x.s.pool, Next(x.s, a).pool, x.clock, a))
  }

  const BEGIN := Timed(INITIAL, Clock(0, [], map[], []))

  ghost function Run(idle: nat, events: seq<Event>): (x: Timed)
    ensures Steady(idle, x)
    decreases |events|
  {
    if events == [] then
      assert Exec([]) == INITIAL;
      BEGIN
    else After(idle, Run(idle, events[..|events| - 1]), events[|events| - 1])
  }

  // The callback of the timer is about to take the worker out of the map, to close it.
  ghost predicate ClosesIdle(x: Timed, t: TimerId, w: WorkerId)
    requires ValidPool(x.s.pool)
  {
    t < |x.s.pool.timers| && x.s.pool.timers[t].state.Firing? && x.s.pool.timers[t].worker == w && Expire(x.s.pool, t).1
  }

  // Over every run, however late timers fire and callbacks run: a worker an idle
  // timer closes is held by nobody, and had been unused for idle when that timer
  // fired -- unless it was taken and released again between then and the
  // callback, when a newer timer is its own.
  lemma ClosedOnceIdle(idle: nat, events: seq<Event>, t: TimerId, w: WorkerId)
    requires ClosesIdle(Run(idle, events), t, w)
    ensures var x := Run(idle, events);
      var c := x.clock;
      && Holders(x.s.threads, w) == {} && t in c.fired && w < |c.used|
      && (c.used[w] < c.fired[t] ==> c.used[w] + idle <= c.fired[t] <= c.now)
      && (c.fired[t] <= c.used[w] && idle > 0 ==>
            x.s.pool.workers[w].timer.Some? && x.s.pool.workers[w].timer.value != t && c.armed[x.s.pool.workers[w].timer.value] == c.used[w])
  {
    var x := Run(idle, events);
    assert TimerOk(idle, x.s.pool, x.clock, t) && LastOk(x.s.pool, x.clock, w) && WorkerOk(x.s.pool, x.s.threads, w);
  }

  /********** A run in which it is closed sooner **********/

  // Used and released; the timer fires; before its callback runs, the worker is
  // used and released again.
  function SoonerEvents(k: Key, idle: nat): (events: seq<Event>) {
    [Do(Call(k)), Do(Enter(0, 0)), Do(Got(0, true, PoolClosed)), Do(ReleaseIt(0)), Wait(idle), Do(Fire(0)),
     Do(Call(k)), Do(Enter(1, 0)), Do(Woken(1)), Do(ReleaseIt(1))]
  }

  // The state after the first n of them, the first six as in EarlyReturn.
  function StageOf(k: Key, n: nat): State {
    if n <= 6 then WorkerPoolRuns.Stage(k, if n <= 4 then n else n - 1)
    else
      State(
        Pool(
          map[k := 0], map[], false,
          [Worker(k, Started, if 8 <= n < 10 then 1 else 0, if n < 8 then Some(0) else if n < 10 then None else Some(1), false, false)],
          if n < 10 then [Timer(0, Firing)] else [Timer(0, Firing), Timer(0, Armed)]),
        [Returned(None), if n == 7 then Acquiring(k) else if n == 8 then Waiting(0) else if n == 9 then Holding(0) else Returned(None)],
        0, [0])
  }

  function ClockOf(idle: nat, n: nat): Clock {
    Clock(
      if n < 5 then 0 else idle,
      if n < 4 then [] else if n < 10 then [0] else [0, idle],
      if n < 6 then map[] else map[0 := idle],
      if n < 2 then [] else [if n < 8 then 0 else idle])
  }

  lemma AgainStages(k: Key, n: nat)
    requires k.person != "" && 6 <= n < 8
    ensures WellFormed(StageOf(k, n)) && Next(StageOf(k, n), SoonerEvents(k, 0)[n].action) == StageOf(k, n + 1)
  {
  }

  lemma LastStages(k: Key, n: nat)
    requires k.person != "" && 8 <= n < 10
    ensures WellFormed(StageOf(k, n)) && Next(StageOf(k, n), SoonerEvents(k, 0)[n].action) == StageOf(k, n + 1)
  {
  }

  lemma ClockStages(k: Key, idle: nat, n: nat)
    requires k.person != "" && n < 10 && n != 4 && Recorded(StageOf(k, n).pool, ClockOf(idle, n))
    ensures var p, q := StageOf(k, n).pool, StageOf(k, n + 1).pool;
      && |p.timers| <= |q.timers| && |p.workers| <= |q.workers|
      && Noted(p, q, ClockOf(idle, n), SoonerEvents(k, idle)[n].action) == ClockOf(idle, n + 1)
  {
  }

  lemma StageEnabled(k: Key, idle: nat, n: nat)
    requires k.person != "" && n < 10 && n != 4 && WellFormed(StageOf(k, n))
    ensures Enabled(StageOf(k, n), SoonerEvents(k, 0)[n].action) && Due(idle, ClockOf(idle, n), SoonerEvents(k, 0)[n].action)
  {
  }

  lemma StageSteps(k: Key, n: nat)
    requires k.person != "" && n < 10 && n != 4
    ensures WellFormed(StageOf(k, n)) && Next(StageOf(k, n), SoonerEvents(k, 0)[n].action) == StageOf(k, n + 1)
  {
    if n < 2 { WorkerPoolRuns.StartStages(k, n); }
    else if n < 4 { WorkerPoolRuns.HoldStages(k, n); }
    else if n == 5 { WorkerPoolRuns.TimerStages(k, 4); }
    else if n < 8 { AgainStages(k, n); }
    else { LastStages(k, n); }
    hide Next, WellFormed;
  }

  lemma NextStage(k: Key, idle: nat, n: nat)
    requires k.person != "" && n < 10 && Steady(idle, Timed(StageOf(k, n), ClockOf(idle, n)))
    ensures After(idle, Timed(StageOf(k, n), ClockOf(idle, n)), SoonerEvents(k, idle)[n]) == Timed(StageOf(k, n + 1), ClockOf(idle, n + 1))
  {
    hide ClockOk, WorkerOk, Noted, Next, Inv, Enabled, Due;
    var e := SoonerEvents(k, idle)[n];
    assert e == if n == 4 then Wait(idle) else SoonerEvents(k, 0)[n];
    if n != 4 {
      ClockStages(k, idle, n);
      StageSteps(k, n);
      StageEnabled(k, idle, n);
    }
  }

  lemma {:induction false} Staged(k: Key, idle: nat, n: nat)
    requires k.person != "" && n <= 10
    ensures Run(idle, SoonerEvents(k, idle)[..n]) == Timed(StageOf(k, n), ClockOf(idle, n))
  {
    hide After, Steady, StageOf, ClockOf;
    if n == 0 {
      StageNone(k, idle);
    } else {
      Staged(k, idle, n - 1);
      var events := SoonerEvents(k, idle);
      assert events[..n][..n - 1] == events[..n - 1] && events[..n][n - 1] == events[n - 1];
      NextStage(k, idle, n - 1);
    }
  }

  lemma StageNone(k: Key, idle: nat)
    ensures Timed(StageOf(k, 0), ClockOf(idle, 0)) == BEGIN
  {
  }

  // The callback closes it although it was used a moment ago.
  lemma ClosedSooner(k: Key, idle: nat)
    requires k.person != "" && idle > 0
    ensures var x := Run(idle, SoonerEvents(k, idle)); ClosesIdle(x, 0, 0) && x.clock.used == [x.clock.now]
  {
    Staged(k, idle, 10);
    assert SoonerEvents(k, idle)[..10] == SoonerEvents(k, idle);
  }
}
