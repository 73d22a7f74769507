/** The pool with a clock: how long a start that failed is answered with its
    error, and nothing asked again. */
module WorkerPoolHold {
  import opened Wrappers
  import opened WorkerPools
  import opened WorkerPoolRuns

  // A start that failed, and when its worker was dropped.
  datatype Drop = Drop(at: nat, error: Error)

  // drops: per person and share the last failed start since the last reset, but
  // for those that failed because the pool was closing.
  datatype Timed = Timed(s: State, now: nat, drops: map<Key, Drop>)

  datatype Event = Wait(span: nat) | Do(action: Action)

  // An acquire reads the clock, and so does what notes a failure.
  predicate OnTime(hold: nat, now: nat, a: Action) {
    match a
    case Enter(_, at) => at == now
    case FinishFailed(_, until) => until == now + hold
    case _ => true
  }

  // What a step leaves on record.
  function Noted(x: Timed, a: Action): map<Key, Drop> {
    match a
    case FinishFailed(t, _) =>
      if t < |x.s.threads| && x.s.threads[t].FailedStart? && !x.s.threads[t].error.PoolClosed? && x.s.threads[t].worker < |x.s.pool.workers| then
        x.drops[x.s.pool.workers[x.s.threads[t].worker].key := Drop(x.now, x.s.threads[t].error)]
      else x.drops
    case ResetCall => map[]
    case CloseReset(_) => map[]
    case _ => x.drops
  }

  // What the pool still holds is on record, and what it holds no more is over.
  ghost predicate HoldOk(hold: nat, x: Timed) {
    && (forall k :: k in x.s.pool.failed ==> k in x.drops && x.s.pool.failed[k] == Failure(x.drops[k].error, x.drops[k].at + hold))
    && (forall k :: k in x.drops && k !in x.s.pool.failed ==> x.drops[k].at + hold <= x.now)
  }

  ghost function After(hold: nat, x: Timed, e: Event): Timed
    requires Inv(x.s)
  {
    match e
    case Wait(span) => x.(now := x.now + span)
    case Do(a) => if !Enabled(x.s, a) || !OnTime(hold, x.now, a) then x else Timed(Next(x.s, a), x.now, Noted(x, a))
  }

  lemma AfterKeeps(hold: nat, x: Timed, e: Event)
    requires Inv(x.s) && HoldOk(hold, x)
    ensures Inv(After(hold, x, e).s) && HoldOk(hold, After(hold, x, e))
  {
    if e.Do? && Enabled(x.s, e.action) && OnTime(hold, x.now, e.action) {
      NextKeeps(x.s, e.action);
      hide Inv;
      StepHolds(hold, x, e.action);
    }
  }

  // Only these steps look at what is held.
  lemma OthersLeave(s: State, a: Action)
    requires WellFormed(s) && Enabled(s, a) && !a.Enter? && !a.FinishFailed? && !a.ResetCall? && !a.CloseReset?
    ensures Next(s, a).pool.failed == s.pool.failed
  {
    hide Reset;
  }

  lemma EnterHolds(hold: nat, x: Timed, a: Action)
    requires WellFormed(x.s) && Enabled(x.s, a) && a.Enter? && a.now == x.now && HoldOk(hold, x)
    ensures HoldOk(hold, Timed(Next(x.s, a), x.now, x.drops))
  {
    var p, k := x.s.pool, x.s.threads[a.thread].key;
    var q := Acquire(p, k, a.now).0;
    assert q.failed == p.failed || q.failed == p.failed - {k};
  }

  lemma FinishHolds(hold: nat, x: Timed, a: Action)
    requires WellFormed(x.s) && Enabled(x.s, a) && a.FinishFailed? && a.until == x.now + hold && HoldOk(hold, x)
    ensures HoldOk(hold, Timed(Next(x.s, a), x.now, Noted(x, a)))
  {
    assert Known(x.s.pool, x.s.threads[a.thread]);
  }

  lemma ResetHolds(s: State, a: Action)
    requires WellFormed(s) && Enabled(s, a) && (a.ResetCall? || a.CloseReset?)
    ensures Next(s, a).pool.failed == map[]
  {
  }

  lemma StepHolds(hold: nat, x: Timed, a: Action)
    requires WellFormed(x.s) && Enabled(x.s, a) && OnTime(hold, x.now, a) && HoldOk(hold, x)
    ensures HoldOk(hold, Timed(Next(x.s, a), x.now, Noted(x, a)))
  {
    hide Next, Enabled, WellFormed;
    if a.Enter? { EnterHolds(hold, x, a); }
    else if a.FinishFailed? { FinishHolds(hold, x, a); }
    else if a.ResetCall? || a.CloseReset? { ResetHolds(x.s, a); }
    else { OthersLeave(x.s, a); }
  }

  const BEGIN := Timed(INITIAL, 0, map[])

  ghost function Run(hold: nat, events: seq<Event>): (x: Timed)
    ensures Inv(x.s) && HoldOk(hold, x)
    decreases |events|
  {
    if events == [] then
      assert Exec([]) == INITIAL;
      BEGIN
    else
      var x := Run(hold, events[..|events| - 1]);
      AfterKeeps(hold, x, events[|events| - 1]);
      After(hold, x, events[|events| - 1])
  }

  // Over every run, an acquire that goes in is answered at once while the failure
  // of that person's start on that share is held -- with that failure's error,
  // no worker made and none counted -- and only then, but once the pool is
  // closing; otherwise it gets a worker of that person and share, or waits for it.
  lemma HeldThenTriedAgain(hold: nat, events: seq<Event>, t: ThreadId)
    requires var s := Run(hold, events).s; t < |s.threads| && s.threads[t].Acquiring?
    ensures var x := Run(hold, events);
      var y := After(hold, x, Do(Enter(t, x.now)));
      var k := x.s.threads[t].key;
      var held := k in x.drops && x.now < x.drops[k].at + hold;
      && y.s.pool.closed == x.s.pool.closed && |y.s.threads| == |x.s.threads|
      && (x.s.pool.closed ==> y.s.threads[t] == Returned(Some(PoolClosed)))
      && (!x.s.pool.closed && held ==> y.s.threads[t] == Returned(Some(x.drops[k].error)))
      && (x.s.pool.closed || held ==> y.s.pool == x.s.pool)
      && (!x.s.pool.closed && !held ==>
            && (y.s.threads[t].Getting? || y.s.threads[t].Waiting?)
            && var w := y.s.threads[t].worker; w < |y.s.pool.workers| && y.s.pool.workers[w].key == k)
  {
    hide Run;
    var x := Run(hold, events);
    assert WellFormed(x.s);
    var (p, a) := Acquire(x.s.pool, x.s.threads[t].key, x.now);
  }

  // A start that failed is answered to the one who made it and to all who waited.
  lemma FailureIsShared(s: State, a: Action)
    requires Inv(s) && Enabled(s, a) && (a.FinishFailed? || a.Woken?)
    requires s.pool.workers[s.threads[a.thread].worker].phase.Failed?
    ensures Next(s, a).threads[a.thread] == Returned(Some(s.pool.workers[s.threads[a.thread].worker].phase.error))
  {
    assert ThreadOk(s.pool, s.threads[a.thread]);
  }
}
