/** Every interleaving of the pool's goroutines: callers of acquire and release,
    timer callbacks, reset and Close, and workers that crash. A goroutine is the
    point it has reached between two lock sections. */
module WorkerPoolRuns {
  import opened Wrappers
  import opened WorkerPools

  datatype Pc =
    | Acquiring(key: Key)                     // about to take the mutex in acquire's loop
    | Getting(worker: WorkerId)               // p.get is running
    | FailedStart(worker: WorkerId, error: Error) // ready is closed, the worker still to be dropped
    | Waiting(worker: WorkerId)               // counted in refs, on <-ready
    | FoundDead(worker: WorkerId)             // release, then forget
    | Forgetting(worker: WorkerId)            // forget's lock section is next
    | Dropping(worker: WorkerId)              // forget's close is next, then acquire again
    | Holding(worker: WorkerId)               // acquire returned it, release not called
    | Expiring(worker: WorkerId)              // a timer callback took it out of the map: its close is next
    | Resetting(rest: set<WorkerId>, final: bool) // reset's second half; `final` when Close called it
    | ClosingPool                             // Close set the flag; its reset is next
    | Returned(failure: Option<Error>)        // acquire refused, or release, reset or callback done
    | PoolCloseReturned                       // Close returned

  datatype State = State(
    pool: Pool,
    threads: seq<Pc>,
    // History: how many resets there were, and how many before each worker was made.
    resets: nat,
    born: seq<nat>)

  datatype Action =
    | Call(key: Key)
    | Enter(thread: ThreadId, now: int)
    | Got(thread: ThreadId, ok: bool, error: Error)
    | FinishFailed(thread: ThreadId, until: int)
    | Woken(thread: ThreadId)
    | ReleaseDead(thread: ThreadId)
    | ForgetIt(thread: ThreadId)
    | CloseIt(thread: ThreadId)
    | ReleaseIt(thread: ThreadId)
    | Fire(timer: TimerId)
    | Callback(timer: TimerId)
    | ResetCall
    | ResetClose(thread: ThreadId, worker: WorkerId)
    | ResetReturn(thread: ThreadId)
    | CloseCall
    | CloseReset(thread: ThreadId)
    | Crash(worker: WorkerId)

  const INITIAL := State(Pool(map[], map[], false, [], []), [], 0, [])

  ghost predicate WellFormed(s: State) {
    && ValidPool(s.pool)
    && |s.born| == |s.pool.workers|
    && (forall t :: 0 <= t < |s.threads| ==> Known(s.pool, s.threads[t]))
  }

  // A goroutine only knows workers that were made.
  ghost predicate Known(p: Pool, pc: Pc) {
    && (HasWorker(pc) ==> pc.worker < |p.workers|)
    && (pc.Resetting? ==> forall w :: w in pc.rest ==> w < |p.workers|)
  }

  predicate HasWorker(pc: Pc) {
    pc.Getting? || pc.FailedStart? || pc.Waiting? || pc.FoundDead? || pc.Forgetting? || pc.Dropping? || pc.Holding? || pc.Expiring?
  }

  ghost predicate Enabled(s: State, a: Action)
    requires WellFormed(s)
  {
    match a
    case Call(_) => true
    case Enter(t, _) => t < |s.threads| && s.threads[t].Acquiring?
    case Got(t, _, _) => t < |s.threads| && s.threads[t].Getting?
    case FinishFailed(t, _) => t < |s.threads| && s.threads[t].FailedStart?
    case Woken(t) => t < |s.threads| && s.threads[t].Waiting? && !s.pool.workers[s.threads[t].worker].phase.Starting?
    case ReleaseDead(t) => t < |s.threads| && s.threads[t].FoundDead?
    case ForgetIt(t) => t < |s.threads| && s.threads[t].Forgetting?
    case CloseIt(t) => t < |s.threads| && (s.threads[t].Dropping? || s.threads[t].Expiring?)
    case ReleaseIt(t) => t < |s.threads| && s.threads[t].Holding?
    case Fire(t) => t < |s.pool.timers| && s.pool.timers[t].state.Armed?
    case Callback(t) => t < |s.pool.timers| && s.pool.timers[t].state.Firing?
    case ResetCall => true
    case ResetClose(t, w) =>
      t < |s.threads| && s.threads[t].Resetting? && w in s.threads[t].rest && !s.pool.workers[w].phase.Starting?
    case ResetReturn(t) => t < |s.threads| && s.threads[t].Resetting? && s.threads[t].rest == {}
    case CloseCall => true
    case CloseReset(t) => t < |s.threads| && s.threads[t].ClosingPool?
    case Crash(w) => w < |s.pool.workers| && s.pool.workers[w].phase.Started?
  }

  ghost function Go(s: State, t: ThreadId, pool: Pool, pc: Pc): State
    requires t < |s.threads|
  {
    s.(pool := pool, threads := s.threads[t := pc])
  }

  // Nobody runs as nobody.
  function Called(k: Key): Pc {
    if k.person == "" then Returned(Some(NobodyAuthenticated)) else Acquiring(k)
  }

  // The state after one step; an action that is not possible changes nothing.
  ghost function Next(s: State, a: Action): State
    requires WellFormed(s)
  {
    if !Enabled(s, a) then s else
    match a
    case Call(k) => s.(threads := s.threads + [Called(k)])
    case Enter(t, now) => EnterNext(s, t, now)
    case Got(t, ok, error) =>
      var w := s.threads[t].worker;
      Go(s, t, Ready(s.pool, w, ok, error), if ok then Holding(w) else FailedStart(w, error))
    case FinishFailed(t, until) => Go(s, t, DropFailed(s.pool, s.threads[t].worker, s.threads[t].error, until), Returned(Some(s.threads[t].error)))
    case Woken(t) =>
      var w := s.threads[t].worker;
      var x := s.pool.workers[w];
      Go(s, t, s.pool, if x.phase.Failed? then Returned(Some(x.phase.error)) else if Alive(x) then Holding(w) else FoundDead(w))
    case ReleaseDead(t) => Go(s, t, Release(s.pool, s.threads[t].worker), Forgetting(s.threads[t].worker))
    case ForgetIt(t) => Go(s, t, Forget(s.pool, s.threads[t].worker), Dropping(s.threads[t].worker))
    case CloseIt(t) =>
      var w := s.threads[t].worker;
      Go(s, t, CloseWorker(s.pool, w), if s.threads[t].Dropping? then Acquiring(s.pool.workers[w].key) else Returned(None))
    case ReleaseIt(t) => Go(s, t, Release(s.pool, s.threads[t].worker), Returned(None))
    case Fire(t) => s.(pool := s.pool.(timers := s.pool.timers[t := s.pool.timers[t].(state := Firing)]))
    case Callback(t) =>
      var (pool, close) := Expire(s.pool, t);
      s.(pool := pool, threads := s.threads + [if close then Expiring(s.pool.timers[t].worker) else Returned(None)])
    case ResetCall =>
      s.(pool := Reset(s.pool), threads := s.threads + [Resetting(s.pool.m.Values, false)], resets := s.resets + 1)
    case ResetClose(t, w) =>
      Go(s, t, CloseWorker(s.pool, w), Resetting(s.threads[t].rest - {w}, s.threads[t].final))
    case ResetReturn(t) => Go(s, t, s.pool, if s.threads[t].final then PoolCloseReturned else Returned(None))
    case CloseCall => s.(pool := s.pool.(closed := true), threads := s.threads + [ClosingPool])
    case CloseReset(t) =>
      Go(s, t, Reset(s.pool), Resetting(s.pool.m.Values, true)).(resets := s.resets + 1)
    case Crash(w) =>
      s.(pool := s.pool.(workers := s.pool.workers[w := s.pool.workers[w].(crashed := true)]))
  }

  ghost function EnterNext(s: State, t: ThreadId, now: int): State
    requires WellFormed(s) && t < |s.threads| && s.threads[t].Acquiring?
  {
    var (pool, admission) := Acquire(s.pool, s.threads[t].key, now);
    var s1 := Go(s, t, pool, match admission case Refused(e) => Returned(Some(e)) case Start(w) => Getting(w) case Join(w) => Waiting(w));
    if admission.Start? then s1.(born := s.born + [s.resets]) else s1
  }

  /********** What holds in every reachable state **********/

  // The goroutines counted in a worker's refs: they acquired and have not released.
  predicate Counts(pc: Pc, w: WorkerId) {
    (pc.Getting? || pc.Waiting? || pc.FoundDead? || pc.Holding?) && pc.worker == w
  }

  ghost function Holders(threads: seq<Pc>, w: WorkerId): set<ThreadId> {
    set t | 0 <= t < |threads| && Counts(threads[t], w)
  }

  // The goroutines about to close a worker.
  predicate Owes(pc: Pc, w: WorkerId) {
    ((pc.Dropping? || pc.Expiring?) && pc.worker == w) || (pc.Resetting? && w in pc.rest)
  }

  ghost predicate Owed(threads: seq<Pc>, w: WorkerId) {
    exists t :: 0 <= t < |threads| && Owes(threads[t], w)
  }

  ghost predicate ExpiringNow(threads: seq<Pc>, w: WorkerId) {
    exists t :: 0 <= t < |threads| && threads[t] == Expiring(w)
  }

  ghost predicate GettingNow(threads: seq<Pc>, w: WorkerId) {
    exists t :: 0 <= t < |threads| && threads[t] == Getting(w)
  }

  // Its current timer has not been stopped and its callback has not run.
  ghost predicate Ticking(p: Pool, w: WorkerId)
    requires w < |p.workers|
  {
    var timer := p.workers[w].timer;
    timer.Some? && timer.value < |p.timers| && !p.timers[timer.value].state.Over?
  }

  // One worker's share of the invariant: refs counts its holders; whoever
  // closes it took it out of the map first; until it is closed the map or a
  // goroutine still has it; unused in the map means a timer is running; and a
  // worker an idle timer is closing has no holder.
  ghost predicate WorkerOk(p: Pool, threads: seq<Pc>, w: WorkerId)
    requires w < |p.workers|
  {
    var x := p.workers[w];
    && (if x.phase.Failed? then x.refs >= 1 else x.refs == |Holders(threads, w)|)
    && (Owed(threads, w) || x.closed ==> !Pooled(p, w))
    && (x.closed ==> x.phase.Started?)
    && (x.phase.Starting? ==> GettingNow(threads, w))
    && (!x.phase.Failed? && !x.closed ==> Pooled(p, w) || Owed(threads, w))
    && (Pooled(p, w) && x.refs == 0 ==> Ticking(p, w))
    && (ExpiringNow(threads, w) ==> Holders(threads, w) == {})
  }

  ghost predicate ThreadOk(p: Pool, pc: Pc)
    requires Known(p, pc)
  {
    && (pc.Getting? ==> p.workers[pc.worker].phase.Starting?)
    && (pc.FailedStart? ==> p.workers[pc.worker].phase == Failed(pc.error))
    && (pc.Holding? || pc.Expiring? ==> p.workers[pc.worker].phase.Started?)
    && (pc.FoundDead? || pc.Forgetting? || pc.Dropping? ==> p.workers[pc.worker].phase.Started? && !Alive(p.workers[pc.worker]))
  }

  ghost predicate OneStarter(threads: seq<Pc>) {
    forall t, u ::
      (0 <= t < |threads| && 0 <= u < |threads| && threads[t].Getting? && threads[u].Getting?
       && threads[t].worker == threads[u].worker) ==> t == u
  }

  // One start a key between two resets: a start of the current period is in the map.
  ghost predicate SingleFlight(p: Pool, born: seq<nat>, resets: nat)
    requires |born| == |p.workers|
  {
    && (forall w :: 0 <= w < |born| ==> born[w] <= resets)
    && (forall w :: 0 <= w < |born| && p.workers[w].phase.Starting? && born[w] == resets ==> Pooled(p, w))
    && (forall v, w ::
          (0 <= v < |born| && 0 <= w < |born| && p.workers[v].phase.Starting? && p.workers[w].phase.Starting?
           && born[v] == born[w] && p.workers[v].key == p.workers[w].key) ==> v == w)
  }

  // Once Close's own reset ran, the map stays empty.
  predicate AfterFinalReset(pc: Pc) {
    pc.PoolCloseReturned? || (pc.Resetting? && pc.final)
  }

  ghost predicate CloseOrder(p: Pool, threads: seq<Pc>) {
    forall t :: 0 <= t < |threads| ==>
      && (threads[t].ClosingPool? ==> p.closed)
      && (AfterFinalReset(threads[t]) ==> p.closed && p.m == map[])
  }

  ghost predicate Inv(s: State) {
    && WellFormed(s)
    && (forall w :: 0 <= w < |s.pool.workers| ==> WorkerOk(s.pool, s.threads, w))
    && (forall t :: 0 <= t < |s.threads| ==> ThreadOk(s.pool, s.threads[t]))
    && OneStarter(s.threads)
    && SingleFlight(s.pool, s.born, s.resets)
    && CloseOrder(s.pool, s.threads)
  }

  /********** Every step keeps it **********/

  function Ref(pc: Pc, w: WorkerId): int {
    if Counts(pc, w) then 1 else 0
  }

  // One goroutine moving changes its own contribution and no other.
  lemma Moved(threads: seq<Pc>, t: ThreadId, pc: Pc, w: WorkerId)
    requires t < |threads|
    ensures |Holders(threads[t := pc], w)| == |Holders(threads, w)| - Ref(threads[t], w) + Ref(pc, w)
    ensures Owes(pc, w) ==> Owed(threads[t := pc], w)
    ensures Owed(threads, w) && !Owes(threads[t], w) ==> Owed(threads[t := pc], w)
    ensures Owed(threads[t := pc], w) ==> Owed(threads, w) || Owes(pc, w)
    ensures ExpiringNow(threads[t := pc], w) ==> ExpiringNow(threads, w) || pc == Expiring(w)
    ensures pc == Getting(w) || (GettingNow(threads, w) && threads[t] != Getting(w)) ==> GettingNow(threads[t := pc], w)
  {
    var after := threads[t := pc];
    assert Holders(after, w) - {t} == Holders(threads, w) - {t};
    if Counts(threads[t], w) { assert Holders(threads, w) == (Holders(threads, w) - {t}) + {t}; }
    else { assert Holders(threads, w) == Holders(threads, w) - {t}; }
    if Counts(pc, w) { assert Holders(after, w) == (Holders(after, w) - {t}) + {t}; }
    else { assert Holders(after, w) == Holders(after, w) - {t}; }
    if Owed(threads, w) && !Owes(threads[t], w) {
      var u :| 0 <= u < |threads| && Owes(threads[u], w);
      assert after[u] == threads[u];
    }
    if GettingNow(threads, w) && threads[t] != Getting(w) {
      var u :| 0 <= u < |threads| && threads[u] == Getting(w);
      assert after[u] == threads[u];
    }
    assert after[t] == pc;
  }

  lemma Spawned(threads: seq<Pc>, pc: Pc, w: WorkerId)
    requires !Counts(pc, w)
    ensures Holders(threads + [pc], w) == Holders(threads, w)
    ensures Owed(threads + [pc], w) <==> Owed(threads, w) || Owes(pc, w)
    ensures ExpiringNow(threads + [pc], w) <==> ExpiringNow(threads, w) || pc == Expiring(w)
    ensures GettingNow(threads, w) ==> GettingNow(threads + [pc], w)
  {
    var after := threads + [pc];
    if Owed(threads, w) {
      var u :| 0 <= u < |threads| && Owes(threads[u], w);
      assert after[u] == threads[u];
    }
    if ExpiringNow(threads, w) {
      var u :| 0 <= u < |threads| && threads[u] == Expiring(w);
      assert after[u] == threads[u];
    }
    if GettingNow(threads, w) {
      var u :| 0 <= u < |threads| && threads[u] == Getting(w);
      assert after[u] == threads[u];
    }
    assert after[|threads|] == pc;
  }

  // What a lock section leaves alone at a worker it does not touch.
  ghost predicate Untouched(p: Pool, q: Pool, w: WorkerId)
    requires w < |p.workers| <= |q.workers|
  {
    q.workers[w] == p.workers[w] && Pooled(q, w) == Pooled(p, w) && Ticking(q, w) == Ticking(p, w)
  }

  lemma JoinSection(p: Pool, k: Key, now: int)
    requires ValidPool(p) && Acquire(p, k, now).1.Join?
    ensures var (q, a) := Acquire(p, k, now); var w := a.worker;
      && ValidPool(q) && w < |p.workers| == |q.workers|
      && q.workers[w] == p.workers[w].(refs := p.workers[w].refs + 1, timer := None) && Pooled(p, w) && Pooled(q, w)
      && q.m == p.m && q.closed == p.closed
      && forall v :: 0 <= v < |p.workers| && v != w ==> Untouched(p, q, v)
  {
  }

  lemma StartSection(p: Pool, k: Key, now: int)
    requires ValidPool(p) && Acquire(p, k, now).1.Start?
    ensures var (q, a) := Acquire(p, k, now);
      && ValidPool(q) && a.worker == |p.workers| && q.workers == p.workers + [Worker(k, Starting, 1, None, false, false)]
      && Pooled(q, a.worker) && k !in p.m && !p.closed && !q.closed
      && forall v :: 0 <= v < |p.workers| ==> Untouched(p, q, v)
  {
  }

  lemma ReleaseSection(p: Pool, w: WorkerId)
    requires ValidPool(p) && w < |p.workers|
    ensures var q := Release(p, w);
      && ValidPool(q) && |p.workers| == |q.workers| && q.m == p.m && q.closed == p.closed
      && q.workers[w] == p.workers[w].(refs := p.workers[w].refs - 1, timer := q.workers[w].timer)
      && (Pooled(q, w) && q.workers[w].refs <= 0 ==> Ticking(q, w))
      && forall v :: 0 <= v < |p.workers| && v != w ==> Untouched(p, q, v)
  {
    var q := Release(p, w);
    assert forall v :: 0 <= v < |p.workers| && v != w ==> q.workers[v] == p.workers[v];
    if q.timers == p.timers {
    } else {
      assert q.timers == p.timers + [Timer(w, Armed)] && q.workers[w].timer == Some(|p.timers|);
    }
  }

  lemma ExpireSection(p: Pool, t: TimerId)
    requires ValidPool(p) && t < |p.timers|
    ensures var (q, close) := Expire(p, t); var w := p.timers[t].worker;
      && ValidPool(q) && q.workers == p.workers && q.closed == p.closed && (p.m == map[] ==> q.m == map[])
      && (close ==> p.workers[w].refs <= 0 && Pooled(p, w) && !Pooled(q, w))
      && (!close ==> q.m == p.m && (p.workers[w].refs > 0 || !Pooled(q, w)))
      && forall v :: 0 <= v < |p.workers| && v != w ==> Untouched(p, q, v)
  {
  }

  lemma ForgetSection(p: Pool, w: WorkerId)
    requires ValidPool(p) && w < |p.workers|
    ensures var q := Forget(p, w);
      && ValidPool(q) && q.workers == p.workers && !Pooled(q, w) && q.closed == p.closed && (p.m == map[] ==> q.m == map[])
      && forall v :: 0 <= v < |p.workers| && v != w ==> Untouched(p, q, v)
  {
  }

  lemma DropFailedSection(p: Pool, w: WorkerId, error: Error, until: int)
    requires ValidPool(p) && w < |p.workers|
    ensures var q := DropFailed(p, w, error, until);
      && ValidPool(q) && q.workers == p.workers && !Pooled(q, w) && q.closed == p.closed && (p.m == map[] ==> q.m == map[])
      && forall v :: 0 <= v < |p.workers| && v != w ==> Untouched(p, q, v)
  {
    var q := DropFailed(p, w, error, until);
    assert q.workers == p.workers && q.timers == p.timers;
    assert q.m == if Pooled(p, w) then p.m - {p.workers[w].key} else p.m;
  }

  lemma ResetSection(p: Pool)
    requires ValidPool(p)
    ensures var q := Reset(p);
      && ValidPool(q) && q.workers == p.workers && q.closed == p.closed && q.m == map[]
      && forall w :: 0 <= w < |p.workers| ==> (w in p.m.Values <==> Pooled(p, w))
  {
  }

  // A step at worker w0: every other worker keeps its place in the pool, and
  // the goroutine that moved only changes what it holds of w0.
  lemma OthersOk(p: Pool, q: Pool, threads: seq<Pc>, t: ThreadId, pc: Pc, w: WorkerId)
    requires t < |threads| && w < |p.workers| <= |q.workers|
    requires WorkerOk(p, threads, w) && Untouched(p, q, w)
    requires !Counts(threads[t], w) && !Counts(pc, w)
    requires Owes(threads[t], w) == Owes(pc, w) && (pc == Expiring(w) ==> threads[t] == pc)
    ensures WorkerOk(q, threads[t := pc], w)
  {
    Moved(threads, t, pc, w);
    if ExpiringNow(threads[t := pc], w) && pc == Expiring(w) { assert threads[t] == Expiring(w); }
  }

  lemma ThreadStays(p: Pool, q: Pool, pc: Pc)
    requires Known(p, pc) && ThreadOk(p, pc) && |p.workers| <= |q.workers|
    requires HasWorker(pc) ==> SameWork(p.workers[pc.worker], q.workers[pc.worker])
    ensures Known(q, pc) && ThreadOk(q, pc)
  {
  }

  // The same start, no livelier.
  predicate SameWork(x: Worker, y: Worker) {
    y.phase == x.phase && y.key == x.key && (Alive(y) ==> Alive(x))
  }

  // A step whose goroutine t and lock section are both about worker w0.
  ghost predicate About(pc: Pc, next: Pc, w0: WorkerId) {
    && (forall v :: v != w0 ==> !Counts(pc, v) && !Counts(next, v) && Owes(pc, v) == Owes(next, v) && next != Expiring(v))
    && !next.Getting? && !next.ClosingPool? && (AfterFinalReset(next) ==> AfterFinalReset(pc))
  }

  lemma StepAt(s: State, q: Pool, t: ThreadId, pc: Pc, w0: WorkerId)
    requires Inv(s) && t < |s.threads| && w0 < |s.pool.workers| == |q.workers|
    requires ValidPool(q) && forall v :: 0 <= v < |q.workers| && v != w0 ==> Untouched(s.pool, q, v)
    requires SameWork(s.pool.workers[w0], q.workers[w0])
    requires s.pool.workers[w0].phase.Starting? ==> Pooled(q, w0) == Pooled(s.pool, w0)
    requires Known(q, pc) && ThreadOk(q, pc) && About(s.threads[t], pc, w0)
    requires WorkerOk(q, s.threads[t := pc], w0)
    requires q.closed == s.pool.closed && (s.pool.m == map[] ==> q.m == map[])
    ensures Inv(Go(s, t, q, pc))
  {
    var s' := Go(s, t, q, pc);
    forall v | 0 <= v < |q.workers| ensures WorkerOk(q, s'.threads, v) {
      if v != w0 { OthersOk(s.pool, q, s.threads, t, pc, v); }
    }
    forall u | 0 <= u < |s'.threads| ensures Known(q, s'.threads[u]) && ThreadOk(q, s'.threads[u]) {
      if u != t {
        assert HasWorker(s.threads[u]) && s.threads[u].worker != w0 ==> Untouched(s.pool, q, s.threads[u].worker);
        ThreadStays(s.pool, q, s.threads[u]);
      }
    }
    assert OneStarter(s'.threads);
    assert SingleFlight(q, s.born, s.resets) by { FlightAt(s.pool, q, s.born, s.resets, w0); }
    forall u | 0 <= u < |s'.threads|
      ensures (s'.threads[u].ClosingPool? ==> q.closed) && (AfterFinalReset(s'.threads[u]) ==> q.closed && q.m == map[])
    {
      assert u != t ==> s'.threads[u] == s.threads[u];
    }
  }

  lemma FlightAt(p: Pool, q: Pool, born: seq<nat>, resets: nat, w0: WorkerId)
    requires |born| == |p.workers| == |q.workers| && w0 < |born| && SingleFlight(p, born, resets)
    requires forall v :: 0 <= v < |q.workers| && v != w0 ==> Untouched(p, q, v)
    requires q.workers[w0].phase.Starting? ==> p.workers[w0].phase.Starting? && Pooled(q, w0) == Pooled(p, w0)
    requires q.workers[w0].key == p.workers[w0].key
    ensures SingleFlight(q, born, resets)
  {
    forall v | 0 <= v < |q.workers|
      ensures q.workers[v].key == p.workers[v].key
      ensures q.workers[v].phase.Starting? ==> p.workers[v].phase.Starting? && Pooled(q, v) == Pooled(p, v)
    {
      assert v != w0 ==> Untouched(p, q, v);
    }
  }

  lemma JoinKeeps(s: State, t: ThreadId, now: int)
    requires Inv(s) && t < |s.threads| && s.threads[t].Acquiring? && Acquire(s.pool, s.threads[t].key, now).1.Join?
    ensures Inv(EnterNext(s, t, now))
  {
    JoinSection(s.pool, s.threads[t].key, now);
    var (q, a) := Acquire(s.pool, s.threads[t].key, now);
    Moved(s.threads, t, Waiting(a.worker), a.worker);
    assert WorkerOk(s.pool, s.threads, a.worker);
    StepAt(s, q, t, Waiting(a.worker), a.worker);
  }

  lemma FinishFailedKeeps(s: State, a: Action)
    requires Inv(s) && a.FinishFailed? && Enabled(s, a)
    ensures Inv(Next(s, a))
  {
    var t := a.thread;
    var w := s.threads[t].worker;
    DropFailedSection(s.pool, w, s.threads[t].error, a.until);
    Moved(s.threads, t, Returned(Some(s.threads[t].error)), w);
    assert ThreadOk(s.pool, s.threads[t]) && WorkerOk(s.pool, s.threads, w);
    StepAt(s, DropFailed(s.pool, w, s.threads[t].error, a.until), t, Returned(Some(s.threads[t].error)), w);
  }

  lemma ReleaseKeeps(s: State, t: ThreadId, pc: Pc)
    requires Inv(s) && t < |s.threads| && (s.threads[t].FoundDead? || s.threads[t].Holding?)
    requires pc == if s.threads[t].FoundDead? then Forgetting(s.threads[t].worker) else Returned(None)
    ensures Inv(Go(s, t, Release(s.pool, s.threads[t].worker), pc))
  {
    var w := s.threads[t].worker;
    var q := Release(s.pool, w);
    ReleaseSection(s.pool, w);
    Moved(s.threads, t, pc, w);
    assert ThreadOk(s.pool, s.threads[t]) && WorkerOk(s.pool, s.threads, w);
    assert Pooled(q, w) == Pooled(s.pool, w);
    StepAt(s, q, t, pc, w);
  }

  lemma ForgetKeeps(s: State, t: ThreadId)
    requires Inv(s) && t < |s.threads| && s.threads[t].Forgetting?
    ensures Inv(Go(s, t, Forget(s.pool, s.threads[t].worker), Dropping(s.threads[t].worker)))
  {
    var w := s.threads[t].worker;
    ForgetSection(s.pool, w);
    Moved(s.threads, t, Dropping(w), w);
    assert ThreadOk(s.pool, s.threads[t]) && WorkerOk(s.pool, s.threads, w);
    StepAt(s, Forget(s.pool, w), t, Dropping(w), w);
  }

  // The close itself, by whoever owed it.
  lemma CloseKeeps(s: State, t: ThreadId, w: WorkerId, pc: Pc)
    requires Inv(s) && t < |s.threads| && w < |s.pool.workers| && Owes(s.threads[t], w) && !s.pool.workers[w].phase.Starting?
    requires About(s.threads[t], pc, w) && !HasWorker(pc) && !Owes(pc, w) && Known(s.pool, pc)
    ensures Inv(Go(s, t, CloseWorker(s.pool, w), pc))
  {
    var q := CloseWorker(s.pool, w);
    Moved(s.threads, t, pc, w);
    assert WorkerOk(s.pool, s.threads, w) && Owed(s.threads, w);
    assert forall v :: 0 <= v < |q.workers| && v != w ==> Untouched(s.pool, q, v);
    assert ValidPool(q);
    StepAt(s, q, t, pc, w);
  }

  lemma WokenKeeps(s: State, a: Action)
    requires Inv(s) && a.Woken? && Enabled(s, a)
    ensures Inv(Next(s, a))
  {
    var t := a.thread;
    var w := s.threads[t].worker;
    var pc := Next(s, a).threads[t];
    Moved(s.threads, t, pc, w);
    assert WorkerOk(s.pool, s.threads, w);
    assert forall v :: 0 <= v < |s.pool.workers| ==> Untouched(s.pool, s.pool, v);
    StepAt(s, s.pool, t, pc, w);
  }

  lemma GotWorker(s: State, t: ThreadId, ok: bool, error: Error, pc: Pc)
    requires Inv(s) && t < |s.threads| && s.threads[t].Getting?
    requires pc == Holding(s.threads[t].worker) || pc == FailedStart(s.threads[t].worker, error)
    requires ok <==> pc.Holding?
    ensures var w := s.threads[t].worker; WorkerOk(Ready(s.pool, w, ok, error), s.threads[t := pc], w)
  {
    var w := s.threads[t].worker;
    Moved(s.threads, t, pc, w);
    assert WorkerOk(s.pool, s.threads, w) && ThreadOk(s.pool, s.threads[t]);
    assert t in Holders(s.threads, w);
  }

  lemma GotKeeps(s: State, t: ThreadId, ok: bool, error: Error, pc: Pc)
    requires Inv(s) && t < |s.threads| && s.threads[t].Getting?
    requires pc == Holding(s.threads[t].worker) || pc == FailedStart(s.threads[t].worker, error)
    requires ok <==> pc.Holding?
    ensures Inv(Go(s, t, Ready(s.pool, s.threads[t].worker, ok, error), pc))
  {
    var w := s.threads[t].worker;
    var q := Ready(s.pool, w, ok, error);
    var s' := Go(s, t, q, pc);
    assert ThreadOk(s.pool, s.threads[t]);
    forall v | 0 <= v < |q.workers| ensures WorkerOk(q, s'.threads, v) {
      if v == w { GotWorker(s, t, ok, error, pc); }
      else {
        assert Untouched(s.pool, q, v);
        OthersOk(s.pool, q, s.threads, t, pc, v);
      }
    }
    forall u | 0 <= u < |s'.threads|
      ensures Known(q, s'.threads[u]) && ThreadOk(q, s'.threads[u])
    {
      if u != t { assert Known(s.pool, s.threads[u]) && ThreadOk(s.pool, s.threads[u]); }
    }
    assert forall v :: 0 <= v < |q.workers| && v != w ==> Untouched(s.pool, q, v);
    FlightAt(s.pool, q, s.born, s.resets, w);
    assert forall u :: 0 <= u < |s'.threads| && u != t ==> s'.threads[u] == s.threads[u];
  }

  lemma StartKeeps(s: State, t: ThreadId, now: int)
    requires Inv(s) && t < |s.threads| && s.threads[t].Acquiring? && Acquire(s.pool, s.threads[t].key, now).1.Start?
    ensures Inv(EnterNext(s, t, now))
  {
    StartSection(s.pool, s.threads[t].key, now);
    var (q, a) := Acquire(s.pool, s.threads[t].key, now);
    var w := a.worker;
    var s' := EnterNext(s, t, now);
    forall u | 0 <= u < |s.threads| ensures !Counts(s.threads[u], w) && !Owes(s.threads[u], w) && s.threads[u] != Getting(w) {
      assert Known(s.pool, s.threads[u]);
    }
    Moved(s.threads, t, Getting(w), w);
    assert Holders(s.threads, w) == {};
    forall v | 0 <= v < |q.workers| ensures WorkerOk(q, s'.threads, v) {
      if v != w { OthersOk(s.pool, q, s.threads, t, Getting(w), v); }
    }
    forall u | 0 <= u < |s'.threads| ensures Known(q, s'.threads[u]) && ThreadOk(q, s'.threads[u]) {
      if u != t { ThreadStays(s.pool, q, s.threads[u]); }
    }
    StartFlight(s.pool, q, s.born, s.resets);
    assert forall u :: 0 <= u < |s'.threads| && u != t ==> s'.threads[u] == s.threads[u];
  }

  lemma StartFlight(p: Pool, q: Pool, born: seq<nat>, resets: nat)
    requires |born| == |p.workers| && SingleFlight(p, born, resets)
    requires |q.workers| == |born| + 1 && q.workers[..|born|] == p.workers && Pooled(q, |born|)
    requires q.workers[|born|].key !in p.m
    requires forall v :: 0 <= v < |born| ==> Untouched(p, q, v)
    ensures SingleFlight(q, born + [resets], resets)
  {
    var born' := born + [resets];
    forall v | 0 <= v < |born|
      ensures q.workers[v] == p.workers[v]
      ensures q.workers[v].phase.Starting? && born'[v] == resets ==> Pooled(q, v) && q.workers[v].key != q.workers[|born|].key
    {
      assert Untouched(p, q, v);
    }
  }

  lemma RefusedKeeps(s: State, t: ThreadId, now: int)
    requires Inv(s) && t < |s.threads| && s.threads[t].Acquiring? && Acquire(s.pool, s.threads[t].key, now).1.Refused?
    ensures Inv(EnterNext(s, t, now))
  {
    NoWorkerKeeps(s, s.pool, t, Returned(Some(Acquire(s.pool, s.threads[t].key, now).1.error)));
  }

  // A goroutine that held nothing moves on, and the pool is as it was.
  lemma NoWorkerKeeps(s: State, q: Pool, t: ThreadId, pc: Pc)
    requires Inv(s) && q == s.pool && t < |s.threads| && !HasWorker(s.threads[t]) && !HasWorker(pc)
    requires forall v :: !Owes(s.threads[t], v) && !Owes(pc, v)
    requires Known(s.pool, pc) && !pc.ClosingPool? && (AfterFinalReset(pc) ==> AfterFinalReset(s.threads[t]))
    ensures Inv(Go(s, t, q, pc))
  {
    var s' := Go(s, t, q, pc);
    forall v | 0 <= v < |q.workers| ensures WorkerOk(q, s'.threads, v) {
      assert Untouched(s.pool, q, v);
      OthersOk(s.pool, q, s.threads, t, pc, v);
    }
    assert forall u :: 0 <= u < |s'.threads| && u != t ==> s'.threads[u] == s.threads[u];
  }

  // A new goroutine that owes nothing and counts nowhere.
  lemma SpawnKeeps(s: State, q: Pool, pc: Pc)
    requires Inv(s) && (q == s.pool || q == s.pool.(closed := true)) && !HasWorker(pc) && !pc.Resetting? && !pc.PoolCloseReturned?
    requires pc.ClosingPool? ==> q.closed
    ensures Inv(s.(pool := q, threads := s.threads + [pc]))
  {
    var s' := s.(pool := q, threads := s.threads + [pc]);
    forall v | 0 <= v < |q.workers| ensures WorkerOk(q, s'.threads, v) {
      Spawned(s.threads, pc, v);
      assert WorkerOk(s.pool, s.threads, v);
    }
    forall u | 0 <= u < |s'.threads| ensures Known(q, s'.threads[u]) && ThreadOk(q, s'.threads[u]) {
      if u < |s.threads| { assert Known(s.pool, s.threads[u]) && ThreadOk(s.pool, s.threads[u]); }
    }
    assert SingleFlight(q, s.born, s.resets);
  }

  // A worker in the map that is still starting has its starter counted.
  lemma StarterHolds(s: State, w: WorkerId)
    requires Inv(s) && w < |s.pool.workers| && s.pool.workers[w].phase.Starting?
    ensures s.pool.workers[w].refs > 0
  {
    assert WorkerOk(s.pool, s.threads, w);
    var t :| 0 <= t < |s.threads| && s.threads[t] == Getting(w);
    assert t in Holders(s.threads, w);
  }

  lemma UnusedIsStarted(s: State, w: WorkerId)
    requires Inv(s) && w < |s.pool.workers| && s.pool.workers[w].refs <= 0
    ensures s.pool.workers[w].phase.Started?
  {
    assert WorkerOk(s.pool, s.threads, w);
    if s.pool.workers[w].phase.Starting? { StarterHolds(s, w); }
  }

  lemma CallbackWorkers(s: State, t: TimerId)
    requires Inv(s) && Enabled(s, Callback(t))
    ensures var s' := Next(s, Callback(t)); forall v :: 0 <= v < |s'.pool.workers| ==> WorkerOk(s'.pool, s'.threads, v)
  {
    hide SingleFlight, OneStarter, CloseOrder, ThreadOk, Expire;
    var q := Expire(s.pool, t).0;
    var w := s.pool.timers[t].worker;
    var s' := Next(s, Callback(t));
    ExpireSection(s.pool, t);
    assert WorkerOk(s.pool, s.threads, w);
    forall v | 0 <= v < |q.workers| ensures WorkerOk(q, s'.threads, v) {
      Spawned(s.threads, s'.threads[|s.threads|], v);
      assert WorkerOk(s.pool, s.threads, v);
      if v != w { assert Untouched(s.pool, q, v); }
    }
  }

  lemma CallbackKeeps(s: State, a: Action)
    requires Inv(s) && a.Callback? && Enabled(s, a)
    ensures Inv(Next(s, a))
  {
    hide WorkerOk, SingleFlight;
    var (q, close) := Expire(s.pool, a.timer);
    var w := s.pool.timers[a.timer].worker;
    var s' := Next(s, a);
    ExpireSection(s.pool, a.timer);
    if s.pool.workers[w].phase.Starting? { StarterHolds(s, w); }
    if s.pool.workers[w].refs <= 0 { UnusedIsStarted(s, w); }
    CallbackWorkers(s, a.timer);
    forall u | 0 <= u < |s'.threads| ensures Known(q, s'.threads[u]) && ThreadOk(q, s'.threads[u]) {
      if u < |s.threads| { assert Known(s.pool, s.threads[u]) && ThreadOk(s.pool, s.threads[u]); }
    }
    FlightAt(s.pool, q, s.born, s.resets, w);
  }

  // A reset hands every pooled worker to one goroutine, and drops them all.
  lemma ResetKeeps(s: State, threads: seq<Pc>, t: ThreadId, final: bool)
    requires Inv(s) && t < |threads| && threads[t] == Resetting(s.pool.m.Values, final) && (final ==> s.pool.closed)
    requires threads == s.threads + [threads[t]] || (t < |s.threads| && s.threads[t].ClosingPool? && threads == s.threads[t := threads[t]])
    ensures Inv(s.(pool := Reset(s.pool), threads := threads, resets := s.resets + 1))
  {
    var q := Reset(s.pool);
    ResetSection(s.pool);
    forall w | 0 <= w < |q.workers| ensures WorkerOk(q, threads, w) {
      if |threads| == |s.threads| { Moved(s.threads, t, threads[t], w); } else { Spawned(s.threads, threads[t], w); }
      assert WorkerOk(s.pool, s.threads, w);
    }
    forall u | 0 <= u < |threads| ensures Known(q, threads[u]) && ThreadOk(q, threads[u]) {
      if threads[u] != threads[t] { assert Known(s.pool, s.threads[u]) && ThreadOk(s.pool, s.threads[u]); }
      else { assert forall w :: w in s.pool.m.Values ==> w < |s.pool.workers|; }
    }
  }

  lemma CrashKeeps(s: State, w: WorkerId)
    requires Inv(s) && w < |s.pool.workers| && s.pool.workers[w].phase.Started?
    ensures Inv(Next(s, Crash(w)))
  {
    var q := Next(s, Crash(w)).pool;
    forall v | 0 <= v < |q.workers| ensures WorkerOk(q, s.threads, v) {
      assert WorkerOk(s.pool, s.threads, v);
    }
    forall u | 0 <= u < |s.threads| ensures Known(q, s.threads[u]) && ThreadOk(q, s.threads[u]) {
      ThreadStays(s.pool, q, s.threads[u]);
    }
    assert forall v :: 0 <= v < |q.workers| && v != w ==> Untouched(s.pool, q, v);
    FlightAt(s.pool, q, s.born, s.resets, w);
  }

  lemma FireKeeps(s: State, t: TimerId)
    requires Inv(s) && t < |s.pool.timers| && s.pool.timers[t].state.Armed?
    ensures Inv(Next(s, Fire(t)))
  {
    var q := Next(s, Fire(t)).pool;
    forall v | 0 <= v < |q.workers| ensures WorkerOk(q, s.threads, v) {
      assert WorkerOk(s.pool, s.threads, v);
    }
    forall u | 0 <= u < |s.threads| ensures Known(q, s.threads[u]) && ThreadOk(q, s.threads[u]) {
      ThreadStays(s.pool, q, s.threads[u]);
    }
    assert SingleFlight(q, s.born, s.resets);
  }

  lemma CallerKeeps(s: State, a: Action)
    requires Inv(s) && Enabled(s, a)
    requires a.Call? || a.Enter? || a.Got? || a.FinishFailed? || a.Woken? || a.ReleaseDead? || a.ForgetIt? || a.ReleaseIt?
    ensures Inv(Next(s, a))
  {
    match a
    case Call(k) => SpawnKeeps(s, s.pool, Called(k));
    case Enter(t, now) =>
      match Acquire(s.pool, s.threads[t].key, now).1 {
        case Refused(_) => RefusedKeeps(s, t, now);
        case Start(_) => StartKeeps(s, t, now);
        case Join(_) => JoinKeeps(s, t, now);
      }
    case Got(t, ok, error) => GotKeeps(s, t, ok, error, Next(s, a).threads[t]);
    case FinishFailed(_, _) => FinishFailedKeeps(s, a);
    case Woken(_) => WokenKeeps(s, a);
    case ReleaseDead(t) => ReleaseKeeps(s, t, Forgetting(s.threads[t].worker));
    case ForgetIt(t) => ForgetKeeps(s, t);
    case ReleaseIt(t) => ReleaseKeeps(s, t, Returned(None));
  }

  lemma TimerKeeps(s: State, a: Action)
    requires Inv(s) && Enabled(s, a) && (a.CloseIt? || a.Fire? || a.Callback? || a.Crash?)
    ensures Inv(Next(s, a))
  {
    match a
    case CloseIt(t) =>
      assert ThreadOk(s.pool, s.threads[t]);
      CloseKeeps(s, t, s.threads[t].worker, Next(s, a).threads[t]);
    case Fire(t) => FireKeeps(s, t);
    case Callback(_) => CallbackKeeps(s, a);
    case Crash(w) => CrashKeeps(s, w);
  }

  lemma ResetterKeeps(s: State, a: Action)
    requires Inv(s) && Enabled(s, a)
    requires a.ResetCall? || a.ResetClose? || a.ResetReturn? || a.CloseCall? || a.CloseReset?
    ensures Inv(Next(s, a))
  {
    hide WorkerOk, ThreadOk, SingleFlight, OneStarter, Reset;
    match a
    case ResetCall => ResetKeeps(s, Next(s, a).threads, |s.threads|, false);
    case ResetClose(t, w) => CloseKeeps(s, t, w, Next(s, a).threads[t]);
    case ResetReturn(t) => NoWorkerKeeps(s, s.pool, t, Next(s, a).threads[t]);
    case CloseCall => SpawnKeeps(s, s.pool.(closed := true), ClosingPool);
    case CloseReset(t) => ResetKeeps(s, Next(s, a).threads, t, true);
  }

  lemma NextKeeps(s: State, a: Action)
    requires Inv(s)
    ensures Inv(Next(s, a))
  {
    if Enabled(s, a) {
      if a.Call? || a.Enter? || a.Got? || a.FinishFailed? || a.Woken? || a.ReleaseDead? || a.ForgetIt? || a.ReleaseIt? {
        CallerKeeps(s, a);
      } else if a.CloseIt? || a.Fire? || a.Callback? || a.Crash? {
        TimerKeeps(s, a);
      } else {
        ResetterKeeps(s, a);
      }
    }
  }

  // The state after any sequence of steps from an empty pool.
  ghost function Exec(acts: seq<Action>): (s: State)
    ensures Inv(s)
    decreases |acts|
  {
    if acts == [] then INITIAL
    else
      var s := Exec(acts[..|acts| - 1]);
      NextKeeps(s, acts[|acts| - 1]);
      Next(s, acts[|acts| - 1])
  }

  /********** What it means for a run **********/

  // refs is exactly who acquired a worker and has not released it.
  lemma RefsAreHolders(acts: seq<Action>, w: WorkerId)
    requires w < |Exec(acts).pool.workers| && Exec(acts).pool.workers[w].phase.Started?
    ensures Exec(acts).pool.workers[w].refs == |Holders(Exec(acts).threads, w)|
  {
    assert WorkerOk(Exec(acts).pool, Exec(acts).threads, w);
  }

  // Whatever timers fired late, a worker the idle timer is closing is held by
  // nobody, and nobody can reach it any more.
  lemma IdleTimerClosesUnheld(acts: seq<Action>, t: ThreadId)
    requires t < |Exec(acts).threads| && Exec(acts).threads[t].Expiring?
    ensures var s := Exec(acts); var w := s.threads[t].worker; Holders(s.threads, w) == {} && !Pooled(s.pool, w)
  {
    var s := Exec(acts);
    var w := s.threads[t].worker;
    assert s.threads[t] == Expiring(w) && Owes(s.threads[t], w);
    assert WorkerOk(s.pool, s.threads, w);
  }

  // A worker somebody holds is closed only by a caller who found it dead, or
  // by a reset.
  lemma HeldWorkerClosedOnlyDeadOrReset(acts: seq<Action>, a: Action, w: WorkerId)
    requires Closes(Exec(acts), a, w) && Holders(Exec(acts).threads, w) != {}
    ensures a.ResetClose? || (a.CloseIt? && Exec(acts).threads[a.thread] == Dropping(w) && Exec(acts).pool.workers[w].crashed)
  {
    var s := Exec(acts);
    ClosingSteps(s, a, w);
    if a.CloseIt? {
      assert ThreadOk(s.pool, s.threads[a.thread]);
      if s.threads[a.thread].Expiring? { IdleTimerClosesUnheld(acts, a.thread); }
    }
  }

  // The step closes w, which was open.
  ghost predicate Closes(s: State, a: Action, w: WorkerId)
    requires Inv(s)
  {
    w < |s.pool.workers| && !s.pool.workers[w].closed && w < |Next(s, a).pool.workers| && Next(s, a).pool.workers[w].closed
  }

  lemma ClosingSteps(s: State, a: Action, w: WorkerId)
    requires Inv(s) && Closes(s, a, w)
    ensures a.ResetClose? || (a.CloseIt? && Enabled(s, a) && s.threads[a.thread].worker == w)
  {
  }

  // At most one start of a key is in flight between two resets.
  lemma OneStartInFlight(acts: seq<Action>, t: ThreadId, u: ThreadId)
    requires t < |Exec(acts).threads| && u < |Exec(acts).threads|
    requires Exec(acts).threads[t].Getting? && Exec(acts).threads[u].Getting?
    requires var s := Exec(acts); var v, w := s.threads[t].worker, s.threads[u].worker;
      s.pool.workers[v].key == s.pool.workers[w].key && s.born[v] == s.born[w]
    ensures t == u
  {
    var s := Exec(acts);
    assert ThreadOk(s.pool, s.threads[t]) && ThreadOk(s.pool, s.threads[u]);
  }

  // A worker that started is in the map, or somebody is about to close it, or
  // it is closed: never forgotten open.
  lemma NoWorkerLeaks(acts: seq<Action>, w: WorkerId)
    requires w < |Exec(acts).pool.workers| && Exec(acts).pool.workers[w].phase.Started?
    ensures var s := Exec(acts); s.pool.workers[w].closed <==> !Pooled(s.pool, w) && !OwedOpen(s, w)
    ensures var s := Exec(acts); Pooled(s.pool, w) && Holders(s.threads, w) == {} ==> Ticking(s.pool, w)
  {
    assert WorkerOk(Exec(acts).pool, Exec(acts).threads, w);
  }

  // A close still to come of a worker that is still open.
  ghost predicate OwedOpen(s: State, w: WorkerId)
    requires w < |s.pool.workers|
  {
    Owed(s.threads, w) && !s.pool.workers[w].closed
  }

  // Some goroutine has an open worker still to close.
  ghost predicate CloseStillDue(s: State) {
    exists u, w :: 0 <= u < |s.threads| && 0 <= w < |s.pool.workers| && Owes(s.threads[u], w)
      && s.pool.workers[w].phase.Started? && !s.pool.workers[w].closed
  }

  // When Close has returned nothing more starts, and every worker is closed
  // exactly when no timer callback, forget or reset is still between dropping
  // an open worker and closing it: Close waits for its own reset only. A worker
  // nobody has still to close is closed; the converse fails, as two callers who
  // found one worker dead each close it.
  lemma AfterClose(acts: seq<Action>, t: ThreadId)
    requires t < |Exec(acts).threads| && Exec(acts).threads[t].PoolCloseReturned?
    ensures var s := Exec(acts);
      && s.pool.m == map[]
      && (forall k, now :: Acquire(s.pool, k, now) == (s.pool, Refused(PoolClosed)))
      && ((forall w :: 0 <= w < |s.pool.workers| && s.pool.workers[w].phase.Started? ==> s.pool.workers[w].closed)
          <==> !CloseStillDue(s))
      && (forall w :: 0 <= w < |s.pool.workers| && s.pool.workers[w].phase.Started? && !Owed(s.threads, w) ==> s.pool.workers[w].closed)
  {
    var s := Exec(acts);
    assert AfterFinalReset(s.threads[t]);
    forall w | 0 <= w < |s.pool.workers| && s.pool.workers[w].phase.Started? && !Owed(s.threads, w) ensures s.pool.workers[w].closed {
      assert WorkerOk(s.pool, s.threads, w);
    }
    if !CloseStillDue(s) {
      forall w | 0 <= w < |s.pool.workers| && s.pool.workers[w].phase.Started? ensures s.pool.workers[w].closed {
        assert WorkerOk(s.pool, s.threads, w);
      }
    }
  }

  // Close does return while a worker is open: an idle timer's callback has
  // taken the worker out of the map and has yet to close it.
  lemma CloseMayReturnEarly(k: Key)
    requires k.person != ""
    ensures var s := Exec(EarlyReturn(k)); |s.threads| == 3 && s.threads[2].PoolCloseReturned? && CloseStillDue(s)
  {
    Reached(k, 9);
    var s := Exec(EarlyReturn(k));
    assert EarlyReturn(k)[..9] == EarlyReturn(k);
    assert Owes(s.threads[1], 0);
  }

  // One caller acquires and releases; the idle timer fires and its callback
  // runs up to its close; Close runs from start to end.
  function EarlyReturn(k: Key): (acts: seq<Action>) {
    [Call(k), Enter(0, 0), Got(0, true, PoolClosed), ReleaseIt(0), Fire(0), Callback(0), CloseCall, CloseReset(2), ResetReturn(2)]
  }

  // The state after the first n of those steps.
  function Stage(k: Key, n: nat): State {
    State(
      Pool(
        if 2 <= n < 6 then map[k := 0] else map[], map[], n >= 7,
        if n < 2 then [] else [Worker(k, if n == 2 then Starting else Started, if n < 4 then 1 else 0, if n < 4 then None else Some(0), false, false)],
        if n < 4 then [] else [Timer(0, if n == 4 then Armed else if n == 5 then Firing else Over)]),
      (if n == 0 then [] else [if n == 1 then Acquiring(k) else if n == 2 then Getting(0) else if n == 3 then Holding(0) else Returned(None)])
      + (if n < 6 then [] else [Expiring(0)])
      + (if n < 7 then [] else [if n == 7 then ClosingPool else if n == 8 then Resetting({}, true) else PoolCloseReturned]),
      if n < 8 then 0 else 1,
      if n < 2 then [] else [0])
  }

  lemma StartStages(k: Key, n: nat)
    requires k.person != "" && n < 2
    ensures WellFormed(Stage(k, n)) && Next(Stage(k, n), EarlyReturn(k)[n]) == Stage(k, n + 1)
  {
  }

  lemma HoldStages(k: Key, n: nat)
    requires k.person != "" && 2 <= n < 4
    ensures WellFormed(Stage(k, n)) && Next(Stage(k, n), EarlyReturn(k)[n]) == Stage(k, n + 1)
  {
  }

  lemma TimerStages(k: Key, n: nat)
    requires k.person != "" && 4 <= n < 6
    ensures WellFormed(Stage(k, n)) && Next(Stage(k, n), EarlyReturn(k)[n]) == Stage(k, n + 1)
  {
  }

  lemma CloseStages(k: Key, n: nat)
    requires k.person != "" && 6 <= n < 9
    ensures WellFormed(Stage(k, n)) && Next(Stage(k, n), EarlyReturn(k)[n]) == Stage(k, n + 1)
  {
    assert Stage(k, n).pool.m.Values == {};
  }

  lemma {:induction false} Reached(k: Key, n: nat)
    requires k.person != "" && n <= 9
    ensures Exec(EarlyReturn(k)[..n]) == Stage(k, n)
  {
    if n > 0 {
      Reached(k, n - 1);
      assert EarlyReturn(k)[..n][..n - 1] == EarlyReturn(k)[..n - 1];
      if n <= 2 { StartStages(k, n - 1); } else if n <= 4 { HoldStages(k, n - 1); } else if n <= 6 { TimerStages(k, n - 1); } else { CloseStages(k, n - 1); }
    }
  }
}
