/** Which idle timers can still fire: none is left behind for a worker that is in
    use, or that a reset or a forget took away. */
module WorkerPoolTimers {
  import opened Wrappers
  import opened WorkerPools
  import opened WorkerPoolRuns

  // A timer still to fire is its worker's own, nobody holds that worker, and it is
  // in the map; or the late callback of an earlier timer took it out.
  ghost predicate TimerOk(p: Pool, threads: seq<Pc>, t: TimerId)
    requires t < |p.timers| && p.timers[t].worker < |p.workers|
  {
    var w := p.timers[t].worker;
    p.timers[t].state.Armed? ==>
      && p.workers[w].timer == Some(t) && p.workers[w].refs <= 0
      && (Pooled(p, w) || p.workers[w].closed || ExpiringNow(threads, w))
  }

  ghost predicate Tidy(s: State)
    requires WellFormed(s)
  {
    forall t :: 0 <= t < |s.pool.timers| ==> TimerOk(s.pool, s.threads, t)
  }

  // A goroutine about to close a worker is still about to, until it has.
  lemma StillExpiring(threads: seq<Pc>, t: ThreadId, pc: Pc, w: WorkerId)
    requires t < |threads| && ExpiringNow(threads, w) && threads[t] != Expiring(w)
    ensures ExpiringNow(threads[t := pc], w)
  {
    var u :| 0 <= u < |threads| && threads[u] == Expiring(w);
    assert threads[t := pc][u] == Expiring(w);
  }

  lemma AddedThread(threads: seq<Pc>, pc: Pc, w: WorkerId)
    ensures ExpiringNow(threads, w) ==> ExpiringNow(threads + [pc], w)
    ensures pc == Expiring(w) ==> ExpiringNow(threads + [pc], w)
  {
    if ExpiringNow(threads, w) {
      var u :| 0 <= u < |threads| && threads[u] == Expiring(w);
      assert (threads + [pc])[u] == Expiring(w);
    }
    assert (threads + [pc])[|threads|] == pc;
  }

  lemma JoinTidy(p: Pool, k: Key, now: int, threads: seq<Pc>, t: TimerId)
    requires ValidPool(p) && Acquire(p, k, now).1.Join? && t < |p.timers| && TimerOk(p, threads, t)
    ensures var q := Acquire(p, k, now).0; ValidPool(q) && |q.timers| == |p.timers| && TimerOk(q, threads, t)
  {
    hide ExpiringNow;
    JoinSection(p, k, now);
  }

  lemma StartTidy(p: Pool, k: Key, now: int, threads: seq<Pc>, t: TimerId)
    requires ValidPool(p) && Acquire(p, k, now).1.Start? && t < |p.timers| && TimerOk(p, threads, t)
    ensures var q := Acquire(p, k, now).0; ValidPool(q) && |q.timers| == |p.timers| && TimerOk(q, threads, t)
  {
    hide ExpiringNow;
    StartSection(p, k, now);
    var q := Acquire(p, k, now).0;
    var w := p.timers[t].worker;
    assert Untouched(p, q, w) && q.timers == p.timers;
  }

  lemma EnterTidy(p: Pool, k: Key, now: int, threads: seq<Pc>, t: TimerId)
    requires ValidPool(p) && t < |p.timers| && TimerOk(p, threads, t)
    ensures var q := Acquire(p, k, now).0; ValidPool(q) && |q.timers| == |p.timers| && TimerOk(q, threads, t)
  {
    if Acquire(p, k, now).1.Join? { JoinTidy(p, k, now, threads, t); }
    else if Acquire(p, k, now).1.Start? { StartTidy(p, k, now, threads, t); }
  }

  lemma ReleaseTidy(p: Pool, w: WorkerId, threads: seq<Pc>, t: TimerId)
    requires ValidPool(p) && w < |p.workers| && p.workers[w].refs > 0 && t < |Release(p, w).timers|
    requires t < |p.timers| ==> TimerOk(p, threads, t)
    ensures ValidPool(Release(p, w)) && TimerOk(Release(p, w), threads, t)
  {
    hide ExpiringNow;
    ReleaseSection(p, w);
    if t < |p.timers| && p.timers[t].worker != w { assert Untouched(p, Release(p, w), p.timers[t].worker); }
  }

  lemma ForgetTidy(p: Pool, w: WorkerId, threads: seq<Pc>, t: TimerId)
    requires ValidPool(p) && w < |p.workers| && t < |p.timers| && TimerOk(p, threads, t)
    ensures ValidPool(Forget(p, w)) && |Forget(p, w).timers| == |p.timers| && TimerOk(Forget(p, w), threads, t)
  {
    hide ExpiringNow;
  }

  lemma DropTimers(p: Pool, w: WorkerId, error: Error, until: int)
    requires w < |p.workers|
    ensures DropFailed(p, w, error, until).timers == p.timers
  {
  }

  lemma DropTidy(p: Pool, w: WorkerId, error: Error, until: int, threads: seq<Pc>, t: TimerId)
    requires ValidPool(p) && w < |p.workers| && p.workers[w].refs > 0 && t < |p.timers| && TimerOk(p, threads, t)
    ensures ValidPool(DropFailed(p, w, error, until)) && DropFailed(p, w, error, until).timers == p.timers
    ensures TimerOk(DropFailed(p, w, error, until), threads, t)
  {
    hide ExpiringNow, DropFailed, Pooled;
    DropTimers(p, w, error, until);
    DropFailedSection(p, w, error, until);
    var v := p.timers[t].worker;
    if v != w { assert Untouched(p, DropFailed(p, w, error, until), v); }
  }

  lemma ResetTidy(p: Pool, threads: seq<Pc>, t: TimerId)
    requires ValidPool(p) && t < |p.timers| && TimerOk(p, threads, t)
    ensures ValidPool(Reset(p)) && TimerOk(Reset(p), threads, t)
  {
    hide ExpiringNow;
    var w := p.timers[t].worker;
    if p.timers[t].state.Armed? && Pooled(p, w) { assert p.workers[p.m[p.workers[w].key]].timer == Some(t); }
  }

  // The timer whose callback runs is over; the worker it takes out is about to be closed.
  lemma ExpireTidy(p: Pool, u: TimerId, threads: seq<Pc>, t: TimerId)
    requires ValidPool(p) && u < |p.timers| && t < |p.timers| && TimerOk(p, threads, t)
    requires Expire(p, u).1 ==> ExpiringNow(threads, p.timers[u].worker)
    ensures ValidPool(Expire(p, u).0) && |Expire(p, u).0.timers| == |p.timers| && TimerOk(Expire(p, u).0, threads, t)
  {
    hide ExpiringNow;
  }

  lemma CloseTidy(p: Pool, w: WorkerId, threads: seq<Pc>, after: seq<Pc>, t: TimerId)
    requires ValidPool(p) && w < |p.workers| && p.workers[w].phase.Started? && t < |p.timers| && TimerOk(p, threads, t)
    requires forall v :: v != w && ExpiringNow(threads, v) ==> ExpiringNow(after, v)
    ensures ValidPool(CloseWorker(p, w)) && TimerOk(CloseWorker(p, w), after, t)
  {
    hide ExpiringNow;
  }

  lemma MoveTidy(p: Pool, threads: seq<Pc>, u: ThreadId, pc: Pc, t: TimerId)
    requires ValidPool(p) && t < |p.timers| && TimerOk(p, threads, t) && u < |threads| && !threads[u].Expiring?
    ensures TimerOk(p, threads[u := pc], t)
  {
    var w := p.timers[t].worker;
    if ExpiringNow(threads, w) { StillExpiring(threads, u, pc, w); }
  }

  lemma GrowTidy(p: Pool, threads: seq<Pc>, pc: Pc, t: TimerId)
    requires ValidPool(p) && t < |p.timers| && TimerOk(p, threads, t)
    ensures TimerOk(p, threads + [pc], t)
  {
    AddedThread(threads, pc, p.timers[t].worker);
  }

  /********** Every step keeps it **********/

  // Who holds counts, and a worker that could not be started is counted.
  lemma StillCounted(s: State, t: ThreadId)
    requires Inv(s) && t < |s.threads| && (s.threads[t].FoundDead? || s.threads[t].Holding? || s.threads[t].FailedStart?)
    ensures s.threads[t].worker < |s.pool.workers| && s.pool.workers[s.threads[t].worker].refs > 0
  {
    var w := s.threads[t].worker;
    assert Known(s.pool, s.threads[t]) && ThreadOk(s.pool, s.threads[t]) && WorkerOk(s.pool, s.threads, w);
    if !s.threads[t].FailedStart? { assert t in Holders(s.threads, w); }
  }

  lemma EnterStep(s: State, a: Action, t: TimerId)
    requires Inv(s) && a.Enter? && Enabled(s, a) && t < |s.pool.timers| && TimerOk(s.pool, s.threads, t)
    ensures WellFormed(Next(s, a)) && |Next(s, a).pool.timers| == |s.pool.timers| && TimerOk(Next(s, a).pool, Next(s, a).threads, t)
  {
    NextKeeps(s, a);
    hide Inv, TimerOk, Acquire;
    EnterTidy(s.pool, s.threads[a.thread].key, a.now, s.threads, t);
    MoveTidy(Next(s, a).pool, s.threads, a.thread, Next(s, a).threads[a.thread], t);
  }

  lemma ReleaseStep(s: State, a: Action, t: TimerId)
    requires Inv(s) && Enabled(s, a) && (a.ReleaseDead? || a.ReleaseIt?)
    requires t < |Next(s, a).pool.timers| && (t < |s.pool.timers| ==> TimerOk(s.pool, s.threads, t))
    ensures WellFormed(Next(s, a)) && TimerOk(Next(s, a).pool, Next(s, a).threads, t)
  {
    NextKeeps(s, a);
    StillCounted(s, a.thread);
    hide Inv, TimerOk, Release;
    ReleaseTidy(s.pool, s.threads[a.thread].worker, s.threads, t);
    MoveTidy(Next(s, a).pool, s.threads, a.thread, Next(s, a).threads[a.thread], t);
  }

  lemma DropStep(s: State, a: Action, t: TimerId)
    requires Inv(s) && Enabled(s, a) && (a.FinishFailed? || a.ForgetIt?) && t < |s.pool.timers| && TimerOk(s.pool, s.threads, t)
    ensures WellFormed(Next(s, a)) && |Next(s, a).pool.timers| == |s.pool.timers| && TimerOk(Next(s, a).pool, Next(s, a).threads, t)
  {
    NextKeeps(s, a);
    var w := s.threads[a.thread].worker;
    if a.FinishFailed? { StillCounted(s, a.thread); }
    hide Inv, TimerOk, Forget, DropFailed;
    if a.ForgetIt? { ForgetTidy(s.pool, w, s.threads, t); }
    else { DropTidy(s.pool, w, s.threads[a.thread].error, a.until, s.threads, t); }
    MoveTidy(Next(s, a).pool, s.threads, a.thread, Next(s, a).threads[a.thread], t);
  }

  lemma CloseStep(s: State, a: Action, t: TimerId)
    requires Inv(s) && Enabled(s, a) && (a.CloseIt? || a.ResetClose?) && t < |s.pool.timers| && TimerOk(s.pool, s.threads, t)
    ensures WellFormed(Next(s, a)) && |Next(s, a).pool.timers| == |s.pool.timers| && TimerOk(Next(s, a).pool, Next(s, a).threads, t)
  {
    NextKeeps(s, a);
    var w := if a.CloseIt? then s.threads[a.thread].worker else a.worker;
    var after := Next(s, a).threads;
    assert ThreadOk(s.pool, s.threads[a.thread]);
    hide Inv, TimerOk;
    forall v | v != w && ExpiringNow(s.threads, v) ensures ExpiringNow(after, v) {
      StillExpiring(s.threads, a.thread, after[a.thread], v);
    }
    if s.pool.workers[w].phase.Started? { CloseTidy(s.pool, w, s.threads, after, t); }
    else { MoveTidy(s.pool, s.threads, a.thread, after[a.thread], t); }
  }

  lemma CallbackStep(s: State, a: Action, t: TimerId)
    requires Inv(s) && a.Callback? && Enabled(s, a) && t < |s.pool.timers| && TimerOk(s.pool, s.threads, t)
    ensures WellFormed(Next(s, a)) && |Next(s, a).pool.timers| == |s.pool.timers| && TimerOk(Next(s, a).pool, Next(s, a).threads, t)
  {
    NextKeeps(s, a);
    var pc := Next(s, a).threads[|s.threads|];
    hide Inv, TimerOk, Expire;
    GrowTidy(s.pool, s.threads, pc, t);
    AddedThread(s.threads, pc, s.pool.timers[a.timer].worker);
    ExpireTidy(s.pool, a.timer, s.threads + [pc], t);
  }

  lemma ResetStep(s: State, a: Action, t: TimerId)
    requires Inv(s) && Enabled(s, a) && (a.ResetCall? || a.CloseReset?) && t < |s.pool.timers| && TimerOk(s.pool, s.threads, t)
    ensures WellFormed(Next(s, a)) && |Next(s, a).pool.timers| == |s.pool.timers| && TimerOk(Next(s, a).pool, Next(s, a).threads, t)
  {
    NextKeeps(s, a);
    hide Inv, TimerOk;
    ResetTidy(s.pool, s.threads, t);
    if a.ResetCall? { GrowTidy(Reset(s.pool), s.threads, Next(s, a).threads[|s.threads|], t); }
    else { MoveTidy(Reset(s.pool), s.threads, a.thread, Next(s, a).threads[a.thread], t); }
  }

  // Calls and returns, a timer that fires, and a worker that crashes.
  lemma PlainStep(s: State, a: Action, t: TimerId)
    requires Inv(s) && Enabled(s, a) && t < |s.pool.timers| && TimerOk(s.pool, s.threads, t)
    requires a.Call? || a.Got? || a.Woken? || a.Fire? || a.ResetReturn? || a.CloseCall? || a.Crash?
    ensures WellFormed(Next(s, a)) && |Next(s, a).pool.timers| == |s.pool.timers| && TimerOk(Next(s, a).pool, Next(s, a).threads, t)
  {
    NextKeeps(s, a);
    hide Inv, ExpiringNow;
    if a.Call? || a.CloseCall? { GrowTidy(s.pool, s.threads, Next(s, a).threads[|s.threads|], t); }
    else if !a.Fire? && !a.Crash? { MoveTidy(s.pool, s.threads, a.thread, Next(s, a).threads[a.thread], t); }
  }

  lemma StepTidy(s: State, a: Action)
    requires Inv(s) && Tidy(s)
    ensures Inv(Next(s, a)) && Tidy(Next(s, a))
  {
    NextKeeps(s, a);
    if Enabled(s, a) {
      forall t | 0 <= t < |Next(s, a).pool.timers| ensures TimerOk(Next(s, a).pool, Next(s, a).threads, t) {
        assert t < |s.pool.timers| ==> TimerOk(s.pool, s.threads, t);
        hide Inv, TimerOk, Next, Enabled;
        match a
        case Enter(_, _) => MoreTimers(s, a); EnterStep(s, a, t);
        case ReleaseDead(_) => ReleaseStep(s, a, t);
        case ReleaseIt(_) => ReleaseStep(s, a, t);
        case FinishFailed(_, _) => MoreTimers(s, a); DropStep(s, a, t);
        case ForgetIt(_) => MoreTimers(s, a); DropStep(s, a, t);
        case CloseIt(_) => MoreTimers(s, a); CloseStep(s, a, t);
        case ResetClose(_, _) => MoreTimers(s, a); CloseStep(s, a, t);
        case Callback(_) => MoreTimers(s, a); CallbackStep(s, a, t);
        case ResetCall => MoreTimers(s, a); ResetStep(s, a, t);
        case CloseReset(_) => MoreTimers(s, a); ResetStep(s, a, t);
        case _ => MoreTimers(s, a); PlainStep(s, a, t);
      }
    }
  }

  // Only a release sets a timer.
  lemma MoreTimers(s: State, a: Action)
    requires WellFormed(s) && !a.ReleaseDead? && !a.ReleaseIt?
    ensures |Next(s, a).pool.timers| == |s.pool.timers|
  {
  }

  lemma {:induction false} RunTidy(acts: seq<Action>)
    ensures Tidy(Exec(acts))
    decreases |acts|
  {
    hide Next;
    if acts != [] {
      RunTidy(acts[..|acts| - 1]);
      StepTidy(Exec(acts[..|acts| - 1]), acts[|acts| - 1]);
    }
  }

  // Over every interleaving, no timer is left behind: one that can still fire is
  // its worker's own and no other of that worker can; nobody holds the worker; and
  // it is in the map, unless the late callback of an earlier timer took it out to
  // close it.
  lemma RunningTimers(acts: seq<Action>, t: TimerId)
    requires t < |Exec(acts).pool.timers| && Exec(acts).pool.timers[t].state.Armed?
    ensures var s := Exec(acts);
      var w := s.pool.timers[t].worker;
      && Holders(s.threads, w) == {}
      && (forall u :: 0 <= u < |s.pool.timers| && u != t && s.pool.timers[u].worker == w ==> !s.pool.timers[u].state.Armed?)
      && (Pooled(s.pool, w) || s.pool.workers[w].closed || ExpiringNow(s.threads, w))
  {
    hide Exec;
    var s := Exec(acts);
    RunTidy(acts);
    var w := s.pool.timers[t].worker;
    assert TimerOk(s.pool, s.threads, t) && WorkerOk(s.pool, s.threads, w);
    forall u | 0 <= u < |s.pool.timers| && u != t && s.pool.timers[u].worker == w ensures !s.pool.timers[u].state.Armed? {
      assert TimerOk(s.pool, s.threads, u);
    }
  }
}
