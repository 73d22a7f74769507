/** The front's pool of per-person workers: one reference-counted worker per
    (person, share), started once however many ask, closed by an idle timer,
    by a caller who finds it dead, by a reset, or when the pool closes.

    Every function below is one critical section of the pool's mutex, and class
    `WorkerPool` runs it on fields; module `WorkerPoolRuns` interleaves those
    sections over any number of goroutines. */
module WorkerPools {
  import opened Wrappers

  datatype Key = Key(person: string, share: string)

  type WorkerId = nat
  type TimerId = nat
  type ThreadId = nat

  datatype Error = PoolClosed | NobodyAuthenticated | StartFailed(why: string)

  // Starting: `ready` is still open. Started and Failed: it is closed, and the
  // filesystem or the error is set.
  datatype Phase = Starting | Started | Failed(error: Error)

  // `crashed` is the process gone by itself; `closed` is the pool's Close of it.
  datatype Worker = Worker(key: Key, phase: Phase, refs: int, timer: Option<TimerId>, crashed: bool, closed: bool)

  // Armed can still be stopped; a Firing timer's callback already waits for the
  // mutex, and Stop has no effect on it.
  datatype TimerState = Armed | Firing | Over
  datatype Timer = Timer(worker: WorkerId, state: TimerState)

  datatype Failure = Failure(error: Error, until: int)

  // What the mutex guards. A worker and a timer are known by where they were
  // allocated: an index never given out twice.
  datatype Pool = Pool(
    m: map<Key, WorkerId>,
    failed: map<Key, Failure>,
    closed: bool,
    workers: seq<Worker>,
    timers: seq<Timer>)

  ghost predicate ValidPool(p: Pool) {
    && (forall k :: k in p.m ==> p.m[k] < |p.workers| && p.workers[p.m[k]].key == k)
    && (forall t :: 0 <= t < |p.timers| ==> p.timers[t].worker < |p.workers|)
    && (forall w :: 0 <= w < |p.workers| && p.workers[w].timer.Some? ==>
          p.workers[w].timer.value < |p.timers| && p.timers[p.workers[w].timer.value].worker == w)
  }

  predicate Pooled(p: Pool, w: WorkerId)
    requires w < |p.workers|
  {
    p.workers[w].key in p.m && p.m[p.workers[w].key] == w
  }

  // A worker that crashed or was closed answers fs.ErrClosed.
  predicate Alive(x: Worker) {
    !x.crashed && !x.closed
  }

  // time.Timer.Stop: only a timer that has not fired yet is stopped by it.
  function Stop(timers: seq<Timer>, t: TimerId): seq<Timer>
    requires t < |timers|
  {
    if timers[t].state.Armed? then timers[t := timers[t].(state := Over)] else timers
  }

  function StopIfSet(timers: seq<Timer>, t: Option<TimerId>): seq<Timer>
    requires t.Some? ==> t.value < |timers|
  {
    if t.Some? then Stop(timers, t.value) else timers
  }

  /********** The critical sections **********/

  datatype Admission = Refused(error: Error) | Start(worker: WorkerId) | Join(worker: WorkerId)

  function Acquire(p: Pool, k: Key, now: int): (Pool, Admission)
    requires ValidPool(p)
  {
    if p.closed then (p, Refused(PoolClosed))
    else if k in p.failed && now < p.failed[k].until then (p, Refused(p.failed[k].error))
    else
      var p1 := p.(failed := p.failed - {k});
      if k !in p1.m then
        var w := |p1.workers|;
        (p1.(m := p1.m[k := w], workers := p1.workers + [Worker(k, Starting, 1, None, false, false)]), Start(w))
      else
        var w := p1.m[k];
        var x := p1.workers[w];
        (p1.(workers := p1.workers[w := x.(refs := x.refs + 1, timer := None)], timers := StopIfSet(p1.timers, x.timer)),
         Join(w))
  }

  // close(ready): not under the mutex, but the one moment the others see.
  function Ready(p: Pool, w: WorkerId, ok: bool, error: Error): Pool
    requires w < |p.workers|
  {
    p.(workers := p.workers[w := p.workers[w].(phase := if ok then Started else Failed(error))])
  }

  function DropFailed(p: Pool, w: WorkerId, error: Error, until: int): Pool
    requires w < |p.workers|
  {
    var k := p.workers[w].key;
    var p1 := if Pooled(p, w) then p.(m := p.m - {k}) else p;
    if error.PoolClosed? then p1 else p1.(failed := p1.failed[k := Failure(error, until)])
  }

  function Release(p: Pool, w: WorkerId): Pool
    requires w < |p.workers|
  {
    var x := p.workers[w].(refs := p.workers[w].refs - 1);
    var p1 := p.(workers := p.workers[w := x]);
    if x.refs > 0 || !Pooled(p1, w) then p1
    else p1.(workers := p1.workers[w := x.(timer := Some(|p1.timers|))], timers := p1.timers + [Timer(w, Armed)])
  }

  // The timer's callback. True when the worker is the caller's to close.
  function Expire(p: Pool, t: TimerId): (Pool, bool)
    requires t < |p.timers| && p.timers[t].worker < |p.workers|
  {
    var w := p.timers[t].worker;
    var p1 := p.(timers := p.timers[t := p.timers[t].(state := Over)]);
    if p1.workers[w].refs > 0 || !Pooled(p1, w) then (p1, false)
    else (p1.(m := p1.m - {p1.workers[w].key}), true)
  }

  function Forget(p: Pool, w: WorkerId): Pool
    requires ValidPool(p) && w < |p.workers|
  {
    if Pooled(p, w) then
      p.(m := p.m - {p.workers[w].key}, timers := StopIfSet(p.timers, p.workers[w].timer))
    else p
  }

  // Every timer some pooled worker still points to, stopped.
  function TimersAfterReset(p: Pool): (timers: seq<Timer>)
    requires ValidPool(p)
    ensures |timers| == |p.timers|
  {
    seq(|p.timers|, t requires 0 <= t < |p.timers| =>
      if p.timers[t].state.Armed? && (exists k :: k in p.m && p.workers[p.m[k]].timer == Some(t))
      then p.timers[t].(state := Over) else p.timers[t])
  }

  function Reset(p: Pool): Pool
    requires ValidPool(p)
  {
    p.(m := map[], failed := map[], timers := TimersAfterReset(p))
  }

  // w.close: a worker whose start failed has no filesystem to close.
  function CloseWorker(p: Pool, w: WorkerId): Pool
    requires w < |p.workers|
  {
    if p.workers[w].phase.Started? then p.(workers := p.workers[w := p.workers[w].(closed := true)]) else p
  }

  /** The pool as the program keeps it: fields changed under one mutex. */
  class WorkerPool {
    const hold: int
    var m: map<Key, WorkerId>
    var failed: map<Key, Failure>
    var closed: bool
    var workers: seq<Worker>
    var timers: seq<Timer>

    ghost function View(): Pool
      reads this
    {
      Pool(m, failed, closed, workers, timers)
    }

    constructor (hold: int)
      ensures View() == Pool(map[], map[], false, [], []) && this.hold == hold
    {
      this.hold := hold;
      m, failed, closed, workers, timers := map[], map[], false, [], [];
    }

    method AcquireLocked(k: Key, now: int) returns (a: Admission)
      requires ValidPool(View())
      modifies this
      ensures (View(), a) == Acquire(old(View()), k, now)
    {
      if closed {
        return Refused(PoolClosed);
      }
      if k in failed {
        if now < failed[k].until {
          return Refused(failed[k].error);
        }
      }
      failed := failed - {k};
      if k !in m {
        var w := |workers|;
        workers := workers + [Worker(k, Starting, 1, None, false, false)];
        m := m[k := w];
        return Start(w);
      }
      var w := m[k];
      var x := workers[w].(refs := workers[w].refs + 1);
      if x.timer.Some? {
        timers := Stop(timers, x.timer.value);
        x := x.(timer := None);
      }
      workers := workers[w := x];
      return Join(w);
    }

    method DropFailedLocked(w: WorkerId, error: Error, now: int)
      requires w < |workers|
      modifies this
      ensures View() == DropFailed(old(View()), w, error, now + hold)
    {
      var k := workers[w].key;
      if k in m && m[k] == w {
        m := m - {k};
      }
      if !error.PoolClosed? {
        failed := failed[k := Failure(error, now + hold)];
      }
    }

    method ReleaseLocked(w: WorkerId)
      requires w < |workers|
      modifies this
      ensures View() == Release(old(View()), w)
    {
      var x := workers[w].(refs := workers[w].refs - 1);
      workers := workers[w := x];
      if x.refs > 0 || x.key !in m || m[x.key] != w {
        return;
      }
      workers := workers[w := x.(timer := Some(|timers|))];
      timers := timers + [Timer(w, Armed)];
    }

    method ExpireLocked(t: TimerId) returns (close: bool)
      requires t < |timers| && timers[t].worker < |workers|
      modifies this
      ensures (View(), close) == Expire(old(View()), t)
    {
      var w := timers[t].worker;
      timers := timers[t := timers[t].(state := Over)];
      var x := workers[w];
      if x.refs > 0 || x.key !in m || m[x.key] != w {
        return false;
      }
      m := m - {x.key};
      return true;
    }

    method ForgetLocked(w: WorkerId)
      requires ValidPool(View()) && w < |workers|
      modifies this
      ensures View() == Forget(old(View()), w)
    {
      var x := workers[w];
      if x.key in m && m[x.key] == w {
        m := m - {x.key};
        if x.timer.Some? {
          timers := Stop(timers, x.timer.value);
        }
      }
    }

    method ResetLocked() returns (old_: map<Key, WorkerId>)
      requires ValidPool(View())
      modifies this
      ensures old_ == old(m)
      ensures View() == Reset(old(View()))
    {
      old_ := m;
      m := map[];
      failed := map[];
      ghost var before := timers;
      var left := old_.Keys;
      while left != {}
        invariant left <= old_.Keys && m == map[] && failed == map[]
        invariant closed == old(closed) && workers == old(workers) && |timers| == |before|
        invariant forall t :: 0 <= t < |timers| ==>
          (timers[t] ==
            if before[t].state.Armed? && (exists k :: k in old_.Keys - left && workers[old_[k]].timer == Some(t))
            then before[t].(state := Over) else before[t])
        decreases left
      {
        var k :| k in left;
        var w := old_[k];
        if workers[w].timer.Some? {
          timers := Stop(timers, workers[w].timer.value);
        }
        left := left - {k};
        assert old_.Keys - left == (old_.Keys - (left + {k})) + {k};
      }
      assert timers == TimersAfterReset(old(View()));
    }
  }
}
