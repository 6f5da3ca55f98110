/**
 Bounded concurrency: a pool of runners that take the next index when theirs
 returned, and the cabin-class stages that run one pool after another.
 */
module Concurrency {
  import opened Common
  import opened Sorting

  datatype Runner = Idle | Working(index: nat) | Finished

  datatype Event<R> = Started(index: nat) | Returned(index: nat, value: R)

  /** `log` is the history of worker calls and returns. */
  datatype Pool<R> = Pool(next: nat, runners: seq<Runner>, results: seq<Option<R>>, log: seq<Event<R>>)

  // ---- mapWithConcurrency -----------------------------------------------------------

  function Open<R>(size: nat, limit: nat): Pool<R> {
    Pool(0, seq(Max(1, Min(limit, size)), _ => Idle), seq(size, _ => None), [])
  }

  /** The head of a runner's loop: take the next index and call the worker, or stop. */
  function TakeNext<R>(pool: Pool<R>, r: nat): Pool<R>
    requires r < |pool.runners|
  {
    if pool.next < |pool.results| then
      pool.(next := pool.next + 1, runners := pool.runners[r := Working(pool.next)], log := pool.log + [Started(pool.next)])
    else pool.(runners := pool.runners[r := Finished])
  }

  /** The runner's worker returned: store the result at its own index. */
  function Store<R>(pool: Pool<R>, r: nat, value: R): Pool<R>
    requires r < |pool.runners| && pool.runners[r].Working? && pool.runners[r].index < |pool.results|
  {
    var i := pool.runners[r].index;
    pool.(runners := pool.runners[r := Idle], results := pool.results[i := Some(value)], log := pool.log + [Returned(i, value)])
  }

  /** One turn of runner r; `value` is what its worker returned, if it has one. */
  function Turn<R>(pool: Pool<R>, r: nat, value: R): Pool<R> {
    if r >= |pool.runners| then pool else
      match pool.runners[r]
      case Idle => TakeNext(pool, r)
      case Working(i) => if i < |pool.results| then TakeNext(Store(pool, r, value), r) else pool
      case Finished => pool
  }

  datatype Move<R> = Move(runner: nat, value: R)

  function Run<R>(pool: Pool<R>, moves: seq<Move<R>>): Pool<R> {
    if moves == [] then pool else
      var last := moves[|moves| - 1];
      Turn(Run(pool, moves[..|moves| - 1]), last.runner, last.value)
  }

  /** The same turns on shared variables. */
  class ConcurrentMap<R> {
    var next: nat
    var runners: seq<Runner>
    var results: seq<Option<R>>
    ghost var log: seq<Event<R>>

    ghost function Value(): Pool<R>
      reads this
    {
      Pool(next, runners, results, log)
    }

    constructor (size: nat, limit: nat)
      ensures Value() == Open(size, limit)
    {
      next := 0;
      runners := seq(Max(1, Min(limit, size)), _ => Idle);
      results := seq(size, _ => None);
      log := [];
    }

    method RunnerTurn(r: nat, value: R)
      requires r < |runners| && runners[r] != Finished && (runners[r].Working? ==> runners[r].index < |results|)
      modifies this
      ensures Value() == Turn(old(Value()), r, value)
    {
      if runners[r].Working? {
        results := results[runners[r].index := Some(value)];
        log := log + [Returned(runners[r].index, value)];
        runners := runners[r := Idle];
      }
      if next < |results| {
        var index := next;
        next := next + 1;
        log := log + [Started(index)];
        runners := runners[r := Working(index)];
      } else {
        runners := runners[r := Finished];
      }
    }
  }

  // ---- Invariant of a pool -------------------------------------------------------------

  function InFlight<R>(log: seq<Event<R>>): int {
    if log == [] then 0 else
      InFlight(log[..|log| - 1]) + if log[|log| - 1].Started? then 1 else -1
  }

  function WorkingCount(runners: seq<Runner>): nat {
    if runners == [] then 0 else
      WorkingCount(runners[..|runners| - 1]) + if runners[|runners| - 1].Working? then 1 else 0
  }

  predicate WithinLimit<R>(log: seq<Event<R>>, limit: nat) {
    forall n | 0 <= n <= |log| :: InFlight(log[..n]) <= limit
  }

  predicate RunnersOk<R>(pool: Pool<R>)
    requires pool.next <= |pool.results|
  {
    && (forall r | 0 <= r < |pool.runners| && pool.runners[r].Working? ::
          pool.runners[r].index < pool.next && pool.results[pool.runners[r].index].None?)
    && (forall r, q | 0 <= r < q < |pool.runners| && pool.runners[r].Working? && pool.runners[q].Working? ::
          pool.runners[r].index != pool.runners[q].index)
    && (forall r | 0 <= r < |pool.runners| && pool.runners[r].Finished? :: pool.next == |pool.results|)
    && (forall i | 0 <= i < pool.next && pool.results[i].None? ::
          exists r | 0 <= r < |pool.runners| :: pool.runners[r] == Working(i))
    && (forall i | pool.next <= i < |pool.results| :: pool.results[i].None?)
  }

  ghost predicate EventOk<R>(pool: Pool<R>, e: Event<R>)
    requires pool.next <= |pool.results|
  {
    if e.Started? then e.index < pool.next
    else e.index < pool.next && pool.results[e.index] == Some(e.value)
  }

  /** Each index is started once and returned at most once, and its result is what it returned. */
  ghost predicate LogOk<R>(pool: Pool<R>)
    requires pool.next <= |pool.results|
  {
    && (forall e | e in pool.log :: EventOk(pool, e))
    && (forall i | 0 <= i < pool.next :: Started(i) in pool.log)
    && (forall i | 0 <= i < pool.next && pool.results[i].Some? :: Returned(i, pool.results[i].value) in pool.log)
    && NoRepeats(pool.log)
  }

  predicate NoRepeats<R>(log: seq<Event<R>>) {
    forall m, n | 0 <= m < n < |log| :: log[m].Started? == log[n].Started? ==> log[m].index != log[n].index
  }

  ghost predicate PoolInv<R>(pool: Pool<R>, size: nat, limit: nat) {
    && |pool.results| == size && pool.next <= size
    && |pool.runners| == Max(1, Min(limit, size))
    && RunnersOk(pool) && LogOk(pool)
    && InFlight(pool.log) == WorkingCount(pool.runners)
    && WithinLimit(pool.log, Max(1, limit))
  }

  lemma {:induction false} SetRunner(runners: seq<Runner>, r: nat, to: Runner)
    requires r < |runners|
    ensures WorkingCount(runners[r := to]) + (if runners[r].Working? then 1 else 0)
         == WorkingCount(runners) + if to.Working? then 1 else 0
    ensures WorkingCount(runners) <= |runners|
  {
    var n := |runners| - 1;
    if r == n {
      assert runners[r := to][..n] == runners[..n];
      WorkingAtMost(runners);
    } else {
      SetRunner(runners[..n], r, to);
      assert runners[r := to][..n] == runners[..n][r := to];
    }
  }

  lemma {:induction false} WorkingAtMost(runners: seq<Runner>)
    ensures WorkingCount(runners) <= |runners|
  {
    if runners != [] { WorkingAtMost(runners[..|runners| - 1]); }
  }

  lemma {:induction false} LogGrows<R>(log: seq<Event<R>>, e: Event<R>, limit: nat)
    requires WithinLimit(log, limit)
    requires InFlight(log) + (if e.Started? then 1 else -1) <= limit
    ensures WithinLimit(log + [e], limit)
    ensures InFlight(log + [e]) == InFlight(log) + if e.Started? then 1 else -1
  {
    assert (log + [e])[..|log|] == log;
    forall n | 0 <= n <= |log| + 1
      ensures InFlight((log + [e])[..n]) <= limit
    {
      if n <= |log| {
        assert (log + [e])[..n] == log[..n];
      } else {
        assert (log + [e])[..n] == log + [e];
      }
    }
  }

  lemma {:induction false} TakeNextRunners<R>(pool: Pool<R>, r: nat)
    requires pool.next <= |pool.results| && RunnersOk(pool) && r < |pool.runners| && pool.runners[r].Idle?
    ensures RunnersOk(TakeNext(pool, r))
  {
    var after := TakeNext(pool, r);
    forall i | 0 <= i < after.next && after.results[i].None?
      ensures exists q | 0 <= q < |after.runners| :: after.runners[q] == Working(i)
    {
      if i < pool.next {
        var q :| 0 <= q < |pool.runners| && pool.runners[q] == Working(i);
        assert after.runners[q] == Working(i);
      } else {
        assert after.runners[r] == Working(i);
      }
    }
  }

  lemma {:induction false} TakeNextLog<R>(pool: Pool<R>, r: nat)
    requires pool.next <= |pool.results| && RunnersOk(pool) && LogOk(pool) && r < |pool.runners|
    ensures LogOk(TakeNext(pool, r))
  {
    var after := TakeNext(pool, r);
    forall e | e in after.log
      ensures EventOk(after, e)
    {
      if e in pool.log { assert EventOk(pool, e); }
    }
    forall m | 0 <= m < |pool.log|
      ensures pool.log[m].Started? ==> pool.log[m].index != pool.next
    {
      assert EventOk(pool, pool.log[m]);
    }
  }

  lemma {:induction false} TakeNextKeepsInv<R>(pool: Pool<R>, size: nat, limit: nat, r: nat)
    requires PoolInv(pool, size, limit) && r < |pool.runners| && pool.runners[r].Idle?
    ensures PoolInv(TakeNext(pool, r), size, limit)
  {
    TakeNextRunners(pool, r);
    TakeNextLog(pool, r);
    SetRunner(pool.runners, r, Working(pool.next));
    SetRunner(pool.runners, r, Finished);
    WorkingAtMost(TakeNext(pool, r).runners);
    if pool.next < size {
      LogGrows(pool.log, Started(pool.next), Max(1, limit));
    }
  }

  lemma {:induction false} StoreRunners<R>(pool: Pool<R>, r: nat, value: R)
    requires pool.next <= |pool.results| && RunnersOk(pool) && r < |pool.runners| && pool.runners[r].Working?
    ensures RunnersOk(Store(pool, r, value))
  {
    var after := Store(pool, r, value);
    forall i | 0 <= i < after.next && after.results[i].None?
      ensures exists q | 0 <= q < |after.runners| :: after.runners[q] == Working(i)
    {
      var q :| 0 <= q < |pool.runners| && pool.runners[q] == Working(i);
      assert after.runners[q] == Working(i);
    }
  }

  lemma {:induction false} StoreLog<R>(pool: Pool<R>, r: nat, value: R)
    requires pool.next <= |pool.results| && RunnersOk(pool) && LogOk(pool) && r < |pool.runners| && pool.runners[r].Working?
    ensures LogOk(Store(pool, r, value))
  {
    var after := Store(pool, r, value);
    var i := pool.runners[r].index;
    forall e | e in after.log
      ensures EventOk(after, e)
    {
      if e in pool.log { assert EventOk(pool, e); }
    }
    forall m | 0 <= m < |pool.log|
      ensures pool.log[m].Returned? ==> pool.log[m].index != i
    {
      assert EventOk(pool, pool.log[m]);
    }
    forall j | 0 <= j < after.next && after.results[j].Some?
      ensures Returned(j, after.results[j].value) in after.log
    {
      if j != i { assert Returned(j, pool.results[j].value) in pool.log; }
    }
  }

  lemma {:induction false} StoreKeepsInv<R>(pool: Pool<R>, size: nat, limit: nat, r: nat, value: R)
    requires PoolInv(pool, size, limit) && r < |pool.runners| && pool.runners[r].Working?
    ensures PoolInv(Store(pool, r, value), size, limit)
  {
    StoreRunners(pool, r, value);
    StoreLog(pool, r, value);
    SetRunner(pool.runners, r, Idle);
    assert pool.log[..|pool.log|] == pool.log;
    LogGrows(pool.log, Returned(pool.runners[r].index, value), Max(1, limit));
  }

  lemma {:induction false} TurnKeepsInv<R>(pool: Pool<R>, size: nat, limit: nat, r: nat, value: R)
    requires PoolInv(pool, size, limit)
    ensures PoolInv(Turn(pool, r, value), size, limit)
  {
    if r < |pool.runners| && pool.runners[r].Idle? {
      TakeNextKeepsInv(pool, size, limit, r);
    } else if r < |pool.runners| && pool.runners[r].Working? {
      StoreKeepsInv(pool, size, limit, r, value);
      TakeNextKeepsInv(Store(pool, r, value), size, limit, r);
    }
  }

  lemma {:induction false} NoneWorking(runners: seq<Runner>)
    requires forall r | 0 <= r < |runners| :: !runners[r].Working?
    ensures WorkingCount(runners) == 0
  {
    if runners != [] { NoneWorking(runners[..|runners| - 1]); }
  }

  lemma {:induction false} OpenInv<R>(size: nat, limit: nat)
    ensures PoolInv<R>(Open(size, limit), size, limit)
  {
    NoneWorking(Open<R>(size, limit).runners);
  }

  lemma {:induction false} RunKeepsInv<R>(size: nat, limit: nat, moves: seq<Move<R>>)
    ensures PoolInv(Run(Open(size, limit), moves), size, limit)
  {
    if moves == [] {
      OpenInv<R>(size, limit);
    } else {
      var last := moves[|moves| - 1];
      RunKeepsInv(size, limit, moves[..|moves| - 1]);
      TurnKeepsInv(Run(Open(size, limit), moves[..|moves| - 1]), size, limit, last.runner, last.value);
    }
  }

  predicate AllFinished<R>(pool: Pool<R>) {
    forall r | 0 <= r < |pool.runners| :: pool.runners[r].Finished?
  }

  lemma {:induction false} FinishedReturned<R>(pool: Pool<R>, size: nat, limit: nat, i: nat) returns (m: nat)
    requires PoolInv(pool, size, limit) && AllFinished(pool) && i < size
    ensures m < |pool.log| && pool.log[m].Returned? && pool.log[m].index == i
  {
    assert pool.runners[0].Finished?;
    assert pool.results[i].Some?;
    m :| m < |pool.log| && pool.log[m] == Returned(i, pool.results[i].value);
  }

  /**
   However the runners interleave: when all of them finished, every index was
   started exactly once, its own result is at its own index, and at no moment
   more than `limit` workers (or one, for a limit of zero) were running.
   */
  lemma {:induction false} EveryIndexOnce<R>(size: nat, limit: nat, moves: seq<Move<R>>)
    ensures var pool := Run(Open(size, limit), moves);
      && |pool.results| == size
      && WithinLimit(pool.log, Max(1, limit)) && NoRepeats(pool.log)
      && (AllFinished(pool) ==>
            forall i | 0 <= i < size ::
              Started(i) in pool.log && pool.results[i].Some? && Returned(i, pool.results[i].value) in pool.log)
  {
    RunKeepsInv(size, limit, moves);
    var pool := Run(Open(size, limit), moves);
    if AllFinished(pool) {
      assert pool.runners[0].Finished?;
    }
  }
}
