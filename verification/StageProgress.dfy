/**
 That the pools and stages get on: every turn of an unfinished runner does one unit
 of a fixed amount of work, so the stages end, and each PNR starts before it ends.
 */
module StageProgress {
  import opened Common
  import opened Concurrency
  import opened Stages

  // ---- Work left in a pool ---------------------------------------------------------------

  function Unfinished(runners: seq<Runner>): nat {
    if runners == [] then 0 else
      Unfinished(runners[..|runners| - 1]) + if runners[|runners| - 1] == Finished then 0 else 1
  }

  /** Indices not yet taken, and runners not yet done. */
  function WorkLeft<R>(pool: Pool<R>): int {
    |pool.results| - pool.next + Unfinished(pool.runners)
  }

  lemma {:induction false} SetUnfinished(runners: seq<Runner>, r: nat, to: Runner)
    requires r < |runners|
    ensures Unfinished(runners[r := to]) + (if runners[r] == Finished then 0 else 1)
         == Unfinished(runners) + if to == Finished then 0 else 1
  {
    var n := |runners| - 1;
    if r == n {
      assert runners[r := to][..n] == runners[..n];
    } else {
      SetUnfinished(runners[..n], r, to);
      assert runners[r := to][..n] == runners[..n][r := to];
    }
  }

  lemma {:induction false} NoneUnfinished(runners: seq<Runner>)
    ensures Unfinished(runners) == 0 <==> forall r | 0 <= r < |runners| :: runners[r] == Finished
  {
    if runners != [] {
      NoneUnfinished(runners[..|runners| - 1]);
      assert forall r | 0 <= r < |runners| - 1 :: runners[..|runners| - 1][r] == runners[r];
    }
  }

  lemma {:induction false} AllIdle(runners: seq<Runner>)
    requires forall r | 0 <= r < |runners| :: runners[r] == Idle
    ensures Unfinished(runners) == |runners|
  {
    if runners != [] { AllIdle(runners[..|runners| - 1]); }
  }

  /** A pool starts with one unit of work for each index and one for each runner. */
  lemma {:induction false} WorkAtStart<R>(size: nat, limit: nat)
    ensures WorkLeft<R>(Open(size, limit)) == size + Max(1, Min(limit, size))
  {
    AllIdle(Open<R>(size, limit).runners);
  }

  /** Every turn of an unfinished runner does one unit; a finished runner's turn does nothing. */
  lemma {:induction false} TurnTakesOne<R>(pool: Pool<R>, size: nat, limit: nat, r: nat, value: R)
    requires PoolInv(pool, size, limit) && r < |pool.runners|
    ensures if pool.runners[r] == Finished then Turn(pool, r, value) == pool
            else WorkLeft(Turn(pool, r, value)) == WorkLeft(pool) - 1
  {
    var runners := pool.runners;
    SetUnfinished(runners, r, Finished);
    SetUnfinished(runners, r, Idle);
    SetUnfinished(runners, r, Working(pool.next));
    SetUnfinished(runners[r := Idle], r, Finished);
    SetUnfinished(runners[r := Idle], r, Working(pool.next));
  }

  /** No work is left exactly when all runners are done. */
  lemma {:induction false} NoWorkLeft<R>(pool: Pool<R>, size: nat, limit: nat)
    requires PoolInv(pool, size, limit)
    ensures WorkLeft(pool) >= 0 && (WorkLeft(pool) == 0 <==> AllFinished(pool))
  {
    NoneUnfinished(pool.runners);
    if AllFinished(pool) {
      assert pool.runners[0].Finished?;
    }
  }

  // ---- Work left in all stages ----------------------------------------------------------------

  /** Work of the stages from `stage` on: their pools, and one step from each to the next. */
  function StageWork(ranks: seq<int>, limit: nat, stage: nat): nat
    decreases |StageRanks(ranks)| - stage
  {
    if stage >= |StageRanks(ranks)| then 0
    else
      var size := |MembersAt(ranks, stage)|;
      size + Max(1, Min(limit, size)) + 1 + StageWork(ranks, limit, stage + 1)
  }

  function AllWork<R>(s: Staged<R>, ranks: seq<int>, limit: nat): int {
    if s.stage >= |StageRanks(ranks)| then 0
    else WorkLeft(s.pool) + 1 + StageWork(ranks, limit, s.stage + 1)
  }

  /** The move does something: an unfinished runner's turn, or the next stage once all runners are done. */
  predicate Moves<R>(s: Staged<R>, ranks: seq<int>, move: StageMove<R>) {
    && s.stage < |StageRanks(ranks)|
    && match move
       case RunnerMove(r, _) => r < |s.pool.runners| && s.pool.runners[r] != Finished
       case NextStage => AllFinished(s.pool)
  }

  /** A stage that begins has its own work and that of the stages after it. */
  lemma {:induction false} WorkWhenOpened<R>(s: Staged<R>, ranks: seq<int>, limit: nat)
    requires s.pool == Open(|MembersAt(ranks, s.stage)|, limit)
    ensures AllWork(s, ranks, limit) == StageWork(ranks, limit, s.stage)
  {
    WorkAtStart<R>(|MembersAt(ranks, s.stage)|, limit);
  }

  /** When all runners are done, the step to the next stage is what is left of this one. */
  lemma {:induction false} WorkWhenFinished<R>(s: Staged<R>, ranks: seq<int>, limit: nat, size: nat)
    requires PoolInv(s.pool, size, limit) && AllFinished(s.pool) && s.stage < |StageRanks(ranks)|
    ensures AllWork(s, ranks, limit) == 1 + StageWork(ranks, limit, s.stage + 1)
  {
    NoWorkLeft(s.pool, size, limit);
  }

  lemma {:induction false} NextTakesOne<R>(s: Staged<R>, ranks: seq<int>, limit: nat, size: nat)
    requires PoolInv(s.pool, size, limit) && AllFinished(s.pool) && s.stage < |StageRanks(ranks)|
    ensures AllWork(OpenNext(s, ranks, limit), ranks, limit) == AllWork(s, ranks, limit) - 1
  {
    WorkWhenFinished(s, ranks, limit, size);
    WorkWhenOpened(OpenNext(s, ranks, limit), ranks, limit);
  }

  /** Every such move does one unit of the work of all stages. */
  lemma {:induction false} MoveTakesOne<R>(s: Staged<R>, ranks: seq<int>, limit: nat, move: StageMove<R>)
    requires StagedInv(s, ranks, limit) && Moves(s, ranks, move)
    ensures AllWork(Advance(s, ranks, limit, move), ranks, limit) == AllWork(s, ranks, limit) - 1
  {
    match move
    case RunnerMove(r, value) => TurnTakesOne(s.pool, |MembersAt(ranks, s.stage)|, limit, r, value);
    case NextStage => NextTakesOne(s, ranks, limit, |MembersAt(ranks, s.stage)|);
  }

  /** A move that does something is possible until the last stage is over. */
  lemma {:induction false} SomethingMoves<R>(s: Staged<R>, ranks: seq<int>, limit: nat, value: R) returns (move: StageMove<R>)
    requires StagedInv(s, ranks, limit) && s.stage < |StageRanks(ranks)|
    ensures Moves(s, ranks, move)
  {
    if r :| 0 <= r < |s.pool.runners| && s.pool.runners[r] != Finished {
      move := RunnerMove(r, value);
    } else {
      move := NextStage;
    }
  }

  /** Each move does something in the state the moves before it led to. */
  predicate AllMove<R>(ranks: seq<int>, limit: nat, moves: seq<StageMove<R>>) {
    moves == [] ||
      var n := |moves| - 1;
      AllMove(ranks, limit, moves[..n]) && Moves(RunStages(ranks, limit, moves[..n]), ranks, moves[n])
  }

  lemma {:induction false} WorkAtBegin<R>(ranks: seq<int>, limit: nat)
    ensures AllWork<R>(Begin(ranks, limit), ranks, limit) == StageWork(ranks, limit, 0)
  {
    WorkWhenOpened(Begin<R>(ranks, limit), ranks, limit);
  }

  lemma {:induction false} WorkIsDone<R>(ranks: seq<int>, limit: nat, moves: seq<StageMove<R>>)
    requires AllMove(ranks, limit, moves)
    ensures |moves| + AllWork(RunStages(ranks, limit, moves), ranks, limit) == StageWork(ranks, limit, 0)
  {
    if moves == [] {
      WorkAtBegin<R>(ranks, limit);
    } else {
      var n := |moves| - 1;
      WorkIsDone(ranks, limit, moves[..n]);
      StagesKeepInv(ranks, limit, moves[..n]);
      MoveTakesOne(RunStages(ranks, limit, moves[..n]), ranks, limit, moves[n]);
    }
  }

  lemma {:induction false} WorkUntilOver<R>(s: Staged<R>, ranks: seq<int>, limit: nat)
    requires StagedInv(s, ranks, limit)
    ensures AllWork(s, ranks, limit) >= 0 && (AllWork(s, ranks, limit) == 0 <==> s.stage == |StageRanks(ranks)|)
  {
    NoWorkLeft(s.pool, |MembersAt(ranks, s.stage)|, limit);
  }

  /**
   The stages take the same number of moves in every interleaving: one for each PNR,
   one for each runner of a stage and one for each stage. After them, and no sooner,
   the last stage is over.
   */
  lemma {:induction false} StagesEnd<R>(ranks: seq<int>, limit: nat, moves: seq<StageMove<R>>)
    requires AllMove(ranks, limit, moves)
    ensures |moves| <= StageWork(ranks, limit, 0)
    ensures |moves| == StageWork(ranks, limit, 0) <==> RunStages(ranks, limit, moves).stage == |StageRanks(ranks)|
  {
    StagesKeepInv(ranks, limit, moves);
    WorkIsDone(ranks, limit, moves);
    WorkUntilOver(RunStages(ranks, limit, moves), ranks, limit);
  }

  // ---- Starting comes before ending --------------------------------------------------------------

  predicate StartedBefore<R>(log: seq<Event<R>>, n: nat)
    requires n < |log|
  {
    log[n].Returned? ==> exists m | 0 <= m < n :: log[m] == Started(log[n].index)
  }

  predicate StartsFirst<R>(log: seq<Event<R>>) {
    forall n | 0 <= n < |log| :: StartedBefore(log, n)
  }

  lemma {:induction false} LogMore<R>(log: seq<Event<R>>, e: Event<R>)
    requires StartsFirst(log) && (e.Returned? ==> Started(e.index) in log)
    ensures StartsFirst(log + [e])
  {
    forall n | 0 <= n < |log + [e]| ensures StartedBefore(log + [e], n) {
      if n < |log| {
        assert StartedBefore(log, n);
        if log[n].Returned? {
          var m :| 0 <= m < n && log[m] == Started(log[n].index);
          assert (log + [e])[m] == Started((log + [e])[n].index);
        }
      } else if e.Returned? {
        var m :| 0 <= m < |log| && log[m] == Started(e.index);
        assert (log + [e])[m] == Started((log + [e])[n].index);
      }
    }
  }

  lemma {:induction false} TurnStartsFirst<R>(pool: Pool<R>, size: nat, limit: nat, r: nat, value: R)
    requires PoolInv(pool, size, limit) && StartsFirst(pool.log)
    ensures StartsFirst(Turn(pool, r, value).log)
  {
    if r < |pool.runners| && pool.runners[r].Working? {
      var i := pool.runners[r].index;
      LogMore(pool.log, Returned(i, value));
      LogMore(pool.log + [Returned(i, value)], Started(pool.next));
    }
    LogMore(pool.log, Started(pool.next));
  }

  /** The PNR starts before its `n`-th event, if that is its end. */
  predicate PnrStartedBefore(history: seq<PnrEvent>, n: nat)
    requires n < |history|
  {
    history[n].PnrEnded? ==> exists m | 0 <= m < n :: history[m] == PnrStarted(history[n].pnr)
  }

  predicate StartBeforeEnd(history: seq<PnrEvent>) {
    forall n | 0 <= n < |history| :: PnrStartedBefore(history, n)
  }

  lemma {:induction false} HistoryStartsFirst<R>(past: seq<PnrEvent>, log: seq<Event<R>>, members: seq<nat>)
    requires StartBeforeEnd(past) && StartsFirst(log)
    ensures StartBeforeEnd(past + Events(log, members))
  {
    var history := past + Events(log, members);
    forall n | 0 <= n < |history| ensures PnrStartedBefore(history, n) {
      if n < |past| {
        assert PnrStartedBefore(past, n);
        if past[n].PnrEnded? {
          var m :| 0 <= m < n && past[m] == PnrStarted(past[n].pnr);
          assert history[m] == PnrStarted(history[n].pnr);
        }
      } else {
        var k := n - |past|;
        assert StartedBefore(log, k) && history[n] == EventOf(log[k], members);
        if log[k].Returned? {
          var m :| 0 <= m < k && log[m] == Started(log[k].index);
          assert history[|past| + m] == EventOf(log[m], members);
        }
      }
    }
  }

  lemma {:induction false} StagesStartFirst<R>(ranks: seq<int>, limit: nat, moves: seq<StageMove<R>>)
    ensures var s := RunStages(ranks, limit, moves);
      StartsFirst(s.pool.log) && StartBeforeEnd(s.past)
  {
    if moves != [] {
      var n := |moves| - 1;
      var s := RunStages(ranks, limit, moves[..n]);
      StagesStartFirst(ranks, limit, moves[..n]);
      StagesKeepInv(ranks, limit, moves[..n]);
      match moves[n]
      case RunnerMove(r, value) => TurnStartsFirst(s.pool, |MembersAt(ranks, s.stage)|, limit, r, value);
      case NextStage => HistoryStartsFirst(s.past, s.pool.log, MembersAt(ranks, s.stage));
    }
  }

  /** When the stages are over every PNR has started and then ended. */
  lemma {:induction false} EveryPnrStartsAndEnds<R>(ranks: seq<int>, limit: nat, moves: seq<StageMove<R>>, pnr: nat)
    requires RunStages(ranks, limit, moves).stage == |StageRanks(ranks)| && pnr < |ranks|
    ensures var past := RunStages(ranks, limit, moves).past;
      exists m, n | 0 <= m < n < |past| :: past[m] == PnrStarted(pnr) && past[n] == PnrEnded(pnr)
  {
    AllStagesEndAllPnrs(ranks, limit, moves, pnr);
    StagesStartFirst(ranks, limit, moves);
    var past := RunStages(ranks, limit, moves).past;
    var n :| 0 <= n < |past| && past[n] == PnrEnded(pnr);
    assert PnrStartedBefore(past, n);
    var m :| 0 <= m < n && past[m] == PnrStarted(past[n].pnr);
  }
}
