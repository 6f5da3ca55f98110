/**
 Cabin-class stages of a booking run: the PNRs of one class rank are booked by
 one pool of workers, and the next lower rank starts when that pool is done.
 */
module Stages {
  import opened Common
  import opened Sorting
  import opened Concurrency

  // ---- Ranks and their PNRs ----------------------------------------------------------

  function Distinct(ranks: seq<int>): (d: seq<int>)
    ensures forall x :: x in d <==> x in ranks
    ensures forall i, j | 0 <= i < j < |d| :: d[i] != d[j]
  {
    if ranks == [] then [] else
      var before := Distinct(ranks[..|ranks| - 1]);
      assert ranks == ranks[..|ranks| - 1] + [ranks[|ranks| - 1]];
      if ranks[|ranks| - 1] in before then before else before + [ranks[|ranks| - 1]]
  }

  function Descending(rank: int): seq<int> {
    [-rank]
  }

  /** The ranks in use, highest first. */
  function StageRanks(ranks: seq<int>): seq<int> {
    Sort(Descending, Distinct(ranks))
  }

  lemma {:induction false} OccursTwice(xs: seq<int>, i: nat, j: nat)
    requires i < j < |xs|
    ensures multiset(xs)[xs[i]] >= if xs[i] == xs[j] then 2 else 1
  {
    assert xs == xs[..j] + xs[j..];
    assert xs[..j][i] == xs[i] && xs[j..][0] == xs[j];
    assert xs[i] in xs[..j] && xs[j] in xs[j..];
  }

  lemma {:induction false} SortedDistinct(xs: seq<int>, i: nat, j: nat)
    requires SortedBy(Descending, xs) && i < j < |xs|
    requires forall x :: multiset(xs)[x] <= 1
    ensures xs[i] > xs[j]
  {
    OccursTwice(xs, i, j);
    assert LexLeq(Descending(xs[i]), Descending(xs[j]));
  }

  lemma {:induction false} DistinctOnce(xs: seq<int>)
    requires forall i, j | 0 <= i < j < |xs| :: xs[i] != xs[j]
    ensures forall x :: multiset(xs)[x] <= 1
  {
    if xs != [] {
      var front, last := xs[..|xs| - 1], xs[|xs| - 1];
      DistinctOnce(front);
      assert xs == front + [last];
      assert last !in front;
    }
  }

  lemma {:induction false} RanksDescend(ranks: seq<int>)
    ensures forall x :: x in StageRanks(ranks) <==> x in ranks
    ensures forall i, j | 0 <= i < j < |StageRanks(ranks)| :: StageRanks(ranks)[i] > StageRanks(ranks)[j]
  {
    var d := Distinct(ranks);
    SortIsSortedPermutation(Descending, d);
    SortKeepsElements(Descending, d);
    DistinctOnce(d);
    forall i, j | 0 <= i < j < |StageRanks(ranks)|
      ensures StageRanks(ranks)[i] > StageRanks(ranks)[j]
    {
      SortedDistinct(StageRanks(ranks), i, j);
    }
  }

  /** The PNRs of one rank, in order. */
  function Members(ranks: seq<int>, rank: int): (m: seq<nat>)
    ensures forall e: nat :: e in m <==> e < |ranks| && ranks[e] == rank
    ensures forall i, j | 0 <= i < j < |m| :: m[i] < m[j]
  {
    if ranks == [] then [] else
      var n := |ranks| - 1;
      var before := Members(ranks[..n], rank);
      assert forall i | 0 <= i < |before| :: before[i] in before;
      if ranks[n] == rank then before + [n] else before
  }

  // ---- Stage after stage -----------------------------------------------------------------

  datatype PnrEvent = PnrStarted(pnr: nat) | PnrEnded(pnr: nat)

  /** `past` is the history of the stages before the current one. */
  datatype Staged<R> = Staged(stage: nat, pool: Pool<R>, past: seq<PnrEvent>)

  function EventOf<R>(e: Event<R>, members: seq<nat>): PnrEvent {
    var pnr := if e.index < |members| then members[e.index] else 0;
    if e.Started? then PnrStarted(pnr) else PnrEnded(pnr)
  }

  function Events<R>(log: seq<Event<R>>, members: seq<nat>): (events: seq<PnrEvent>)
    ensures |events| == |log| && forall i | 0 <= i < |log| :: events[i] == EventOf(log[i], members)
  {
    if log == [] then [] else Events(log[..|log| - 1], members) + [EventOf(log[|log| - 1], members)]
  }

  function MembersAt(ranks: seq<int>, stage: nat): seq<nat> {
    if stage < |StageRanks(ranks)| then Members(ranks, StageRanks(ranks)[stage]) else []
  }

  function History<R>(s: Staged<R>, ranks: seq<int>): seq<PnrEvent> {
    s.past + Events(s.pool.log, MembersAt(ranks, s.stage))
  }

  function Begin<R>(ranks: seq<int>, limit: nat): Staged<R> {
    Staged(0, Open(|MembersAt(ranks, 0)|, limit), [])
  }

  /** A runner's turn in the current stage, or the next stage once all runners finished. */
  datatype StageMove<R> = RunnerMove(runner: nat, value: R) | NextStage

  function OpenNext<R>(s: Staged<R>, ranks: seq<int>, limit: nat): Staged<R> {
    if s.stage < |StageRanks(ranks)| then
      Staged(s.stage + 1, Open(|MembersAt(ranks, s.stage + 1)|, limit), History(s, ranks))
    else s
  }

  function Advance<R>(s: Staged<R>, ranks: seq<int>, limit: nat, move: StageMove<R>): Staged<R> {
    match move
    case RunnerMove(r, value) => s.(pool := Turn(s.pool, r, value))
    case NextStage => if AllFinished(s.pool) then OpenNext(s, ranks, limit) else s
  }

  function RunStages<R>(ranks: seq<int>, limit: nat, moves: seq<StageMove<R>>): Staged<R> {
    if moves == [] then Begin(ranks, limit)
    else Advance(RunStages(ranks, limit, moves[..|moves| - 1]), ranks, limit, moves[|moves| - 1])
  }

  // ---- Lower classes wait ------------------------------------------------------------------

  predicate EndedBefore(history: seq<PnrEvent>, n: nat, pnr: nat)
    requires n <= |history|
  {
    exists m | 0 <= m < n :: history[m] == PnrEnded(pnr)
  }

  /** Whenever a PNR starts, every PNR of a higher rank has ended. */
  predicate HigherFirst(history: seq<PnrEvent>, ranks: seq<int>) {
    forall n | 0 <= n < |history| && history[n].PnrStarted? && history[n].pnr < |ranks| ::
      forall pnr | 0 <= pnr < |ranks| && ranks[pnr] > ranks[history[n].pnr] :: EndedBefore(history, n, pnr)
  }

  predicate PastEnded(past: seq<PnrEvent>, ranks: seq<int>, stage: nat) {
    forall i | 0 <= i < stage && i < |StageRanks(ranks)| ::
      forall pnr | 0 <= pnr < |ranks| && ranks[pnr] == StageRanks(ranks)[i] :: EndedBefore(past, |past|, pnr)
  }

  ghost predicate StagedInv<R>(s: Staged<R>, ranks: seq<int>, limit: nat) {
    && s.stage <= |StageRanks(ranks)|
    && PoolInv(s.pool, |MembersAt(ranks, s.stage)|, limit)
    && PastEnded(s.past, ranks, s.stage)
    && HigherFirst(s.past, ranks)
  }

  lemma {:induction false} FinishedStageEnded<R>(s: Staged<R>, ranks: seq<int>, limit: nat, pnr: nat)
    requires StagedInv(s, ranks, limit) && AllFinished(s.pool) && s.stage < |StageRanks(ranks)|
    requires pnr < |ranks| && ranks[pnr] == StageRanks(ranks)[s.stage]
    ensures EndedBefore(History(s, ranks), |History(s, ranks)|, pnr)
  {
    var members := MembersAt(ranks, s.stage);
    assert pnr in members;
    var i :| 0 <= i < |members| && members[i] == pnr;
    var m := FinishedReturned(s.pool, |members|, limit, i);
    assert History(s, ranks)[|s.past| + m] == PnrEnded(pnr);
  }

  /** The events of the current stage keep the order: all of them are of its rank. */
  lemma {:induction false} CurrentStageKeepsOrder<R>(s: Staged<R>, ranks: seq<int>, limit: nat)
    requires StagedInv(s, ranks, limit)
    ensures HigherFirst(History(s, ranks), ranks)
  {
    var history, members := History(s, ranks), MembersAt(ranks, s.stage);
    forall n, pnr | 0 <= n < |history| && history[n].PnrStarted? && history[n].pnr < |ranks|
                    && 0 <= pnr < |ranks| && ranks[pnr] > ranks[history[n].pnr]
      ensures EndedBefore(history, n, pnr)
    {
      if n < |s.past| {
        assert s.past[n] == history[n];
        assert EndedBefore(s.past, n, pnr);
        var m :| 0 <= m < n && s.past[m] == PnrEnded(pnr);
        assert history[m] == PnrEnded(pnr);
      } else {
        var e := s.pool.log[n - |s.past|];
        assert e in s.pool.log && EventOk(s.pool, e);
        assert history[n] == EventOf(e, members);
        StageOfHigher(ranks, s.stage, history[n].pnr, pnr);
        assert EndedBefore(s.past, |s.past|, pnr);
        var m :| 0 <= m < |s.past| && s.past[m] == PnrEnded(pnr);
        assert history[m] == PnrEnded(pnr);
      }
    }
  }

  lemma {:induction false} StageOfHigher(ranks: seq<int>, stage: nat, member: nat, higher: nat)
    requires stage < |StageRanks(ranks)| && member in MembersAt(ranks, stage)
    requires higher < |ranks| && ranks[higher] > ranks[member]
    ensures exists i | 0 <= i < stage :: StageRanks(ranks)[i] == ranks[higher]
  {
    RanksDescend(ranks);
    assert ranks[higher] in ranks && ranks[higher] in StageRanks(ranks);
    var i :| 0 <= i < |StageRanks(ranks)| && StageRanks(ranks)[i] == ranks[higher];
  }

  lemma {:induction false} EndedStaysEnded(past: seq<PnrEvent>, more: seq<PnrEvent>, pnr: nat)
    requires EndedBefore(past, |past|, pnr)
    ensures EndedBefore(past + more, |past + more|, pnr)
  {
    var m :| 0 <= m < |past| && past[m] == PnrEnded(pnr);
    assert (past + more)[m] == PnrEnded(pnr);
  }

  lemma {:induction false} FinishedStageIsPast<R>(s: Staged<R>, ranks: seq<int>, limit: nat)
    requires StagedInv(s, ranks, limit) && AllFinished(s.pool) && s.stage < |StageRanks(ranks)|
    ensures PastEnded(History(s, ranks), ranks, s.stage + 1)
  {
    forall i, pnr | 0 <= i < s.stage + 1 && i < |StageRanks(ranks)|
                    && 0 <= pnr < |ranks| && ranks[pnr] == StageRanks(ranks)[i]
      ensures EndedBefore(History(s, ranks), |History(s, ranks)|, pnr)
    {
      if i == s.stage {
        FinishedStageEnded(s, ranks, limit, pnr);
      } else {
        EndedStaysEnded(s.past, Events(s.pool.log, MembersAt(ranks, s.stage)), pnr);
      }
    }
  }

  lemma {:induction false} StageOpens<R>(next: Staged<R>, ranks: seq<int>, limit: nat)
    requires next.stage <= |StageRanks(ranks)| && next.pool == Open(|MembersAt(ranks, next.stage)|, limit)
    requires PastEnded(next.past, ranks, next.stage) && HigherFirst(next.past, ranks)
    ensures StagedInv(next, ranks, limit)
  {
    OpenInv<R>(|MembersAt(ranks, next.stage)|, limit);
  }

  lemma {:induction false} NextStageKeepsInv<R>(s: Staged<R>, ranks: seq<int>, limit: nat)
    requires StagedInv(s, ranks, limit) && AllFinished(s.pool)
    ensures StagedInv(OpenNext(s, ranks, limit), ranks, limit)
  {
    if s.stage < |StageRanks(ranks)| {
      CurrentStageKeepsOrder(s, ranks, limit);
      FinishedStageIsPast(s, ranks, limit);
      StageOpens(OpenNext(s, ranks, limit), ranks, limit);
    }
  }

  lemma {:induction false} StagesKeepInv<R>(ranks: seq<int>, limit: nat, moves: seq<StageMove<R>>)
    ensures StagedInv(RunStages(ranks, limit, moves), ranks, limit)
  {
    if moves == [] {
      StageOpens(Begin<R>(ranks, limit), ranks, limit);
    } else {
      var before, last := moves[..|moves| - 1], moves[|moves| - 1];
      StagesKeepInv(ranks, limit, before);
      match last
      case NextStage =>
        var s := RunStages(ranks, limit, before);
        if AllFinished(s.pool) {
          NextStageKeepsInv(s, ranks, limit);
        }
      case RunnerMove(r, value) =>
        var s := RunStages(ranks, limit, before);
        TurnKeepsInv(s.pool, |MembersAt(ranks, s.stage)|, limit, r, value);
    }
  }

  /** In every interleaving, no PNR starts before every PNR of a higher cabin class has ended. */
  lemma {:induction false} LowerClassesWait<R>(ranks: seq<int>, limit: nat, moves: seq<StageMove<R>>)
    ensures HigherFirst(History(RunStages(ranks, limit, moves), ranks), ranks)
  {
    StagesKeepInv(ranks, limit, moves);
    CurrentStageKeepsOrder(RunStages(ranks, limit, moves), ranks, limit);
  }

  /** When the last stage is over, every PNR has ended. */
  lemma {:induction false} AllStagesEndAllPnrs<R>(ranks: seq<int>, limit: nat, moves: seq<StageMove<R>>, pnr: nat)
    requires RunStages(ranks, limit, moves).stage == |StageRanks(ranks)| && pnr < |ranks|
    ensures var past := RunStages(ranks, limit, moves).past;
      EndedBefore(past, |past|, pnr)
  {
    StagesKeepInv(ranks, limit, moves);
    RanksDescend(ranks);
    assert ranks[pnr] in ranks && ranks[pnr] in StageRanks(ranks);
    var i :| 0 <= i < |StageRanks(ranks)| && StageRanks(ranks)[i] == ranks[pnr];
  }
}
