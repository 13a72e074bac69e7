/**
 What follows a parallel sweep. Each block has deposited its particles on the accumulators of the
 thread that ran it; the next bags are merged, the accumulators reduced and gathered.
 */
module ParallelStep {
  import opened ColourPhase
  import opened Deposit
  import opened Doubles
  import opened Grid
  import opened Motion
  import opened ParallelSweep
  import opened Particles
  import opened Race
  import opened StepLog

  // ----- the deposits of a phase

  /** Thread `thread` has added the corners of p to its accumulators for cell d. */
  datatype Deposited = Deposited(thread: nat, d: int, p: Particle)

  function MovesOf(deps: seq<Deposited>): (log: Log)
    ensures |log| == |deps| && forall i :: 0 <= i < |deps| ==> log[i] == (deps[i].d, deps[i].p)
  {
    seq(|deps|, i requires 0 <= i < |deps| => (deps[i].d, deps[i].p))
  }

  /** What the turn of block w deposits: the particle of the push that it ends, if it ends one. */
  function DepositOfTurn(works: Works, at: seq<Progress>, at': seq<Progress>, w: nat, thread: nat): seq<Deposited>
    requires |works| == |at| == |at'|
  {
    if w < |works| && at[w].next < |works[w]| && at'[w].next == at[w].next + 1
    then [Deposited(thread, works[w][at[w].next].d, works[w][at[w].next].p)]
    else []
  }

  /** The deposits of an interleaving, in their order; threads[w] is the thread that runs block w. */
  ghost function DepositsOf(works: Works, b: Bags, turns: seq<Turn>, threads: seq<nat>): seq<Deposited>
    requires Settled(b) && InRange(works, |b.priv|) && |threads| == |works|
  {
    if turns == [] then []
    else
      var before, w := turns[..|turns| - 1], turns[|turns| - 1].w;
      DepositsOf(works, b, before, threads)
        + DepositOfTurn(works, After(works, b, before).at, After(works, b, turns).at, w,
                        if w < |threads| then threads[w] else 0)
  }

  /** Of the finished pushes, how many have sent p to cell d. */
  ghost function FinishedTo(works: Works, at: seq<Progress>, d: nat, p: Particle): nat
    requires Counts(works, Finished(at))
  {
    SentTo(works, Finished(at), d, true)[p] + SentTo(works, Finished(at), d, false)[p]
  }

  lemma FinishedMore(works: Works, at: seq<Progress>, at': seq<Progress>, w: nat, d: nat, p: Particle)
    requires w < |at| == |at'| == |works| && at' == at[w := at'[w]] && Counts(works, Finished(at))
    requires at[w].next < |works[w]| && at'[w].next == at[w].next + 1
    ensures Counts(works, Finished(at'))
    ensures FinishedTo(works, at', d, p)
         == FinishedTo(works, at, d, p)
            + if works[w][at[w].next].d == d && works[w][at[w].next].p == p then 1 else 0
  {
    hide SentTo, Counts, Share;
    var push := works[w][at[w].next];
    assert Finished(at') == Finished(at)[w := Finished(at)[w] + 1];
    SentMore(works, Finished(at), w, d, true);
    SentMore(works, Finished(at), w, d, false);
    CountJoin(SentTo(works, Finished(at), d, true), Share(push, d, true), p);
    CountJoin(SentTo(works, Finished(at), d, false), Share(push, d, false), p);
    SharesOfPush(push, d, p);
  }

  lemma SharesOfPush(push: Push, d: nat, p: Particle)
    ensures Share(push, d, true)[p] + Share(push, d, false)[p] == if push.d == d && push.p == p then 1 else 0
  {
  }

  lemma TurnDeposits(works: Works, s: State, turn: Turn, thread: nat, d: nat, p: Particle)
    requires Typed(works, s) && Typed(works, Step(works, s, turn))
    requires Counts(works, Finished(s.at)) && Counts(works, Finished(Step(works, s, turn).at))
    ensures |s.at| == |Step(works, s, turn).at| == |works|
    ensures FinishedTo(works, Step(works, s, turn).at, d, p)
         == FinishedTo(works, s.at, d, p)
            + multiset(MovesOf(DepositOfTurn(works, s.at, Step(works, s, turn).at, turn.w, thread)))[(d as int, p)]
  {
    var w, s' := turn.w, Step(works, s, turn);
    if w < |works| && s.at[w].next < |works[w]| {
      StepAt(works, s, turn);
      hide Step, Typed, Counts, FinishedTo;
      if s'.at[w].next == s.at[w].next + 1 {
        FinishedMore(works, s.at, s'.at, w, d, p);
      } else {
        assert Finished(s'.at) == Finished(s.at);
        SameFinished(works, s.at, s'.at, d, p);
      }
    }
  }

  lemma SameFinished(works: Works, at: seq<Progress>, at': seq<Progress>, d: nat, p: Particle)
    requires Finished(at') == Finished(at) && Counts(works, Finished(at))
    ensures FinishedTo(works, at', d, p) == FinishedTo(works, at, d, p)
  {
  }

  lemma MovesOfConcat(a: seq<Deposited>, b: seq<Deposited>)
    ensures MovesOf(a + b) == MovesOf(a) + MovesOf(b)
  {
  }

  /** A particle has been deposited at a cell as often as it has been pushed there. */
  lemma {:induction false} DepositsCount(works: Works, b: Bags, turns: seq<Turn>, threads: seq<nat>, d: nat,
                                         p: Particle)
    requires Settled(b) && InRange(works, |b.priv|) && |threads| == |works|
    ensures Counts(works, Finished(After(works, b, turns).at))
    ensures multiset(MovesOf(DepositsOf(works, b, turns, threads)))[(d as int, p)]
         == FinishedTo(works, After(works, b, turns).at, d, p)
  {
    CountsOk(works, After(works, b, turns));
    hide Settled, InRange, Typed, Counts, Step, FinishedTo;
    if turns == [] {
      NothingFinished(works, Start(works, b).at, d, p);
    } else {
      var before, turn := turns[..|turns| - 1], turns[|turns| - 1];
      var s, thread := After(works, b, before), if turn.w < |threads| then threads[turn.w] else 0;
      DepositsCount(works, b, before, threads, d, p);
      TurnDeposits(works, s, turn, thread, d, p);
      var more := DepositOfTurn(works, s.at, After(works, b, turns).at, turn.w, thread);
      hide DepositOfTurn;
      MovesOfConcat(DepositsOf(works, b, before, threads), more);
      CountConcat(MovesOf(DepositsOf(works, b, before, threads)), MovesOf(more), (d as int, p));
    }
  }

  lemma NothingFinished(works: Works, at: seq<Progress>, d: nat, p: Particle)
    requires |at| == |works| && Counts(works, Finished(at)) && forall w :: 0 <= w < |at| ==> at[w].next == 0
    ensures FinishedTo(works, at, d, p) == 0
  {
    NothingSent(works, Finished(at), |works|, d, true);
    NothingSent(works, Finished(at), |works|, d, false);
  }

  /** The deposits are at cells of the grid, by the threads of the blocks. */
  lemma {:induction false} DepositsInCells(works: Works, b: Bags, turns: seq<Turn>, threads: seq<nat>)
    requires Settled(b) && InRange(works, |b.priv|) && |threads| == |works|
    ensures forall dep :: dep in DepositsOf(works, b, turns, threads) ==> 0 <= dep.d < |b.priv| && dep.thread in threads
  {
    hide Settled, Step, WorkerOk;
    if turns != [] {
      var before, w := turns[..|turns| - 1], turns[|turns| - 1].w;
      DepositsInCells(works, b, before, threads);
      var s, s', thread := After(works, b, before), After(works, b, turns), if w < |threads| then threads[w] else 0;
      forall dep | dep in DepositOfTurn(works, s.at, s'.at, w, thread)
        ensures 0 <= dep.d < |b.priv| && dep.thread in threads
      {
        assert dep == DepositOfTurn(works, s.at, s'.at, w, thread)[0];
      }
    }
  }

  ghost function PhaseDeposits(g: Dims, near: Near, phase: Phase, b: Bags, b': Bags, threads: seq<nat>): seq<Deposited>
    requires Positive(g) && Shaped(g, phase) && RunsTo(g, near, phase, b, b') && |threads| == |phase.blocks|
  {
    DepositsOf(WorksOf(g, near, phase), b, phase.turns, threads)
  }

  lemma FinishedAll(g: Dims, near: Near, phase: Phase, at: seq<Progress>, d: nat, p: Particle)
    requires Positive(g) && Shaped(g, phase)
    requires var works := WorksOf(g, near, phase); Finished(at) == Lengths(works)
    ensures FinishedTo(WorksOf(g, near, phase), at, d, p) == multiset(AllLogs(phase.logs))[(d as int, p)]
  {
    hide SentTo, AllLogs, Shaped, WorksOf;
    Delivered(g, near, phase, [], d, p, multiset{}, multiset{});
    assert [] + AllLogs(phase.logs) == AllLogs(phase.logs);
  }

  lemma {:induction false} AllLogsInCells(g: Dims, logs: seq<Log>)
    requires forall i :: 0 <= i < |logs| ==> InCells(g, logs[i])
    ensures forall move :: move in AllLogs(logs) ==> 0 <= move.0 < NbCells(g)
  {
    hide NbCells;
    if logs != [] {
      AllLogsInCells(g, logs[..|logs| - 1]);
    }
  }

  lemma DoneIsLengths(works: Works, s: State)
    requires AllDone(works, s)
    ensures Finished(s.at) == Lengths(works)
  {
  }

  /** A phase deposits exactly what its blocks push, whether or not they race. */
  lemma PhaseDepositsItsLogs(g: Dims, near: Near, phase: Phase, b: Bags, b': Bags, threads: seq<nat>)
    requires Positive(g) && Shaped(g, phase) && RunsTo(g, near, phase, b, b') && |threads| == |phase.blocks|
    ensures multiset(MovesOf(PhaseDeposits(g, near, phase, b, b', threads))) == multiset(AllLogs(phase.logs))
    ensures forall dep :: dep in PhaseDeposits(g, near, phase, b, b', threads) ==> dep.thread in threads
  {
    var works: Works := WorksOf(g, near, phase);
    var log, deps := AllLogs(phase.logs), PhaseDeposits(g, near, phase, b, b', threads);
    AllLogsInCells(g, phase.logs);
    DepositsInCells(works, b, phase.turns, threads);
    DoneIsLengths(works, After(works, b, phase.turns));
    hide Settled, InRange, AllDone, NbCells, FinishedTo, Shaped, WorksOf, AllLogs, DepositsOf, After, Counts;
    forall d, p
      ensures multiset(MovesOf(deps))[(d, p)] == multiset(log)[(d, p)]
    {
      if d >= 0 {
        DepositsCount(works, b, phase.turns, threads, d, p);
        FinishedAll(g, near, phase, After(works, b, phase.turns).at, d, p);
      } else {
        assert (d, p) !in MovesOf(deps) && (d, p) !in log;
      }
    }
    forall move
      ensures multiset(MovesOf(deps))[move] == multiset(log)[move]
    {
      var (d, p) := move;
    }
  }

  // ----- the deposits of a sweep

  /** Every block of every phase is run by one of the threads. */
  ghost predicate Threaded(phases: seq<Phase>, threads: seq<seq<nat>>, nbThreads: nat) {
    && |threads| == |phases|
    && forall k :: 0 <= k < |phases| ==>
         |threads[k]| == |phases[k].blocks| && forall t :: t in threads[k] ==> t < nbThreads
  }

  /** The deposits of the first n phases. */
  ghost function SweepDeposits(g: Dims, near: Near, phases: seq<Phase>, bs: seq<Bags>, threads: seq<seq<nat>>,
                               nbThreads: nat, n: nat): seq<Deposited>
    requires Positive(g) && PhasesShaped(g, phases) && Run(g, near, phases, bs) && n <= |phases|
    requires Threaded(phases, threads, nbThreads)
  {
    if n == 0 then []
    else
      SweepDeposits(g, near, phases, bs, threads, nbThreads, n - 1)
        + PhaseDeposits(g, near, phases[n - 1], bs[n - 1], bs[n], threads[n - 1])
  }

  /** The deposits are those of the log, by one of the threads each. */
  ghost predicate DepositsLog(deps: seq<Deposited>, log: Log, nbThreads: nat) {
    multiset(MovesOf(deps)) == multiset(log) && forall dep :: dep in deps ==> dep.thread < nbThreads
  }

  lemma DepositBoth(a: seq<Deposited>, b: seq<Deposited>, log: Log, log': Log, nbThreads: nat)
    requires DepositsLog(a, log, nbThreads) && DepositsLog(b, log', nbThreads)
    ensures DepositsLog(a + b, log + log', nbThreads)
  {
    hide MovesOf;
    MovesOfConcat(a, b);
  }

  lemma PhaseInSweep(g: Dims, near: Near, phases: seq<Phase>, bs: seq<Bags>, threads: seq<seq<nat>>, nbThreads: nat,
                     k: nat)
    requires Positive(g) && PhasesShaped(g, phases) && Run(g, near, phases, bs) && k < |phases|
    requires Threaded(phases, threads, nbThreads)
    ensures |bs| == |phases| + 1 && |threads| == |phases| && |threads[k]| == |phases[k].blocks| && Shaped(g, phases[k])
    ensures RunsTo(g, near, phases[k], bs[k], bs[k + 1])
    ensures DepositsLog(PhaseDeposits(g, near, phases[k], bs[k], bs[k + 1], threads[k]), AllLogs(phases[k].logs),
                        nbThreads)
  {
    hide Shaped, RunsTo, PhaseDeposits, AllLogs, MovesOf;
    PhaseDepositsItsLogs(g, near, phases[k], bs[k], bs[k + 1], threads[k]);
  }

  lemma {:induction false} SweepDepositsItsLogs(g: Dims, near: Near, phases: seq<Phase>, bs: seq<Bags>,
                                                threads: seq<seq<nat>>, nbThreads: nat, n: nat)
    requires Positive(g) && PhasesShaped(g, phases) && Run(g, near, phases, bs) && n <= |phases|
    requires Threaded(phases, threads, nbThreads)
    ensures DepositsLog(SweepDeposits(g, near, phases, bs, threads, nbThreads, n), LogOfPhases(phases[..n]), nbThreads)
  {
    hide PhasesShaped, Shaped, Run, RunsTo, Threaded, PhaseDeposits, AllLogs, LogOfPhases, DepositsLog;
    if n == 0 {
      NoDeposits(nbThreads);
    } else {
      SweepDepositsItsLogs(g, near, phases, bs, threads, nbThreads, n - 1);
      PhaseInSweep(g, near, phases, bs, threads, nbThreads, n - 1);
      LogOfPhasesNext(phases, n - 1);
      DepositBoth(SweepDeposits(g, near, phases, bs, threads, nbThreads, n - 1),
                  PhaseDeposits(g, near, phases[n - 1], bs[n - 1], bs[n], threads[n - 1]),
                  LogOfPhases(phases[..n - 1]), AllLogs(phases[n - 1].logs), nbThreads);
    }
  }

  lemma NoDeposits(nbThreads: nat)
    ensures DepositsLog([], LogOfPhases([]), nbThreads)
  {
  }

  // ----- the accumulators, reduced and gathered

  /** What the accumulator of thread t for corner k of cell c has become. */
  function Accumulated(deps: seq<Deposited>, t: nat, c: int, k: nat): real
    requires k < NB_CORNERS
  {
    if deps == [] then 0.0
    else
      var dep := deps[|deps| - 1];
      Accumulated(deps[..|deps| - 1], t, c, k) + if dep.thread == t && dep.d == c then CornerCoeff(k, dep.p) else 0.0
  }

  /** The same for all the threads. */
  function Column(deps: seq<Deposited>, nbThreads: nat, c: int, k: nat): (column: seq<real>)
    requires k < NB_CORNERS
    ensures |column| == nbThreads && forall t :: 0 <= t < nbThreads ==> column[t] == Accumulated(deps, t, c, k)
  {
    seq(nbThreads, t requires 0 <= t < nbThreads => Accumulated(deps, t, c, k))
  }

  /** Reducing over the threads adds up all deposits, whichever thread made them. */
  lemma {:induction false} ReducedIsCornerSum(deps: seq<Deposited>, nbThreads: nat, c: int, k: nat)
    requires k < NB_CORNERS && forall dep :: dep in deps ==> dep.thread < nbThreads
    ensures Sum(Column(deps, nbThreads, c, k)) == CornerSum(MovesOf(deps), c, k)
  {
    hide CornerCoeff;
    if deps == [] {
      SumOfZeros(Column(deps, nbThreads, c, k));
    } else {
      var before, dep := deps[..|deps| - 1], deps[|deps| - 1];
      ReducedIsCornerSum(before, nbThreads, c, k);
      var column, delta := Column(before, nbThreads, c, k), if dep.d == c then CornerCoeff(k, dep.p) else 0.0;
      SumAfterAdd(column, dep.thread, delta);
      assert Column(deps, nbThreads, c, k) == column[dep.thread := column[dep.thread] + delta];
      assert MovesOf(deps)[..|deps| - 1] == MovesOf(before);
    }
  }

  /** What cell c gathers from its first n corners, reduced over the threads. */
  function GatheredFromThreads(g: Dims, deps: seq<Deposited>, nbThreads: nat, c: int, n: nat): real
    requires Positive(g) && 0 <= c && n <= NB_CORNERS
  {
    if n == 0 then 0.0
    else
      GatheredFromThreads(g, deps, nbThreads, c, n - 1)
        + Sum(Column(deps, nbThreads, Bij(g, c, n - 1) / NB_CORNERS, n - 1))
  }

  lemma {:induction false} ThreadsGather(g: Dims, deps: seq<Deposited>, nbThreads: nat, c: int, n: nat)
    requires Positive(g) && 0 <= c && n <= NB_CORNERS && forall dep :: dep in deps ==> dep.thread < nbThreads
    ensures GatheredFromThreads(g, deps, nbThreads, c, n) == Gathered(g, MovesOf(deps), c, n)
  {
    hide Bij, Column, CornerSum;
    if n > 0 {
      ThreadsGather(g, deps, nbThreads, c, n - 1);
      ReducedIsCornerSum(deps, nbThreads, Bij(g, c, n - 1) / NB_CORNERS, n - 1);
    }
  }

  // ----- the theorems

  lemma PhasesLogWhole(g: Dims, phases: seq<Phase>, init: seq<seq<Particle>>, field: seq<Vect>, factor: Vect)
    requires Positive(g) && MaskableGrid(g) && NbCells(g) >= 0 && |init| == |field| == NbCells(g)
    requires |phases| == 8 && Coloured(g, phases)
    requires forall k :: 0 <= k < 8 ==> PushesItsCells(g, phases[k], init, field, factor)
    ensures multiset(LogOfPhases(phases)) == multiset(LogOf(g, AllCells(g), init, field, factor))
    ensures InCells(g, LogOfPhases(phases)) && InCells(g, LogOf(g, AllCells(g), init, field, factor))
  {
    hide NbCells, CellsOf, InGrid, LogOf, AllInGrid, AllLogs, PushesItsCells, MaskableGrid, AllCells, InCells;
    EvenGrid(g);
    assert phases[..8] == phases;
    PhasesLog(g, phases, 8, init, field, factor);
    EveryCellOnce(g, phases);
    hide Coloured;
    SweepLog(g, CellsOf(AllBlocks(phases)), init, field, factor);
  }

  lemma InCellsAlike(g: Dims, log: Log, log': Log)
    requires InCells(g, log) && multiset(log) == multiset(log')
    ensures InCells(g, log')
  {
    forall i | 0 <= i < |log'|
      ensures 0 <= log'[i].0 < NbCells(g)
    {
      assert log'[i] in multiset(log') && log'[i] in log;
    }
  }

  /**
   The charge after a parallel sweep is that of scattering every particle of the row-major sweep, whichever
   thread ran which block, whatever the interleavings, and whether or not the nearness test lets blocks race.
   */
  lemma ParallelDeposit(g: Dims, near: Near, phases: seq<Phase>, bs: seq<Bags>, init: seq<seq<Particle>>,
                        field: seq<Vect>, factor: Vect, threads: seq<seq<nat>>, nbThreads: nat, c: nat)
    requires Positive(g) && MaskableGrid(g) && NbCells(g) >= 0 && |init| == |field| == NbCells(g) && c < NbCells(g)
    requires |phases| == 8 && Coloured(g, phases) && PhasesShaped(g, phases)
    requires forall k :: 0 <= k < 8 ==> PushesItsCells(g, phases[k], init, field, factor)
    requires Run(g, near, phases, bs) && Threaded(phases, threads, nbThreads)
    ensures var deps := SweepDeposits(g, near, phases, bs, threads, nbThreads, 8);
            var log := LogOf(g, AllCells(g), init, field, factor);
            InCells(g, log) && GatheredFromThreads(g, deps, nbThreads, c, NB_CORNERS) == Scattered(g, log, c)
  {
    hide NbCells, LogOf, AllCells, Coloured, PushesItsCells, Run, PhasesShaped, MaskableGrid, Threaded, SweepDeposits,
         InCells, Scattered, Gathered, GatheredFromThreads, LogOfPhases;
    var deps, log := SweepDeposits(g, near, phases, bs, threads, nbThreads, 8),
        LogOf(g, AllCells(g), init, field, factor);
    PhasesLogWhole(g, phases, init, field, factor);
    SweepDepositsItsLogs(g, near, phases, bs, threads, nbThreads, 8);
    assert phases[..8] == phases;
    InCellsAlike(g, log, MovesOf(deps));
    ThreadsGather(g, deps, nbThreads, c, NB_CORNERS);
    GatherEqualsScatter(g, MovesOf(deps), c);
    ScatterIsOrderFree(g, MovesOf(deps), log, c);
  }

  /** What a current bag, drained by the sweep, holds once both next bags of its cell have been appended to it. */
  ghost function Merged(b: Bags): (held: seq<multiset<Particle>>)
    requires Settled(b)
    ensures |held| == |b.priv| && forall d :: 0 <= d < |held| ==> held[d] == PrivateHeld(b, d) + SharedHeld(b, d)
  {
    seq(|b.priv|, d requires 0 <= d < |b.priv| => PrivateHeld(b, d) + SharedHeld(b, d))
  }

  lemma MergedHolds(g: Dims, b: Bags, log: Log)
    requires BagsHoldLog(g, b, log)
    ensures HoldsLog(Merged(b), log)
  {
    hide Settled, PrivateHeld, SharedHeld, NbCells;
  }

  /**
   After a parallel sweep with a test that is free of races, the merged bags hold every particle at its
   destination and as many particles as there were, and the charges of the cells add up to their number.
   */
  lemma ParallelStepConserves(g: Dims, near: Near, phases: seq<Phase>, bs: seq<Bags>, init: seq<seq<Particle>>,
                              field: seq<Vect>, factor: Vect, threads: seq<seq<nat>>, nbThreads: nat)
    requires Positive(g) && MaskableGrid(g) && NbCells(g) >= 0 && |init| == |field| == NbCells(g)
    requires RaceFree(g, near) && |phases| == 8 && Coloured(g, phases) && PhasesShaped(g, phases)
    requires forall k :: 0 <= k < 8 ==> PushesItsCells(g, phases[k], init, field, factor)
    requires Run(g, near, phases, bs) && BagsHoldLog(g, bs[0], []) && Threaded(phases, threads, nbThreads)
    ensures Settled(bs[8]) && HoldsLog(Merged(bs[8]), LogOf(g, AllCells(g), init, field, factor))
    ensures TotalHeld(Merged(bs[8])) == TotalSize(init)
    ensures var deps := SweepDeposits(g, near, phases, bs, threads, nbThreads, 8);
            Sum(Charged(g, deps, nbThreads, NbCells(g))) == TotalSize(init) as real
  {
    var log, deps := LogOf(g, AllCells(g), init, field, factor),
        SweepDeposits(g, near, phases, bs, threads, nbThreads, 8);
    hide NbCells, LogOf, AllCells, Coloured, PushesItsCells, Run, PhasesShaped, MaskableGrid, Threaded, SweepDeposits,
         Settled, RaceFree, Merged, HoldsLog, TotalHeld, TotalSize, Sum, GatheredFromThreads, Scattered, TotalCharge;
    ParallelSweepDelivers(g, near, phases, bs, init, field, factor);
    assert Settled(bs[8]) && |bs[8].priv| == NbCells(g);
    PhasesLogWhole(g, phases, init, field, factor);
    MergedHolds(g, bs[8], log);
    hide BagsHoldLog;
    HeldSize(Merged(bs[8]), log);
    RowMajorSize(g, init, field, factor);
    forall c | 0 <= c < NbCells(g)
      ensures Charged(g, deps, nbThreads, NbCells(g))[c] == Scattered(g, log, c)
    {
      ParallelDeposit(g, near, phases, bs, init, field, factor, threads, nbThreads, c);
    }
    SumIsTotalCharge(g, log, Charged(g, deps, nbThreads, NbCells(g)), NbCells(g));
    TotalChargeIsCount(g, log);
    WholeColumn(Charged(g, deps, nbThreads, NbCells(g)));
  }

  lemma WholeColumn(column: seq<real>)
    ensures column[..|column|] == column
  {
  }

  /** The charge that each of the n cells gathers. */
  function Charged(g: Dims, deps: seq<Deposited>, nbThreads: nat, n: nat): (deposit: seq<real>)
    requires Positive(g)
    ensures |deposit| == n
    ensures forall c :: 0 <= c < n ==> deposit[c] == GatheredFromThreads(g, deps, nbThreads, c, NB_CORNERS)
  {
    seq(n, c requires 0 <= c < n => GatheredFromThreads(g, deps, nbThreads, c, NB_CORNERS))
  }
}
