/**
 The sweep with the blocks of each colour in parallel: eight phases, one per colour, in
 each of which the pushes of its blocks interleave in any way. With a nearness test that
 is free of races, every cell ends with the particles that the row-major sweep sends to it.
 */
module ParallelSweep {
  import opened ColourPhase
  import opened Deposit
  import opened Doubles
  import opened Grid
  import opened Motion
  import opened Particles
  import opened Race
  import opened StepLog
  import opened ConcurrentBagBalance
  import opened ConcurrentBagTheorems
  import C = ConcurrentBag
  import S = SerialPush

  type Near = (Dims, Coord, Coord) -> bool

  // ----- one phase

  /** What the block at b pushes: its log, serially to the cells it believes to be near. */
  function PushesOf(g: Dims, near: Near, b: Coord, log: Log): (work: seq<Push>)
    requires Positive(g) && InCells(g, log)
    ensures |work| == |log|
  {
    seq(|log|, i requires 0 <= i < |log| => Push(log[i].0, log[i].1, near(g, b, CoordOfCell(g, log[i].0))))
  }

  /** The blocks of a phase, the log of each of them, and the interleaving. */
  datatype Phase = Phase(blocks: seq<Coord>, logs: seq<Log>, turns: seq<Turn>)

  ghost predicate Shaped(g: Dims, phase: Phase) {
    |phase.logs| == |phase.blocks| && forall i :: 0 <= i < |phase.logs| ==> InCells(g, phase.logs[i])
  }

  function WorksOf(g: Dims, near: Near, phase: Phase): (works: Works)
    requires Positive(g) && Shaped(g, phase)
    ensures |works| == |phase.blocks|
  {
    seq(|phase.blocks|, i requires 0 <= i < |phase.blocks| => PushesOf(g, near, phase.blocks[i], phase.logs[i]))
  }

  /** Distinct blocks of one colour never push serially to one cell. */
  lemma WorksExclusive(g: Dims, near: Near, colour: Colour, phase: Phase)
    requires Positive(g) && Shaped(g, phase) && RaceFree(g, near) && NoRepeat(phase.blocks)
    requires forall b :: b in phase.blocks ==> IsBlock3(g, colour, b)
    ensures InRange(WorksOf(g, near, phase), NbCells(g)) && Exclusive(WorksOf(g, near, phase))
  {
    hide NbCells, CoordOfCell, IsBlock3, InGrid, RaceFree;
    var works: Works := WorksOf(g, near, phase);
    forall v, w, i, j | 0 <= v < w < |works| && 0 <= i < |works[v]| && 0 <= j < |works[w]| && works[v][i].serial
        && works[w][j].serial
      ensures works[v][i].d != works[w][j].d
    {
      assert phase.blocks[v] in phase.blocks && phase.blocks[w] in phase.blocks;
      OneBlockIsNear(g, near, colour, phase.blocks[v], phase.blocks[w], works[v][i].d, works[w][j].d);
    }
  }

  lemma OneBlockIsNear(g: Dims, near: Near, colour: Colour, b: Coord, b': Coord, d: nat, d': nat)
    requires Positive(g) && RaceFree(g, near) && IsBlock3(g, colour, b) && IsBlock3(g, colour, b') && b != b'
    requires d < NbCells(g) && near(g, b, CoordOfCell(g, d)) && near(g, b', CoordOfCell(g, d'))
    ensures d != d'
  {
    CoordRoundTrip(g, d);
    hide NbCells, CoordOfCell, IsBlock3, InGrid;
  }

  function AllLogs(logs: seq<Log>): Log {
    if logs == [] then [] else AllLogs(logs[..|logs| - 1]) + logs[|logs| - 1]
  }

  lemma {:induction false} PushCount(g: Dims, near: Near, b: Coord, log: Log, d: nat, p: Particle)
    requires Positive(g) && InCells(g, log)
    ensures multiset(PushesOf(g, near, b, log))[Push(d, p, true)]
            + multiset(PushesOf(g, near, b, log))[Push(d, p, false)]
         == multiset(log)[(d, p)]
  {
    if log != [] {
      var n := |log| - 1;
      PushCount(g, near, b, log[..n], d, p);
      hide InCells, CoordOfCell;
      var push := Push(log[n].0, log[n].1, near(g, b, CoordOfCell(g, log[n].0)));
      assert PushesOf(g, near, b, log) == PushesOf(g, near, b, log[..n]) + [push];
      assert log == log[..n] + [log[n]];
    }
  }

  lemma {:induction false} PushesCount(g: Dims, near: Near, phase: Phase, n: nat, d: nat, p: Particle)
    requires Positive(g) && Shaped(g, phase) && n <= |phase.logs|
    ensures multiset(AllPushes(WorksOf(g, near, phase)[..n]))[Push(d, p, true)]
              + multiset(AllPushes(WorksOf(g, near, phase)[..n]))[Push(d, p, false)]
         == multiset(AllLogs(phase.logs[..n]))[(d, p)]
  {
    hide InCells, PushesOf, AllPushes;
    var works: Works := WorksOf(g, near, phase);
    if n == 0 {
      NoPushes();
    } else {
      PushesCount(g, near, phase, n - 1, d, p);
      AllPushesNext(works, n - 1);
      AllLogsNext(phase.logs, n - 1);
      hide AllLogs, WorksOf;
      PushCount(g, near, phase.blocks[n - 1], phase.logs[n - 1], d, p);
      CountConcat(AllPushes(works[..n - 1]), works[n - 1], Push(d, p, true));
      CountConcat(AllPushes(works[..n - 1]), works[n - 1], Push(d, p, false));
      CountConcat(AllLogs(phase.logs[..n - 1]), phase.logs[n - 1], (d as int, p));
      assert works[n - 1] == PushesOf(g, near, phase.blocks[n - 1], phase.logs[n - 1]);
    }
  }

  lemma NoPushes()
    ensures AllPushes([]) == []
  {
  }

  lemma AllLogsNext(logs: seq<Log>, n: nat)
    requires n < |logs|
    ensures AllLogs(logs[..n + 1]) == AllLogs(logs[..n]) + logs[n]
  {
    assert logs[..n + 1][..n] == logs[..n];
  }

  // ----- what the bags hold after a phase, and after several

  /** Together the two next bags of every cell hold the particles that the log sends there. */
  ghost predicate BagsHoldLog(g: Dims, b: Bags, log: Log) {
    && Settled(b) && |b.priv| == NbCells(g)
    && forall d: nat, p :: d < |b.priv| ==> PrivateHeld(b, d)[p] + SharedHeld(b, d)[p] == multiset(log)[(d as int, p)]
  }

  /** All blocks of the phase, started on the bags b, run to their end and leave the bags b'. */
  ghost predicate RunsTo(g: Dims, near: Near, phase: Phase, b: Bags, b': Bags)
    requires Positive(g) && Shaped(g, phase)
  {
    var works := WorksOf(g, near, phase);
    && Settled(b) && InRange(works, |b.priv|) && AllDone(works, After(works, b, phase.turns))
    && b' == Bags(After(works, b, phase.turns).priv, After(works, b, phase.turns).shared)
  }

  lemma Delivered(g: Dims, near: Near, phase: Phase, log: Log, d: nat, p: Particle, priv: multiset<Particle>,
                  shared: multiset<Particle>)
    requires Positive(g) && Shaped(g, phase) && priv[p] + shared[p] == multiset(log)[(d as int, p)]
    ensures var works := WorksOf(g, near, phase);
            (priv + SentTo(works, Lengths(works), d, true))[p] + (shared + SentTo(works, Lengths(works), d, false))[p]
              == multiset(log + AllLogs(phase.logs))[(d as int, p)]
  {
    var works: Works := WorksOf(g, near, phase);
    hide SentTo, AllPushes, AllLogs, WorksOf, InCells;
    SentCounts(works, d, true, p);
    SentCounts(works, d, false, p);
    PushesCount(g, near, phase, |phase.logs|, d, p);
    assert works[..|phase.logs|] == works && phase.logs[..|phase.logs|] == phase.logs;
    CountConcat(log, AllLogs(phase.logs), (d as int, p));
    CountJoin(priv, SentTo(works, Lengths(works), d, true), p);
    CountJoin(shared, SentTo(works, Lengths(works), d, false), p);
  }

  lemma PhaseHolds(g: Dims, near: Near, colour: Colour, phase: Phase, b: Bags, b': Bags, log: Log)
    requires Positive(g) && Shaped(g, phase) && RaceFree(g, near) && NoRepeat(phase.blocks)
    requires forall origin :: origin in phase.blocks ==> IsBlock3(g, colour, origin)
    requires BagsHoldLog(g, b, log) && RunsTo(g, near, phase, b, b')
    ensures BagsHoldLog(g, b', log + AllLogs(phase.logs))
  {
    hide Settled, After, WorksOf, InRange, AllDone, PrivateHeld, SharedHeld, AllLogs, RaceFree, SentTo, Exclusive,
        NoRepeat, Shaped;
    var works: Works := WorksOf(g, near, phase);
    WorksExclusive(g, near, colour, phase);
    PhaseDelivers(works, b, phase.turns);
    forall d: nat, p | d < |b'.priv|
      ensures PrivateHeld(b', d)[p] + SharedHeld(b', d)[p] == multiset(log + AllLogs(phase.logs))[(d as int, p)]
    {
      Delivered(g, near, phase, log, d, p, PrivateHeld(b, d), SharedHeld(b, d));
    }
  }

  // ----- one phase after the other

  /** The colour of phase k: the loops over the colours have x outermost. */
  function ColourOf(k: nat): Colour { Colour(k / 4 % 2, k / 2 % 2, k % 2) }

  ghost predicate PhasesShaped(g: Dims, phases: seq<Phase>) {
    forall k :: 0 <= k < |phases| ==> Shaped(g, phases[k])
  }

  /** Phase k takes all blocks of its colour, each once and in any order. */
  ghost predicate Coloured(g: Dims, phases: seq<Phase>) {
    forall k :: 0 <= k < |phases| ==>
      NoRepeat(phases[k].blocks) && forall b :: b in phases[k].blocks <==> IsBlock3(g, ColourOf(k), b)
  }

  /** The phases follow each other: bs[k] is what the bags are before phase k. */
  ghost predicate Run(g: Dims, near: Near, phases: seq<Phase>, bs: seq<Bags>)
    requires Positive(g) && PhasesShaped(g, phases)
  {
    |bs| == |phases| + 1 && forall k :: 0 <= k < |phases| ==> RunsTo(g, near, phases[k], bs[k], bs[k + 1])
  }

  function LogOfPhases(phases: seq<Phase>): Log {
    if phases == [] then [] else LogOfPhases(phases[..|phases| - 1]) + AllLogs(phases[|phases| - 1].logs)
  }

  lemma LogOfPhasesNext(phases: seq<Phase>, n: nat)
    requires n < |phases|
    ensures LogOfPhases(phases[..n + 1]) == LogOfPhases(phases[..n]) + AllLogs(phases[n].logs)
  {
    assert phases[..n + 1][..n] == phases[..n];
  }

  lemma {:induction false} PhasesHold(g: Dims, near: Near, phases: seq<Phase>, bs: seq<Bags>, n: nat)
    requires Positive(g) && PhasesShaped(g, phases) && Coloured(g, phases) && RaceFree(g, near)
    requires Run(g, near, phases, bs) && n <= |phases| && BagsHoldLog(g, bs[0], [])
    ensures BagsHoldLog(g, bs[n], LogOfPhases(phases[..n]))
  {
    hide Shaped, NoRepeat, RaceFree, BagsHoldLog, RunsTo, IsBlock3, AllLogs;
    if n > 0 {
      PhasesHold(g, near, phases, bs, n - 1);
      LogOfPhasesNext(phases, n - 1);
      PhaseHolds(g, near, ColourOf(n - 1), phases[n - 1], bs[n - 1], bs[n], LogOfPhases(phases[..n - 1]));
    }
  }

  // ----- the cells of the blocks

  /** The cells of one block, in the order of its three loops. */
  function BlockCells(b: Coord): (cells: seq<Coord>)
    ensures |cells| == 8
  {
    seq(8, i requires 0 <= i < 8 => Coord(b.iX + i / 4, b.iY + i / 2 % 2, b.iZ + i % 2))
  }

  lemma Digits(x: int, y: int, z: int)
    requires 0 <= x < 2 && 0 <= y < 2 && 0 <= z < 2
    ensures var i := 4 * x + 2 * y + z; 0 <= i < 8 && i / 4 == x && i / 2 % 2 == y && i % 2 == z
  {
  }

  lemma DigitsInverse(i: int)
    requires 0 <= i < 8
    ensures i == 4 * (i / 4) + 2 * (i / 2 % 2) + i % 2 && 0 <= i / 4 < 2
  {
  }

  lemma BlockCellsOnce(b: Coord)
    ensures NoRepeat(BlockCells(b))
    ensures forall co :: co in BlockCells(b) <==> InBlock(b, co)
  {
    var cells := BlockCells(b);
    forall i | 0 <= i < 8
      ensures InBlock(b, cells[i]) && i == 4 * (cells[i].iX - b.iX) + 2 * (cells[i].iY - b.iY) + (cells[i].iZ - b.iZ)
    {
      DigitsInverse(i);
    }
    forall co | InBlock(b, co)
      ensures co in cells
    {
      Digits(co.iX - b.iX, co.iY - b.iY, co.iZ - b.iZ);
      assert cells[4 * (co.iX - b.iX) + 2 * (co.iY - b.iY) + (co.iZ - b.iZ)] == co;
    }
    hide BlockCells;
  }

  /** The corner of the block that a cell lies in. */
  function OriginOf(co: Coord): Coord {
    Coord(co.iX / BLOCK * BLOCK, co.iY / BLOCK * BLOCK, co.iZ / BLOCK * BLOCK)
  }

  predicate IsOrigin(g: Dims, b: Coord) { InGrid(g, b) && OriginOf(b) == b }

  lemma BlockOfCell(b: Coord, co: Coord)
    requires OriginOf(b) == b
    ensures InBlock(b, co) <==> OriginOf(co) == b
  {
  }

  lemma OriginInGrid(g: Dims, co: Coord)
    requires EvenDims(g)
    ensures IsOrigin(g, OriginOf(co)) <==> InGrid(g, co)
  {
  }

  function IndexOfColour(b: Coord): int { b.iX / BLOCK % 2 * 4 + b.iY / BLOCK % 2 * 2 + b.iZ / BLOCK % 2 }

  lemma ColourOnAxis(grid: int, c: int, b: int)
    requires 0 <= c < 2
    ensures IsBlock(grid, c, b) <==> 0 <= b < grid && b / BLOCK * BLOCK == b && b / BLOCK % 2 == c
  {
  }

  lemma ColourOfBlock(g: Dims, k: nat, b: Coord)
    requires k < 8
    ensures IsBlock3(g, ColourOf(k), b) <==> IsOrigin(g, b) && IndexOfColour(b) == k
  {
    hide IsBlock;
    ColourOnAxis(g.x, k / 4, b.iX);
    ColourOnAxis(g.y, k / 2 % 2, b.iY);
    ColourOnAxis(g.z, k % 2, b.iZ);
    DigitsInverse(k);
    Digits(b.iX / BLOCK % 2, b.iY / BLOCK % 2, b.iZ / BLOCK % 2);
  }

  function CellsOf(blocks: seq<Coord>): seq<Coord> {
    if blocks == [] then [] else CellsOf(blocks[..|blocks| - 1]) + BlockCells(blocks[|blocks| - 1])
  }

  lemma NoRepeatConcat(a: seq<Coord>, b: seq<Coord>)
    requires NoRepeat(a) && NoRepeat(b) && forall co :: co in a ==> co !in b
    ensures NoRepeat(a + b)
  {
    forall i, j | 0 <= i < j < |a + b|
      ensures (a + b)[i] != (a + b)[j]
    {
      assert i < |a| ==> a[i] in a;
      assert j >= |a| ==> b[j - |a|] in b;
    }
  }

  /** Distinct blocks have distinct cells. */
  lemma {:induction false} CellsOnce(blocks: seq<Coord>)
    requires NoRepeat(blocks) && forall b :: b in blocks ==> OriginOf(b) == b
    ensures NoRepeat(CellsOf(blocks))
    ensures forall co :: co in CellsOf(blocks) <==> OriginOf(co) in blocks
  {
    hide BlockCells, OriginOf, InBlock;
    if blocks != [] {
      var n, b := |blocks| - 1, blocks[|blocks| - 1];
      CellsOnce(blocks[..n]);
      BlockCellsOnce(b);
      assert b !in blocks[..n] && blocks == blocks[..n] + [b];
      forall co
        ensures co in BlockCells(b) <==> OriginOf(co) == b
      {
        BlockOfCell(b, co);
      }
      NoRepeatConcat(CellsOf(blocks[..n]), BlockCells(b));
    }
  }

  function AllBlocks(phases: seq<Phase>): seq<Coord> {
    if phases == [] then [] else AllBlocks(phases[..|phases| - 1]) + phases[|phases| - 1].blocks
  }

  lemma AllBlocksNext(phases: seq<Phase>, n: nat)
    requires n < |phases|
    ensures AllBlocks(phases[..n + 1]) == AllBlocks(phases[..n]) + phases[n].blocks
  {
    assert phases[..n + 1][..n] == phases[..n];
  }

  /** The phases take every block of the grid exactly once. */
  lemma {:induction false} BlocksOnce(g: Dims, phases: seq<Phase>, n: nat)
    requires Coloured(g, phases) && n <= |phases| <= 8
    ensures NoRepeat(AllBlocks(phases[..n]))
    ensures forall b :: b in AllBlocks(phases[..n]) <==> IsOrigin(g, b) && IndexOfColour(b) < n
  {
    hide IsOrigin, IsBlock3, NoRepeat;
    if n == 0 {
      forall b
        ensures !(IndexOfColour(b) < 0)
      {
      }
      NoBlocks();
    } else {
      hide IndexOfColour;
      BlocksOnce(g, phases, n - 1);
      AllBlocksNext(phases, n - 1);
      forall b
        ensures b in phases[n - 1].blocks <==> IsOrigin(g, b) && IndexOfColour(b) == n - 1
      {
        ColourOfBlock(g, n - 1, b);
      }
      NoRepeatConcat(AllBlocks(phases[..n - 1]), phases[n - 1].blocks);
    }
  }

  lemma NoBlocks()
    ensures AllBlocks([]) == [] && NoRepeat([])
  {
  }

  // ----- the logs of the blocks

  lemma {:induction false} CellsInGrid(g: Dims, blocks: seq<Coord>)
    requires EvenDims(g) && forall b :: b in blocks ==> IsOrigin(g, b)
    ensures AllInGrid(g, CellsOf(blocks))
  {
    hide InGrid, EvenDims, BlockCells, OriginOf, InBlock;
    if blocks != [] {
      var n, b := |blocks| - 1, blocks[|blocks| - 1];
      CellsInGrid(g, blocks[..n]);
      BlockInGrid(g, b);
    }
  }

  lemma BlockInGrid(g: Dims, b: Coord)
    requires EvenDims(g) && IsOrigin(g, b)
    ensures AllInGrid(g, BlockCells(b))
  {
    BlockCellsOnce(b);
    forall i | 0 <= i < 8
      ensures InGrid(g, BlockCells(b)[i])
    {
      assert BlockCells(b)[i] in BlockCells(b);
      BlockOfCell(b, BlockCells(b)[i]);
      OriginInGrid(g, BlockCells(b)[i]);
    }
  }

  lemma {:induction false} CellsOfConcat(a: seq<Coord>, b: seq<Coord>)
    ensures CellsOf(a + b) == CellsOf(a) + CellsOf(b)
  {
    hide BlockCells;
    if b == [] {
      assert a + b == a;
    } else {
      var n := |b| - 1;
      CellsOfConcat(a, b[..n]);
      assert (a + b)[..|a + b| - 1] == a + b[..n];
      Regroup(CellsOf(a), CellsOf(b[..n]), BlockCells(b[n]));
    }
  }

  /** Every block pushes what its own cells hold, moved. */
  ghost predicate PushesItsCells(g: Dims, phase: Phase, init: seq<seq<Particle>>, field: seq<Vect>, factor: Vect)
    requires Positive(g) && |init| == |field| == NbCells(g)
  {
    && |phase.logs| == |phase.blocks|
    && forall i :: 0 <= i < |phase.blocks| ==>
         AllInGrid(g, BlockCells(phase.blocks[i]))
             && phase.logs[i] == LogOf(g, BlockCells(phase.blocks[i]), init, field, factor)
  }

  lemma {:induction false} PhaseLog(g: Dims, phase: Phase, n: nat, init: seq<seq<Particle>>, field: seq<Vect>,
                                    factor: Vect)
    requires Positive(g) && |init| == |field| == NbCells(g) && PushesItsCells(g, phase, init, field, factor)
             && n <= |phase.blocks|
    requires AllInGrid(g, CellsOf(phase.blocks[..n]))
    ensures AllLogs(phase.logs[..n]) == LogOf(g, CellsOf(phase.blocks[..n]), init, field, factor)
  {
    hide NbCells, BlockCells, InGrid;
    if n == 0 {
    } else {
      var cells := CellsOf(phase.blocks[..n - 1]);
      assert phase.blocks[..n][..n - 1] == phase.blocks[..n - 1];
      CellsNext(g, phase.blocks, n - 1);
      hide LogOf, AllInGrid;
      AllLogsNext(phase.logs, n - 1);
      PhaseLog(g, phase, n - 1, init, field, factor);
      LogSplit(g, cells, BlockCells(phase.blocks[n - 1]), init, field, factor);
    }
  }

  lemma CellsNext(g: Dims, blocks: seq<Coord>, n: nat)
    requires n < |blocks| && AllInGrid(g, CellsOf(blocks[..n + 1]))
    ensures CellsOf(blocks[..n + 1]) == CellsOf(blocks[..n]) + BlockCells(blocks[n])
    ensures AllInGrid(g, CellsOf(blocks[..n]))
  {
    assert blocks[..n + 1][..n] == blocks[..n];
    var cells := CellsOf(blocks[..n + 1]);
    assert CellsOf(blocks[..n]) == cells[..|cells| - 8];
  }

  lemma AllBlocksInGrid(g: Dims, phases: seq<Phase>, n: nat)
    requires EvenDims(g) && n <= |phases| <= 8 && Coloured(g, phases)
    ensures AllInGrid(g, CellsOf(AllBlocks(phases[..n])))
    ensures n < |phases| ==> AllInGrid(g, CellsOf(phases[n].blocks))
  {
    hide CellsOf, InGrid, EvenDims, AllInGrid, NoRepeat, IsBlock3, IndexOfColour, IsOrigin;
    BlocksOnce(g, phases, n);
    CellsInGrid(g, AllBlocks(phases[..n]));
    if n < |phases| {
      forall b | b in phases[n].blocks
        ensures IsOrigin(g, b)
      {
        ColourOfBlock(g, n, b);
      }
      CellsInGrid(g, phases[n].blocks);
    }
  }

  lemma {:induction false} PhasesLog(g: Dims, phases: seq<Phase>, n: nat,
                                     init: seq<seq<Particle>>, field: seq<Vect>, factor: Vect)
    requires Positive(g) && EvenDims(g) && |init| == |field| == NbCells(g) && n <= |phases| <= 8 && Coloured(g, phases)
    requires forall k :: 0 <= k < |phases| ==> PushesItsCells(g, phases[k], init, field, factor)
    ensures AllInGrid(g, CellsOf(AllBlocks(phases[..n])))
    ensures LogOfPhases(phases[..n]) == LogOf(g, CellsOf(AllBlocks(phases[..n])), init, field, factor)
  {
    hide NbCells, CellsOf, EvenDims, LogOf, AllLogs, AllInGrid, PushesItsCells, Coloured, AllBlocks, LogOfPhases;
    AllBlocksInGrid(g, phases, n);
    if n == 0 {
      NoLog(g, init, field, factor);
    } else {
      PhasesLog(g, phases, n - 1, init, field, factor);
      AllBlocksInGrid(g, phases, n - 1);
      LogOfPhasesNext(phases, n - 1);
      AllBlocksNext(phases, n - 1);
      var phase := phases[n - 1];
      CellsOfConcat(AllBlocks(phases[..n - 1]), phase.blocks);
      WholePhaseLog(g, phase, init, field, factor);
      LogSplit(g, CellsOf(AllBlocks(phases[..n - 1])), CellsOf(phase.blocks), init, field, factor);
    }
  }

  lemma WholePhaseLog(g: Dims, phase: Phase, init: seq<seq<Particle>>, field: seq<Vect>, factor: Vect)
    requires Positive(g) && |init| == |field| == NbCells(g) && PushesItsCells(g, phase, init, field, factor)
    requires AllInGrid(g, CellsOf(phase.blocks))
    ensures AllLogs(phase.logs) == LogOf(g, CellsOf(phase.blocks), init, field, factor)
  {
    hide LogOf, AllLogs, CellsOf, AllInGrid;
    assert phase.blocks[..|phase.blocks|] == phase.blocks && phase.logs[..|phase.logs|] == phase.logs;
    PhaseLog(g, phase, |phase.blocks|, init, field, factor);
  }

  lemma NoLog(g: Dims, init: seq<seq<Particle>>, field: seq<Vect>, factor: Vect)
    requires Positive(g) && |init| == |field| == NbCells(g)
    ensures LogOfPhases([]) == [] && CellsOf(AllBlocks([])) == [] && LogOf(g, [], init, field, factor) == []
  {
  }

  // ----- the theorem

  /**
   The blocks of every colour in parallel, colour after colour: whatever the interleavings, the next
   bags end with the particles that the row-major sweep of the grid sends to them.
   */
  lemma ParallelSweepDelivers(g: Dims, near: Near, phases: seq<Phase>, bs: seq<Bags>,
                              init: seq<seq<Particle>>, field: seq<Vect>, factor: Vect)
    requires Positive(g) && MaskableGrid(g) && NbCells(g) >= 0 && |init| == |field| == NbCells(g)
    requires RaceFree(g, near) && |phases| == 8 && Coloured(g, phases) && PhasesShaped(g, phases)
    requires forall k :: 0 <= k < 8 ==> PushesItsCells(g, phases[k], init, field, factor)
    requires Run(g, near, phases, bs) && BagsHoldLog(g, bs[0], [])
    ensures BagsHoldLog(g, bs[8], LogOf(g, AllCells(g), init, field, factor))
  {
    hide NbCells, CellsOf, InGrid, LogOf, AllInGrid, AllLogs, PushesItsCells, RaceFree, BagsHoldLog, RunsTo, Shaped,
        MaskableGrid, AllCells;
    EvenGrid(g);
    assert phases[..8] == phases;
    PhasesHold(g, near, phases, bs, 8);
    PhasesLog(g, phases, 8, init, field, factor);
    var order := CellsOf(AllBlocks(phases));
    EveryCellOnce(g, phases);
    hide Coloured, Run;
    SweepLog(g, order, init, field, factor);
    SameHoldings(g, bs[8], LogOfPhases(phases), LogOf(g, AllCells(g), init, field, factor));
  }

  lemma EveryCellOnce(g: Dims, phases: seq<Phase>)
    requires EvenDims(g) && |phases| == 8 && Coloured(g, phases)
    ensures NoRepeat(CellsOf(AllBlocks(phases)))
    ensures forall co :: co in CellsOf(AllBlocks(phases)) <==> InGrid(g, co)
  {
    assert phases[..8] == phases;
    BlocksOnce(g, phases, 8);
    hide Coloured, AllBlocks, CellsOf, NoRepeat;
    CellsOnce(AllBlocks(phases));
    forall co
      ensures co in CellsOf(AllBlocks(phases)) <==> InGrid(g, co)
    {
      OriginInGrid(g, co);
      ColourIsBelow8(OriginOf(co));
    }
  }

  lemma ColourIsBelow8(b: Coord)
    ensures IndexOfColour(b) < 8
  {
  }

  lemma SameHoldings(g: Dims, b: Bags, log: Log, log': Log)
    requires BagsHoldLog(g, b, log) && multiset(log) == multiset(log')
    ensures BagsHoldLog(g, b, log')
  {
  }

  /** On the grids that masking needs, the conjunction is such a test; the printed one is, up to 4 cells on every
      axis. */
  lemma SafeTests(g: Dims)
    requires MaskableGrid(g)
    ensures RaceFree(g, NearOnAllAxes)
    ensures RaceFree(g, NearAsPrinted) <==> g.x <= 4 && g.y <= 4 && g.z <= 4
  {
    EvenGrid(g);
    var kx: nat, ky: nat, kz: nat :|
      kx >= 1 && Pow2(kx) == g.x && ky >= 1 && Pow2(ky) == g.y && kz >= 1 && Pow2(kz) == g.z;
    ConjunctionRaceFreeOnPowersOfTwo(kx, ky, kz);
    PrintedFormulaRaceFree(g);
  }

  // ----- where a sweep starts

  /** The next bags that allocateStructures leaves. */
  function InitialBags(n: nat, slots: seq<Particle>, chunk: C.Chunk): (b: Bags)
    ensures |b.priv| == n == |b.shared|
  {
    Bags(seq(n, _ => S.Empty(slots)), seq(n, _ => C.Initial(chunk)))
  }

  lemma InitialBagsAreEmpty(n: nat, slots: seq<Particle>, chunk: C.Chunk)
    ensures var b := InitialBags(n, slots, chunk);
            Settled(b) && forall d: nat :: d < n ==> PrivateHeld(b, d) == multiset{} == SharedHeld(b, d)
  {
    var s := C.After(chunk, []);
    S.EmptyAtRest(slots);
    AfterBalanced(chunk, []);
    assert s == C.Initial(chunk);
    QuiescentState(s);
    assert ParticlesPushed([]) == multiset{};
    hide C.Inv, Balanced, S.AtRest, S.Held, C.After, S.Empty, C.Initial;
  }

  lemma SweepStartsEmpty(g: Dims, slots: seq<Particle>, chunk: C.Chunk)
    requires NbCells(g) >= 0
    ensures BagsHoldLog(g, InitialBags(NbCells(g), slots, chunk), [])
  {
    InitialBagsAreEmpty(NbCells(g), slots, chunk);
    hide Settled, PrivateHeld, SharedHeld, NbCells, InitialBags;
  }
}
