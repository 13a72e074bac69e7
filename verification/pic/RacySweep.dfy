/**
 The converse of module ParallelSweep: with a nearness test that lets two blocks of one colour
 race, there are particles and an interleaving for which the parallel sweep loses one.
 */
module RacySweep {
  import opened ColourPhase
  import opened Deposit
  import opened Doubles
  import opened Grid
  import opened LostParticle
  import opened Motion
  import opened ParallelSweep
  import opened Particles
  import opened Race
  import opened StepLog
  import C = ConcurrentBag
  import S = SerialPush

  // ----- a particle that moves from one cell to another

  /** Without a field, this particle moves from the corner of cell `from` to cell `to`. */
  function Mover(from: Coord, to: Coord, x: real): Particle {
    Particle(x, 0.0, 0.0, (to.iX - from.iX) as real, (to.iY - from.iY) as real, (to.iZ - from.iZ) as real)
  }

  function NoField(n: nat): (field: seq<Vect>)
    ensures |field| == n
  {
    seq(n, _ => Vect(0.0, 0.0, 0.0))
  }

  lemma {:induction false} NoForce(n: nat, p: Particle, v: seq<real>)
    requires n <= NB_CORNERS == |v| && forall k :: 0 <= k < NB_CORNERS ==> v[k] == 0.0
    ensures Interpolate(n, p, v) == 0.0
  {
    hide CornerCoeff;
    if n > 0 {
      NoForce(n - 1, p, v);
      assert CornerCoeff(n - 1, p) * 0.0 == 0.0;
    }
  }

  lemma WholePart(to: nat, x: real)
    requires 0.0 <= x < 1.0
    ensures IntOfDouble(to as real + x) == to
  {
  }

  lemma SumOfSteps(from: int, to: int, x: real)
    ensures x + from as real + (to - from) as real == to as real + x
  {
  }

  lemma AxisMoves(n: int, from: int, to: int, x: real)
    requires n > 0 && PowerOfTwo(n) && 0 <= to < n && 0.0 <= x < 1.0
    ensures Drift(n, from, x, (to - from) as real) == (to, x)
  {
    hide PowerOfTwo, BitAnd, Wrap, IntOfDouble;
    SumOfSteps(from, to, x);
    WholePart(to, x);
    DriftIsPeriodic(n, from, x, (to - from) as real);
    WrapIsModulo(n, to);
  }

  lemma NotKicked(g: Dims, id: int, p: Particle, factor: Vect)
    requires Positive(g) && 0 <= id < NbCells(g)
    ensures Kick(p, FieldAtCorners(g, NoField(NbCells(g)), factor, id)) == p
  {
    var f := FieldAtCorners(g, NoField(NbCells(g)), factor, id);
    CornersInGrid(g, id);
    hide NbCells, IndicesOfCorners, Interpolate;
    assert forall k :: 0 <= k < NB_CORNERS ==> f.x[k] == 0.0 && f.y[k] == 0.0 && f.z[k] == 0.0;
    NoForce(NB_CORNERS, p, f.x);
    NoForce(NB_CORNERS, p, f.y);
    NoForce(NB_CORNERS, p, f.z);
  }

  lemma MoverArrives(g: Dims, from: Coord, to: Coord, x: real, factor: Vect)
    requires Positive(g) && MaskableGrid(g) && NbCells(g) >= 0 && InGrid(g, from) && InGrid(g, to) && 0.0 <= x < 1.0
    ensures Move(g, from, Mover(from, to, x), FieldAtCorners(g, NoField(NbCells(g)), factor, IdOf(g, from)))
         == (IdOf(g, to), Mover(from, to, x))
  {
    MaskableAxes(g);
    hide NbCells, CoordOfCell, CellOfCoord, FieldAtCorners, MaskableGrid, PowerOfTwo, Drift, Kick;
    NotKicked(g, IdOf(g, from), Mover(from, to, x), factor);
    AxisMoves(g.x, from.iX, to.iX, x);
    AxisMoves(g.y, from.iY, to.iY, 0.0);
    AxisMoves(g.z, from.iZ, to.iZ, 0.0);
  }

  lemma MaskableAxes(g: Dims)
    requires MaskableGrid(g)
    ensures PowerOfTwo(g.x) && PowerOfTwo(g.y) && PowerOfTwo(g.z)
  {
  }

  // ----- the input: one particle in each of two blocks that race

  /** Blocks b and b' of colour k both believe cell d to be near. */
  datatype Clash = Clash(g: Dims, k: nat, b: Coord, b': Coord, d: Coord) {

    ghost predicate Valid(near: Near) {
      && Positive(g) && MaskableGrid(g) && NbCells(g) >= 0
      && k < 8 && IsBlock3(g, ColourOf(k), b) && IsBlock3(g, ColourOf(k), b') && b != b'
      && InGrid(g, d) && near(g, b, d) && near(g, b', d)
    }

    function First(): Particle { Mover(b, d, 0.0) }

    function Second(): Particle { Mover(b', d, 0.5) }
  }

  /** What the current bags hold: a particle in the first cell of each of the two blocks. */
  function InitOf(c: Clash): (init: seq<seq<Particle>>)
    requires Positive(c.g) && NbCells(c.g) >= 0
    ensures |init| == NbCells(c.g)
  {
    seq(NbCells(c.g), i requires 0 <= i < NbCells(c.g) =>
      if CoordOfCell(c.g, i) == c.b then [c.First()] else if CoordOfCell(c.g, i) == c.b' then [c.Second()] else [])
  }

  /** What the block at x pushes. */
  function LogAt(c: Clash, x: Coord): Log
    requires Positive(c.g) && InGrid(c.g, c.d)
  {
    if x == c.b then [(IdOf(c.g, c.d), c.First())]
    else if x == c.b' then [(IdOf(c.g, c.d), c.Second())]
    else []
  }

  lemma {:induction false} LogOfEmptyCells(g: Dims, order: seq<Coord>, init: seq<seq<Particle>>, field: seq<Vect>,
                                           factor: Vect)
    requires Positive(g) && AllInGrid(g, order) && |init| == |field| == NbCells(g)
    requires forall i :: 0 <= i < |order| ==> init[IdOf(g, order[i])] == []
    ensures LogOf(g, order, init, field, factor) == []
  {
    hide NbCells, IdOf, FieldAtCorners, InGrid;
    if order != [] {
      LogOfEmptyCells(g, order[..|order| - 1], init, field, factor);
    }
  }

  /** Only the first cell of a block holds anything. */
  lemma BlockLogIs(c: Clash, near: Near, x: Coord, factor: Vect)
    requires c.Valid(near) && IsOrigin(c.g, x) && EvenDims(c.g)
    ensures AllInGrid(c.g, BlockCells(x))
    ensures LogOf(c.g, BlockCells(x), InitOf(c), NoField(NbCells(c.g)), factor) == LogAt(c, x)
  {
    hide InitOf, NbCells, CellOfCoord, CoordOfCell, MaskableGrid, InGrid, IsBlock3, FieldAtCorners, OriginOf, LogOf,
         BlockCells;
    var g, init, field, cells := c.g, InitOf(c), NoField(NbCells(c.g)), BlockCells(x);
    BlockInGrid(g, x);
    FirstCell(x);
    forall i | 1 <= i < 8
      ensures init[IdOf(g, cells[i])] == []
    {
      RestIsEmpty(c, near, x, i);
    }
    assert cells == [x] + cells[1..];
    LogSplit(g, [x], cells[1..], init, field, factor);
    LogOfEmptyCells(g, cells[1..], init, field, factor);
    FirstCellLog(c, near, x, factor);
  }

  lemma FirstCell(x: Coord)
    ensures BlockCells(x)[0] == x
  {
  }

  lemma RestIsEmpty(c: Clash, near: Near, x: Coord, i: nat)
    requires c.Valid(near) && IsOrigin(c.g, x) && 1 <= i < 8 && InGrid(c.g, BlockCells(x)[i])
    ensures InitOf(c)[IdOf(c.g, BlockCells(x)[i])] == []
  {
    hide NbCells, CellOfCoord, CoordOfCell, MaskableGrid, IsBlock3, BlockCells;
    ColourOfBlock(c.g, c.k, c.b);
    ColourOfBlock(c.g, c.k, c.b');
    NotTheFirst(x, i);
  }

  lemma NotTheFirst(x: Coord, i: nat)
    requires OriginOf(x) == x && 1 <= i < 8
    ensures BlockCells(x)[i] != x && OriginOf(BlockCells(x)[i]) == x
  {
    DigitsInverse(i);
  }

  lemma FirstCellLog(c: Clash, near: Near, x: Coord, factor: Vect)
    requires c.Valid(near) && InGrid(c.g, x) && AllInGrid(c.g, [x])
    ensures LogOf(c.g, [x], InitOf(c), NoField(NbCells(c.g)), factor) == LogAt(c, x)
  {
    var g, init, field := c.g, InitOf(c), NoField(NbCells(c.g));
    var f := FieldAtCorners(g, field, factor, IdOf(g, x));
    assert init[IdOf(g, x)] == if x == c.b then [c.First()] else if x == c.b' then [c.Second()] else [];
    hide InitOf, NbCells, CellOfCoord, CoordOfCell, MaskableGrid, IsBlock3, FieldAtCorners, Move, IdOf, Mover, NoField;
    assert [x][..0] == [];
    assert LogOf(g, [x], init, field, factor) == Moves(g, x, init[IdOf(g, x)], f);
    if x == c.b {
      MoverArrives(g, c.b, c.d, 0.0, factor);
    } else if x == c.b' {
      MoverArrives(g, c.b', c.d, 0.5, factor);
    }
  }

  // ----- the phases

  function Filtered(cells: seq<Coord>, keep: Coord -> bool): seq<Coord> {
    if cells == [] then []
    else Filtered(cells[..|cells| - 1], keep) + (if keep(cells[|cells| - 1]) then [cells[|cells| - 1]] else [])
  }

  lemma {:induction false} FilteredOnce(cells: seq<Coord>, keep: Coord -> bool)
    requires NoRepeat(cells)
    ensures NoRepeat(Filtered(cells, keep))
    ensures forall co :: co in Filtered(cells, keep) <==> co in cells && keep(co)
  {
    if cells != [] {
      var n := |cells| - 1;
      FilteredOnce(cells[..n], keep);
      assert cells == cells[..n] + [cells[n]];
    }
  }

  /** The blocks of colour k other than the two that clash. */
  function OtherBlocks(c: Clash, k: nat): seq<Coord>
    requires Positive(c.g) && NbCells(c.g) >= 0
  {
    Filtered(AllCells(c.g), co => IsBlock3(c.g, ColourOf(k), co) && co != c.b && co != c.b')
  }

  /** All blocks of colour k, the two that clash first. */
  function BlocksOf(c: Clash, k: nat): seq<Coord>
    requires Positive(c.g) && NbCells(c.g) >= 0
  {
    (if k == c.k then [c.b] + [c.b'] else []) + OtherBlocks(c, k)
  }

  lemma BlocksOfColour(c: Clash, near: Near, k: nat)
    requires c.Valid(near) && k < 8
    ensures NoRepeat(OtherBlocks(c, k)) && NoRepeat(BlocksOf(c, k))
    ensures forall co :: co in OtherBlocks(c, k) <==> IsBlock3(c.g, ColourOf(k), co) && co != c.b && co != c.b'
    ensures forall co :: co in BlocksOf(c, k) <==> IsBlock3(c.g, ColourOf(k), co)
  {
    hide AllCells, Filtered, NbCells, MaskableGrid;
    AllCellsOnce(c.g);
    FilteredOnce(AllCells(c.g), co => IsBlock3(c.g, ColourOf(k), co) && co != c.b && co != c.b');
    forall co
      ensures IsBlock3(c.g, ColourOf(k), co) ==> InGrid(c.g, co) && (k != c.k ==> co != c.b && co != c.b')
    {
      ColourOfBlock(c.g, k, co);
      ColourOfBlock(c.g, c.k, co);
    }
    hide InGrid, IsBlock3, NoRepeat, OtherBlocks;
    if k == c.k {
      TwoAndOthers(c.b, c.b', OtherBlocks(c, k));
    } else {
      assert BlocksOf(c, k) == OtherBlocks(c, k);
    }
  }

  lemma TwoAndOthers(b: Coord, b': Coord, others: seq<Coord>)
    requires b != b' && NoRepeat(others) && b !in others && b' !in others
    ensures NoRepeat([b] + [b'] + others)
  {
    NoRepeatConcat([b] + [b'], others);
  }

  /** Phase k: in the phase of the clash, the two blocks race before any other begins. */
  function PhaseOf(c: Clash, k: nat): (phase: Phase)
    requires Positive(c.g) && NbCells(c.g) >= 0 && InGrid(c.g, c.d)
    ensures |phase.logs| == |phase.blocks|
    ensures forall i :: 0 <= i < |phase.blocks| ==> phase.logs[i] == LogAt(c, phase.blocks[i])
  {
    var blocks := BlocksOf(c, k);
    var logs := seq(|blocks|, i requires 0 <= i < |blocks| => LogAt(c, blocks[i]));
    Phase(blocks, logs, if k == c.k then RacingTurns() else [])
  }

  function PhasesOf(c: Clash): (phases: seq<Phase>)
    requires Positive(c.g) && NbCells(c.g) >= 0 && InGrid(c.g, c.d)
    ensures |phases| == 8 && forall k :: 0 <= k < 8 ==> phases[k] == PhaseOf(c, k)
  {
    seq(8, k requires 0 <= k < 8 => PhaseOf(c, k))
  }

  lemma PhasesAreInput(c: Clash, near: Near, factor: Vect)
    requires c.Valid(near)
    ensures Coloured(c.g, PhasesOf(c)) && PhasesShaped(c.g, PhasesOf(c))
    ensures forall k :: 0 <= k < 8 ==> PushesItsCells(c.g, PhasesOf(c)[k], InitOf(c), NoField(NbCells(c.g)), factor)
  {
    hide NbCells, InitOf, PhaseOf, NoRepeat, IsBlock3, PushesItsCells, Shaped, NoField;
    var phases := PhasesOf(c);
    forall k: nat | k < 8
      ensures PushesItsCells(c.g, phases[k], InitOf(c), NoField(NbCells(c.g)), factor) && Shaped(c.g, phases[k])
      ensures NoRepeat(phases[k].blocks) && forall b :: b in phases[k].blocks <==> IsBlock3(c.g, ColourOf(k), b)
    {
      PhaseIsInput(c, near, k, factor);
    }
  }

  lemma BlockIsInput(c: Clash, near: Near, k: nat, x: Coord, factor: Vect)
    requires c.Valid(near) && k < 8 && IsBlock3(c.g, ColourOf(k), x)
    ensures AllInGrid(c.g, BlockCells(x)) && InCells(c.g, LogAt(c, x))
    ensures LogOf(c.g, BlockCells(x), InitOf(c), NoField(NbCells(c.g)), factor) == LogAt(c, x)
  {
    hide NbCells, InitOf, MaskableGrid, LogOf, BlockCells, NoField;
    EvenGrid(c.g);
    ColourOfBlock(c.g, k, x);
    BlockLogIs(c, near, x, factor);
  }

  lemma PhaseIsInput(c: Clash, near: Near, k: nat, factor: Vect)
    requires c.Valid(near) && k < 8
    ensures PushesItsCells(c.g, PhaseOf(c, k), InitOf(c), NoField(NbCells(c.g)), factor) && Shaped(c.g, PhaseOf(c, k))
    ensures NoRepeat(PhaseOf(c, k).blocks) && forall b :: b in PhaseOf(c, k).blocks <==> IsBlock3(c.g, ColourOf(k), b)
  {
    BlocksOfColour(c, near, k);
    var phase := PhaseOf(c, k);
    assert phase.blocks == BlocksOf(c, k);
    hide NbCells, InitOf, BlocksOf, NoRepeat, MaskableGrid, LogOf, BlockCells, NoField, PhaseOf, LogAt, AllInGrid,
         InCells, IsBlock3;
    forall i | 0 <= i < |phase.blocks|
      ensures AllInGrid(c.g, BlockCells(phase.blocks[i])) && InCells(c.g, phase.logs[i])
      ensures phase.logs[i] == LogOf(c.g, BlockCells(phase.blocks[i]), InitOf(c), NoField(NbCells(c.g)), factor)
    {
      assert phase.blocks[i] in phase.blocks;
      BlockIsInput(c, near, k, phase.blocks[i], factor);
    }
  }

  // ----- the run

  lemma QuietPhaseRuns(c: Clash, near: Near, k: nat, b: Bags)
    requires c.Valid(near) && k < 8 && k != c.k && Settled(b) && Shaped(c.g, PhaseOf(c, k))
    ensures RunsTo(c.g, near, PhaseOf(c, k), b, b)
  {
    BlocksOfColour(c, near, k);
    QuietBlocks(c, near, k);
    hide NbCells, MaskableGrid, IsBlock3, BlocksOf, LogAt, Settled, NoRepeat;
    var phase := PhaseOf(c, k);
    var works: Works := WorksOf(c.g, near, phase);
    forall w | 0 <= w < |works|
      ensures works[w] == []
    {
      assert phase.blocks[w] in phase.blocks;
    }
    assert phase.turns == [];
  }

  lemma QuietBlocks(c: Clash, near: Near, k: nat)
    requires c.Valid(near) && k < 8 && k != c.k
    ensures forall x :: x in PhaseOf(c, k).blocks ==> LogAt(c, x) == []
  {
    hide NbCells, MaskableGrid, NoRepeat;
    BlocksOfColour(c, near, k);
    hide BlocksOf, OtherBlocks, IsBlock3;
    forall x | x in PhaseOf(c, k).blocks
      ensures LogAt(c, x) == []
    {
      ColourOfBlock(c.g, k, x);
      ColourOfBlock(c.g, c.k, x);
    }
  }

  lemma TurnsOfTwo(turns: seq<Turn>, w: nat, n: nat)
    requires w < 2 && forall i :: 0 <= i < |turns| ==> turns[i].w < 2
    ensures forall i :: 0 <= i < |turns + Times(TurnOf(w), n)| ==> (turns + Times(TurnOf(w), n))[i].w < 2
  {
  }

  lemma RacingTurnsOfTwo()
    ensures forall i :: 0 <= i < |RacingTurns()| ==> RacingTurns()[i].w < 2
  {
    var begun := [TurnOf(0)] + [TurnOf(1)];
    TurnsOfTwo(begun, 0, 3);
    TurnsOfTwo(begun + Times(TurnOf(0), 3), 1, 3);
    TurnsOfTwo(Loaded(), 0, 1);
    TurnsOfTwo(Loaded() + Times(TurnOf(0), 1), 1, 1);
    TurnsOfTwo(Resized(), 0, FIELDS);
    TurnsOfTwo(Resized() + Times(TurnOf(0), FIELDS), 1, FIELDS);
    hide Filled;
    assert forall i :: 0 <= i < |Filled()| ==> Filled()[i].w < 2;
  }

  /** The blocks of the clash push serially to one cell, the others of their colour nothing. */
  lemma RacingWorks(c: Clash, near: Near)
    requires c.Valid(near) && Shaped(c.g, PhaseOf(c, c.k))
    ensures WorksOf(c.g, near, PhaseOf(c, c.k))
         == Padded(TwoPushes(IdOf(c.g, c.d), c.First(), c.Second()), |OtherBlocks(c, c.k)|)
  {
    var phase, id, others := PhaseOf(c, c.k), IdOf(c.g, c.d), OtherBlocks(c, c.k);
    var works: Works := WorksOf(c.g, near, phase);
    BlocksOfColour(c, near, c.k);
    assert phase.blocks == [c.b] + [c.b'] + others;
    hide NbCells, MaskableGrid, IsBlock3, OtherBlocks, NoRepeat, BlocksOf, PhaseOf, CellOfCoord, CoordOfCell, Mover;
    assert works[0] == [Push(id, c.First(), true)];
    assert works[1] == [Push(id, c.Second(), true)];
    forall w | 2 <= w < |works|
      ensures works[w] == []
    {
      assert phase.blocks[w] == others[w - 2] && others[w - 2] in others;
    }
    assert works == Padded(TwoPushes(id, c.First(), c.Second()), |others|);
  }

  /** The next bags that allocateStructures leaves. */
  function FreshBags(n: nat): (b: Bags)
    ensures |b.priv| == n == |b.shared|
  {
    InitialBags(n, [], C.Chunk(None, 0, [], []))
  }

  lemma FreshBag(n: nat, id: nat)
    requires id < n
    ensures var b := FreshBags(n);
            Settled(b) && b.priv[id].front < |b.priv[id].nodes| && b.priv[id].nodes[b.priv[id].front].size == 0
            && PrivateHeld(b, id) == multiset{} == SharedHeld(b, id)
  {
    InitialBagsAreEmpty(n, [], C.Chunk(None, 0, [], []));
    assert FreshBags(n).priv[id] == S.Empty([]);
    hide Settled, PrivateHeld, SharedHeld;
  }

  lemma PaddedDone(works: Works, s: State, n: nat)
    requires AllDone(works, s)
    ensures AllDone(Padded(works, n), PaddedState(s, n))
    ensures PaddedState(s, n).priv == s.priv && PaddedState(s, n).shared == s.shared
  {
  }

  lemma RaceRuns(g: Dims, near: Near, phase: Phase, b: Bags, id: nat, p: Particle, q: Particle, n: nat)
    returns (chain: S.Chain)
    requires Positive(g) && Shaped(g, phase) && phase.turns == RacingTurns()
    requires WorksOf(g, near, phase) == Padded(TwoPushes(id, p, q), n)
    requires Settled(b) && id < |b.priv| && b.priv[id].front < |b.priv[id].nodes|
    requires b.priv[id].nodes[b.priv[id].front].size == 0 && PrivateHeld(b, id) == multiset{}
    ensures RunsTo(g, near, phase, b, Bags(b.priv[id := chain], b.shared))
    ensures S.AtRest(chain) && S.Held(chain) == multiset{q}
  {
    hide Settled, InRange, After, RacingTurns, S.Held, S.AtRest, WorksOf, Padded, PaddedState, AllDone, Shaped,
         TwoPushes;
    RacingTurnsOfTwo();
    chain := SerialPushesRace(b, id, p, q);
    AfterPadded(TwoPushes(id, p, q), b, RacingTurns(), n);
    PaddedDone(TwoPushes(id, p, q), After(TwoPushes(id, p, q), b, RacingTurns()), n);
  }

  /** After the phase of the clash, the bag has one particle where two were sent. */
  lemma RacingPhaseRuns(c: Clash, near: Near) returns (chain: S.Chain)
    requires c.Valid(near) && Shaped(c.g, PhaseOf(c, c.k))
    ensures var b, id := FreshBags(NbCells(c.g)), IdOf(c.g, c.d);
            RunsTo(c.g, near, PhaseOf(c, c.k), b, Bags(b.priv[id := chain], b.shared))
    ensures S.AtRest(chain) && S.Held(chain) == multiset{c.Second()}
  {
    var b, id, phase := FreshBags(NbCells(c.g)), IdOf(c.g, c.d), PhaseOf(c, c.k);
    assert phase.turns == RacingTurns();
    hide FreshBags, Settled, IdOf, PhaseOf, OtherBlocks, RacingTurns, S.Held, S.AtRest, Mover, WorksOf, SharedHeld,
         PrivateHeld, NbCells, MaskableGrid, IsBlock3, Padded, Shaped, TwoPushes, RunsTo;
    FreshBag(NbCells(c.g), id);
    RacingWorks(c, near);
    chain := RaceRuns(c.g, near, phase, b, id, c.First(), c.Second(), |OtherBlocks(c, c.k)|);
  }

  // ----- the sweep that loses a particle

  function LossyBags(c: Clash, chain: S.Chain): (b: Bags)
    requires Positive(c.g) && NbCells(c.g) >= 0 && InGrid(c.g, c.d)
  {
    var b := FreshBags(NbCells(c.g));
    Bags(b.priv[IdOf(c.g, c.d) := chain], b.shared)
  }

  /** The bags before each phase and after the last. */
  function BagsOf(c: Clash, chain: S.Chain): (bs: seq<Bags>)
    requires Positive(c.g) && NbCells(c.g) >= 0 && InGrid(c.g, c.d)
    ensures |bs| == 9
  {
    seq(9, k => if k <= c.k then FreshBags(NbCells(c.g)) else LossyBags(c, chain))
  }

  lemma LossySettled(c: Clash, near: Near, chain: S.Chain)
    requires c.Valid(near) && S.AtRest(chain)
    ensures Settled(FreshBags(NbCells(c.g))) && Settled(LossyBags(c, chain))
  {
    hide NbCells, IdOf, MaskableGrid, S.AtRest, C.Inv, IsBlock3;
    InitialBagsAreEmpty(NbCells(c.g), [], C.Chunk(None, 0, [], []));
  }

  lemma LossyRun(c: Clash, near: Near, chain: S.Chain)
    requires c.Valid(near) && PhasesShaped(c.g, PhasesOf(c)) && S.AtRest(chain)
    requires RunsTo(c.g, near, PhaseOf(c, c.k), FreshBags(NbCells(c.g)), LossyBags(c, chain))
    ensures Run(c.g, near, PhasesOf(c), BagsOf(c, chain))
  {
    LossySettled(c, near, chain);
    hide Settled, RunsTo, PhaseOf, NbCells, FreshBags, LossyBags, Shaped, MaskableGrid;
    var phases, bs := PhasesOf(c), BagsOf(c, chain);
    forall k: nat | k < 8
      ensures RunsTo(c.g, near, phases[k], bs[k], bs[k + 1])
    {
      if k != c.k {
        QuietPhaseRuns(c, near, k, bs[k]);
      }
    }
  }

  lemma {:induction false} LogHas(g: Dims, order: seq<Coord>, co: Coord, init: seq<seq<Particle>>, field: seq<Vect>,
                                  factor: Vect)
    requires Positive(g) && AllInGrid(g, order) && |init| == |field| == NbCells(g) && co in order && InGrid(g, co)
    requires |init[IdOf(g, co)]| == 1
    ensures Move(g, co, init[IdOf(g, co)][0], FieldAtCorners(g, field, factor, IdOf(g, co)))
              in LogOf(g, order, init, field, factor)
  {
    hide NbCells, IdOf, Move, FieldAtCorners, InGrid;
    var n := |order| - 1;
    if order[n] == co {
      var moves := Moves(g, co, init[IdOf(g, co)], FieldAtCorners(g, field, factor, IdOf(g, co)));
      assert moves[0] in moves;
    } else {
      assert co in order[..n];
      LogHas(g, order[..n], co, init, field, factor);
    }
  }

  /** The row-major sweep sends the first particle to the cell of the clash. */
  lemma FirstIsSent(c: Clash, near: Near, factor: Vect)
    requires c.Valid(near)
    ensures (IdOf(c.g, c.d), c.First()) in LogOf(c.g, AllCells(c.g), InitOf(c), NoField(NbCells(c.g)), factor)
  {
    var g := c.g;
    ColourOfBlock(g, c.k, c.b);
    AllCellsOnce(g);
    assert InitOf(c)[IdOf(g, c.b)] == [c.First()];
    hide InitOf, NbCells, AllCells, LogOf, MaskableGrid, IdOf, InGrid, NoField, Move, Mover, FieldAtCorners;
    MoverArrives(g, c.b, c.d, 0.0, factor);
    LogHas(g, AllCells(g), c.b, InitOf(c), NoField(NbCells(g)), factor);
  }

  lemma LossyHolds(c: Clash, near: Near, chain: S.Chain, log: Log)
    requires c.Valid(near) && S.AtRest(chain) && S.Held(chain) == multiset{c.Second()}
    requires (IdOf(c.g, c.d), c.First()) in log
    ensures !BagsHoldLog(c.g, LossyBags(c, chain), log)
  {
    var id, b := IdOf(c.g, c.d), LossyBags(c, chain);
    InitialBagsAreEmpty(NbCells(c.g), [], C.Chunk(None, 0, [], []));
    LossySettled(c, near, chain);
    assert PrivateHeld(b, id) == multiset{c.Second()};
    assert SharedHeld(b, id) == SharedHeld(FreshBags(NbCells(c.g)), id) == multiset{};
    assert c.First() != c.Second();
    hide Settled, PrivateHeld, SharedHeld, NbCells, MaskableGrid, Mover, LossyBags, S.Held, IdOf;
    assert multiset(log)[(id as int, c.First())] > 0;
    assert PrivateHeld(b, id)[c.First()] + SharedHeld(b, id)[c.First()] == 0;
  }

  // ----- the theorem

  /** A parallel sweep of the program: its input, its interleavings, and the bags along the way. */
  ghost predicate IsSweep(g: Dims, near: Near, phases: seq<Phase>, bs: seq<Bags>,
                          init: seq<seq<Particle>>, field: seq<Vect>, factor: Vect)
    requires Positive(g) && NbCells(g) >= 0
  {
    && |init| == |field| == NbCells(g) && |phases| == 8 && Coloured(g, phases) && PhasesShaped(g, phases)
    && (forall k :: 0 <= k < 8 ==> PushesItsCells(g, phases[k], init, field, factor))
    && Run(g, near, phases, bs) && BagsHoldLog(g, bs[0], [])
  }

  /** No parallel sweep loses, duplicates or misplaces a particle. */
  ghost predicate SweepsDeliver(g: Dims, near: Near)
    requires Positive(g) && NbCells(g) >= 0
  {
    forall phases, bs, init, field, factor :: IsSweep(g, near, phases, bs, init, field, factor) ==>
      BagsHoldLog(g, bs[8], LogOf(g, AllCells(g), init, field, factor))
  }

  lemma LossySweep(c: Clash, near: Near, factor: Vect) returns (chain: S.Chain)
    requires c.Valid(near)
    ensures IsSweep(c.g, near, PhasesOf(c), BagsOf(c, chain), InitOf(c), NoField(NbCells(c.g)), factor)
    ensures S.AtRest(chain) && S.Held(chain) == multiset{c.Second()}
  {
    hide NbCells, Coloured, PushesItsCells, Run, RunsTo, BagsHoldLog, PhaseOf, Shaped, MaskableGrid, InitOf, NoField,
         IdOf, FreshBags, S.Held, S.AtRest, IsBlock3, LossyBags;
    PhasesAreInput(c, near, factor);
    assert PhasesOf(c)[c.k] == PhaseOf(c, c.k);
    chain := RacingPhaseRuns(c, near);
    LossyIs(c, chain);
    LossyRun(c, near, chain);
    FreshHoldNothing(c.g);
  }

  lemma LossyIs(c: Clash, chain: S.Chain)
    requires Positive(c.g) && NbCells(c.g) >= 0 && InGrid(c.g, c.d)
    ensures var b := FreshBags(NbCells(c.g));
            LossyBags(c, chain) == Bags(b.priv[IdOf(c.g, c.d) := chain], b.shared)
  {
  }

  lemma ClashLoses(c: Clash, near: Near)
    requires c.Valid(near)
    ensures !SweepsDeliver(c.g, near)
  {
    var factor := Vect(1.0, 1.0, 1.0);
    assert Positive(c.g) && NbCells(c.g) >= 0 && InGrid(c.g, c.d);
    hide NbCells, BagsHoldLog, PhasesOf, Clash.Valid, InitOf, LogOf, AllCells, NoField, IdOf, S.Held, S.AtRest,
         IsSweep, LossyBags, InGrid;
    var chain := LossySweep(c, near, factor);
    FirstIsSent(c, near, factor);
    LossyHolds(c, near, chain, LogOf(c.g, AllCells(c.g), InitOf(c), NoField(NbCells(c.g)), factor));
    LastBags(c, near, chain);
  }

  lemma LastBags(c: Clash, near: Near, chain: S.Chain)
    requires c.Valid(near)
    ensures BagsOf(c, chain)[8] == LossyBags(c, chain)
  {
    hide NbCells, LossyBags, FreshBags, MaskableGrid;
  }

  lemma FreshHoldNothing(g: Dims)
    requires NbCells(g) >= 0
    ensures BagsHoldLog(g, FreshBags(NbCells(g)), [])
  {
    SweepStartsEmpty(g, [], C.Chunk(None, 0, [], []));
  }

  lemma FindClash(g: Dims, near: Near) returns (c: Clash)
    requires Positive(g) && MaskableGrid(g) && NbCells(g) >= 0 && !RaceFree(g, near)
    ensures c.Valid(near) && c.g == g
  {
    var colour, b, b', d :| IsBlock3(g, colour, b) && IsBlock3(g, colour, b') && InGrid(g, d)
                            && near(g, b, d) && near(g, b', d) && b != b';
    var k: nat := 4 * colour.x + 2 * colour.y + colour.z;
    Digits(colour.x, colour.y, colour.z);
    assert ColourOf(k) == colour;
    c := Clash(g, k, b, b', d);
  }

  /**
   On every grid that masking allows and for every nearness test: all parallel sweeps deliver every particle
   exactly when the test lets no two blocks of one colour push serially to one cell.
   */
  lemma SweepsDeliverExactly(g: Dims, near: Near)
    requires MaskableGrid(g) && Positive(g) && NbCells(g) >= 0
    ensures SweepsDeliver(g, near) <==> RaceFree(g, near)
  {
    if RaceFree(g, near) {
      forall phases, bs, init, field, factor | IsSweep(g, near, phases, bs, init, field, factor)
        ensures BagsHoldLog(g, bs[8], LogOf(g, AllCells(g), init, field, factor))
      {
        ParallelSweepDelivers(g, near, phases, bs, init, field, factor);
      }
    } else {
      var c := FindClash(g, near);
      ClashLoses(c, near);
    }
  }

  /** The conjunction always delivers; the printed test exactly when no axis is longer than 4. */
  lemma PrintedTestDeliversExactly(g: Dims)
    requires MaskableGrid(g) && Positive(g) && NbCells(g) >= 0
    ensures SweepsDeliver(g, NearOnAllAxes)
    ensures SweepsDeliver(g, NearAsPrinted) <==> g.x <= 4 && g.y <= 4 && g.z <= 4
  {
    hide SweepsDeliver, RaceFree, NearAsPrinted, NearOnAllAxes, MaskableGrid, NbCells;
    SafeTests(g);
    SweepsDeliverExactly(g, NearOnAllAxes);
    SweepsDeliverExactly(g, NearAsPrinted);
  }

  // ----- one phase, on any grid

  /** A phase of one colour, with any logs, that runs from b, which hold `log`, to b'. */
  ghost predicate IsPhase(g: Dims, near: Near, colour: Colour, phase: Phase, b: Bags, b': Bags, log: Log)
    requires Positive(g)
  {
    && Shaped(g, phase) && NoRepeat(phase.blocks) && (forall x :: x in phase.blocks ==> IsBlock3(g, colour, x))
    && BagsHoldLog(g, b, log) && RunsTo(g, near, phase, b, b')
  }

  /** No phase loses, duplicates or misplaces a particle. */
  ghost predicate PhasesDeliver(g: Dims, near: Near)
    requires Positive(g)
  {
    forall colour, phase, b, b', log :: IsPhase(g, near, colour, phase, b, b', log) ==>
      BagsHoldLog(g, b', log + AllLogs(phase.logs))
  }

  /** Blocks b and b' each push one particle to cell id. */
  function ClashPhase(b: Coord, b': Coord, id: nat, p: Particle, q: Particle): Phase {
    Phase([b, b'], [[(id as int, p)], [(id as int, q)]], RacingTurns())
  }

  lemma ClashWorks(g: Dims, near: Near, b: Coord, b': Coord, id: nat, p: Particle, q: Particle)
    requires Positive(g) && id < NbCells(g) && near(g, b, CoordOfCell(g, id)) && near(g, b', CoordOfCell(g, id))
    ensures var phase := ClashPhase(b, b', id, p, q);
            Shaped(g, phase) && WorksOf(g, near, phase) == TwoPushes(id, p, q) && phase.turns == RacingTurns()
  {
    hide NbCells, CoordOfCell, RacingTurns;
    assert PushesOf(g, near, b, [(id as int, p)]) == [Push(id, p, true)];
    assert PushesOf(g, near, b', [(id as int, q)]) == [Push(id, q, true)];
  }

  lemma ClashLogs(b: Coord, b': Coord, id: nat, p: Particle, q: Particle)
    ensures AllLogs(ClashPhase(b, b', id, p, q).logs) == [(id as int, p), (id as int, q)]
  {
    var logs := ClashPhase(b, b', id, p, q).logs;
    AllLogsNext(logs, 0);
    AllLogsNext(logs, 1);
    assert logs[..0] == [] && logs[..2] == logs;
  }

  lemma ClashPhaseRuns(g: Dims, near: Near, b: Coord, b': Coord, id: nat, p: Particle, q: Particle)
    returns (chain: S.Chain)
    requires Positive(g) && id < NbCells(g) && near(g, b, CoordOfCell(g, id)) && near(g, b', CoordOfCell(g, id))
    ensures var phase, bags := ClashPhase(b, b', id, p, q), FreshBags(NbCells(g));
            && Shaped(g, phase) && Settled(bags) && SharedHeld(bags, id) == multiset{}
            && RunsTo(g, near, phase, bags, Bags(bags.priv[id := chain], bags.shared))
    ensures S.AtRest(chain) && S.Held(chain) == multiset{q}
  {
    var bags := FreshBags(NbCells(g));
    FreshBag(NbCells(g), id);
    ClashWorks(g, near, b, b', id, p, q);
    hide FreshBags, Settled, NbCells, ClashPhase, RacingTurns, S.Held, S.AtRest, Shaped, WorksOf, CoordOfCell,
         SharedHeld, PrivateHeld, RunsTo, TwoPushes;
    assert Padded(TwoPushes(id, p, q), 0) == TwoPushes(id, p, q);
    chain := RaceRuns(g, near, ClashPhase(b, b', id, p, q), bags, id, p, q, 0);
  }

  lemma LostFromBag(g: Dims, b: Bags, id: nat, chain: S.Chain, p: Particle, q: Particle)
    requires Settled(b) && id < |b.priv| && SharedHeld(b, id) == multiset{} && p != q
    requires S.AtRest(chain) && S.Held(chain) == multiset{q}
    ensures !BagsHoldLog(g, Bags(b.priv[id := chain], b.shared), [(id as int, p), (id as int, q)])
  {
    var b' := Bags(b.priv[id := chain], b.shared);
    if Settled(b') {
      assert PrivateHeld(b', id) == multiset{q} && SharedHeld(b', id) == multiset{};
      hide Settled, PrivateHeld, SharedHeld;
      assert multiset([(id as int, p), (id as int, q)])[(id as int, p)] > 0;
      assert PrivateHeld(b', id)[p] + SharedHeld(b', id)[p] == 0;
    }
  }

  lemma ClashIsPhase(g: Dims, near: Near, colour: Colour, b: Coord, b': Coord, id: nat, p: Particle, q: Particle,
                     bags': Bags)
    requires Positive(g) && IsBlock3(g, colour, b) && IsBlock3(g, colour, b') && b != b'
    requires var phase := ClashPhase(b, b', id, p, q);
             && Shaped(g, phase) && RunsTo(g, near, phase, FreshBags(NbCells(g)), bags')
             && BagsHoldLog(g, FreshBags(NbCells(g)), [])
    ensures IsPhase(g, near, colour, ClashPhase(b, b', id, p, q), FreshBags(NbCells(g)), bags', [])
  {
    hide RunsTo, BagsHoldLog, NbCells, Shaped, FreshBags, RacingTurns, IsBlock3;
  }

  lemma ClashPhaseLoses(g: Dims, near: Near, colour: Colour, b: Coord, b': Coord, id: nat)
    requires Positive(g) && IsBlock3(g, colour, b) && IsBlock3(g, colour, b') && b != b'
    requires id < NbCells(g) && near(g, b, CoordOfCell(g, id)) && near(g, b', CoordOfCell(g, id))
    ensures !PhasesDeliver(g, near)
  {
    hide NbCells, CoordOfCell, IsBlock3, RacingTurns, Settled, RunsTo, FreshBags, S.Held, S.AtRest, Shaped, AllLogs,
         BagsHoldLog, ClashPhase, SharedHeld, IsPhase;
    var p, q := Particle(0.0, 0.0, 0.0, 0.0, 0.0, 0.0), Particle(0.5, 0.0, 0.0, 0.0, 0.0, 0.0);
    var phase, bags := ClashPhase(b, b', id, p, q), FreshBags(NbCells(g));
    var chain := ClashPhaseRuns(g, near, b, b', id, p, q);
    var bags' := Bags(bags.priv[id := chain], bags.shared);
    FreshHoldNothing(g);
    ClashLogs(b, b', id, p, q);
    LostFromBag(g, bags, id, chain, p, q);
    assert [] + AllLogs(phase.logs) == AllLogs(phase.logs);
    ClashIsPhase(g, near, colour, b, b', id, p, q, bags');
  }

  /** On any grid and for any test, all phases deliver every particle exactly when the test is free of races. */
  lemma PhasesDeliverExactly(g: Dims, near: Near)
    requires Positive(g)
    ensures PhasesDeliver(g, near) <==> RaceFree(g, near)
  {
    if RaceFree(g, near) {
      RaceFreePhases(g, near);
    } else {
      RacingPhases(g, near);
    }
  }

  lemma RaceFreePhases(g: Dims, near: Near)
    requires Positive(g) && RaceFree(g, near)
    ensures PhasesDeliver(g, near)
  {
    hide NbCells, BagsHoldLog, RunsTo, IsBlock3, Shaped, NoRepeat, AllLogs, RaceFree;
    forall colour, phase, b, b', log | IsPhase(g, near, colour, phase, b, b', log)
      ensures BagsHoldLog(g, b', log + AllLogs(phase.logs))
    {
      PhaseHolds(g, near, colour, phase, b, b', log);
    }
  }

  lemma RacingPhases(g: Dims, near: Near)
    requires Positive(g) && !RaceFree(g, near)
    ensures !PhasesDeliver(g, near)
  {
    hide NbCells, IsBlock3, PhasesDeliver, CellOfCoord, CoordOfCell;
    var colour, b, b', d :| IsBlock3(g, colour, b) && IsBlock3(g, colour, b') && InGrid(g, d)
                            && near(g, b, d) && near(g, b', d) && b != b';
    CellRoundTrip(g, d);
    ClashPhaseLoses(g, near, colour, b, b', IdOf(g, d));
  }
}
