/**
 What a step is to do, as values: the log of the particles that the sweep moves, the
 order in which the nest of loops visits the cells, and what the bags hold afterwards.
 */
module StepLog {
  import opened Deposit
  import opened Doubles
  import opened Grid
  import opened Motion
  import opened Multisets
  import opened Particles
  import opened Race
  import opened SerialBag

  const PRIVATE: nat := 0
  const SHARED: nat := 1

  /** Every particle of a cell, moved. */
  function Moves(g: Dims, c: Coord, ps: seq<Particle>, f: CornerField): (moves: Log)
    requires Positive(g) && f.Shaped()
    ensures |moves| == |ps| && forall i :: 0 <= i < |ps| ==> moves[i] == Move(g, c, ps[i], f)
  {
    seq(|ps|, i requires 0 <= i < |ps| => Move(g, c, ps[i], f))
  }

  lemma MovesInCells(g: Dims, c: Coord, ps: seq<Particle>, f: CornerField)
    requires MaskableGrid(g) && Positive(g) && f.Shaped()
    ensures InCells(g, Moves(g, c, ps, f))
  {
    forall i | 0 <= i < |ps|
      ensures 0 <= Moves(g, c, ps, f)[i].0 < NbCells(g)
    {
      MoveStaysInGrid(g, c, ps[i], f);
    }
  }

  /** Moving the first i chunks and then the next one is moving the first i + 1. */
  lemma MovesOfNextPart(g: Dims, c: Coord, parts: seq<seq<Particle>>, i: nat, f: CornerField, log: Log)
    requires Positive(g) && f.Shaped() && i < |parts|
    ensures log + Moves(g, c, Flatten(parts[..i + 1]), f)
         == log + Moves(g, c, Flatten(parts[..i]), f) + Moves(g, c, parts[i], f)
  {
    hide Move, Moves;
    FlattenNext(parts, i);
    MovesConcat(g, c, Flatten(parts[..i]), parts[i], f);
    assert log + (Moves(g, c, Flatten(parts[..i]), f) + Moves(g, c, parts[i], f))
        == log + Moves(g, c, Flatten(parts[..i]), f) + Moves(g, c, parts[i], f);
  }

  lemma FlattenNext<T>(parts: seq<seq<T>>, i: nat)
    requires i < |parts|
    ensures Flatten(parts[..i + 1]) == Flatten(parts[..i]) + parts[i]
  {
    FlattenConcat(parts[..i], [parts[i]]);
    assert parts[..i + 1] == parts[..i] + [parts[i]];
    assert Flatten([parts[i]]) == parts[i] + Flatten([]);
  }

  lemma MovesConcat(g: Dims, c: Coord, a: seq<Particle>, b: seq<Particle>, f: CornerField)
    requires Positive(g) && f.Shaped()
    ensures Moves(g, c, a + b, f) == Moves(g, c, a, f) + Moves(g, c, b, f)
  {
    hide Move;
  }

  function Scale(v: Vect, factor: Vect): Vect {
    Vect(v.x * factor.x, v.y * factor.y, v.z * factor.z)
  }

  /** The field at the corners of a cell, scaled. */
  function FieldAtCorners(g: Dims, field: seq<Vect>, factor: Vect, idCell: int): (f: CornerField)
    requires Positive(g) && |field| == NbCells(g) && 0 <= idCell < NbCells(g)
    ensures f.Shaped()
  {
    CornersInGrid(g, idCell);
    var indices := IndicesOfCorners(g, idCell);
    CornerField(seq(NB_CORNERS, k requires 0 <= k < NB_CORNERS => Scale(field[indices[k]], factor).x),
                seq(NB_CORNERS, k requires 0 <= k < NB_CORNERS => Scale(field[indices[k]], factor).y),
                seq(NB_CORNERS, k requires 0 <= k < NB_CORNERS => Scale(field[indices[k]], factor).z))
  }

  lemma CornersInGrid(g: Dims, idCell: int)
    requires Positive(g) && 0 <= idCell < NbCells(g)
    ensures forall k :: 0 <= k < NB_CORNERS ==> 0 <= IndicesOfCorners(g, idCell)[k] < NbCells(g)
  {
    forall k | 0 <= k < NB_CORNERS
      ensures 0 <= IndicesOfCorners(g, idCell)[k] < NbCells(g)
    {
      ScatterTargetGathersSource(g, idCell, k);
    }
  }

  // ----- the cells visited by the sweep

  ghost predicate AllInGrid(g: Dims, order: seq<Coord>) {
    forall i :: 0 <= i < |order| ==> InGrid(g, order[i])
  }

  ghost predicate NoRepeat(order: seq<Coord>) {
    forall i, j :: 0 <= i < j < |order| ==> order[i] != order[j]
  }

  function IdOf(g: Dims, co: Coord): (id: int)
    requires Positive(g) && InGrid(g, co)
    ensures 0 <= id < NbCells(g) && CoordOfCell(g, id) == co
  {
    CellRoundTrip(g, co);
    CellOfCoord(g, co.iX, co.iY, co.iZ)
  }

  lemma RowMajor(g: Dims, co: Coord)
    requires Positive(g) && InGrid(g, co)
    ensures (co.iX * g.y + co.iY) * g.z + co.iZ == IdOf(g, co)
  {
  }

  /** The log of a sweep that visits the given cells in the given order. */
  function LogOf(g: Dims, order: seq<Coord>, init: seq<seq<Particle>>, field: seq<Vect>, factor: Vect): Log
    requires Positive(g) && AllInGrid(g, order) && |init| == |field| == NbCells(g)
  {
    if order == [] then []
    else
      var co := order[|order| - 1];
      LogOf(g, order[..|order| - 1], init, field, factor)
        + Moves(g, co, init[IdOf(g, co)], FieldAtCorners(g, field, factor, IdOf(g, co)))
  }

  /** The current bags still hold `init`, except that those of the visited cells are empty. */
  ghost predicate Remaining(g: Dims, cur: seq<seq<Particle>>, order: seq<Coord>, init: seq<seq<Particle>>)
    requires Positive(g) && |cur| == |init| == NbCells(g)
  {
    forall co :: InGrid(g, co) ==> cur[IdOf(g, co)] == if co in order then [] else init[IdOf(g, co)]
  }

  lemma VisitedIsEmpty(g: Dims, cur: seq<seq<Particle>>, order: seq<Coord>, init: seq<seq<Particle>>, c: nat)
    requires Positive(g) && |cur| == |init| == NbCells(g) && c < NbCells(g) && Remaining(g, cur, order, init)
    requires forall co :: co in order <==> InGrid(g, co)
    ensures cur[c] == []
  {
    CoordRoundTrip(g, c);
    assert IdOf(g, CoordOfCell(g, c)) == c;
  }

  lemma RemainingStep(g: Dims, cur: seq<seq<Particle>>, order: seq<Coord>, init: seq<seq<Particle>>, co: Coord)
    requires Positive(g) && |cur| == |init| == NbCells(g) && InGrid(g, co)
    requires Remaining(g, cur, order, init)
    ensures Remaining(g, cur[IdOf(g, co) := []], order + [co], init)
  {
    hide NbCells, CellOfCoord, CoordOfCell;
    forall other | InGrid(g, other)
      ensures cur[IdOf(g, co) := []][IdOf(g, other)] == if other in order + [co] then [] else init[IdOf(g, other)]
    {
      assert CoordOfCell(g, IdOf(g, other)) == other && CoordOfCell(g, IdOf(g, co)) == co;
    }
  }

  lemma LogStep(g: Dims, order: seq<Coord>, co: Coord, init: seq<seq<Particle>>, field: seq<Vect>, factor: Vect)
    requires Positive(g) && AllInGrid(g, order) && InGrid(g, co) && |init| == |field| == NbCells(g)
    ensures AllInGrid(g, order + [co])
    ensures LogOf(g, order + [co], init, field, factor) == LogOf(g, order, init, field, factor)
              + Moves(g, co, init[IdOf(g, co)], FieldAtCorners(g, field, factor, IdOf(g, co)))
  {
    assert (order + [co])[..|order|] == order;
  }

  predicate InBlock(b: Coord, co: Coord) {
    b.iX <= co.iX < b.iX + BLOCK && b.iY <= co.iY < b.iY + BLOCK && b.iZ <= co.iZ < b.iZ + BLOCK
  }

  predicate OfColour(c: Colour, co: Coord) {
    co.iX / BLOCK % 2 == c.x && co.iY / BLOCK % 2 == c.y && co.iZ / BLOCK % 2 == c.z
  }

  /** The cells of block b that come before (iX, iY, iZ) in its three loops. */
  predicate BlockDone(b: Coord, iX: int, iY: int, iZ: int, co: Coord) {
    InBlock(b, co) && (co.iX < iX || (co.iX == iX && (co.iY < iY || (co.iY == iY && co.iZ < iZ))))
  }

  /** The cells of colour c in the blocks that come before (bX, bY, bZ) in the three loops over blocks. */
  predicate ColourDone(g: Dims, c: Colour, bX: int, bY: int, bZ: int, co: Coord) {
    && InGrid(g, co) && OfColour(c, co)
    && (co.iX < bX || (co.iX < bX + BLOCK && (co.iY < bY || (co.iY < bY + BLOCK && co.iZ < bZ))))
  }

  /** The cells of the colours that come before (cX, cY, cZ). */
  predicate ColoursDone(g: Dims, cX: int, cY: int, cZ: int, co: Coord) {
    && InGrid(g, co)
    && (var x, y, z := co.iX / BLOCK % 2, co.iY / BLOCK % 2, co.iZ / BLOCK % 2;
        x < cX || (x == cX && (y < cY || (y == cY && z < cZ))))
  }

  lemma EvenGrid(g: Dims)
    requires MaskableGrid(g)
    ensures EvenDims(g)
  {
    PowerOfTwoIsEven(g.x);
    PowerOfTwoIsEven(g.y);
    PowerOfTwoIsEven(g.z);
  }

  /** order' is order followed by the cells of `more`, none of them visited before. */
  ghost predicate Visits(order': seq<Coord>, order: seq<Coord>, more: Coord -> bool) {
    && NoRepeat(order')
    && forall co :: co in order' <==> co in order || more(co)
  }

  // ----- the order of the visits does not matter

  /** The cells in row-major order. */
  function AllCells(g: Dims): (cells: seq<Coord>)
    requires Positive(g) && NbCells(g) >= 0
    ensures |cells| == NbCells(g) && AllInGrid(g, cells)
    ensures forall id :: 0 <= id < NbCells(g) ==> cells[id] == CoordOfCell(g, id)
  {
    var cells := seq(NbCells(g), id requires 0 <= id < NbCells(g) => CoordOfCell(g, id));
    assert AllInGrid(g, cells) by {
      forall id | 0 <= id < NbCells(g)
        ensures InGrid(g, cells[id])
      {
        CoordRoundTrip(g, id);
      }
    }
    cells
  }

  lemma AllCellsOnce(g: Dims)
    requires Positive(g) && NbCells(g) >= 0
    ensures NoRepeat(AllCells(g))
    ensures forall co :: co in AllCells(g) <==> InGrid(g, co)
  {
    forall i, j | 0 <= i < j < NbCells(g)
      ensures AllCells(g)[i] != AllCells(g)[j]
    {
      CoordRoundTrip(g, i);
      CoordRoundTrip(g, j);
    }
    forall co | InGrid(g, co)
      ensures co in AllCells(g)
    {
      assert AllCells(g)[IdOf(g, co)] == co;
    }
  }

  lemma {:induction false} CountNoRepeat(order: seq<Coord>, co: Coord)
    requires NoRepeat(order)
    ensures multiset(order)[co] == if co in order then 1 else 0
  {
    if order != [] {
      var n := |order| - 1;
      assert order == order[..n] + [order[n]];
      CountNoRepeat(order[..n], co);
    }
  }

  lemma SameCells(a: seq<Coord>, b: seq<Coord>)
    requires NoRepeat(a) && NoRepeat(b) && forall co :: co in a <==> co in b
    ensures multiset(a) == multiset(b)
  {
    forall co
      ensures multiset(a)[co] == multiset(b)[co]
    {
      CountNoRepeat(a, co);
      CountNoRepeat(b, co);
    }
  }

  lemma Regroup<T>(a: seq<T>, b: seq<T>, c: seq<T>)
    ensures a + (b + c) == a + b + c
  {
  }

  lemma {:induction false} LogSplit(g: Dims, a: seq<Coord>, b: seq<Coord>, init: seq<seq<Particle>>,
                                    field: seq<Vect>, factor: Vect)
    requires Positive(g) && AllInGrid(g, a) && AllInGrid(g, b) && |init| == |field| == NbCells(g)
    ensures AllInGrid(g, a + b)
    ensures LogOf(g, a + b, init, field, factor) == LogOf(g, a, init, field, factor) + LogOf(g, b, init, field, factor)
  {
    hide IdOf, Moves, FieldAtCorners, NbCells, InGrid;
    if b == [] {
      assert a + b == a;
    } else {
      var b', co := b[..|b| - 1], b[|b| - 1];
      LogSplit(g, a, b', init, field, factor);
      assert b == b' + [co];
      Regroup(a, b', [co]);
      hide LogOf, AllInGrid;
      LogStep(g, b', co, init, field, factor);
      LogStep(g, a + b', co, init, field, factor);
      Regroup(LogOf(g, a, init, field, factor), LogOf(g, b', init, field, factor),
              Moves(g, co, init[IdOf(g, co)], FieldAtCorners(g, field, factor, IdOf(g, co))));
    }
  }

  lemma LogOneOut(g: Dims, a: seq<Coord>, co: Coord, b: seq<Coord>, init: seq<seq<Particle>>, field: seq<Vect>,
                  factor: Vect)
    requires Positive(g) && AllInGrid(g, a) && AllInGrid(g, b) && InGrid(g, co) && |init| == |field| == NbCells(g)
    ensures AllInGrid(g, a + [co] + b) && AllInGrid(g, a + b)
    ensures multiset(LogOf(g, a + [co] + b, init, field, factor))
         == multiset(LogOf(g, a + b, init, field, factor))
            + multiset(Moves(g, co, init[IdOf(g, co)], FieldAtCorners(g, field, factor, IdOf(g, co))))
  {
    hide IdOf, Moves, FieldAtCorners, NbCells, InGrid;
    LogSplit(g, a + [co], b, init, field, factor);
    LogStep(g, a, co, init, field, factor);
    LogSplit(g, a, b, init, field, factor);
  }

  /** Two orders over the same cells move the same particles to the same places. */
  lemma {:induction false} LogIsOrderFree(g: Dims, a: seq<Coord>, b: seq<Coord>, init: seq<seq<Particle>>,
                                          field: seq<Vect>, factor: Vect)
    requires Positive(g) && AllInGrid(g, a) && AllInGrid(g, b) && |init| == |field| == NbCells(g)
             && multiset(a) == multiset(b)
    ensures multiset(LogOf(g, a, init, field, factor)) == multiset(LogOf(g, b, init, field, factor))
    decreases |a|
  {
    hide LogOf, IdOf, Moves, FieldAtCorners, NbCells, InGrid;
    if a == [] {
      assert |multiset(b)| == 0;
      assert b == [];
    } else {
      var n := |a| - 1;
      var i := Match(a, b);
      LogIsOrderFree(g, a[..n], b[..i] + b[i + 1..], init, field, factor);
      LogOneOut(g, b[..i], b[i], b[i + 1..], init, field, factor);
      LogOneOut(g, a[..n], a[n], [], init, field, factor);
      assert a == a[..n] + [a[n]] + [] && a[..n] + [] == a[..n];
    }
  }

  /** What a complete sweep leaves, in terms of the row-major order. */
  lemma SweepLog(g: Dims, order: seq<Coord>, init: seq<seq<Particle>>, field: seq<Vect>, factor: Vect)
    requires Positive(g) && MaskableGrid(g) && NbCells(g) >= 0 && AllInGrid(g, order) && |init| == |field| == NbCells(g)
    requires NoRepeat(order) && forall co :: co in order <==> InGrid(g, co)
    ensures var log, rowMajor := LogOf(g, order, init, field, factor), LogOf(g, AllCells(g), init, field, factor);
            && multiset(log) == multiset(rowMajor) && InCells(g, log) && InCells(g, rowMajor)
            && forall c :: 0 <= c < NbCells(g) ==> Gathered(g, log, c, NB_CORNERS) == Scattered(g, rowMajor, c)
  {
    AllCellsOnce(g);
    SameCells(order, AllCells(g));
    hide AllCells, NbCells, NoRepeat, InGrid;
    LogIsOrderFree(g, order, AllCells(g), init, field, factor);
    LogInCells(g, order, init, field, factor);
    LogInCells(g, AllCells(g), init, field, factor);
    var log, rowMajor := LogOf(g, order, init, field, factor), LogOf(g, AllCells(g), init, field, factor);
    forall c | 0 <= c < NbCells(g)
      ensures Gathered(g, log, c, NB_CORNERS) == Scattered(g, rowMajor, c)
    {
      GatherEqualsScatter(g, log, c);
      ScatterIsOrderFree(g, log, rowMajor, c);
    }
  }

  lemma {:induction false} LogInCells(g: Dims, order: seq<Coord>, init: seq<seq<Particle>>, field: seq<Vect>,
                                      factor: Vect)
    requires Positive(g) && MaskableGrid(g) && AllInGrid(g, order) && |init| == |field| == NbCells(g)
    ensures InCells(g, LogOf(g, order, init, field, factor))
  {
    if order != [] {
      var co := order[|order| - 1];
      LogInCells(g, order[..|order| - 1], init, field, factor);
      var f := FieldAtCorners(g, field, factor, IdOf(g, co));
      MovesInCells(g, co, init[IdOf(g, co)], f);
      hide IdOf, FieldAtCorners, NbCells, MaskableGrid, Moves;
    }
  }

  /** order' is order followed by the cells of colour c that come before block (bX, bY, bZ). */
  ghost predicate VisitsColour(g: Dims, c: Colour, bX: int, bY: int, bZ: int, order': seq<Coord>, order: seq<Coord>) {
    && NoRepeat(order')
    && forall co :: co in order' <==> co in order || ColourDone(g, c, bX, bY, bZ, co)
  }

  /** The origin of a block of colour c, or the first origin past the end of the axis. */
  predicate BlockOrigin(n: int, c: int, b: int) {
    0 <= c < 2 && 0 <= b && b % 4 == c * BLOCK && n % 2 == 0
  }

  lemma FirstOrigin(n: int, c: int)
    requires 0 <= c < 2 && n % 2 == 0
    ensures BlockOrigin(n, c, c * BLOCK)
  {
  }

  lemma NextOrigin(n: int, c: int, b: int)
    requires BlockOrigin(n, c, b)
    ensures BlockOrigin(n, c, b + 2 * BLOCK)
  {
  }

  lemma AxisOfBlock(n: int, c: int, b: int, i: int)
    requires BlockOrigin(n, c, b)
    ensures b <= i < b + BLOCK ==> i / BLOCK % 2 == c && (b < n ==> 0 <= i < n)
    ensures i >= 0 && i / BLOCK % 2 == c ==> (i < b + 4 <==> i < b + BLOCK)
    ensures i >= 0 && i / BLOCK % 2 == c && i < c * BLOCK ==> false
  {
  }

  lemma BlockIsNew(g: Dims, c: Colour, b: Coord, order': seq<Coord>, order: seq<Coord>)
    requires VisitsColour(g, c, b.iX, b.iY, b.iZ, order', order)
    requires BlockOrigin(g.x, c.x, b.iX) && BlockOrigin(g.y, c.y, b.iY) && BlockOrigin(g.z, c.z, b.iZ)
    requires b.iX < g.x && b.iY < g.y && b.iZ < g.z
    requires forall co :: co in order ==> !OfColour(c, co)
    ensures forall co :: InBlock(b, co) ==> InGrid(g, co) && co !in order'
  {
    forall co | InBlock(b, co)
      ensures InGrid(g, co) && co !in order'
    {
      AxisOfBlock(g.x, c.x, b.iX, co.iX);
      AxisOfBlock(g.y, c.y, b.iY, co.iY);
      AxisOfBlock(g.z, c.z, b.iZ, co.iZ);
      hide BlockOrigin;
      assert OfColour(c, co);
      assert co in order' <==> co in order || ColourDone(g, c, b.iX, b.iY, b.iZ, co);
    }
  }

  lemma AfterBlock(g: Dims, c: Colour, b: Coord, order'': seq<Coord>, order': seq<Coord>, order: seq<Coord>)
    requires VisitsColour(g, c, b.iX, b.iY, b.iZ, order', order)
    requires Visits(order'', order', co => InBlock(b, co))
    requires BlockOrigin(g.x, c.x, b.iX) && BlockOrigin(g.y, c.y, b.iY) && BlockOrigin(g.z, c.z, b.iZ)
    requires b.iX < g.x && b.iY < g.y && b.iZ < g.z
    ensures VisitsColour(g, c, b.iX, b.iY, b.iZ + 4, order'', order)
  {
    forall co
      ensures co in order'' <==> co in order || ColourDone(g, c, b.iX, b.iY, b.iZ + 4, co)
    {
      AxisOfBlock(g.x, c.x, b.iX, co.iX);
      AxisOfBlock(g.y, c.y, b.iY, co.iY);
      AxisOfBlock(g.z, c.z, b.iZ, co.iZ);
      hide BlockOrigin;
      assert co in order'' <==> co in order' || InBlock(b, co);
      assert co in order' <==> co in order || ColourDone(g, c, b.iX, b.iY, b.iZ, co);
    }
  }

  lemma AfterRow(g: Dims, c: Colour, bX: int, bY: int, bZ: int, order': seq<Coord>, order: seq<Coord>)
    requires VisitsColour(g, c, bX, bY, bZ, order', order)
    requires BlockOrigin(g.y, c.y, bY) && bZ >= g.z
    ensures VisitsColour(g, c, bX, bY + 4, c.z * BLOCK, order', order)
  {
    forall co
      ensures co in order' <==> co in order || ColourDone(g, c, bX, bY + 4, c.z * BLOCK, co)
    {
      assert co in order' <==> co in order || ColourDone(g, c, bX, bY, bZ, co);
    }
  }

  lemma AfterPlane(g: Dims, c: Colour, bX: int, bY: int, order': seq<Coord>, order: seq<Coord>)
    requires VisitsColour(g, c, bX, bY, c.z * BLOCK, order', order)
    requires BlockOrigin(g.x, c.x, bX) && BlockOrigin(g.y, c.y, bY) && bY >= g.y
    ensures VisitsColour(g, c, bX + 4, c.y * BLOCK, c.z * BLOCK, order', order)
  {
    forall co
      ensures co in order' <==> co in order || ColourDone(g, c, bX + 4, c.y * BLOCK, c.z * BLOCK, co)
    {
      assert co in order' <==> co in order || ColourDone(g, c, bX, bY, c.z * BLOCK, co);
    }
  }

  lemma AfterColour(g: Dims, c: Colour, bX: int, order': seq<Coord>, order: seq<Coord>)
    requires VisitsColour(g, c, bX, c.y * BLOCK, c.z * BLOCK, order', order) && bX >= g.x
    ensures Visits(order', order, co => InGrid(g, co) && OfColour(c, co))
  {
  }

  lemma VisitedOnce(g: Dims, c: Colour, b: Coord, order': seq<Coord>, order: seq<Coord>)
    requires VisitsColour(g, c, b.iX, b.iY, b.iZ, order', order)
    ensures NoRepeat(order')
  {
  }

  lemma BeforeColour(g: Dims, c: Colour, order: seq<Coord>)
    requires NoRepeat(order) && 0 <= c.x < 2 && 0 <= c.y < 2 && 0 <= c.z < 2
    ensures VisitsColour(g, c, c.x * BLOCK, c.y * BLOCK, c.z * BLOCK, order, order)
  {
  }

  function Sum(column: seq<real>): real {
    if column == [] then 0.0 else Sum(column[..|column| - 1]) + column[|column| - 1]
  }

  lemma {:induction false} SumOfZeros(column: seq<real>)
    requires forall t :: 0 <= t < |column| ==> column[t] == 0.0
    ensures Sum(column) == 0.0
  {
    if column != [] {
      SumOfZeros(column[..|column| - 1]);
    }
  }

  lemma SumNext(column: seq<real>, n: nat)
    requires n < |column|
    ensures Sum(column[..n + 1]) == Sum(column[..n]) + column[n]
  {
    assert column[..n + 1][..n] == column[..n];
  }

  lemma {:induction false} SumAfterAdd(column: seq<real>, t: nat, delta: real)
    requires t < |column|
    ensures Sum(column[t := column[t] + delta]) == Sum(column) + delta
  {
    var n := |column| - 1;
    if t == n {
      assert column[t := column[t] + delta][..n] == column[..n];
    } else {
      assert column[t := column[t] + delta][..n] == column[..n][t := column[t] + delta];
      SumAfterAdd(column[..n], t, delta);
    }
  }

  function MultisetsOf<T>(parts: seq<seq<T>>): (sets: seq<multiset<T>>)
    ensures |sets| == |parts| && forall i :: 0 <= i < |parts| ==> sets[i] == multiset(parts[i])
  {
    seq(|parts|, i requires 0 <= i < |parts| => multiset(parts[i]))
  }

  /** What cell c holds in its two next bags; the holdings of the n current bags come first. */
  ghost function NextHeld(n: nat, holdings: seq<multiset<Particle>>): (held: seq<multiset<Particle>>)
    requires |holdings| == 3 * n
    ensures |held| == n
    ensures forall c :: 0 <= c < n ==> held[c] == holdings[n + 2 * c + PRIVATE] + holdings[n + 2 * c + SHARED]
  {
    seq(n, c requires 0 <= c < n => holdings[n + 2 * c + PRIVATE] + holdings[n + 2 * c + SHARED])
  }

  lemma NextHeldUpdate(n: nat, h: seq<multiset<Particle>>, d: nat, kind: nat, p: Particle)
    requires |h| == 3 * n && d < n && kind < 2
    ensures var k := n + 2 * d + kind;
            NextHeld(n, h[k := h[k] + multiset{p}]) == NextHeld(n, h)[d := NextHeld(n, h)[d] + multiset{p}]
  {
    var k := n + 2 * d + kind;
    var before, after := NextHeld(n, h), NextHeld(n, h[k := h[k] + multiset{p}]);
    hide NextHeld;
    assert after[d] == before[d] + multiset{p};
    forall c | 0 <= c < n && c != d
      ensures after[c] == before[c]
    {
      assert n + 2 * c + PRIVATE != k && n + 2 * c + SHARED != k;
    }
  }

  /** held[c] is the multiset of the logged particles whose destination is c. */
  ghost predicate HoldsLog(held: seq<multiset<Particle>>, log: Log) {
    forall c, p :: 0 <= c < |held| ==> held[c][p] == multiset(log)[(c, p)]
  }

  lemma HoldsAt(held: seq<multiset<Particle>>, log: Log, c: nat, p: Particle)
    requires HoldsLog(held, log) && c < |held|
    ensures held[c][p] == multiset(log)[(c, p)]
  {
  }

  lemma EmptyAndTwo<T>(a: seq<T>, b: seq<T>, c: seq<T>)
    requires a == []
    ensures multiset(a + b + c) == multiset(b) + multiset(c)
  {
    assert a + b + c == b + c;
  }

  lemma NothingHeldYet(n: nat, h: seq<multiset<Particle>>)
    requires |h| == 3 * n && forall i :: n <= i < 3 * n ==> h[i] == multiset{}
    ensures HoldsLog(NextHeld(n, h), [])
  {
  }

  lemma HoldsOneMore(n: nat, h: seq<multiset<Particle>>, h': seq<multiset<Particle>>, log: Log, d: nat, kind: nat,
                     p: Particle)
    requires |h| == 3 * n && d < n && kind < 2 && HoldsLog(NextHeld(n, h), log)
    requires h' == h[n + 2 * d + kind := h[n + 2 * d + kind] + multiset{p}]
    ensures HoldsLog(NextHeld(n, h'), log + [(d, p)])
  {
    NextHeldUpdate(n, h, d, kind, p);
    var held := NextHeld(n, h);
    var held' := held[d := held[d] + multiset{p}];
    forall c, q | 0 <= c < |held'|
      ensures held'[c][q] == multiset(log + [(d, p)])[(c, q)]
    {
      assert held[c][q] == multiset(log)[(c, q)];
    }
  }

  lemma AppendNext<T>(a: seq<T>, b: seq<T>, i: nat)
    requires i < |b|
    ensures a + b[..i + 1] == a + b[..i] + [b[i]]
  {
  }

  lemma RowMajorSize(g: Dims, init: seq<seq<Particle>>, field: seq<Vect>, factor: Vect)
    requires Positive(g) && NbCells(g) == |init| == |field|
    ensures |LogOf(g, AllCells(g), init, field, factor)| == TotalSize(init)
  {
    SizeOfLog(g, |init|, init, field, factor);
    assert AllCells(g)[..|init|] == AllCells(g) && init[..|init|] == init;
  }

  // ----- counting

  function TotalSize(parts: seq<seq<Particle>>): nat {
    if parts == [] then 0 else TotalSize(parts[..|parts| - 1]) + |parts[|parts| - 1]|
  }

  function TotalHeld(held: seq<multiset<Particle>>): nat {
    if held == [] then 0 else TotalHeld(held[..|held| - 1]) + |held[|held| - 1]|
  }

  lemma {:induction false} SizesOfMultisets(parts: seq<seq<Particle>>)
    ensures TotalHeld(MultisetsOf(parts)) == TotalSize(parts)
  {
    if parts != [] {
      var n := |parts| - 1;
      SizesOfMultisets(parts[..n]);
      assert MultisetsOf(parts)[..n] == MultisetsOf(parts[..n]);
    }
  }

  lemma {:induction false} TotalHeldWithout(held: seq<multiset<Particle>>, d: nat, p: Particle)
    requires d < |held| && p in held[d]
    ensures TotalHeld(held[d := held[d] - multiset{p}]) == TotalHeld(held) - 1
  {
    var n := |held| - 1;
    var held' := held[d := held[d] - multiset{p}];
    if d == n {
      assert held'[..n] == held[..n];
    } else {
      assert held'[..n] == held[..n][d := held[d] - multiset{p}];
      TotalHeldWithout(held[..n], d, p);
    }
  }

  lemma HoldsOneLess(held: seq<multiset<Particle>>, log: Log, d: nat, p: Particle)
    requires HoldsLog(held, log + [(d, p)]) && d < |held|
    ensures p in held[d] && HoldsLog(held[d := held[d] - multiset{p}], log)
  {
    var held' := held[d := held[d] - multiset{p}];
    assert held[d][p] == multiset(log + [(d, p)])[(d, p)];
    forall c, q | 0 <= c < |held'|
      ensures held'[c][q] == multiset(log)[(c, q)]
    {
      assert held[c][q] == multiset(log + [(d, p)])[(c, q)];
    }
  }

  /** Every logged particle is held in exactly one place. */
  lemma {:induction false} HeldSize(held: seq<multiset<Particle>>, log: Log)
    requires HoldsLog(held, log) && forall i :: 0 <= i < |log| ==> 0 <= log[i].0 < |held|
    ensures TotalHeld(held) == |log|
    decreases |log|
  {
    if log == [] {
      NothingHeld(held);
    } else {
      var n := |log| - 1;
      var (d, p) := log[n];
      assert log == log[..n] + [(d, p)];
      HoldsOneLess(held, log[..n], d, p);
      HeldSize(held[d := held[d] - multiset{p}], log[..n]);
      TotalHeldWithout(held, d, p);
    }
  }

  lemma {:induction false} NothingHeld(held: seq<multiset<Particle>>)
    requires HoldsLog(held, [])
    ensures TotalHeld(held) == 0
  {
    if held != [] {
      var n := |held| - 1;
      forall c, p | 0 <= c < n
        ensures held[..n][c][p] == multiset([])[(c, p)]
      {
        assert held[c][p] == multiset([])[(c, p)];
      }
      NothingHeld(held[..n]);
      assert forall p :: held[n][p] == multiset([])[(n, p)];
      assert held[n] == multiset{};
    }
  }

  lemma {:induction false} SizeOfLog(g: Dims, n: nat, init: seq<seq<Particle>>, field: seq<Vect>, factor: Vect)
    requires Positive(g) && n <= NbCells(g) == |init| == |field|
    ensures AllInGrid(g, AllCells(g)[..n])
    ensures |LogOf(g, AllCells(g)[..n], init, field, factor)| == TotalSize(init[..n])
  {
    hide NbCells, InGrid, AllCells, IdOf, Moves, FieldAtCorners;
    if n > 0 {
      SizeOfLog(g, n - 1, init, field, factor);
      CellNumbered(g, n - 1);
      assert init[..n][..n - 1] == init[..n - 1];
      assert AllCells(g)[..n] == AllCells(g)[..n - 1] + [AllCells(g)[n - 1]];
      hide LogOf;
      LogStep(g, AllCells(g)[..n - 1], AllCells(g)[n - 1], init, field, factor);
    }
  }

  lemma CellNumbered(g: Dims, id: nat)
    requires Positive(g) && id < NbCells(g)
    ensures InGrid(g, AllCells(g)[id]) && IdOf(g, AllCells(g)[id]) == id
  {
    CoordRoundTrip(g, id);
  }

  lemma {:induction false} SumIsTotalCharge(g: Dims, log: Log, deposit: seq<real>, n: nat)
    requires Positive(g) && InCells(g, log) && n <= |deposit|
    requires forall c :: 0 <= c < n ==> deposit[c] == Scattered(g, log, c)
    ensures Sum(deposit[..n]) == TotalCharge(g, log, n)
  {
    if n > 0 {
      SumIsTotalCharge(g, log, deposit, n - 1);
      assert deposit[..n][..n - 1] == deposit[..n - 1];
    }
  }
}
