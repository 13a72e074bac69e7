/**
 Which bag a moved particle is pushed to. Within one colour, all the blocks are
 swept in parallel; a block pushes serially, without synchronisation, to the
 PRIVATE bags of the cells it believes to be its own neighbourhood.
 */
module Race {
  import opened Grid

  const BLOCK := 2
  const HALF_BLOCK := 1

  /** The origins, along one axis, of the blocks of colour c: c*block, c*block + 2*block, ... */
  predicate IsBlock(grid: int, colour: int, b: int) {
    0 <= colour < 2 && 0 <= b < grid && b % (2 * BLOCK) == colour * BLOCK
  }

  datatype Colour = Colour(x: int, y: int, z: int)

  predicate IsBlock3(g: Dims, colour: Colour, b: Coord) {
    IsBlock(g.x, colour.x, b.iX) && IsBlock(g.y, colour.y, b.iY) && IsBlock(g.z, colour.z, b.iZ)
  }

  /** The test along one axis: less than half a block away from the block, periodically. */
  predicate AxisNear(grid: int, b: int, i: int) {
    || (b - HALF_BLOCK <= i && i < b + BLOCK + HALF_BLOCK)
    || (b == 0 && i >= grid - HALF_BLOCK)
    || (b == grid - BLOCK && i < HALF_BLOCK)
  }

  /** The conjunction of the three per-axis tests. */
  predicate NearOnAllAxes(g: Dims, b: Coord, co: Coord) {
    AxisNear(g.x, b.iX, co.iX) && AxisNear(g.y, b.iY, co.iY) && AxisNear(g.z, b.iZ, co.iZ)
  }

  /** The formula as printed, parenthesised as C parses it: && binds tighter than ||. */
  predicate NearAsPrinted(g: Dims, b: Coord, co: Coord) {
    || (co.iX >= b.iX - HALF_BLOCK && co.iX < b.iX + BLOCK + HALF_BLOCK)
    || (b.iX == 0 && co.iX >= g.x - HALF_BLOCK)
    || (b.iX == g.x - BLOCK && co.iX < HALF_BLOCK && (co.iY >= b.iY - HALF_BLOCK && co.iY < b.iY + BLOCK + HALF_BLOCK))
    || (b.iY == 0 && co.iY >= g.y - HALF_BLOCK)
    || (b.iY == g.y - BLOCK && co.iY < HALF_BLOCK && (co.iZ >= b.iZ - HALF_BLOCK && co.iZ < b.iZ + BLOCK + HALF_BLOCK))
    || (b.iZ == 0 && co.iZ >= g.z - HALF_BLOCK)
    || (b.iZ == g.z - BLOCK && co.iZ < HALF_BLOCK)
  }

  /** No bag is pushed to serially by two blocks of one colour. */
  ghost predicate RaceFree(g: Dims, near: (Dims, Coord, Coord) -> bool) {
    forall colour, b, b', co ::
      IsBlock3(g, colour, b) && IsBlock3(g, colour, b') && InGrid(g, co) && near(g, b, co) && near(g, b', co) ==>
            b == b'
  }

  predicate EvenDims(g: Dims) {
    g.x >= 2 && g.y >= 2 && g.z >= 2 && g.x % 2 == 0 && g.y % 2 == 0 && g.z % 2 == 0
  }

  /** An axis on which two blocks of one colour are never both near one cell. */
  predicate AxisSafe(grid: int) {
    grid == 2 || grid % 4 == 0
  }

  lemma AxisNearUnique(grid: int, colour: int, b: int, b': int, i: int)
    requires grid >= 2 && grid % 2 == 0 && AxisSafe(grid)
    requires IsBlock(grid, colour, b) && IsBlock(grid, colour, b') && 0 <= i < grid
    requires AxisNear(grid, b, i) && AxisNear(grid, b', i)
    ensures b == b'
  {
  }

  lemma SafeAxesRaceFree(g: Dims)
    requires EvenDims(g) && AxisSafe(g.x) && AxisSafe(g.y) && AxisSafe(g.z)
    ensures RaceFree(g, NearOnAllAxes)
  {
    hide AxisNear, AxisSafe, IsBlock;
    forall colour, b, b', co | IsBlock3(g, colour, b) && IsBlock3(g, colour, b') && InGrid(g, co)
                               && NearOnAllAxes(g, b, co) && NearOnAllAxes(g, b', co)
      ensures b == b'
    {
      AxisNearUnique(g.x, colour.x, b.iX, b'.iX, co.iX);
      AxisNearUnique(g.y, colour.y, b.iY, b'.iY, co.iY);
      AxisNearUnique(g.z, colour.z, b.iZ, b'.iZ, co.iZ);
    }
  }

  lemma OriginIsNear(grid: int)
    requires grid >= 2
    ensures IsBlock(grid, 0, 0) && AxisNear(grid, 0, 0)
  {
  }

  /** On an axis that is not safe the last cell is near the last block and, periodically, the first. */
  lemma LastCellIsShared(grid: int)
    requires grid >= 2 && grid % 2 == 0 && !AxisSafe(grid)
    ensures IsBlock(grid, 0, grid - 2) && grid - 2 != 0
    ensures AxisNear(grid, 0, grid - 1) && AxisNear(grid, grid - 2, grid - 1)
  {
  }

  /** A cell near the first block of the first colour and near another one is a race. */
  lemma SharedCell(g: Dims, b: Coord, co: Coord)
    requires IsBlock3(g, Colour(0, 0, 0), Coord(0, 0, 0)) && IsBlock3(g, Colour(0, 0, 0), b) && b != Coord(0, 0, 0)
    requires InGrid(g, co) && NearOnAllAxes(g, Coord(0, 0, 0), co) && NearOnAllAxes(g, b, co)
    ensures !RaceFree(g, NearOnAllAxes)
  {
  }

  lemma UnsafeAxisRaces(g: Dims)
    requires EvenDims(g) && !(AxisSafe(g.x) && AxisSafe(g.y) && AxisSafe(g.z))
    ensures !RaceFree(g, NearOnAllAxes)
  {
    hide RaceFree, AxisNear, AxisSafe, IsBlock;
    OriginIsNear(g.x);
    OriginIsNear(g.y);
    OriginIsNear(g.z);
    if !AxisSafe(g.x) {
      LastCellIsShared(g.x);
      SharedCell(g, Coord(g.x - 2, 0, 0), Coord(g.x - 1, 0, 0));
    } else if !AxisSafe(g.y) {
      LastCellIsShared(g.y);
      SharedCell(g, Coord(0, g.y - 2, 0), Coord(0, g.y - 1, 0));
    } else {
      LastCellIsShared(g.z);
      SharedCell(g, Coord(0, 0, g.z - 2), Coord(0, 0, g.z - 1));
    }
  }

  /** The conjunction is free of races exactly when every size is 2 or a multiple of 4. */
  lemma ConjunctionRaceFree(g: Dims)
    requires EvenDims(g)
    ensures RaceFree(g, NearOnAllAxes) <==> AxisSafe(g.x) && AxisSafe(g.y) && AxisSafe(g.z)
  {
    hide RaceFree, AxisSafe;
    if AxisSafe(g.x) && AxisSafe(g.y) && AxisSafe(g.z) {
      SafeAxesRaceFree(g);
    } else {
      UnsafeAxisRaces(g);
    }
  }

  /** In particular for the power-of-two grids that the masking of coordinates needs. */
  lemma ConjunctionRaceFreeOnPowersOfTwo(kx: nat, ky: nat, kz: nat)
    requires kx >= 1 && ky >= 1 && kz >= 1
    ensures RaceFree(Dims(Pow2(kx), Pow2(ky), Pow2(kz)), NearOnAllAxes)
  {
    Pow2IsEven(kx);
    Pow2IsEven(ky);
    Pow2IsEven(kz);
    ConjunctionRaceFree(Dims(Pow2(kx), Pow2(ky), Pow2(kz)));
  }

  /** The printed formula is free of races exactly when no axis has two blocks of one colour. */
  lemma PrintedFormulaRaceFree(g: Dims)
    requires EvenDims(g)
    ensures RaceFree(g, NearAsPrinted) <==> g.x <= 4 && g.y <= 4 && g.z <= 4
  {
    if g.x <= 4 && g.y <= 4 && g.z <= 4 {
      forall colour, b, b', co | IsBlock3(g, colour, b) && IsBlock3(g, colour, b') && InGrid(g, co)
        ensures b == b'
      {
      }
    }
    if RaceFree(g, NearAsPrinted) {
      var colour, origin := Colour(0, 0, 0), Coord(0, 0, 0);
      assert IsBlock3(g, colour, origin);
      if g.x > 4 {
        var b', co := Coord(4, 0, 0), Coord(0, g.y - 1, 0);
        assert IsBlock3(g, colour, b') && NearAsPrinted(g, origin, co) && NearAsPrinted(g, b', co);
      }
      if g.y > 4 {
        var b' := Coord(0, 4, 0);
        assert IsBlock3(g, colour, b') && NearAsPrinted(g, origin, origin) && NearAsPrinted(g, b', origin);
      }
      if g.z > 4 {
        var b' := Coord(0, 0, 4);
        assert IsBlock3(g, colour, b') && NearAsPrinted(g, origin, origin) && NearAsPrinted(g, b', origin);
      }
    }
  }

  /** A race on the smallest power-of-two grid that has one: blocks (0,0,0) and (4,0,0) both
      push serially to the PRIVATE bag of cell (0,1,0) of an 8 x 2 x 2 grid. */
  lemma PrintedFormulaRaces()
    ensures var g, b, b', co := Dims(8, 2, 2), Coord(0, 0, 0), Coord(4, 0, 0), Coord(0, 1, 0);
            && IsBlock3(g, Colour(0, 0, 0), b) && IsBlock3(g, Colour(0, 0, 0), b') && InGrid(g, co)
            && NearAsPrinted(g, b, co) && NearAsPrinted(g, b', co)
            && !NearOnAllAxes(g, b', co)
            && !RaceFree(g, NearAsPrinted)
  {
    PrintedFormulaRaceFree(Dims(8, 2, 2));
  }
}
