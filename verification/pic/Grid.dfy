/** The periodic grid: cell numbers, coordinates, wrap-around, and the eight corners of a cell. */
module Grid {
  import opened Mindex

  // ----- integer operators of C

  /** The remainder of C's truncating division. */
  function CMod(a: int, b: int): int
    requires b > 0
  {
    if a >= 0 then a % b else -((-a) % b)
  }

  function Wrap(gridSize: int, a: int): int
    requires gridSize > 0
  {
    CMod(CMod(a, gridSize) + gridSize, gridSize)
  }

  /** wrap brings any integer, negative ones included, to its representative in the period. */
  lemma WrapIsModulo(g: int, a: int)
    requires g > 0
    ensures Wrap(g, a) == a % g
  {
    var r := CMod(a, g);
    if a < 0 {
      var q := (-a) / g;
      assert a == (-q) * g + r;
      if r == 0 {
        ModUnique(g, a, -q, 0);
        ModUnique(g, g, 1, 0);
      } else {
        assert a == (-q - 1) * g + (g + r);
        ModUnique(g, a, -q - 1, g + r);
        ModUnique(g, r + g, 0, r + g);
      }
    } else {
      ModUnique(g, r + g, 1, r);
    }
  }

  lemma ModUnique(g: int, a: int, q: int, r: int)
    requires g > 0 && 0 <= r < g && a == q * g + r
    ensures a % g == r && a / g == q
  {
    var q', r' := a / g, a % g;
    assert (q - q') * g == r' - r;
    MulAtLeast(q - q', g);
    MulAtLeast(q' - q, g);
    assert (q' - q) * g == -((q - q') * g);
  }

  lemma MulAtLeast(a: int, b: int)
    requires b > 0
    ensures a >= 1 ==> a * b >= b
  {
    if a >= 1 {
      MulNonNegative(a - 1, b);
      assert (a - 1) * b == a * b - b;
    }
  }

  function Pow2(k: nat): nat {
    if k == 0 then 1 else 2 * Pow2(k - 1)
  }

  ghost predicate PowerOfTwo(n: int) {
    exists k: nat :: k >= 1 && Pow2(k) == n
  }

  lemma {:induction false} Pow2IsEven(k: nat)
    requires k >= 1
    ensures Pow2(k) >= 2 && Pow2(k) % 2 == 0
    ensures k >= 2 ==> Pow2(k) % 4 == 0
  {
    if k >= 2 {
      Pow2IsEven(k - 1);
    }
  }

  lemma PowerOfTwoIsEven(n: int)
    requires PowerOfTwo(n)
    ensures n >= 2 && n % 2 == 0
  {
    var k: nat :| k >= 1 && Pow2(k) == n;
    Pow2IsEven(k);
  }

  /** Bitwise and of a two's-complement integer of any width with a non-negative one:
      bit i of a is the parity of a / 2^i, rounded down. */
  function BitAnd(a: int, b: nat): int
    decreases b
  {
    if b == 0 then 0 else (if a % 2 == 1 && b % 2 == 1 then 1 else 0) + 2 * BitAnd(a / 2, b / 2)
  }

  lemma ModOfDouble(a: int, m: int)
    requires m > 0
    ensures a % (2 * m) == a % 2 + 2 * ((a / 2) % m)
  {
    var h := a / 2;
    assert h == (h / m) * m + h % m;
    assert a == (h / m) * (2 * m) + (a % 2 + 2 * (h % m));
    ModUnique(2 * m, a, h / m, a % 2 + 2 * (h % m));
  }

  lemma {:induction false} MaskIsModulo(a: int, k: nat)
    ensures Pow2(k) >= 1
    ensures BitAnd(a, Pow2(k) - 1) == a % Pow2(k)
    decreases k
  {
    if k > 0 {
      MaskIsModulo(a / 2, k - 1);
      MaskOfDouble(a, Pow2(k - 1));
      ModOfDouble(a, Pow2(k - 1));
    }
  }

  /** The lowest bit of an all-ones mask, and the others. */
  lemma MaskOfDouble(a: int, m: nat)
    requires m >= 1
    ensures BitAnd(a, 2 * m - 1) == a % 2 + 2 * BitAnd(a / 2, m - 1)
  {
    assert (2 * m - 1) / 2 == m - 1 && (2 * m - 1) % 2 == 1;
  }

  /** On a grid whose size is a power of two, masking with size - 1 is wrap, for negative values too. */
  lemma MaskIsWrap(q: int, k: nat)
    ensures Pow2(k) > 0
    ensures BitAnd(q, Pow2(k) - 1) == Wrap(Pow2(k), q)
    ensures 0 <= Wrap(Pow2(k), q) < Pow2(k)
  {
    MaskIsModulo(q, k);
    WrapIsModulo(Pow2(k), q);
  }

  // ----- cells and coordinates

  datatype Dims = Dims(x: int, y: int, z: int)

  datatype Coord = Coord(iX: int, iY: int, iZ: int)

  predicate Positive(g: Dims) {
    g.x > 0 && g.y > 0 && g.z > 0
  }

  function NbCells(g: Dims): int {
    g.x * g.y * g.z
  }

  predicate InGrid(g: Dims, c: Coord) {
    0 <= c.iX < g.x && 0 <= c.iY < g.y && 0 <= c.iZ < g.z
  }

  function CellOfCoord(g: Dims, i: int, j: int, k: int): int {
    i * g.y * g.z + j * g.z + k
  }

  function CoordOfCell(g: Dims, idCell: int): Coord
    requires Positive(g) && idCell >= 0
  {
    var iZ := idCell % g.z;
    var iXY := idCell / g.z;
    Coord(iXY / g.y, iXY % g.y, iZ)
  }

  lemma DivLess(a: int, n: int, b: int)
    requires 0 <= a < n * b && b > 0
    ensures 0 <= a / b < n
  {
    RowsApart(b, n, a / b);
  }

  /** Numbering the cells and reading off the coordinates undo each other. */
  lemma CellRoundTrip(g: Dims, c: Coord)
    requires Positive(g) && InGrid(g, c)
    ensures 0 <= CellOfCoord(g, c.iX, c.iY, c.iZ) < NbCells(g)
    ensures CoordOfCell(g, CellOfCoord(g, c.iX, c.iY, c.iZ)) == c
  {
    var xy := c.iX * g.y + c.iY;
    var id := CellOfCoord(g, c.iX, c.iY, c.iZ);
    assert id == xy * g.z + c.iZ;
    RowInside(g.x, g.y, c.iX);
    RowInside(g.x * g.y, g.z, xy);
    ModUnique(g.z, id, xy, c.iZ);
    ModUnique(g.y, xy, c.iX, c.iY);
  }

  lemma SomeCell(g: Dims)
    requires Positive(g)
    ensures NbCells(g) >= 1
  {
    hide CellOfCoord, CoordOfCell, NbCells;
    CellRoundTrip(g, Coord(0, 0, 0));
  }

  lemma CoordRoundTrip(g: Dims, id: int)
    requires Positive(g) && 0 <= id < NbCells(g)
    ensures var c := CoordOfCell(g, id); InGrid(g, c) && CellOfCoord(g, c.iX, c.iY, c.iZ) == id
  {
    var c := CoordOfCell(g, id);
    var xy := id / g.z;
    assert id == xy * g.z + c.iZ;
    assert xy == c.iX * g.y + c.iY;
    assert xy * g.z == c.iX * g.y * g.z + c.iY * g.z;
    DivLess(id, g.x * g.y, g.z);
    DivLess(xy, g.x, g.y);
  }

  // ----- corners

  const NB_CORNERS: nat := 8

  function IndicesOfCorners(g: Dims, idCell: int): (v: seq<int>)
    requires Positive(g) && idCell >= 0
    ensures |v| == NB_CORNERS
  {
    var co := CoordOfCell(g, idCell);
    var x, y, z := co.iX, co.iY, co.iZ;
    var x2, y2, z2 := Wrap(g.x, x + 1), Wrap(g.y, y + 1), Wrap(g.z, z + 1);
    [CellOfCoord(g, x, y, z), CellOfCoord(g, x, y, z2), CellOfCoord(g, x, y2, z), CellOfCoord(g, x, y2, z2),
     CellOfCoord(g, x2, y, z), CellOfCoord(g, x2, y, z2), CellOfCoord(g, x2, y2, z), CellOfCoord(g, x2, y2, z2)]
  }

  /** The row-major index of (source cell, corner) from which idCell gathers that corner. */
  function Bij(g: Dims, idCell: int, idCorner: nat): int
    requires Positive(g) && idCell >= 0 && idCorner < NB_CORNERS
  {
    var co := CoordOfCell(g, idCell);
    var iX, iY, iZ := co.iX, co.iY, co.iZ;
    var xm, ym, zm := Wrap(g.x, iX - 1), Wrap(g.y, iY - 1), Wrap(g.z, iZ - 1);
    var bijection := [
      CellOfCoord(g, iX, iY, iZ), CellOfCoord(g, iX, iY, zm), CellOfCoord(g, iX, ym, iZ), CellOfCoord(g, iX, ym, zm),
      CellOfCoord(g, xm, iY, iZ), CellOfCoord(g, xm, iY, zm), CellOfCoord(g, xm, ym, iZ), CellOfCoord(g, xm, ym, zm)];
    bijection[idCorner] * NB_CORNERS + idCorner
  }

  /** Along one axis, a step forth from a wrapped step back is where we were, and the other way round. */
  lemma AxisInverse(n: int, a: int)
    requires 0 <= a < n
    ensures 0 <= Wrap(n, a - 1) < n && 0 <= Wrap(n, a + 1) < n
    ensures Wrap(n, Wrap(n, a - 1) + 1) == a
    ensures Wrap(n, Wrap(n, a + 1) - 1) == a
  {
    WrapIsModulo(n, a - 1);
    WrapIsModulo(n, a + 1);
    var d, u := if a == 0 then n - 1 else a - 1, if a == n - 1 then 0 else a + 1;
    ModUnique(n, a - 1, if a == 0 then -1 else 0, d);
    ModUnique(n, a + 1, if a == n - 1 then 1 else 0, u);
    WrapIsModulo(n, d + 1);
    WrapIsModulo(n, u - 1);
    ModUnique(n, d + 1, if a == 0 then 1 else 0, a);
    ModUnique(n, u - 1, if a == n - 1 then -1 else 0, a);
  }

  /** One step along an axis, or none. */
  function Shift(n: int, a: int, move: bool, d: int): int
    requires n > 0
  {
    if move then Wrap(n, a + d) else a
  }

  /** The coordinates `d` steps away along the axes named by corner k (x is its bit 2, y bit 1, z bit 0). */
  function Towards(g: Dims, c: Coord, k: nat, d: int): Coord
    requires Positive(g) && k < NB_CORNERS
  {
    Coord(Shift(g.x, c.iX, k / 4 == 1, d), Shift(g.y, c.iY, k / 2 % 2 == 1, d), Shift(g.z, c.iZ, k % 2 == 1, d))
  }

  /** The two literal tables say: one step forth for the scatter, one step back for the gather. */
  lemma TablesAreShifts(g: Dims, idCell: int, k: nat)
    requires Positive(g) && idCell >= 0 && k < NB_CORNERS
    ensures var f := Towards(g, CoordOfCell(g, idCell), k, 1);
            IndicesOfCorners(g, idCell)[k] == CellOfCoord(g, f.iX, f.iY, f.iZ)
    ensures var b := Towards(g, CoordOfCell(g, idCell), k, -1);
            Bij(g, idCell, k) == CellOfCoord(g, b.iX, b.iY, b.iZ) * NB_CORNERS + k
  {
    assert k == 0 || k == 1 || k == 2 || k == 3 || k == 4 || k == 5 || k == 6 || k == 7;
  }

  lemma TowardsInverse(g: Dims, c: Coord, k: nat)
    requires Positive(g) && InGrid(g, c) && k < NB_CORNERS
    ensures InGrid(g, Towards(g, c, k, 1)) && InGrid(g, Towards(g, c, k, -1))
    ensures Towards(g, Towards(g, c, k, -1), k, 1) == c
    ensures Towards(g, Towards(g, c, k, 1), k, -1) == c
  {
    hide Wrap;
    AxisInverse(g.x, c.iX);
    AxisInverse(g.y, c.iY);
    AxisInverse(g.z, c.iZ);
  }

  /** The source of a gather deposits, at that corner, onto the gathering cell. */
  lemma GatherSourceHitsCell(g: Dims, idCell: int, k: nat)
    requires Positive(g) && 0 <= idCell < NbCells(g) && k < NB_CORNERS
    ensures var m := Bij(g, idCell, k);
            && 0 <= m < NbCells(g) * NB_CORNERS && m % NB_CORNERS == k
            && 0 <= m / NB_CORNERS < NbCells(g)
            && IndicesOfCorners(g, m / NB_CORNERS)[k] == idCell
  {
    hide CellOfCoord, CoordOfCell, Towards, Bij, IndicesOfCorners, NbCells;
    var co := CoordOfCell(g, idCell);
    CoordRoundTrip(g, idCell);
    TowardsInverse(g, co, k);
    var src := Towards(g, co, k, -1);
    CellRoundTrip(g, src);
    TablesAreShifts(g, idCell, k);
    TablesAreShifts(g, CellOfCoord(g, src.iX, src.iY, src.iZ), k);
  }

  /** The cell on which a source deposits a corner gathers exactly that corner of that source. */
  lemma ScatterTargetGathersSource(g: Dims, source: int, k: nat)
    requires Positive(g) && 0 <= source < NbCells(g) && k < NB_CORNERS
    ensures var c := IndicesOfCorners(g, source)[k];
            0 <= c < NbCells(g) && Bij(g, c, k) == source * NB_CORNERS + k
  {
    hide CellOfCoord, CoordOfCell, Towards, Bij, IndicesOfCorners, NbCells;
    var co := CoordOfCell(g, source);
    CoordRoundTrip(g, source);
    TowardsInverse(g, co, k);
    var dst := Towards(g, co, k, 1);
    CellRoundTrip(g, dst);
    TablesAreShifts(g, source, k);
    TablesAreShifts(g, CellOfCoord(g, dst.iX, dst.iY, dst.iZ), k);
  }

  /** Some (cell, corner) is sent to m. */
  ghost predicate Hit(g: Dims, m: int)
    requires Positive(g)
  {
    exists c, k :: 0 <= c < NbCells(g) && 0 <= k < NB_CORNERS && Bij(g, c, k) == m
  }

  lemma BijInjective(g: Dims, c: int, k: nat, c': int, k': nat)
    requires Positive(g) && 0 <= c < NbCells(g) && 0 <= c' < NbCells(g) && k < NB_CORNERS && k' < NB_CORNERS
    requires Bij(g, c, k) == Bij(g, c', k')
    ensures c == c' && k == k'
  {
    GatherSourceHitsCell(g, c, k);
    GatherSourceHitsCell(g, c', k');
  }

  lemma BijOnto(g: Dims, m: int)
    requires Positive(g) && 0 <= m < NbCells(g) * NB_CORNERS
    ensures Hit(g, m)
  {
    ScatterTargetGathersSource(g, m / NB_CORNERS, m % NB_CORNERS);
    assert Bij(g, IndicesOfCorners(g, m / NB_CORNERS)[m % NB_CORNERS], m % NB_CORNERS) == m;
  }
}
