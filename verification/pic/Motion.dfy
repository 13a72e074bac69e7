/** How one particle moves during a step, and the charge it leaves on the corners of its cell. */
module Motion {
  import opened Doubles
  import opened Particles
  import opened Grid

  // ----- interpolation

  const COEF_X: seq<real> := [1.0, 1.0, 1.0, 1.0, 0.0, 0.0, 0.0, 0.0]
  const SIGN_X: seq<real> := [-1.0, -1.0, -1.0, -1.0, 1.0, 1.0, 1.0, 1.0]
  const COEF_Y: seq<real> := [1.0, 1.0, 0.0, 0.0, 1.0, 1.0, 0.0, 0.0]
  const SIGN_Y: seq<real> := [-1.0, -1.0, 1.0, 1.0, -1.0, -1.0, 1.0, 1.0]
  const COEF_Z: seq<real> := [1.0, 0.0, 1.0, 0.0, 1.0, 0.0, 1.0, 0.0]
  const SIGN_Z: seq<real> := [-1.0, 1.0, -1.0, 1.0, -1.0, 1.0, -1.0, 1.0]

  /** The share of corner k for a particle at a position relative to its cell. */
  function CornerCoeff(k: nat, p: Particle): real
    requires k < NB_CORNERS
  {
    (COEF_X[k] + SIGN_X[k] * p.posX) * (COEF_Y[k] + SIGN_Y[k] * p.posY) * (COEF_Z[k] + SIGN_Z[k] * p.posZ)
  }

  function SumCoeffs(n: nat, p: Particle): real
    requires n <= NB_CORNERS
  {
    if n == 0 then 0.0 else SumCoeffs(n - 1, p) + CornerCoeff(n - 1, p)
  }

  lemma ProductOfSums(a0: real, a1: real, b0: real, b1: real, c0: real, c1: real)
    ensures a0 * b0 * c0 + a0 * b0 * c1 + a0 * b1 * c0 + a0 * b1 * c1
          + a1 * b0 * c0 + a1 * b0 * c1 + a1 * b1 * c0 + a1 * b1 * c1
         == (a0 + a1) * (b0 + b1) * (c0 + c1)
  {
  }

  /** The eight shares of a particle add up to one, wherever it is. */
  lemma SharesAddUpToOne(p: Particle)
    ensures SumCoeffs(NB_CORNERS, p) == 1.0
  {
    var a0, a1 := 1.0 + -1.0 * p.posX, 0.0 + 1.0 * p.posX;
    var b0, b1 := 1.0 + -1.0 * p.posY, 0.0 + 1.0 * p.posY;
    var c0, c1 := 1.0 + -1.0 * p.posZ, 0.0 + 1.0 * p.posZ;
    assert SumCoeffs(1, p) == a0 * b0 * c0;
    assert SumCoeffs(2, p) == SumCoeffs(1, p) + a0 * b0 * c1;
    assert SumCoeffs(3, p) == SumCoeffs(2, p) + a0 * b1 * c0;
    assert SumCoeffs(4, p) == SumCoeffs(3, p) + a0 * b1 * c1;
    assert SumCoeffs(5, p) == SumCoeffs(4, p) + a1 * b0 * c0;
    assert SumCoeffs(6, p) == SumCoeffs(5, p) + a1 * b0 * c1;
    assert SumCoeffs(7, p) == SumCoeffs(6, p) + a1 * b1 * c0;
    ProductOfSums(a0, a1, b0, b1, c0, c1);
  }

  /** The interpolation of the first n corner values, summed from the left. */
  function Interpolate(n: nat, p: Particle, v: seq<real>): real
    requires n <= NB_CORNERS == |v|
  {
    if n == 0 then 0.0 else Interpolate(n - 1, p, v) + CornerCoeff(n - 1, p) * v[n - 1]
  }

  // ----- one particle, one step

  /** The field at the corners of a cell, already scaled to change a speed. */
  datatype CornerField = CornerField(x: seq<real>, y: seq<real>, z: seq<real>) {
    predicate Shaped() {
      |x| == NB_CORNERS && |y| == NB_CORNERS && |z| == NB_CORNERS
    }
  }

  /** The speeds after the first loop over the chunk. */
  function Kick(p: Particle, f: CornerField): Particle
    requires f.Shaped()
  {
    p.(speedX := p.speedX + Interpolate(NB_CORNERS, p, f.x),
       speedY := p.speedY + Interpolate(NB_CORNERS, p, f.y),
       speedZ := p.speedZ + Interpolate(NB_CORNERS, p, f.z))
  }

  /** One axis of the second loop: the coordinate of the new cell and the position in it. */
  function Drift(grid: int, i: int, pos: real, speed: real): (int, real)
    requires grid > 0
  {
    var p := pos + i as real + speed;
    var q := IntOfDouble(p);
    (BitAnd(q, grid + -1), p - q as real)
  }

  /** The destination and the new position of a particle whose speed is up to date. */
  function Land(g: Dims, c: Coord, s: Particle): (int, Particle)
    requires Positive(g)
  {
    var (x2, rX) := Drift(g.x, c.iX, s.posX, s.speedX);
    var (y2, rY) := Drift(g.y, c.iY, s.posY, s.speedY);
    var (z2, rZ) := Drift(g.z, c.iZ, s.posZ, s.speedZ);
    (CellOfCoord(g, x2, y2, z2), s.(posX := rX, posY := rY, posZ := rZ))
  }

  /** The destination cell and the moved particle. */
  function Move(g: Dims, c: Coord, p: Particle, f: CornerField): (int, Particle)
    requires Positive(g) && f.Shaped()
  {
    Land(g, c, Kick(p, f))
  }

  ghost predicate MaskableGrid(g: Dims) {
    PowerOfTwo(g.x) && PowerOfTwo(g.y) && PowerOfTwo(g.z)
  }

  lemma DriftIsPeriodic(n: int, i: int, pos: real, speed: real)
    requires n > 0 && PowerOfTwo(n)
    ensures Drift(n, i, pos, speed).0 == Wrap(n, IntOfDouble(pos + i as real + speed))
    ensures 0 <= Drift(n, i, pos, speed).0 < n
  {
    var k: nat :| k >= 1 && Pow2(k) == n;
    MaskIsWrap(IntOfDouble(pos + i as real + speed), k);
  }

  /** A moved particle always lands in the grid. */
  lemma MoveStaysInGrid(g: Dims, c: Coord, p: Particle, f: CornerField)
    requires MaskableGrid(g) && Positive(g) && f.Shaped()
    ensures 0 <= Move(g, c, p, f).0 < NbCells(g)
  {
    var s := Kick(p, f);
    DriftIsPeriodic(g.x, c.iX, s.posX, s.speedX);
    DriftIsPeriodic(g.y, c.iY, s.posY, s.speedY);
    DriftIsPeriodic(g.z, c.iZ, s.posZ, s.speedZ);
    CellRoundTrip(g, Coord(Drift(g.x, c.iX, s.posX, s.speedX).0, Drift(g.y, c.iY, s.posY, s.speedY).0,
                           Drift(g.z, c.iZ, s.posZ, s.speedZ).0));
  }
}
