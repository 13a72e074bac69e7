/**
 What the formulas of the step mean: the field at a particle is the trilinear interpolation of the
 field at the corners, a particle moves by its speed around the periodic grid, and the charge is
 deposited by the shares that interpolate.
 */
module MotionLaws {
  import opened Deposit
  import opened Doubles
  import opened Grid
  import opened Motion
  import opened Particles
  import opened StepLog
  import T = Trilinear

  // ----- interpolation

  lemma CoeffIsShare(p: Particle)
    ensures var x, y, z := p.posX, p.posY, p.posZ;
            var cx, cy, cz := 1.0 - x, 1.0 - y, 1.0 - z;
            && CornerCoeff(0, p) == T.Share(cx, cy, cz) && CornerCoeff(1, p) == T.Share(cx, cy, z)
            && CornerCoeff(2, p) == T.Share(cx, y, cz) && CornerCoeff(3, p) == T.Share(cx, y, z)
            && CornerCoeff(4, p) == T.Share(x, cy, cz) && CornerCoeff(5, p) == T.Share(x, cy, z)
            && CornerCoeff(6, p) == T.Share(x, y, cz) && CornerCoeff(7, p) == T.Share(x, y, z)
  {
    Signs(p.posX);
    Signs(p.posY);
    Signs(p.posZ);
  }

  lemma Signs(x: real)
    ensures 1.0 + -1.0 * x == 1.0 - x && 0.0 + 1.0 * x == x
  {
  }

  lemma InterpolateUnfolds(p: Particle, v: seq<real>)
    requires |v| == NB_CORNERS
    ensures Interpolate(NB_CORNERS, p, v)
         == CornerCoeff(0, p) * v[0] + CornerCoeff(1, p) * v[1] + CornerCoeff(2, p) * v[2] + CornerCoeff(3, p) * v[3]
            + CornerCoeff(4, p) * v[4] + CornerCoeff(5, p) * v[5] + CornerCoeff(6, p) * v[6] + CornerCoeff(7, p) * v[7]
  {
    hide CornerCoeff;
    assert Interpolate(1, p, v) == CornerCoeff(0, p) * v[0];
    assert Interpolate(2, p, v) == CornerCoeff(0, p) * v[0] + CornerCoeff(1, p) * v[1];
    assert Interpolate(4, p, v) == Interpolate(2, p, v) + CornerCoeff(2, p) * v[2] + CornerCoeff(3, p) * v[3];
    assert Interpolate(6, p, v) == Interpolate(4, p, v) + CornerCoeff(4, p) * v[4] + CornerCoeff(5, p) * v[5];
  }

  /** The field at a particle: the corner values interpolated along x, y and z in turn. */
  lemma InterpolateIsTrilinear(p: Particle, v: seq<real>)
    requires |v| == NB_CORNERS
    ensures Interpolate(NB_CORNERS, p, v) == T.Trilinear(p.posX, p.posY, p.posZ, v)
  {
    hide CornerCoeff, Interpolate, T.Trilinear, T.Share;
    InterpolateUnfolds(p, v);
    CoeffIsShare(p);
    T.EightTerms(p.posX, p.posY, p.posZ, v);
  }

  /** An affine function of the position is interpolated without error. */
  lemma InterpolateAffine(p: Particle, v: seq<real>, a: real, b: real, c: real, d: real)
    requires T.AffineCorners(v, a, b, c, d)
    ensures Interpolate(NB_CORNERS, p, v) == T.Affine(a, b, c, d, p.posX, p.posY, p.posZ)
  {
    hide Interpolate, T.Trilinear, T.Affine;
    InterpolateIsTrilinear(p, v);
    T.AffineIsReproduced(v, a, b, c, d, p.posX, p.posY, p.posZ);
  }

  // ----- one move

  /** The position on an axis changes by the speed, up to whole turns around the grid. */
  lemma DriftDisplaces(n: int, i: int, pos: real, speed: real) returns (turns: int)
    requires n > 0 && PowerOfTwo(n)
    ensures var (i', pos') := Drift(n, i, pos, speed);
            && i' as real + pos' == i as real + pos + speed + (turns * n) as real
            && 0 <= i' < n && 0.0 <= pos' <= 1.0
  {
    var p := pos + i as real + speed;
    var q := IntOfDouble(p);
    DriftIsPeriodic(n, i, pos, speed);
    WrapIsModulo(n, q);
    RelativePositionInUnit(p);
    hide BitAnd, Wrap, IntOfDouble, PowerOfTwo;
    turns := WholeTurns(q, n);
    SamePlace(p, q, q % n, turns * n);
  }

  lemma SamePlace(p: real, q: int, r: int, t: int)
    requires r == q + t
    ensures r as real + (p - q as real) == p + t as real
  {
  }

  lemma WholeTurns(q: int, n: int) returns (turns: int)
    requires n > 0
    ensures q % n == q + turns * n && 0 <= q % n < n
  {
    turns := -(q / n);
    assert q == q / n * n + q % n;
  }

  /** What a move means for a particle of cell c that ends up as q in cell c'. */
  ghost predicate Moved(g: Dims, c: Coord, p: Particle, f: CornerField, c': Coord, q: Particle)
    requires f.Shaped()
  {
    && q.speedX == p.speedX + T.Trilinear(p.posX, p.posY, p.posZ, f.x)
    && q.speedY == p.speedY + T.Trilinear(p.posX, p.posY, p.posZ, f.y)
    && q.speedZ == p.speedZ + T.Trilinear(p.posX, p.posY, p.posZ, f.z)
    && Displaced(g.x, c'.iX as real + q.posX, c.iX as real + p.posX + q.speedX) && 0.0 <= q.posX <= 1.0
    && Displaced(g.y, c'.iY as real + q.posY, c.iY as real + p.posY + q.speedY) && 0.0 <= q.posY <= 1.0
    && Displaced(g.z, c'.iZ as real + q.posZ, c.iZ as real + p.posZ + q.speedZ) && 0.0 <= q.posZ <= 1.0
    && InGrid(g, c')
  }

  /** The same place on a ring of n cells. */
  ghost predicate Displaced(n: int, x: real, y: real) { exists turns: int :: IsTurned(n, x, y, turns) }

  predicate IsTurned(n: int, x: real, y: real, turns: int) { x == y + (turns * n) as real }

  lemma AxisDisplaces(n: int, i: int, pos: real, speed: real)
    requires n > 0 && PowerOfTwo(n)
    ensures var (i', pos') := Drift(n, i, pos, speed);
            Displaced(n, i' as real + pos', i as real + pos + speed) && 0 <= i' < n && 0.0 <= pos' <= 1.0
  {
    var turns := DriftDisplaces(n, i, pos, speed);
    var (i', pos') := Drift(n, i, pos, speed);
    assert IsTurned(n, i' as real + pos', i as real + pos + speed, turns);
  }

  /** The speed grows by the interpolated field, and the particle is then displaced by it around the grid. */
  lemma MoveIsKickAndDrift(g: Dims, c: Coord, p: Particle, f: CornerField)
    requires MaskableGrid(g) && Positive(g) && f.Shaped()
    ensures var (id, q) := Move(g, c, p, f);
            0 <= id < NbCells(g) && Moved(g, c, p, f, CoordOfCell(g, id), q)
  {
    hide Interpolate, T.Trilinear, Drift, PowerOfTwo, NbCells, CellOfCoord, CoordOfCell, Displaced;
    InterpolateIsTrilinear(p, f.x);
    InterpolateIsTrilinear(p, f.y);
    InterpolateIsTrilinear(p, f.z);
    var s := Kick(p, f);
    AxisDisplaces(g.x, c.iX, s.posX, s.speedX);
    AxisDisplaces(g.y, c.iY, s.posY, s.speedY);
    AxisDisplaces(g.z, c.iZ, s.posZ, s.speedZ);
    CellRoundTrip(g, Coord(Drift(g.x, c.iX, s.posX, s.speedX).0, Drift(g.y, c.iY, s.posY, s.speedY).0,
                           Drift(g.z, c.iZ, s.posZ, s.speedZ).0));
  }

  // ----- a uniform field

  predicate Uniform(field: seq<Vect>, e: Vect) { forall k :: 0 <= k < |field| ==> field[k] == e }

  lemma ConstantField(p: Particle, v: seq<real>, a: real)
    requires |v| == NB_CORNERS && forall k :: 0 <= k < NB_CORNERS ==> v[k] == a
    ensures Interpolate(NB_CORNERS, p, v) == a
  {
    hide Interpolate;
    ZeroSlopes(a, p.posX, p.posY, p.posZ);
    forall k | 0 <= k < NB_CORNERS
      ensures v[k] == T.Affine(a, 0.0, 0.0, 0.0, T.Bit(k / 4 == 1), T.Bit(k / 2 % 2 == 1), T.Bit(k % 2 == 1))
    {
      ZeroSlopes(a, T.Bit(k / 4 == 1), T.Bit(k / 2 % 2 == 1), T.Bit(k % 2 == 1));
    }
    InterpolateAffine(p, v, a, 0.0, 0.0, 0.0);
  }

  lemma ZeroSlopes(a: real, x: real, y: real, z: real)
    ensures T.Affine(a, 0.0, 0.0, 0.0, x, y, z) == a
  {
  }

  lemma UniformCorners(g: Dims, id: int, field: seq<Vect>, factor: Vect, e: Vect)
    requires Positive(g) && |field| == NbCells(g) && 0 <= id < NbCells(g) && Uniform(field, e)
    ensures var f := FieldAtCorners(g, field, factor, id);
            forall k :: 0 <= k < NB_CORNERS ==>
              f.x[k] == e.x * factor.x && f.y[k] == e.y * factor.y && f.z[k] == e.z * factor.z
  {
    CornersInGrid(g, id);
    hide NbCells, IndicesOfCorners;
    assert Scale(e, factor) == Vect(e.x * factor.x, e.y * factor.y, e.z * factor.z);
    hide Scale;
  }

  /** A uniform field changes every speed by that field times the factor of its axis. */
  lemma UniformKick(g: Dims, id: int, p: Particle, field: seq<Vect>, factor: Vect, e: Vect)
    requires Positive(g) && |field| == NbCells(g) && 0 <= id < NbCells(g) && Uniform(field, e)
    ensures Kick(p, FieldAtCorners(g, field, factor, id))
         == p.(speedX := p.speedX + e.x * factor.x, speedY := p.speedY + e.y * factor.y,
               speedZ := p.speedZ + e.z * factor.z)
  {
    var f := FieldAtCorners(g, field, factor, id);
    UniformCorners(g, id, field, factor, e);
    hide FieldAtCorners, Interpolate;
    ConstantField(p, f.x, e.x * factor.x);
    ConstantField(p, f.y, e.y * factor.y);
    ConstantField(p, f.z, e.z * factor.z);
  }

  // ----- the deposit is the adjoint of the interpolation

  /** The values of w at the corners of cell d. */
  function AtCorners(g: Dims, w: seq<real>, d: int): (v: seq<real>)
    requires Positive(g) && |w| == NbCells(g) && 0 <= d < NbCells(g)
    ensures |v| == NB_CORNERS
  {
    CornersInGrid(g, d);
    seq(NB_CORNERS, k requires 0 <= k < NB_CORNERS => w[IndicesOfCorners(g, d)[k]])
  }

  /** The charge of the first n cells, weighted. */
  function Weighted(g: Dims, log: Log, w: seq<real>, n: nat): real
    requires Positive(g) && InCells(g, log) && n <= |w|
  {
    if n == 0 then 0.0 else Weighted(g, log, w, n - 1) + w[n - 1] * Scattered(g, log, n - 1)
  }

  /** What the particles of the log see of w, added up. */
  function Seen(g: Dims, log: Log, w: seq<real>): real
    requires Positive(g) && InCells(g, log) && |w| == NbCells(g)
  {
    if log == [] then 0.0
    else
      var (d, p) := log[|log| - 1];
      Seen(g, log[..|log| - 1], w) + T.Trilinear(p.posX, p.posY, p.posZ, AtCorners(g, w, d))
  }

  function WeightedContribution(g: Dims, d: int, charges: seq<real>, w: seq<real>, n: nat, m: nat): real
    requires Positive(g) && d >= 0 && n <= |w| && m <= NB_CORNERS == |charges|
  {
    if n == 0 then 0.0
    else WeightedContribution(g, d, charges, w, n - 1, m) + w[n - 1] * Contribution(g, d, charges, n - 1, m)
  }

  lemma WeightOfSum(w: real, a: real, b: real)
    ensures w * (a + b) == w * a + w * b
  {
  }

  lemma {:induction false} WeightedOneCorner(g: Dims, d: int, charges: seq<real>, w: seq<real>, n: nat, m: nat)
    requires Positive(g) && 0 <= d < NbCells(g) && 0 < m <= NB_CORNERS == |charges| && n <= |w|
    ensures var c := IndicesOfCorners(g, d)[m - 1];
            WeightedContribution(g, d, charges, w, n, m) == WeightedContribution(g, d, charges, w, n, m - 1)
              + (if 0 <= c < n then charges[m - 1] * w[c] else 0.0)
  {
    hide IndicesOfCorners, NbCells;
    if n > 0 {
      WeightedOneCorner(g, d, charges, w, n - 1, m);
      var c := IndicesOfCorners(g, d)[m - 1];
      WeightOfSum(w[n - 1], Contribution(g, d, charges, n - 1, m - 1), if c == n - 1 then charges[m - 1] else 0.0);
    }
  }

  lemma {:induction false} NothingWeighted(g: Dims, d: int, charges: seq<real>, w: seq<real>, n: nat)
    requires Positive(g) && 0 <= d && |charges| == NB_CORNERS && n <= |w|
    ensures WeightedContribution(g, d, charges, w, n, 0) == 0.0
  {
    if n > 0 {
      NothingWeighted(g, d, charges, w, n - 1);
    }
  }

  /** A particle's first m shares, weighted where they fall, are its interpolation of the weights. */
  lemma {:induction false} WeightedShares(g: Dims, d: int, p: Particle, w: seq<real>, m: nat)
    requires Positive(g) && |w| == NbCells(g) && 0 <= d < NbCells(g) && m <= NB_CORNERS
    ensures WeightedContribution(g, d, Charges(p), w, |w|, m) == Interpolate(m, p, AtCorners(g, w, d))
  {
    hide NbCells, IndicesOfCorners, WeightedContribution, CornerCoeff;
    if m == 0 {
      NothingWeighted(g, d, Charges(p), w, |w|);
    } else {
      WeightedShares(g, d, p, w, m - 1);
      WeightedOneCorner(g, d, Charges(p), w, |w|, m);
      CornersInGrid(g, d);
    }
  }

  lemma {:induction false} WeightedOneMore(g: Dims, log: Log, w: seq<real>, n: nat)
    requires Positive(g) && InCells(g, log) && log != [] && n <= |w|
    ensures var (d, p) := log[|log| - 1];
            Weighted(g, log, w, n)
              == Weighted(g, log[..|log| - 1], w, n) + WeightedContribution(g, d, Charges(p), w, n, NB_CORNERS)
  {
    hide NbCells, Contribution, Charges;
    if n > 0 {
      WeightedOneMore(g, log, w, n - 1);
      var (d, p) := log[|log| - 1];
      WeightOfSum(w[n - 1], Scattered(g, log[..|log| - 1], n - 1), Contribution(g, d, Charges(p), n - 1, NB_CORNERS));
    }
  }

  /**
   The deposit is the adjoint of the interpolation: weighting the charge of every cell by w gives what
   the particles see of w at their positions.
   */
  lemma {:induction false} DepositIsAdjoint(g: Dims, log: Log, w: seq<real>)
    requires Positive(g) && InCells(g, log) && |w| == NbCells(g)
    ensures Weighted(g, log, w, |w|) == Seen(g, log, w)
  {
    hide NbCells, T.Trilinear, Interpolate, Charges, AtCorners, Weighted, WeightedContribution;
    if log == [] {
      NothingDeposited(g, w, |w|);
    } else {
      var (d, p) := log[|log| - 1];
      DepositIsAdjoint(g, log[..|log| - 1], w);
      WeightedOneMore(g, log, w, |w|);
      WeightedShares(g, d, p, w, NB_CORNERS);
      InterpolateIsTrilinear(p, AtCorners(g, w, d));
    }
  }

  lemma {:induction false} NothingDeposited(g: Dims, w: seq<real>, n: nat)
    requires Positive(g) && n <= |w|
    ensures Weighted(g, [], w, n) == 0.0
  {
    if n > 0 {
      NothingDeposited(g, w, n - 1);
    }
  }
}
