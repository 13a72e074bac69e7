/**
 Particles in one cell, pushed by the field at its corners: the plain simulation, and
 the one that works with speeds scaled by the time step and a field scaled to match.
 */
module Micropic {
  import opened Doubles

  const NB_CORNERS := 8
  const CELL := 10.0 / 64.0

  datatype Particle = Particle(pos: Vect, speed: Vect)

  const ZERO := Vect(0.0, 0.0, 0.0)

  // ----- interpolation

  /** The position relative to the cell, as the plain program computes it. */
  function RelativePos(x: real): real {
    (x - IntOfDouble(x / CELL) as real * CELL) / CELL
  }

  /** The scaled program divides first. */
  lemma RelativePosSimplified(x: real)
    ensures RelativePos(x) == x / CELL - IntOfDouble(x / CELL) as real
  {
  }

  function Product3(a: real, b: real, c: real): real { a * b * c }

  function Coeffs(pos: Vect): (r: seq<real>)
    ensures |r| == NB_CORNERS
  {
    var rX, rY, rZ := RelativePos(pos.x), RelativePos(pos.y), RelativePos(pos.z);
    var cX, cY, cZ := 1.0 - rX, 1.0 - rY, 1.0 - rZ;
    [Product3(cX, cY, cZ), Product3(cX, cY, rZ), Product3(cX, rY, cZ), Product3(cX, rY, rZ),
     Product3(rX, cY, cZ), Product3(rX, cY, rZ), Product3(rX, rY, cZ), Product3(rX, rY, rZ)]
  }

  /** The first k corners of the interpolated field. */
  function Interp(coeffs: seq<real>, field: seq<Vect>, k: nat): Vect
    requires k <= |coeffs| && k <= |field|
  {
    if k == 0 then ZERO else VectAdd(Interp(coeffs, field, k - 1), VectMul(coeffs[k - 1], field[k - 1]))
  }

  function FieldAt(field: seq<Vect>, pos: Vect): Vect
    requires |field| == NB_CORNERS
  {
    Interp(Coeffs(pos), field, NB_CORNERS)
  }

  // ----- one particle, one step

  datatype Physics = Physics(deltaT: real, charge: real, mass: real) {
    predicate Valid() { deltaT != 0.0 && mass != 0.0 }

    function Ratio(): real
      requires Valid()
    {
      charge / mass
    }

    /** deltaT^2 * charge / mass */
    function Factor(): real
      requires Valid()
    {
      deltaT * deltaT * charge / mass
    }

    /** The factor as the scaled program stores it, in an int. */
    function StoredFactor(): int
      requires Valid()
    {
      Truncate(Factor())
    }
  }

  function Step(ph: Physics, field: seq<Vect>, p: Particle): Particle
    requires ph.Valid() && |field| == NB_CORNERS
  {
    var accel := VectMul(ph.Ratio(), FieldAt(field, p.pos));
    var speed2 := VectAdd(p.speed, VectMul(ph.deltaT, accel));
    Particle(VectAdd(p.pos, VectMul(ph.deltaT, speed2)), speed2)
  }

  /** A step with scaled speed and field. */
  function ScaledStep(field: seq<Vect>, p: Particle): Particle
    requires |field| == NB_CORNERS
  {
    var speed2 := VectAdd(p.speed, FieldAt(field, p.pos));
    Particle(VectAdd(p.pos, speed2), speed2)
  }

  function ScaledField(field: seq<Vect>, factor: real): (f: seq<Vect>)
    ensures |f| == |field|
  {
    seq(|field|, k requires 0 <= k < |field| => VectMul(factor, field[k]))
  }

  function ScaleSpeed(deltaT: real, p: Particle): Particle { p.(speed := VectMul(deltaT, p.speed)) }

  function Over(x: real, y: real): real
    requires y != 0.0
  {
    x / y
  }

  function UnscaleSpeed(deltaT: real, p: Particle): Particle
    requires deltaT != 0.0
  {
    p.(speed := Vect(Over(p.speed.x, deltaT), Over(p.speed.y, deltaT), Over(p.speed.z, deltaT)))
  }

  // ----- many steps

  function After(ph: Physics, field: seq<Vect>, p: Particle, n: nat): Particle
    requires ph.Valid() && |field| == NB_CORNERS
  {
    if n == 0 then p else Step(ph, field, After(ph, field, p, n - 1))
  }

  function ScaledAfter(field: seq<Vect>, p: Particle, n: nat): Particle
    requires |field| == NB_CORNERS
  {
    if n == 0 then p else ScaledStep(field, ScaledAfter(field, p, n - 1))
  }

  /** What the scaled program makes of a particle. */
  function ScaledRun(ph: Physics, factor: real, field: seq<Vect>, p: Particle, n: nat): Particle
    requires ph.Valid() && |field| == NB_CORNERS
  {
    UnscaleSpeed(ph.deltaT, ScaledAfter(ScaledField(field, factor), ScaleSpeed(ph.deltaT, p), n))
  }

  // ----- scaling preserves the simulation

  lemma {:induction false} InterpScales(coeffs: seq<real>, field: seq<Vect>, factor: real, k: nat)
    requires k <= |coeffs| && k <= |field|
    ensures Interp(coeffs, ScaledField(field, factor), k) == VectMul(factor, Interp(coeffs, field, k))
  {
    if k > 0 {
      InterpScales(coeffs, field, factor, k - 1);
      Exchange(coeffs[k - 1], factor, field[k - 1]);
      Distribute(factor, Interp(coeffs, field, k - 1), VectMul(coeffs[k - 1], field[k - 1]));
      hide VectMul, VectAdd;
      assert ScaledField(field, factor)[k - 1] == VectMul(factor, field[k - 1]);
    }
  }

  lemma Exchange(c: real, f: real, v: Vect)
    ensures VectMul(c, VectMul(f, v)) == VectMul(f, VectMul(c, v))
  {
    ExchangeReals(c, f, v.x);
    ExchangeReals(c, f, v.y);
    ExchangeReals(c, f, v.z);
  }

  lemma ExchangeReals(c: real, f: real, x: real)
    ensures c * (f * x) == f * (c * x)
  {
  }

  lemma Distribute(f: real, v: Vect, w: Vect)
    ensures VectMul(f, VectAdd(v, w)) == VectAdd(VectMul(f, v), VectMul(f, w))
  {
  }

  function Times(a: real, b: real): real { a * b }

  lemma MulMul(a: real, b: real, v: Vect)
    ensures VectMul(a, VectMul(b, v)) == VectMul(Times(a, b), v)
  {
    MulMulReals(a, b, v.x);
    MulMulReals(a, b, v.y);
    MulMulReals(a, b, v.z);
  }

  lemma MulMulReals(a: real, b: real, x: real)
    ensures a * (b * x) == a * b * x
  {
  }

  lemma FactorIs(ph: Physics)
    requires ph.Valid()
    ensures Times(ph.deltaT, Times(ph.deltaT, ph.Ratio())) == ph.Factor()
  {
    var r := ph.charge / ph.mass;
    assert ph.deltaT * ph.deltaT * ph.charge / ph.mass == ph.deltaT * ph.deltaT * r by {
      assert (ph.deltaT * ph.deltaT * r) * ph.mass == ph.deltaT * ph.deltaT * ph.charge;
    }
  }

  /** One step keeps the scaled speed equal to deltaT times the speed, and the positions equal. */
  lemma ScaledStepAgrees(ph: Physics, field: seq<Vect>, p: Particle)
    requires ph.Valid() && |field| == NB_CORNERS
    ensures ScaledStep(ScaledField(field, ph.Factor()), ScaleSpeed(ph.deltaT, p))
            == ScaleSpeed(ph.deltaT, Step(ph, field, p))
  {
    hide VectMul, VectAdd, Interp, Coeffs, Times, ScaledField, Physics.Factor, Physics.Ratio;
    var e := FieldAt(field, p.pos);
    var accel := VectMul(ph.Ratio(), e);
    InterpScales(Coeffs(p.pos), field, ph.Factor(), NB_CORNERS);
    Distribute(ph.deltaT, p.speed, VectMul(ph.deltaT, accel));
    MulMul(ph.deltaT, ph.Ratio(), e);
    MulMul(ph.deltaT, Times(ph.deltaT, ph.Ratio()), e);
    FactorIs(ph);
  }

  lemma {:induction false} ScaledRunAgrees(ph: Physics, field: seq<Vect>, p: Particle, n: nat)
    requires ph.Valid() && |field| == NB_CORNERS
    ensures ScaledAfter(ScaledField(field, ph.Factor()), ScaleSpeed(ph.deltaT, p), n)
            == ScaleSpeed(ph.deltaT, After(ph, field, p, n))
  {
    hide ScaledStep, Step, ScaledField, ScaleSpeed;
    if n > 0 {
      ScaledRunAgrees(ph, field, p, n - 1);
      ScaledStepAgrees(ph, field, After(ph, field, p, n - 1));
    }
  }

  lemma UnscaleScale(deltaT: real, p: Particle)
    requires deltaT != 0.0
    ensures UnscaleSpeed(deltaT, ScaleSpeed(deltaT, p)) == p
  {
    DivideProduct(deltaT, p.speed.x);
    DivideProduct(deltaT, p.speed.y);
    DivideProduct(deltaT, p.speed.z);
  }

  lemma DivideProduct(d: real, x: real)
    requires d != 0.0
    ensures Over(d * x, d) == x
  {
  }

  /** With the exact factor, the scaled program ends with the same positions and speeds. */
  lemma ExactFactorAgrees(ph: Physics, field: seq<Vect>, p: Particle, n: nat)
    requires ph.Valid() && |field| == NB_CORNERS
    ensures ScaledRun(ph, ph.Factor(), field, p, n) == After(ph, field, p, n)
  {
    hide ScaledAfter, ScaledField, ScaleSpeed, After, UnscaleSpeed;
    ScaledRunAgrees(ph, field, p, n);
    UnscaleScale(ph.deltaT, After(ph, field, p, n));
  }

  // ----- but the program stores the factor in an int

  ghost predicate ProgramsAgree(ph: Physics)
    requires ph.Valid()
  {
    forall field: seq<Vect>, p: Particle, n: nat :: |field| == NB_CORNERS ==>
      ScaledRun(ph, ph.StoredFactor() as real, field, p, n) == After(ph, field, p, n)
  }

  /** A field of one unit along x at the first corner. */
  function UnitField(): (f: seq<Vect>)
    ensures |f| == NB_CORNERS
  {
    [Vect(1.0, 0.0, 0.0), ZERO, ZERO, ZERO, ZERO, ZERO, ZERO, ZERO]
  }

  /** The two programs agree on all inputs exactly when deltaT^2 * charge / mass is an integer. */
  lemma ProgramsAgreeExactly(ph: Physics)
    requires ph.Valid()
    ensures ProgramsAgree(ph) <==> ph.Factor() == ph.StoredFactor() as real
  {
    hide Physics.Factor, Physics.StoredFactor, ScaledRun, After, UnitField;
    if ph.Factor() == ph.StoredFactor() as real {
      forall field: seq<Vect>, p: Particle, n: nat | |field| == NB_CORNERS
        ensures ScaledRun(ph, ph.StoredFactor() as real, field, p, n) == After(ph, field, p, n)
      {
        ExactFactorAgrees(ph, field, p, n);
      }
    } else {
      var rest := Particle(ZERO, ZERO);
      OneStepFromRest(ph, ph.StoredFactor() as real);
      ExactFactorAgrees(ph, UnitField(), rest, 1);
      OneStepFromRest(ph, ph.Factor());
      assert ScaledRun(ph, ph.StoredFactor() as real, UnitField(), rest, 1) != After(ph, UnitField(), rest, 1);
    }
  }

  /** A particle at rest in the corner moves by the factor. */
  lemma OneStepFromRest(ph: Physics, factor: real)
    requires ph.Valid()
    ensures ScaledRun(ph, factor, UnitField(), Particle(ZERO, ZERO), 1).pos.x == factor
  {
    CornerCoeffs();
    InterpScales(Coeffs(ZERO), UnitField(), factor, NB_CORNERS);
    UnitInterp(Coeffs(ZERO), 8);
    var start := ScaleSpeed(ph.deltaT, Particle(ZERO, ZERO));
    assert start == Particle(ZERO, ZERO);
    hide Coeffs, Interp, ScaledField;
    assert ScaledAfter(ScaledField(UnitField(), factor), start, 0) == start;
    assert ScaledAfter(ScaledField(UnitField(), factor), start, 1)
           == ScaledStep(ScaledField(UnitField(), factor), start);
  }

  lemma CornerCoeffs()
    ensures Coeffs(ZERO)[0] == 1.0
  {
    hide RelativePos, IntOfDouble;
    AtZero();
    assert Product3(1.0, 1.0, 1.0) == 1.0;
  }

  lemma AtZero()
    ensures RelativePos(0.0) == 0.0
  {
    assert 0.0 / CELL == 0.0;
    assert IntOfDouble(0.0) == 0;
  }

  lemma {:induction false} UnitInterp(coeffs: seq<real>, k: nat)
    requires |coeffs| == NB_CORNERS && 1 <= k <= NB_CORNERS
    ensures Interp(coeffs, UnitField(), k) == Vect(coeffs[0], 0.0, 0.0)
  {
    if k > 1 {
      UnitInterp(coeffs, k - 1);
    } else {
      assert Interp(coeffs, UnitField(), 0) == ZERO;
    }
  }

  // ----- the programs

  /** corner_interpolation_coeff; the scaled program has it inlined, with the simplified formulas */
  method CornerInterpolationCoeff(pos: Vect, r: array<real>, simplified: bool)
    requires r.Length == NB_CORNERS
    modifies r
    ensures r[..] == Coeffs(pos)
  {
    hide RelativePos;
    var rX, rY, rZ, cX, cY, cZ;
    RelativePosSimplified(pos.x);
    RelativePosSimplified(pos.y);
    RelativePosSimplified(pos.z);
    if simplified {
      rX, rY, rZ := pos.x / CELL - IntOfDouble(pos.x / CELL) as real,
          pos.y / CELL - IntOfDouble(pos.y / CELL) as real, pos.z / CELL - IntOfDouble(pos.z / CELL) as real;
      cX, cY, cZ := 1.0 - rX, 1.0 - rY, 1.0 - rZ;
    } else {
      rX, rY, rZ := RelativePos(pos.x), RelativePos(pos.y), RelativePos(pos.z);
      cX, cY, cZ := 1.0 + -1.0 * rX, 1.0 + -1.0 * rY, 1.0 + -1.0 * rZ;
    }
    hide IntOfDouble;
    r[0] := Product3(cX, cY, cZ);
    r[1] := Product3(cX, cY, rZ);
    r[2] := Product3(cX, rY, cZ);
    r[3] := Product3(cX, rY, rZ);
    r[4] := Product3(rX, cY, cZ);
    r[5] := Product3(rX, cY, rZ);
    r[6] := Product3(rX, rY, cZ);
    r[7] := Product3(rX, rY, rZ);
  }

  /** matrix_vect_mul */
  method MatrixVectMul(coeffs: array<real>, field: seq<Vect>) returns (res: Vect)
    requires coeffs.Length == NB_CORNERS == |field|
    ensures res == Interp(coeffs[..], field, NB_CORNERS)
  {
    res := ZERO;
    for k: nat := 0 to NB_CORNERS
      invariant res == Interp(coeffs[..], field, k)
    {
      res := VectAdd(res, VectMul(coeffs[k], field[k]));
    }
  }

  /** simulate_single_cell, the plain form */
  method Simulate(ph: Physics, particles: array<Particle>, field: seq<Vect>, nbSteps: nat)
    requires ph.Valid() && |field| == NB_CORNERS
    modifies particles
    ensures forall i: nat :: i < particles.Length ==> particles[i] == After(ph, field, old(particles[i]), nbSteps)
  {
    hide Step;
    for idStep: nat := 0 to nbSteps
      invariant forall i: nat :: i < particles.Length ==> particles[i] == After(ph, field, old(particles[i]), idStep)
    {
      for idPart: nat := 0 to particles.Length
        invariant forall i: nat :: i < particles.Length ==>
                    particles[i] == After(ph, field, old(particles[i]), if i < idPart then idStep + 1 else idStep)
      {
        PushParticle(ph, particles, field, idPart);
      }
    }
  }

  /** The body of the loop over the particles. */
  method PushParticle(ph: Physics, particles: array<Particle>, field: seq<Vect>, idPart: nat)
    requires ph.Valid() && |field| == NB_CORNERS && idPart < particles.Length
    modifies particles
    ensures particles[..] == old(particles[..])[idPart := Step(ph, field, old(particles[idPart]))]
  {
    hide VectAdd, VectMul, Interp, Coeffs;
    var coeffs := new real[NB_CORNERS];
    CornerInterpolationCoeff(particles[idPart].pos, coeffs, false);
    var fieldAtPos := MatrixVectMul(coeffs, field);
    var accel := VectMul(ph.charge / ph.mass, fieldAtPos);
    var speed2 := VectAdd(particles[idPart].speed, VectMul(ph.deltaT, accel));
    var pos2 := VectAdd(particles[idPart].pos, VectMul(ph.deltaT, speed2));
    particles[idPart] := particles[idPart].(pos := pos2);
    particles[idPart] := particles[idPart].(speed := speed2);
  }

  /** simulate_single_cell, the scaled form */
  method SimulateScaled(ph: Physics, particles: array<Particle>, field: seq<Vect>, nbSteps: nat)
    requires ph.Valid() && |field| == NB_CORNERS
    modifies particles
    ensures forall i: nat :: i < particles.Length ==>
              particles[i] == ScaledRun(ph, ph.StoredFactor() as real, field, old(particles[i]), nbSteps)
  {
    hide ScaledStep, ScaledField, ScaleSpeed, UnscaleSpeed;
    var fieldFactor := Truncate(ph.Factor());
    var lField := FactorField(field, fieldFactor);
    for i1: nat := 0 to particles.Length
      invariant forall i: nat :: i < particles.Length ==>
                  particles[i] == if i < i1 then ScaleSpeed(ph.deltaT, old(particles[i])) else old(particles[i])
    {
      particles[i1] := ScaleSpeed(ph.deltaT, particles[i1]);
    }
    for idStep: nat := 0 to nbSteps
      invariant forall i: nat :: i < particles.Length ==>
                  particles[i] == ScaledAfter(lField, ScaleSpeed(ph.deltaT, old(particles[i])), idStep)
    {
      for idPart: nat := 0 to particles.Length
        invariant forall i: nat :: i < particles.Length ==>
                    particles[i] == ScaledAfter(lField, ScaleSpeed(ph.deltaT, old(particles[i])), if i < idPart
                                                then idStep + 1 else idStep)
      {
        PushScaledParticle(particles, lField, idPart);
      }
    }
    ghost var scaled := particles[..];
    assert forall i: nat :: i < particles.Length ==>
             scaled[i] == ScaledAfter(lField, ScaleSpeed(ph.deltaT, old(particles[i])), nbSteps);
    for i1: nat := 0 to particles.Length
      invariant forall i: nat :: i < particles.Length ==>
                  particles[i] == if i < i1 then UnscaleSpeed(ph.deltaT, scaled[i]) else scaled[i]
    {
      particles[i1] := UnscaleSpeed(ph.deltaT, particles[i1]);
    }
  }

  /** The loop that scales the field at the corners. */
  method FactorField(field: seq<Vect>, fieldFactor: int) returns (lField: seq<Vect>)
    requires |field| == NB_CORNERS
    ensures lField == ScaledField(field, fieldFactor as real)
  {
    var l := new Vect[NB_CORNERS];
    for i1: nat := 0 to NB_CORNERS
      invariant forall k: nat :: k < i1 ==> l[k] == VectMul(fieldFactor as real, field[k])
    {
      l[i1] := Vect(field[i1].x * fieldFactor as real, field[i1].y * fieldFactor as real,
                    field[i1].z * fieldFactor as real);
    }
    lField := l[..];
  }

  /** The body of the loop over the particles. */
  method PushScaledParticle(particles: array<Particle>, lField: seq<Vect>, idPart: nat)
    requires |lField| == NB_CORNERS && idPart < particles.Length
    modifies particles
    ensures particles[..] == old(particles[..])[idPart := ScaledStep(lField, old(particles[idPart]))]
  {
    hide Interp, Coeffs;
    var coeffs := new real[NB_CORNERS];
    CornerInterpolationCoeff(particles[idPart].pos, coeffs, true);
    var x, y, z := InterpByAxis(coeffs, lField);
    var speed2 := Vect(particles[idPart].speed.x + x, particles[idPart].speed.y + y, particles[idPart].speed.z + z);
    particles[idPart] := particles[idPart].(pos := VectAdd(particles[idPart].pos, speed2));
    particles[idPart] := particles[idPart].(speed := speed2);
  }

  /** The interpolation loop with one accumulator for each axis. */
  method InterpByAxis(coeffs: array<real>, lField: seq<Vect>) returns (x: real, y: real, z: real)
    requires coeffs.Length == NB_CORNERS == |lField|
    ensures Vect(x, y, z) == Interp(coeffs[..], lField, NB_CORNERS)
  {
    ghost var c := coeffs[..];
    NoCorners(c, lField);
    hide Interp, VectMul;
    x, y, z := 0.0, 0.0, 0.0;
    for k: nat := 0 to NB_CORNERS
      invariant Vect(x, y, z) == Interp(c, lField, k)
    {
      NextCorner(c, lField, k);
      x := x + coeffs[k] * lField[k].x;
      y := y + coeffs[k] * lField[k].y;
      z := z + coeffs[k] * lField[k].z;
    }
  }

  lemma NoCorners(coeffs: seq<real>, field: seq<Vect>)
    ensures Interp(coeffs, field, 0) == ZERO
  {
  }

  lemma NextCorner(coeffs: seq<real>, field: seq<Vect>, k: nat)
    requires k < |coeffs| && k < |field|
    ensures var v, c, f := Interp(coeffs, field, k), coeffs[k], field[k];
            Interp(coeffs, field, k + 1) == Vect(v.x + c * f.x, v.y + c * f.y, v.z + c * f.z)
  {
  }
}
