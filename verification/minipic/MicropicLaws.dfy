/** What the formulas of the plain simulation mean, and a run of it in closed form. */
module MicropicLaws {
  import opened Doubles
  import opened Micropic
  import T = Trilinear

  // ----- interpolation

  /** The values along each axis of a field at the corners. */
  function Xs(field: seq<Vect>): (v: seq<real>)
    ensures |v| == |field|
  {
    seq(|field|, k requires 0 <= k < |field| => field[k].x)
  }

  function Ys(field: seq<Vect>): (v: seq<real>)
    ensures |v| == |field|
  {
    seq(|field|, k requires 0 <= k < |field| => field[k].y)
  }

  function Zs(field: seq<Vect>): (v: seq<real>)
    ensures |v| == |field|
  {
    seq(|field|, k requires 0 <= k < |field| => field[k].z)
  }

  /** The first k terms, along one axis. */
  function Terms(coeffs: seq<real>, v: seq<real>, k: nat): real
    requires k <= |coeffs| && k <= |v|
  {
    if k == 0 then 0.0 else Terms(coeffs, v, k - 1) + coeffs[k - 1] * v[k - 1]
  }

  lemma {:induction false} InterpByAxes(coeffs: seq<real>, field: seq<Vect>, k: nat)
    requires k <= |coeffs| && k <= |field|
    ensures Interp(coeffs, field, k)
         == Vect(Terms(coeffs, Xs(field), k), Terms(coeffs, Ys(field), k), Terms(coeffs, Zs(field), k))
  {
    if k > 0 {
      InterpByAxes(coeffs, field, k - 1);
      NextCorner(coeffs, field, k - 1);
      hide Interp;
    }
  }

  lemma EightTerms(c: seq<real>, v: seq<real>)
    requires |c| == NB_CORNERS == |v|
    ensures Terms(c, v, NB_CORNERS) == c[0] * v[0] + c[1] * v[1] + c[2] * v[2] + c[3] * v[3]
                                       + c[4] * v[4] + c[5] * v[5] + c[6] * v[6] + c[7] * v[7]
  {
    assert Terms(c, v, 1) == c[0] * v[0];
    assert Terms(c, v, 3) == Terms(c, v, 1) + c[1] * v[1] + c[2] * v[2];
    assert Terms(c, v, 5) == Terms(c, v, 3) + c[3] * v[3] + c[4] * v[4];
    assert Terms(c, v, 7) == Terms(c, v, 5) + c[5] * v[5] + c[6] * v[6];
  }

  lemma CoeffsAreShares(pos: Vect)
    ensures var x, y, z := RelativePos(pos.x), RelativePos(pos.y), RelativePos(pos.z);
            var cx, cy, cz := 1.0 - x, 1.0 - y, 1.0 - z;
            Coeffs(pos) == [T.Share(cx, cy, cz), T.Share(cx, cy, z), T.Share(cx, y, cz), T.Share(cx, y, z),
                            T.Share(x, cy, cz), T.Share(x, cy, z), T.Share(x, y, cz), T.Share(x, y, z)]
  {
    hide RelativePos;
    SameProducts();
    hide Product3, T.Share;
  }

  lemma SameProducts()
    ensures forall a, b, c :: T.Share(a, b, c) == Product3(a, b, c)
  {
  }

  lemma AxisIsTrilinear(pos: Vect, v: seq<real>)
    requires |v| == NB_CORNERS
    ensures Terms(Coeffs(pos), v, NB_CORNERS)
         == T.Trilinear(RelativePos(pos.x), RelativePos(pos.y), RelativePos(pos.z), v)
  {
    hide RelativePos, Coeffs, Terms, T.Trilinear, T.Share;
    EightTerms(Coeffs(pos), v);
    CoeffsAreShares(pos);
    T.EightTerms(RelativePos(pos.x), RelativePos(pos.y), RelativePos(pos.z), v);
  }

  /** The field at a position: that at the corners, interpolated along x, y and z in turn. */
  lemma FieldIsTrilinear(field: seq<Vect>, pos: Vect)
    requires |field| == NB_CORNERS
    ensures var x, y, z := RelativePos(pos.x), RelativePos(pos.y), RelativePos(pos.z);
            FieldAt(field, pos) == Vect(T.Trilinear(x, y, z, Xs(field)), T.Trilinear(x, y, z, Ys(field)),
                                        T.Trilinear(x, y, z, Zs(field)))
  {
    hide RelativePos, Coeffs, Terms, T.Trilinear, Interp, Xs, Ys, Zs;
    InterpByAxes(Coeffs(pos), field, NB_CORNERS);
    AxisIsTrilinear(pos, Xs(field));
    AxisIsTrilinear(pos, Ys(field));
    AxisIsTrilinear(pos, Zs(field));
  }

  /** A position is that of a corner of the grid and, from there, the relative position in cells. */
  lemma PositionSplits(x: real) returns (corner: int)
    ensures x == (corner as real + RelativePos(x)) * CELL && 0.0 <= RelativePos(x) <= 1.0
  {
    corner := IntOfDouble(x / CELL);
    RelativePosSimplified(x);
    RelativePositionInUnit(x / CELL);
    hide RelativePos, IntOfDouble;
    assert x == x / CELL * CELL;
  }

  // ----- a uniform field

  predicate Uniform(field: seq<Vect>,
                    e: Vect) { |field| == NB_CORNERS && forall k :: 0 <= k < |field| ==> field[k] == e }

  lemma ConstantAxis(v: seq<real>, a: real, x: real, y: real, z: real)
    requires |v| == NB_CORNERS && forall k :: 0 <= k < |v| ==> v[k] == a
    ensures T.Trilinear(x, y, z, v) == a
  {
    BetweenSame(x, a);
    BetweenSame(y, a);
    BetweenSame(z, a);
    hide T.Between;
  }

  lemma BetweenSame(t: real, a: real)
    ensures T.Between(t, a, a) == a
  {
  }

  lemma UniformFieldAt(field: seq<Vect>, e: Vect, pos: Vect)
    requires Uniform(field, e)
    ensures FieldAt(field, pos) == e
  {
    hide RelativePos, FieldAt, T.Trilinear;
    var x, y, z := RelativePos(pos.x), RelativePos(pos.y), RelativePos(pos.z);
    FieldIsTrilinear(field, pos);
    ConstantAxis(Xs(field), e.x, x, y, z);
    ConstantAxis(Ys(field), e.y, x, y, z);
    ConstantAxis(Zs(field), e.z, x, y, z);
  }

  /** 1 + ... + n */
  function Triangle(n: nat): nat { if n == 0 then 0 else Triangle(n - 1) + n }

  /** Along one axis: the speed and the position after n steps of length t with acceleration a. */
  function SpeedAfter(t: real, a: real, v: real, n: nat): real { v + n as real * (t * a) }

  function PlaceAfter(t: real, a: real, x: real, v: real, n: nat): real {
    x + n as real * (t * v) + Triangle(n) as real * (t * (t * a))
  }

  lemma AxisStep(t: real, a: real, x: real, v: real, n: nat)
    ensures SpeedAfter(t, a, v, n + 1) == SpeedAfter(t, a, v, n) + t * a
    ensures PlaceAfter(t, a, x, v, n + 1) == PlaceAfter(t, a, x, v, n) + t * SpeedAfter(t, a, v, n + 1)
  {
    var ta, tta, tv := t * a, t * (t * a), t * v;
    NextMultiple(n as real, ta);
    NextMultiple(n as real, tv);
    var m := (n + 1) as real;
    assert t * (v + m * ta) == tv + m * tta;
    assert (Triangle(n) as real + m) * tta == Triangle(n) as real * tta + m * tta;
  }

  lemma NextMultiple(n: real, x: real)
    ensures (n + 1.0) * x == n * x + x
  {
  }

  /** A step, axis by axis, where the field at the particle is e. */
  lemma StepInField(ph: Physics, field: seq<Vect>, e: Vect, p: Particle)
    requires ph.Valid() && |field| == NB_CORNERS && FieldAt(field, p.pos) == e
    ensures var t, r, q := ph.deltaT, ph.Ratio(), Step(ph, field, p);
            && q.speed == Vect(p.speed.x + t * (r * e.x), p.speed.y + t * (r * e.y), p.speed.z + t * (r * e.z))
            && q.pos == Vect(p.pos.x + t * q.speed.x, p.pos.y + t * q.speed.y, p.pos.z + t * q.speed.z)
  {
    hide FieldAt, Physics.Ratio;
  }

  /** What n steps with acceleration a make of a particle. */
  function Thrown(t: real, a: Vect, p: Particle, n: nat): Particle {
    Particle(Vect(PlaceAfter(t, a.x, p.pos.x, p.speed.x, n), PlaceAfter(t, a.y, p.pos.y, p.speed.y, n),
                  PlaceAfter(t, a.z, p.pos.z, p.speed.z, n)),
             Vect(SpeedAfter(t, a.x, p.speed.x, n), SpeedAfter(t, a.y, p.speed.y, n), SpeedAfter(t, a.z, p.speed.z, n)))
  }

  lemma ThrownFirst(t: real, a: Vect, p: Particle)
    ensures Thrown(t, a, p, 0) == p
  {
    NoSteps(t, a.x, p.pos.x, p.speed.x);
    NoSteps(t, a.y, p.pos.y, p.speed.y);
    NoSteps(t, a.z, p.pos.z, p.speed.z);
    hide SpeedAfter, PlaceAfter;
  }

  lemma ThrownNext(t: real, a: Vect, p: Particle, n: nat)
    ensures var q, q' := Thrown(t, a, p, n), Thrown(t, a, p, n + 1);
            && q'.speed == Vect(q.speed.x + t * a.x, q.speed.y + t * a.y, q.speed.z + t * a.z)
            && q'.pos == Vect(q.pos.x + t * q'.speed.x, q.pos.y + t * q'.speed.y, q.pos.z + t * q'.speed.z)
  {
    AxisStep(t, a.x, p.pos.x, p.speed.x, n);
    AxisStep(t, a.y, p.pos.y, p.speed.y, n);
    AxisStep(t, a.z, p.pos.z, p.speed.z, n);
    hide SpeedAfter, PlaceAfter;
  }

  lemma StepThrows(ph: Physics, field: seq<Vect>, e: Vect, p: Particle, n: nat)
    requires ph.Valid() && Uniform(field, e)
    ensures var t, a := ph.deltaT, VectMul(ph.Ratio(), e);
            Step(ph, field, Thrown(t, a, p, n)) == Thrown(t, a, p, n + 1)
  {
    hide Thrown, FieldAt, Step, Physics.Ratio;
    var t, a := ph.deltaT, VectMul(ph.Ratio(), e);
    UniformFieldAt(field, e, Thrown(t, a, p, n).pos);
    StepInField(ph, field, e, Thrown(t, a, p, n));
    ThrownNext(t, a, p, n);
  }

  /**
   In a uniform field e, n steps of the plain simulation add n times deltaT * charge / mass * e to the speed, and
   carry a particle where n steps of its first speed and 1 + ... + n of these increments take it.
   */
  lemma {:induction false} UniformFieldRun(ph: Physics, field: seq<Vect>, e: Vect, p: Particle, n: nat)
    requires ph.Valid() && Uniform(field, e)
    ensures After(ph, field, p, n) == Thrown(ph.deltaT, VectMul(ph.charge / ph.mass, e), p, n)
  {
    assert ph.Ratio() == ph.charge / ph.mass;
    hide Thrown, Step, VectMul, Physics.Ratio;
    if n == 0 {
      ThrownFirst(ph.deltaT, VectMul(ph.Ratio(), e), p);
    } else {
      UniformFieldRun(ph, field, e, p, n - 1);
      StepThrows(ph, field, e, p, n - 1);
    }
  }

  lemma NoSteps(t: real, a: real, x: real, v: real)
    ensures SpeedAfter(t, a, v, 0) == v && PlaceAfter(t, a, x, v, 0) == x
  {
  }
}
