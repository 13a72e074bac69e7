/** Doubles as reals: their truncation, and vectors of three. */
module Doubles {

  // ----- truncation

  /** The C conversion (int)a, which truncates toward zero. */
  function Truncate(a: real): int {
    if a >= 0.0 then a.Floor else -((-a).Floor)
  }

  function IntOfDouble(a: real): int {
    Truncate(a) - (if a < 0.0 then 1 else 0)
  }

  /** int_of_double is the floor except on negative integers, where it is one less. */
  lemma IntOfDoubleIsFloor(a: real)
    ensures IntOfDouble(a) == a.Floor <==> !(a < 0.0 && a == a.Floor as real)
    ensures a < 0.0 && a == a.Floor as real ==> IntOfDouble(a) == a.Floor - 1
  {
    if a < 0.0 {
      var f := (-a).Floor;
      assert f as real <= -a < f as real + 1.0;
      if a == a.Floor as real {
        assert -a == (-(a.Floor)) as real;
      } else {
        assert a.Floor as real < a < a.Floor as real + 1.0;
        assert f == -(a.Floor) - 1;
      }
    }
  }

  /** So the relative position is in the unit interval, and 1 is reached only by that exception. */
  lemma RelativePositionInUnit(a: real)
    ensures 0.0 <= a - IntOfDouble(a) as real <= 1.0
    ensures a - IntOfDouble(a) as real == 1.0 <==> a < 0.0 && a == a.Floor as real
  {
    IntOfDoubleIsFloor(a);
  }

  // ----- vectors

  datatype Vect = Vect(x: real, y: real, z: real)

  function VectAdd(v: Vect, w: Vect): Vect { Vect(v.x + w.x, v.y + w.y, v.z + w.z) }

  function VectMul(d: real, v: Vect): Vect { Vect(d * v.x, d * v.y, d * v.z) }
}
