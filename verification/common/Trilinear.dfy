/**
 Interpolation in a cell. The programs add up eight corner values, each with its share; what they
 mean is three linear interpolations, one inside the other.
 */
module Trilinear {

  const CORNERS: nat := 8

  /** Between a at 0 and b at 1. */
  function Between(t: real, a: real, b: real): real { (1.0 - t) * a + t * b }

  /** The value at (x, y, z) of the corner values v: x is bit 2 of a corner's number, y bit 1, z bit 0. */
  function Trilinear(x: real, y: real, z: real, v: seq<real>): real
    requires |v| == CORNERS
  {
    Between(x, Between(y, Between(z, v[0], v[1]), Between(z, v[2], v[3])),
            Between(y, Between(z, v[4], v[5]), Between(z, v[6], v[7])))
  }

  function Share(a: real, b: real, c: real): real { a * b * c }

  // ----- eight terms

  lemma Pair(a: real, b: real, z: real, v: real, w: real)
    ensures Share(a, b, 1.0 - z) * v + Share(a, b, z) * w == a * (b * Between(z, v, w))
  {
    var ab := a * b;
    assert ab * (1.0 - z) * v + ab * z * w == ab * ((1.0 - z) * v + z * w);
    assert a * (b * Between(z, v, w)) == ab * Between(z, v, w);
  }

  lemma Quad(a: real, y: real, p: real, q: real)
    ensures a * ((1.0 - y) * p) + a * (y * q) == a * Between(y, p, q)
  {
    assert a * ((1.0 - y) * p) + a * (y * q) == a * ((1.0 - y) * p + y * q);
  }

  /** The four corners of one face. */
  lemma Face(a: real, y: real, z: real, v0: real, v1: real, v2: real, v3: real)
    ensures Share(a, 1.0 - y, 1.0 - z) * v0 + Share(a, 1.0 - y, z) * v1 + Share(a, y, 1.0 - z) * v2
            + Share(a, y, z) * v3
         == a * Between(y, Between(z, v0, v1), Between(z, v2, v3))
  {
    hide Share, Between;
    Pair(a, 1.0 - y, z, v0, v1);
    Pair(a, y, z, v2, v3);
    Quad(a, y, Between(z, v0, v1), Between(z, v2, v3));
  }

  /** The eight shares of a position, applied to any corner values, interpolate them along each axis in turn. */
  lemma EightTerms(x: real, y: real, z: real, v: seq<real>)
    requires |v| == CORNERS
    ensures var cx, cy, cz := 1.0 - x, 1.0 - y, 1.0 - z;
            Share(cx, cy, cz) * v[0] + Share(cx, cy, z) * v[1] + Share(cx, y, cz) * v[2] + Share(cx, y, z) * v[3]
              + Share(x, cy, cz) * v[4] + Share(x, cy, z) * v[5] + Share(x, y, cz) * v[6] + Share(x, y, z) * v[7]
            == Trilinear(x, y, z, v)
  {
    hide Share, Between;
    Face(1.0 - x, y, z, v[0], v[1], v[2], v[3]);
    Face(x, y, z, v[4], v[5], v[6], v[7]);
    BetweenIs(x, Between(y, Between(z, v[0], v[1]), Between(z, v[2], v[3])),
              Between(y, Between(z, v[4], v[5]), Between(z, v[6], v[7])));
  }

  lemma BetweenIs(t: real, a: real, b: real)
    ensures Between(t, a, b) == (1.0 - t) * a + t * b
  {
  }

  // ----- affine functions

  function Bit(b: bool): real { if b then 1.0 else 0.0 }

  /** A function with these slopes, at a point. */
  function Affine(a: real, b: real, c: real, d: real, x: real, y: real, z: real): real { a + b * x + c * y + d * z }

  /** The corner values are those of the affine function. */
  predicate AffineCorners(v: seq<real>, a: real, b: real, c: real, d: real) {
    |v| == CORNERS && forall k :: 0 <= k < CORNERS ==>
      v[k] == Affine(a, b, c, d, Bit(k / 4 == 1), Bit(k / 2 % 2 == 1), Bit(k % 2 == 1))
  }

  lemma BetweenAffine(t: real, a: real, slope: real)
    ensures Between(t, a, a + slope) == a + slope * t
  {
  }

  /** Trilinear interpolation reproduces affine functions. */
  lemma AffineIsReproduced(v: seq<real>, a: real, b: real, c: real, d: real, x: real, y: real, z: real)
    requires AffineCorners(v, a, b, c, d)
    ensures Trilinear(x, y, z, v) == Affine(a, b, c, d, x, y, z)
  {
    CornerLevels(v, a, b, c, d);
    hide Between, AffineCorners;
    BetweenAffine(z, a, d);
    BetweenAffine(z, a + c, d);
    BetweenAffine(z, a + b, d);
    BetweenAffine(z, a + b + c, d);
    BetweenAffine(y, a + d * z, c);
    BetweenAffine(y, a + b + d * z, c);
    BetweenAffine(x, a + d * z + c * y, b);
  }

  lemma CornerLevels(v: seq<real>, a: real, b: real, c: real, d: real)
    requires AffineCorners(v, a, b, c, d)
    ensures v == [a, a + d, a + c, a + c + d, a + b, a + b + d, a + b + c, a + b + c + d]
  {
  }
}
