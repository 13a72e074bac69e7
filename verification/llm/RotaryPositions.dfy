/**
 Why positions are encoded by rotations: over the reals, the product of a rotated query and a rotated
 key depends on their positions only through the difference.
 */
module RotaryPositions {
  import opened ExactArithmetic
  import opened Floats
  import opened Kernels

  lemma PowersPositive(r: Reals, x: real)
    requires PowLaws(r)
    ensures r.pow(500000.0, x) > 0.0
  {
    assert PowSplitsAt(r, 500000.0, x, x);
  }

  lemma PowersSplit(r: Reals, x: real, y: real)
    requires PowLaws(r)
    ensures r.pow(500000.0, x) == Times(r.pow(500000.0, x - y), r.pow(500000.0, y)) && r.pow(500000.0, 1.0) == 500000.0
  {
    assert PowSplitsAt(r, 500000.0, x, y);
  }

  /** The angle per position of the pair of coordinates j and j + 1. */
  ghost function Frequency(r: Reals, cols: nat, j: nat): real
    requires PowLaws(r) && cols > 0
  {
    PowersPositive(r, j as real / cols as real);
    1.0 / r.pow(500000.0, j as real / cols as real)
  }

  /** The frequencies are a geometric progression, from 1 for the first pair to 1 / 500000 beyond the last. */
  lemma FrequenciesAreGeometric(r: Reals, cols: nat, j: nat, k: nat)
    requires PowLaws(r) && cols > 0
    ensures Frequency(r, cols, j + k) == Times(Frequency(r, cols, j), Frequency(r, cols, k))
    ensures Frequency(r, cols, 0) == 1.0 && Frequency(r, cols, cols) == 1.0 / 500000.0
  {
    hide PowLaws, Times;
    var c := cols as real;
    PowersSplit(r, (j + k) as real / c, k as real / c);
    QuotientSplits(j, k, c);
    PowersSplit(r, 1.0, 1.0);
    assert 1.0 - 1.0 == 0.0 / c && c / c == 1.0;
    OneTimes(r.pow(500000.0, 0.0), 500000.0);
    PowersPositive(r, j as real / c);
    PowersPositive(r, k as real / c);
    InverseOfProduct(r.pow(500000.0, j as real / c), r.pow(500000.0, k as real / c));
  }

  lemma QuotientSplits(j: nat, k: nat, c: real)
    requires c != 0.0
    ensures (j + k) as real / c - k as real / c == j as real / c
  {
  }

  lemma OneTimes(a: real, c: real)
    requires c > 0.0 && c == Times(a, c)
    ensures a == 1.0
  {
    OnlyOne(a, c);
  }

  lemma InverseOfProduct(a: real, b: real)
    requires a > 0.0 && b > 0.0
    ensures Times(a, b) != 0.0 && 1.0 / Times(a, b) == Times(1.0 / a, 1.0 / b)
  {
    var i, j := 1.0 / a, 1.0 / b;
    assert i * a == 1.0 && j * b == 1.0;
    assert a * b > 0.0;
    assert i * j * (a * b) == (i * a) * (j * b);
  }

  // ----- the angle of a pair

  lemma AngleIs(ops: Ops, r: Reals, cols: nat, j: nat, pos: nat)
    requires Exact(ops, r) && PowLaws(r) && cols > 0
    ensures r.val(Angle(ops, cols, j, pos)) == Times(pos as real, Frequency(r, cols, j))
  {
    hide Exact, PowLaws;
    var exponent := ops.div(ops.ofInt(j), ops.ofInt(cols));
    Constants(ops, r, j);
    Constants(ops, r, cols);
    Constants(ops, r, pos);
    Constants(ops, r, 500000);
    Divides(ops, r, ops.ofInt(j), ops.ofInt(cols));
    PowIs(ops, r, ops.ofInt(500000), exponent);
    PowersPositive(r, j as real / cols as real);
    Divides(ops, r, ops.one, ops.pow(ops.ofInt(500000), exponent));
    Multiplies(ops, r, ops.ofInt(pos), ops.div(ops.one, ops.pow(ops.ofInt(500000), exponent)));
  }

  lemma PowIs(ops: Ops, r: Reals, a: Float, b: Float)
    requires Exact(ops, r)
    ensures r.val(ops.pow(a, b)) == r.pow(r.val(a), r.val(b))
  {
  }

  // ----- rotating a query and a key

  function Rotated0(r: Reals, v0: real, v1: real, a: real): real { v0 * r.cos(a) - v1 * r.sin(a) }

  function Rotated1(r: Reals, v0: real, v1: real, a: real): real { v0 * r.sin(a) + v1 * r.cos(a) }

  lemma PairRotates(ops: Ops, r: Reals, x: Vec, pos: nat, j: nat)
    requires Exact(ops, r) && PowLaws(r) && |x| % 2 == 0 && j % 2 == 0 && j < |x|
    ensures var a, v, y := Times(pos as real, Frequency(r, |x|, j)), r.Vals(x), r.Vals(RopeOf(ops, x, pos));
            y[j] == Rotated0(r, v[j], v[j + 1], a) && y[j + 1] == Rotated1(r, v[j], v[j + 1], a)
  {
    hide Exact, PowLaws, RopeOf, Angle, Times;
    var a := Angle(ops, |x|, j, pos);
    RopePair(ops, x, pos, j);
    AngleIs(ops, r, |x|, j, pos);
    TurnIs(ops, r, x[j], x[j + 1], a);
  }

  lemma TurnIs(ops: Ops, r: Reals, v0: Float, v1: Float, a: Float)
    requires Exact(ops, r)
    ensures r.val(ops.sub(ops.mul(v0, ops.cos(a)), ops.mul(v1, ops.sin(a))))
         == Rotated0(r, r.val(v0), r.val(v1), r.val(a))
    ensures r.val(ops.add(ops.mul(v0, ops.sin(a)), ops.mul(v1, ops.cos(a))))
         == Rotated1(r, r.val(v0), r.val(v1), r.val(a))
  {
    hide Exact;
    CosSinAre(ops, r, a);
    Multiplies(ops, r, v0, ops.cos(a));
    Multiplies(ops, r, v1, ops.sin(a));
    Multiplies(ops, r, v0, ops.sin(a));
    Multiplies(ops, r, v1, ops.cos(a));
    Subtracts(ops, r, ops.mul(v0, ops.cos(a)), ops.mul(v1, ops.sin(a)));
    Adds(ops, r, ops.mul(v0, ops.sin(a)), ops.mul(v1, ops.cos(a)));
  }

  lemma CosSinAre(ops: Ops, r: Reals, a: Float)
    requires Exact(ops, r)
    ensures r.val(ops.cos(a)) == r.cos(r.val(a)) && r.val(ops.sin(a)) == r.sin(r.val(a))
  {
  }

  /** The product of two pairs turned by angles that differ by d. */
  function PairScore(r: Reals, q0: real, q1: real, k0: real, k1: real, d: real): real {
    (q0 * k0 + q1 * k1) * r.cos(d) + (q0 * k1 - q1 * k0) * r.sin(d)
  }

  lemma AngleLawsAt(r: Reals, a: real, b: real)
    requires AngleLaws(r)
    ensures r.cos(b) * r.cos(b) + r.sin(b) * r.sin(b) == 1.0
    ensures r.cos(a) == r.cos(a - b) * r.cos(b) - r.sin(a - b) * r.sin(b)
    ensures r.sin(a) == r.sin(a - b) * r.cos(b) + r.cos(a - b) * r.sin(b)
  {
    assert AngleSplitsAt(r, a, b);
  }

  lemma DifferenceOfAngles(ca: real, sa: real, cb: real, sb: real, cd: real, sd: real)
    requires cb * cb + sb * sb == 1.0 && ca == cd * cb - sd * sb && sa == sd * cb + cd * sb
    ensures ca * cb + sa * sb == cd && sa * cb - ca * sb == sd
  {
    assert ca * cb + sa * sb == cd * (cb * cb + sb * sb);
    assert sa * cb - ca * sb == sd * (cb * cb + sb * sb);
  }

  lemma PairsMultiply(q0: real, q1: real, k0: real, k1: real, ca: real, sa: real, cb: real, sb: real)
    ensures (q0 * ca - q1 * sa) * (k0 * cb - k1 * sb) + (q0 * sa + q1 * ca) * (k0 * sb + k1 * cb)
         == (q0 * k0 + q1 * k1) * (ca * cb + sa * sb) + (q0 * k1 - q1 * k0) * (sa * cb - ca * sb)
  {
  }

  lemma TurnedPairs(r: Reals, q0: real, q1: real, k0: real, k1: real, a: real, b: real)
    requires AngleLaws(r)
    ensures Times(Rotated0(r, q0, q1, a), Rotated0(r, k0, k1, b))
            + Times(Rotated1(r, q0, q1, a), Rotated1(r, k0, k1, b))
         == PairScore(r, q0, q1, k0, k1, a - b)
  {
    AngleLawsAt(r, a, b);
    hide AngleLaws;
    DifferenceOfAngles(r.cos(a), r.sin(a), r.cos(b), r.sin(b), r.cos(a - b), r.sin(a - b));
    PairsMultiply(q0, q1, k0, k1, r.cos(a), r.sin(a), r.cos(b), r.sin(b));
  }

  lemma AnglesDiffer(i: nat, j: nat, f: real)
    ensures Times(i as real, f) - Times(j as real, f) == Times((i - j) as real, f)
  {
  }

  /** The first n pairs of a query and a key that are d positions apart. */
  ghost function RelativeScore(r: Reals, q: seq<real>, k: seq<real>, d: int, n: nat): real
    requires PowLaws(r) && 2 * n <= |q| == |k|
  {
    if n == 0 then 0.0
    else
      var j := 2 * (n - 1);
      RelativeScore(r, q, k, d, n - 1)
        + PairScore(r, q[j], q[j + 1], k[j], k[j + 1], Times(d as real, Frequency(r, |q|, j)))
  }

  lemma TwoTerms(v: seq<real>, n: nat)
    requires n + 2 <= |v|
    ensures Sum(v, n + 2) == Sum(v, n) + v[n] + v[n + 1]
  {
    assert Sum(v, n + 1) == Sum(v, n) + v[n];
  }

  /** One pair of the product of a rotated query and a rotated key. */
  lemma PairIsRelative(ops: Ops, r: Reals, q: Vec, k: Vec, i: nat, j: nat, p: nat)
    requires Exact(ops, r) && PowLaws(r) && AngleLaws(r) && |q| == |k| && |q| % 2 == 0 && p % 2 == 0 && p < |q|
    ensures var products, v, w := Products(r.Vals(RopeOf(ops, q, i)), r.Vals(RopeOf(ops, k, j))), r.Vals(q), r.Vals(k);
            products[p] + products[p + 1]
              == PairScore(r, v[p], v[p + 1], w[p], w[p + 1], Times((i - j) as real, Frequency(r, |q|, p)))
  {
    hide Exact, PowLaws, AngleLaws, RopeOf, Times, PairScore, Rotated0, Rotated1, Frequency;
    var f, v, w := Frequency(r, |q|, p), r.Vals(q), r.Vals(k);
    PairRotates(ops, r, q, i, p);
    PairRotates(ops, r, k, j, p);
    TurnedPairs(r, v[p], v[p + 1], w[p], w[p + 1], Times(i as real, f), Times(j as real, f));
    AnglesDiffer(i, j, f);
  }

  /** The product of a query at position i and a key at position j depends on i - j only. */
  lemma {:induction false} ScoreIsRelative(ops: Ops, r: Reals, q: Vec, k: Vec, i: nat, j: nat, n: nat)
    requires Exact(ops, r) && PowLaws(r) && AngleLaws(r) && |q| == |k| && |q| % 2 == 0 && 2 * n <= |q|
    ensures Sum(Products(r.Vals(RopeOf(ops, q, i)), r.Vals(RopeOf(ops, k, j))), 2 * n)
         == RelativeScore(r, r.Vals(q), r.Vals(k), i - j, n)
  {
    hide Exact, PowLaws, AngleLaws, RopeOf, Sum, Times, PairScore, Frequency, Products, Reals.Vals;
    var products := Products(r.Vals(RopeOf(ops, q, i)), r.Vals(RopeOf(ops, k, j)));
    if n == 0 {
      EmptySum(products);
    } else {
      ScoreIsRelative(ops, r, q, k, i, j, n - 1);
      TwoTerms(products, 2 * (n - 1));
      PairIsRelative(ops, r, q, k, i, j, 2 * (n - 1));
    }
  }

  lemma EmptySum(v: seq<real>)
    ensures Sum(v, 0) == 0.0
  {
  }
}
