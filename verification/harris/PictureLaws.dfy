/**
 What the picture of the corner detector means: the response in terms of the principal gradients of a
 window, no corner on a ramp, and no preferred axis.
 */
module PictureLaws {
  import opened Matrices
  import opened Scene

  // ----- the response of a window

  /**
   A window whose gradients have squares adding up to l1 along one direction and l2 across it, the direction
   being (c, s), has the response l1 * l2 - kappa * (l1 + l2)^2, whatever the direction.
   */
  lemma ResponseIsByPrincipalGradients(kappa: real, l1: real, l2: real, c: real, s: real)
    requires c * c + s * s == 1.0
    ensures Coarsity(kappa, l1 * (c * c) + l2 * (s * s), (l1 - l2) * (c * s), l1 * (s * s) + l2 * (c * c))
         == l1 * l2 - kappa * ((l1 + l2) * (l1 + l2))
  {
    var a, b, d := c * c, s * s, c * s;
    assert d * d == a * b by { assert (c * s) * (c * s) == (c * c) * (s * s); }
    TraceIs(l1, l2, a, b);
    DeterminantIs(l1, l2, a, b, d);
    Together(kappa, l1 * a + l2 * b, (l1 - l2) * d, l1 * b + l2 * a, l1 + l2);
  }

  lemma TraceIs(l1: real, l2: real, a: real, b: real)
    requires a + b == 1.0
    ensures (l1 * a + l2 * b) + (l1 * b + l2 * a) == l1 + l2
  {
    assert l1 * a + l1 * b == l1 * (a + b);
    assert l2 * a + l2 * b == l2 * (a + b);
  }

  lemma DeterminantIs(l1: real, l2: real, a: real, b: real, d: real)
    requires a + b == 1.0 && d * d == a * b
    ensures (l1 * a + l2 * b) * (l1 * b + l2 * a) - ((l1 - l2) * d) * ((l1 - l2) * d) == l1 * l2
  {
    assert ((l1 - l2) * d) * ((l1 - l2) * d) == (l1 - l2) * (l1 - l2) * (d * d);
    assert (l1 * a + l2 * b) * (l1 * b + l2 * a)
        == l1 * l1 * (a * b) + l1 * l2 * (a * a) + l1 * l2 * (b * b) + l2 * l2 * (a * b);
    assert a * a + 2.0 * (a * b) + b * b == (a + b) * (a + b);
    assert l1 * l2 * (a * a) + l1 * l2 * (b * b) + 2.0 * (l1 * l2 * (a * b)) == l1 * l2 * ((a + b) * (a + b));
  }

  lemma Together(kappa: real, sxx: real, sxy: real, syy: real, t: real)
    requires sxx + syy == t
    ensures Coarsity(kappa, sxx, sxy, syy) == sxx * syy - sxy * sxy - kappa * (t * t)
  {
  }

  // ----- a ramp

  /** A ramp that is a at the origin and rises by b to the right and by d downwards. */
  function Level(a: real, b: real, d: real, y: nat, x: nat): real { a + b * x as real + d * y as real }

  /** Plane c rises by right[c] from each pixel to the next one on its right, and by down[c] to the one below. */
  ghost predicate Ramps(s: Scene, first: seq<real>, right: seq<real>, down: seq<real>)
    requires s.Valid()
  {
    && |right| == |down| == |first| == 3
    && forall c, y: nat, x: nat :: 0 <= c < 3 && y < s.h && x < s.w ==>
         s.planes[c][y][x] == Level(first[c], right[c], down[c], y, x)
  }

  /** The weights of the three planes, applied to three numbers. */
  function Mixed(wt: Weights, v: seq<real>): real
    requires |v| == 3
  {
    wt.r * v[0] + wt.g * v[1] + wt.b * v[2]
  }

  lemma WeightedLevel(w: real, a: real, b: real, d: real, y: nat, x: nat)
    ensures Product(w, Level(a, b, d, y, x)) == w * a + w * b * x as real + w * d * y as real
  {
  }

  lemma SumOfLevels(a: seq<real>, b: seq<real>, d: seq<real>, wt: Weights, i: real, j: real)
    requires |a| == |b| == |d| == 3
    ensures (wt.r * a[0] + wt.r * b[0] * i + wt.r * d[0] * j) + (wt.g * a[1] + wt.g * b[1] * i + wt.g * d[1] * j)
            + (wt.b * a[2] + wt.b * b[2] * i + wt.b * d[2] * j)
         == Mixed(wt, a) + Mixed(wt, b) * i + Mixed(wt, d) * j
  {
    ThreeTimes(wt.r * b[0], wt.g * b[1], wt.b * b[2], i);
    ThreeTimes(wt.r * d[0], wt.g * d[1], wt.b * d[2], j);
  }

  lemma ThreeTimes(x: real, y: real, z: real, t: real)
    ensures (x + y + z) * t == x * t + y * t + z * t
  {
  }

  lemma GrayRamps(s: Scene, first: seq<real>, right: seq<real>, down: seq<real>, y: nat, x: nat)
    requires s.Valid() && Ramps(s, first, right, down) && y < s.h && x < s.w
    ensures s.Gray(y, x) == Level(Mixed(s.wt, first), Mixed(s.wt, right), Mixed(s.wt, down), y, x)
  {
    hide Product, Level, Mixed;
    forall c | 0 <= c < 3
      ensures s.planes[c][y][x] == Level(first[c], right[c], down[c], y, x)
    {
    }
    WeightedLevel(s.wt.r, first[0], right[0], down[0], y, x);
    WeightedLevel(s.wt.g, first[1], right[1], down[1], y, x);
    WeightedLevel(s.wt.b, first[2], right[2], down[2], y, x);
    SumOfLevels(first, right, down, s.wt, x as real, y as real);
    LevelIs(Mixed(s.wt, first), Mixed(s.wt, right), Mixed(s.wt, down), y, x);
  }

  lemma LevelIs(a: real, b: real, d: real, y: nat, x: nat)
    ensures Level(a, b, d, y, x) == a + b * x as real + d * y as real
  {
  }

  /** The gray image is a ramp. */
  ghost predicate GrayIsLevel(s: Scene, a: real, b: real, d: real)
    requires s.Valid()
  {
    forall y: nat, x: nat :: y < s.h && x < s.w ==> s.Gray(y, x) == Level(a, b, d, y, x)
  }

  lemma OneRight(a: real, b: real, d: real, y: nat, x: nat)
    ensures Level(a, b, d, y, x + 1) == Level(a, b, d, y, x) + b
  {
  }

  lemma OneDown(a: real, b: real, d: real, y: nat, x: nat)
    ensures Level(a, b, d, y + 1, x) == Level(a, b, d, y, x) + d
  {
  }

  /** What a gradient is on a slope: the slope times the weights on a side times two pixels. */
  function SlopeGradient(slope: real, c1: real, c2: real): real { 2.0 * slope * (2.0 * c1 + c2) }

  lemma GradientsOfRamp(s: Scene, a: real, b: real, d: real, y: nat, x: nat)
    requires s.Valid() && GrayIsLevel(s, a, b, d) && y < s.h - 2 && x < s.w - 2
    ensures s.Ix(y, x) == SlopeGradient(b, s.wt.c1, s.wt.c2x) && s.Iy(y, x) == SlopeGradient(d, s.wt.c1, s.wt.c2y)
  {
    hide Level, Scene.Gray, Product, SlopeGradient;
    OneRight(a, b, d, y, x);
    OneRight(a, b, d, y, x + 1);
    OneDown(a, b, d, y, x);
    OneDown(a, b, d, y, x + 1);
    OneDown(a, b, d, y, x + 2);
    OneDown(a, b, d, y + 1, x);
    OneDown(a, b, d, y + 1, x + 1);
    OneDown(a, b, d, y + 1, x + 2);
    var g := Level(a, b, d, y, x);
    SobelOfRamp(s.wt.c1, s.wt.c2x, g, b, d);
    SobelOfRamp(s.wt.c1, s.wt.c2y, g, d, b);
    assert s.Gray(y, x) == g && s.Gray(y, x + 1) == g + b && s.Gray(y, x + 2) == g + 2.0 * b;
    assert s.Gray(y + 1, x) == g + d && s.Gray(y + 1, x + 2) == g + 2.0 * b + d;
    assert s.Gray(y + 2, x) == g + 2.0 * d && s.Gray(y + 2, x + 1) == g + b + 2.0 * d;
    assert s.Gray(y + 2, x + 2) == g + 2.0 * b + 2.0 * d;
  }

  lemma SobelOfRamp(c1: real, c2: real, g: real, b: real, d: real)
    ensures - Product(c1, g) + Product(c1, g + 2.0 * b) - Product(c2, g + d) + Product(c2, g + 2.0 * b + d)
            - Product(c1, g + 2.0 * d) + Product(c1, g + 2.0 * b + 2.0 * d)
         == SlopeGradient(b, c1, c2)
  {
  }

  /** Every gradient is the same. */
  ghost predicate OneGradient(s: Scene, gx: real, gy: real)
    requires s.Valid()
  {
    forall y: nat, x: nat :: y < s.h - 2 && x < s.w - 2 ==> s.Ix(y, x) == gx && s.Iy(y, x) == gy
  }

  lemma ColumnOfOne(s: Scene, y: nat, x: nat, gx: real, gy: real)
    requires s.Valid() && y < s.h - 4 && x < s.w - 2 && OneGradient(s, gx, gy)
    ensures s.Xx(y, x) == 3.0 * (gx * gx) && s.Xy(y, x) == 3.0 * (gx * gy) && s.Yy(y, x) == 3.0 * (gy * gy)
  {
    hide Scene.Ix, Scene.Iy;
  }

  lemma PixelOfOne(s: Scene, y: nat, x: nat, gx: real, gy: real)
    requires s.Valid() && y < s.h - 4 && x < s.w - 4 && OneGradient(s, gx, gy)
    ensures s.Pixel(y, x) == Coarsity(s.wt.kappa, 9.0 * (gx * gx), 9.0 * (gx * gy), 9.0 * (gy * gy))
  {
    hide OneGradient, Scene.Xx, Scene.Xy, Scene.Yy, Coarsity;
    ColumnOfOne(s, y, x, gx, gy);
    ColumnOfOne(s, y, x + 1, gx, gy);
    ColumnOfOne(s, y, x + 2, gx, gy);
  }

  /** The squares of a gradient, over a window. */
  function Energy(gx: real, gy: real): real { 9.0 * (gx * gx + gy * gy) }

  /** The response of an edge: it is not positive for kappa >= 0. */
  function EdgeResponse(kappa: real, gx: real, gy: real): real { -kappa * (Energy(gx, gy) * Energy(gx, gy)) }

  lemma EdgeOfOne(kappa: real, gx: real, gy: real)
    ensures Coarsity(kappa, 9.0 * (gx * gx), 9.0 * (gx * gy), 9.0 * (gy * gy)) == EdgeResponse(kappa, gx, gy)
  {
    var a, b := gx * gx, gy * gy;
    assert (gx * gy) * (gx * gy) == a * b;
    Together(kappa, 9.0 * a, 9.0 * (gx * gy), 9.0 * b, 9.0 * (a + b));
  }

  lemma PixelIsEdge(s: Scene, y: nat, x: nat, gx: real, gy: real)
    requires s.Valid() && y < s.h - 4 && x < s.w - 4 && OneGradient(s, gx, gy)
    ensures s.Pixel(y, x) == EdgeResponse(s.wt.kappa, gx, gy)
  {
    hide OneGradient, Scene.Pixel, Coarsity, EdgeResponse;
    PixelOfOne(s, y, x, gx, gy);
    EdgeOfOne(s.wt.kappa, gx, gy);
  }

  /** On a ramp, whatever its slopes, every pixel has the response of an edge. */
  lemma PixelOfRamp(s: Scene, first: seq<real>, right: seq<real>, down: seq<real>, y: nat, x: nat)
    requires s.Valid() && Ramps(s, first, right, down) && y < s.h - 4 && x < s.w - 4
    ensures var gx := SlopeGradient(Mixed(s.wt, right), s.wt.c1, s.wt.c2x);
            var gy := SlopeGradient(Mixed(s.wt, down), s.wt.c1, s.wt.c2y);
            s.Pixel(y, x) == EdgeResponse(s.wt.kappa, gx, gy)
  {
    assert |right| == |down| == |first| == 3;
    hide Ramps, Mixed, Scene.Gray, Scene.Ix, Scene.Iy, Coarsity, Scene.Pixel, Level, Scene.Valid, SlopeGradient,
         EdgeResponse;
    var a, b, d := Mixed(s.wt, first), Mixed(s.wt, right), Mixed(s.wt, down);
    forall y: nat, x: nat | y < s.h && x < s.w
      ensures s.Gray(y, x) == Level(a, b, d, y, x)
    {
      GrayRamps(s, first, right, down, y, x);
    }
    var gx, gy := SlopeGradient(b, s.wt.c1, s.wt.c2x), SlopeGradient(d, s.wt.c1, s.wt.c2y);
    forall y: nat, x: nat | y < s.h - 2 && x < s.w - 2
      ensures s.Ix(y, x) == gx && s.Iy(y, x) == gy
    {
      GradientsOfRamp(s, a, b, d, y, x);
    }
    PixelIsEdge(s, y, x, gx, gy);
  }

  // ----- no preferred axis

  /** Rows and columns exchanged, with the weights of the two gradients. */
  ghost predicate Transposed(s: Scene, t: Scene)
    requires s.Valid() && t.Valid()
  {
    && t.wt == s.wt.(c2x := s.wt.c2y, c2y := s.wt.c2x) && t.h == s.w && t.w == s.h
    && forall c, y, x :: 0 <= c < 3 && 0 <= y < s.h && 0 <= x < s.w ==> t.planes[c][x][y] == s.planes[c][y][x]
  }

  lemma TransposedGray(s: Scene, t: Scene, y: nat, x: nat)
    requires s.Valid() && t.Valid() && Transposed(s, t) && y < s.h && x < s.w
    ensures t.Gray(x, y) == s.Gray(y, x)
  {
    hide Product;
  }

  lemma TransposedGradients(s: Scene, t: Scene, y: nat, x: nat)
    requires s.Valid() && t.Valid() && Transposed(s, t) && y < s.h - 2 && x < s.w - 2
    ensures t.Ix(x, y) == s.Iy(y, x) && t.Iy(x, y) == s.Ix(y, x)
  {
    hide Product, Scene.Gray;
    forall i: nat, j: nat | i < s.h && j < s.w
      ensures t.Gray(j, i) == s.Gray(i, j)
    {
      TransposedGray(s, t, i, j);
    }
    assert t.wt == s.wt.(c2x := s.wt.c2y, c2y := s.wt.c2x);
    hide Transposed;
  }

  /** The picture of the transposed image is the transposed picture. */
  lemma NoPreferredAxis(s: Scene, t: Scene, y: nat, x: nat)
    requires s.Valid() && t.Valid() && Transposed(s, t) && y < s.h - 4 && x < s.w - 4
    ensures t.Pixel(x, y) == s.Pixel(y, x)
  {
    hide Scene.Ix, Scene.Iy, Product, Coarsity;
    assert t.wt.kappa == s.wt.kappa;
    forall i: nat, j: nat | i < s.h - 2 && j < s.w - 2
      ensures t.Ix(j, i) == s.Iy(i, j) && t.Iy(j, i) == s.Ix(i, j)
    {
      TransposedGradients(s, t, i, j);
    }
    hide Transposed;
    ProductsCommute();
    NineSums(s, t, y, x);
    AxesExchange(s.wt.kappa, s.Xx(y, x) + s.Xx(y, x + 1) + s.Xx(y, x + 2), s.Xy(y, x) + s.Xy(y, x + 1) + s.Xy(y, x + 2),
                 s.Yy(y, x) + s.Yy(y, x + 1) + s.Yy(y, x + 2));
  }

  lemma ProductsCommute()
    ensures forall a, b :: Product(a, b) == Product(b, a)
  {
  }

  /** The gradients of t are those of s, exchanged. */
  lemma NineSums(s: Scene, t: Scene, y: nat, x: nat)
    requires s.Valid() && t.Valid() && t.h == s.w && t.w == s.h && y < s.h - 4 && x < s.w - 4
    requires forall i: nat, j: nat :: i < s.h - 2 && j < s.w - 2 ==>
               t.Ix(j, i) == s.Iy(i, j) && t.Iy(j, i) == s.Ix(i, j)
    ensures t.Xx(x, y) + t.Xx(x, y + 1) + t.Xx(x, y + 2) == s.Yy(y, x) + s.Yy(y, x + 1) + s.Yy(y, x + 2)
    ensures t.Yy(x, y) + t.Yy(x, y + 1) + t.Yy(x, y + 2) == s.Xx(y, x) + s.Xx(y, x + 1) + s.Xx(y, x + 2)
    ensures t.Xy(x, y) + t.Xy(x, y + 1) + t.Xy(x, y + 2) == s.Xy(y, x) + s.Xy(y, x + 1) + s.Xy(y, x + 2)
  {
    hide Scene.Ix, Scene.Iy, Product;
    ProductsCommute();
  }

  lemma AxesExchange(kappa: real, sxx: real, sxy: real, syy: real)
    ensures Coarsity(kappa, syy, sxy, sxx) == Coarsity(kappa, sxx, sxy, syy)
  {
    Together(kappa, sxx, sxy, syy, sxx + syy);
    Together(kappa, syy, sxy, sxx, sxx + syy);
  }
}
