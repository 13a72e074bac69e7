/** The reference pipeline: every stage fills a whole image. */
module Reference {
  import opened Matrices
  import opened Scene

  // ----- the stages as functions

  function GrayscaleOf(s: Scene): (out: Image)
    requires s.Valid()
    ensures Sized(out, s.h, s.w)
  {
    seq(s.h, y requires 0 <= y < s.h => seq(s.w, x requires 0 <= x < s.w =>
      s.Gray(y, x)))
  }

  /** The first j products of a row of weights with the row of the image from x on. */
  function RowDot(row: seq<real>, weights: seq<real>, x: nat, j: nat): real
    requires j <= |weights| && x + j <= |row|
  {
    if j == 0 then 0.0 else RowDot(row, weights, x, j - 1) + Product(row[x + (j - 1)], weights[j - 1])
  }

  /** The first i rows of weights against the window at (y, x). */
  function ConvSum(img: Image, h: nat, w: nat, weights: Image, m: nat, n: nat, y: nat, x: nat, i: nat): real
    requires Sized(img, h, w) && Sized(weights, m, n) && y + m <= h && x + n <= w && i <= m
  {
    if i == 0 then 0.0
    else ConvSum(img, h, w, weights, m, n, y, x, i - 1) + RowDot(img[y + (i - 1)], weights[i - 1], x, n)
  }

  function ConvOf(img: Image, h: nat, w: nat, weights: Image, m: nat, n: nat): (out: Image)
    requires Sized(img, h, w) && Sized(weights, m, n) && m <= h + 1 && n <= w + 1
    ensures Sized(out, h - m + 1, w - n + 1)
  {
    seq(h - m + 1, y requires 0 <= y < h - m + 1 =>
          seq(w - n + 1, x requires 0 <= x < w - n + 1 => ConvSum(img, h, w, weights, m, n, y, x, m)))
  }

  function MulOf(a: Image, b: Image, h: nat, w: nat): (out: Image)
    requires Sized(a, h, w) && Sized(b, h, w)
    ensures Sized(out, h, w)
  {
    seq(h, y requires 0 <= y < h => seq(w, x requires 0 <= x < w => Product(a[y][x], b[y][x])))
  }

  function CoarsityOf(sxx: Image, sxy: Image, syy: Image, h: nat, w: nat, kappa: real): (out: Image)
    requires Sized(sxx, h, w) && Sized(sxy, h, w) && Sized(syy, h, w)
    ensures Sized(out, h, w)
  {
    seq(h, y requires 0 <= y < h => seq(w, x requires 0 <= x < w => Coarsity(kappa, sxx[y][x], sxy[y][x], syy[y][x])))
  }

  function SobelXWeights(wt: Weights): (m: Image)
    ensures Sized(m, 3, 3)
  {
    [[-wt.c1, 0.0, wt.c1], [-wt.c2x, 0.0, wt.c2x], [-wt.c1, 0.0, wt.c1]]
  }

  function SobelYWeights(wt: Weights): (m: Image)
    ensures Sized(m, 3, 3)
  {
    [[-wt.c1, -wt.c2y, -wt.c1], [0.0, 0.0, 0.0], [wt.c1, wt.c2y, wt.c1]]
  }

  function Ones(): (m: Image)
    ensures Sized(m, 3, 3)
  {
    [[1.0, 1.0, 1.0], [1.0, 1.0, 1.0], [1.0, 1.0, 1.0]]
  }

  function Conv3(img: Image, h: nat, w: nat, weights: Image): (out: Image)
    requires Sized(img, h, w) && Sized(weights, 3, 3) && 2 <= h && 2 <= w
    ensures Sized(out, h - 2, w - 2)
  {
    ConvOf(img, h, w, weights, 3, 3)
  }

  /** The sum of the 3x3 windows of the products of two gradients. */
  function WindowSums(a: Image, b: Image, h1: nat, w1: nat): (out: Image)
    requires Sized(a, h1, w1) && Sized(b, h1, w1) && 2 <= h1 && 2 <= w1
    ensures Sized(out, h1 - 2, w1 - 2)
  {
    Conv3(MulOf(a, b, h1, w1), h1, w1, Ones())
  }

  function SobelX(s: Scene): (out: Image)
    requires s.Valid()
    ensures Sized(out, s.h - 2, s.w - 2)
  {
    Conv3(GrayscaleOf(s), s.h, s.w, SobelXWeights(s.wt))
  }

  function SobelY(s: Scene): (out: Image)
    requires s.Valid()
    ensures Sized(out, s.h - 2, s.w - 2)
  {
    Conv3(GrayscaleOf(s), s.h, s.w, SobelYWeights(s.wt))
  }

  // ----- the stages as loops

  method Grayscale(out: array2<real>, s: Scene)
    requires s.Valid() && out.Length0 == s.h && out.Length1 == s.w
    modifies out
    ensures View(out) == GrayscaleOf(s)
  {
    hide Scene.Gray;
    for y := 0 to s.h
      invariant forall r, c :: 0 <= r < y && 0 <= c < s.w ==> out[r, c] == s.Gray(r, c)
    {
      for x := 0 to s.w
        invariant forall r, c :: 0 <= r < y && 0 <= c < s.w ==> out[r, c] == s.Gray(r, c)
        invariant forall c :: 0 <= c < x ==> out[y, c] == s.Gray(y, c)
      {
        out[y, x] := s.wt.r * s.planes[0][y][x] + s.wt.g * s.planes[1][y][x] + s.wt.b * s.planes[2][y][x];
        GrayIs(s, y, x);
      }
    }
    SameMatrix(View(out), GrayscaleOf(s), s.h, s.w);
  }

  lemma GrayIs(s: Scene, y: nat, x: nat)
    requires s.Valid() && y < s.h && x < s.w
    ensures s.Gray(y, x) == s.wt.r * s.planes[0][y][x] + s.wt.g * s.planes[1][y][x] + s.wt.b * s.planes[2][y][x]
  {
  }

  /** The two inner loops of conv2D: one window. */
  method ConvAt(h: nat, w: nat, img: array2<real>, m: nat, n: nat, weights: Image, y: nat, x: nat) returns (acc: real)
    requires img.Length0 == h && img.Length1 == w && Sized(weights, m, n) && y + m <= h && x + n <= w
    ensures acc == ConvSum(View(img), h, w, weights, m, n, y, x, m)
  {
    ghost var v := View(img);
    acc := 0.0;
    for i := 0 to m
      invariant acc == ConvSum(v, h, w, weights, m, n, y, x, i)
    {
      for j := 0 to n
        invariant acc == ConvSum(v, h, w, weights, m, n, y, x, i) + RowDot(v[y + i], weights[i], x, j)
      {
        acc := acc + img[y + i, x + j] * weights[i][j];
      }
    }
  }

  method Conv2D(out: array2<real>, h: nat, w: nat, img: array2<real>, m: nat, n: nat, weights: Image)
    requires img.Length0 == h && img.Length1 == w && Sized(weights, m, n) && m <= h + 1 && n <= w + 1
    requires out.Length0 == h - m + 1 && out.Length1 == w - n + 1 && out != img
    modifies out
    ensures View(out) == ConvOf(View(img), h, w, weights, m, n)
  {
    ghost var v := View(img);
    ghost var done := ConvOf(v, h, w, weights, m, n);
    for y := 0 to h - m + 1
      invariant View(img) == v
      invariant forall r, c :: 0 <= r < y && 0 <= c < w - n + 1 ==> out[r, c] == done[r][c]
    {
      for x := 0 to w - n + 1
        invariant View(img) == v
        invariant forall r, c :: 0 <= r < y && 0 <= c < w - n + 1 ==> out[r, c] == done[r][c]
        invariant forall c :: 0 <= c < x ==> out[y, c] == done[y][c]
      {
        out[y, x] := ConvAt(h, w, img, m, n, weights, y, x);
      }
    }
    SameMatrix(View(out), done, h - m + 1, w - n + 1);
  }

  method Mul(out: array2<real>, h: nat, w: nat, a: array2<real>, b: array2<real>)
    requires a.Length0 == b.Length0 == out.Length0 == h && a.Length1 == b.Length1 == out.Length1 == w && out != a
             && out != b
    modifies out
    ensures View(out) == MulOf(View(a), View(b), h, w)
  {
    for y := 0 to h
      invariant forall r, c :: 0 <= r < y && 0 <= c < w ==> out[r, c] == Product(a[r, c], b[r, c])
    {
      for x := 0 to w
        invariant forall r, c :: 0 <= r < y && 0 <= c < w ==> out[r, c] == Product(a[r, c], b[r, c])
        invariant forall c :: 0 <= c < x ==> out[y, c] == Product(a[y, c], b[y, c])
      {
        out[y, x] := a[y, x] * b[y, x];
      }
    }
    SameMatrix(View(out), MulOf(View(a), View(b), h, w), h, w);
  }

  method ComputeCoarsity(out: array2<real>, h: nat, w: nat, sxx: array2<real>, sxy: array2<real>, syy: array2<real>,
                         kappa: real)
    requires sxx.Length0 == sxy.Length0 == syy.Length0 == out.Length0 == h
    requires sxx.Length1 == sxy.Length1 == syy.Length1 == out.Length1 == w
    requires out != sxx && out != sxy && out != syy
    modifies out
    ensures View(out) == CoarsityOf(View(sxx), View(sxy), View(syy), h, w, kappa)
  {
    hide Coarsity;
    for y := 0 to h
      invariant forall r, c :: 0 <= r < y && 0 <= c < w ==>
                  out[r, c] == Coarsity(kappa, sxx[r, c], sxy[r, c], syy[r, c])
    {
      for x := 0 to w
        invariant forall r, c :: 0 <= r < y && 0 <= c < w ==>
                    out[r, c] == Coarsity(kappa, sxx[r, c], sxy[r, c], syy[r, c])
        invariant forall c :: 0 <= c < x ==> out[y, c] == Coarsity(kappa, sxx[y, c], sxy[y, c], syy[y, c])
      {
        var det := sxx[y, x] * syy[y, x] - sxy[y, x] * sxy[y, x];
        var trace := sxx[y, x] + syy[y, x];
        out[y, x] := det - kappa * trace * trace;
        CoarsityIs(kappa, sxx[y, x], sxy[y, x], syy[y, x]);
      }
    }
    SameMatrix(View(out), CoarsityOf(View(sxx), View(sxy), View(syy), h, w, kappa), h, w);
  }

  lemma CoarsityIs(kappa: real, sxx: real, sxy: real, syy: real)
    ensures Coarsity(kappa, sxx, sxy, syy) == sxx * syy - sxy * sxy - kappa * (sxx + syy) * (sxx + syy)
  {
  }

  /** The first three stages of harris. */
  method Gradients(gray: array2<real>, ix: array2<real>, iy: array2<real>, s: Scene)
    requires s.Valid() && gray.Length0 == s.h && gray.Length1 == s.w && gray != ix && gray != iy && ix != iy
    requires ix.Length0 == iy.Length0 == s.h - 2 && ix.Length1 == iy.Length1 == s.w - 2
    modifies gray, ix, iy
    ensures View(ix) == SobelX(s) && View(iy) == SobelY(s)
  {
    hide GrayscaleOf, ConvOf, View;
    Grayscale(gray, s);
    Conv2D(ix, s.h, s.w, gray, 3, 3, SobelXWeights(s.wt));
    Conv2D(iy, s.h, s.w, gray, 3, 3, SobelYWeights(s.wt));
  }

  /** The remaining stages. */
  method Response(out: array2<real>, ix: array2<real>, iy: array2<real>, s: Scene)
    requires s.Valid() && out.Length0 == s.h - 4 && out.Length1 == s.w - 4
    requires ix.Length0 == iy.Length0 == s.h - 2 && ix.Length1 == iy.Length1 == s.w - 2
    requires View(ix) == SobelX(s) && View(iy) == SobelY(s) && out != ix && out != iy
    modifies out
    ensures View(out) == s.Output()
  {
    hide SobelX, SobelY, ConvOf, MulOf, CoarsityOf, Scene.Output, View, Sized, Scene.Valid;
    ghost var gx, gy := SobelX(s), SobelY(s);
    var h1, w1 := s.h - 2, s.w - 2;
    var h2, w2 := h1 - 2, w1 - 2;
    var ixx := new real[h1, w1];
    var ixy := new real[h1, w1];
    var iyy := new real[h1, w1];
    var sxx := new real[h2, w2];
    var sxy := new real[h2, w2];
    var syy := new real[h2, w2];
    Mul(ixx, h1, w1, ix, ix);
    Mul(ixy, h1, w1, ix, iy);
    Mul(iyy, h1, w1, iy, iy);
    Conv2D(sxx, h1, w1, ixx, 3, 3, Ones());
    assert View(sxx) == WindowSums(gx, gx, h1, w1);
    Conv2D(sxy, h1, w1, ixy, 3, 3, Ones());
    assert View(sxy) == WindowSums(gx, gy, h1, w1);
    Conv2D(syy, h1, w1, iyy, 3, 3, Ones());
    assert View(syy) == WindowSums(gy, gy, h1, w1);
    hide WindowSums;
    ComputeCoarsity(out, h2, w2, sxx, sxy, syy, s.wt.kappa);
    PipelineIsOutput(s);
  }

  /** harris: the whole pipeline */
  method Harris(out: array2<real>, s: Scene)
    requires s.Valid() && out.Length0 == s.h - 4 && out.Length1 == s.w - 4
    modifies out
    ensures View(out) == s.Output()
  {
    var gray := new real[s.h, s.w];
    var ix := new real[s.h - 2, s.w - 2];
    var iy := new real[s.h - 2, s.w - 2];
    Gradients(gray, ix, iy, s);
    Response(out, ix, iy, s);
  }

  // ----- the pipeline, pixel by pixel

  /** A 3x3 convolution is the sum of nine products. */
  lemma NineTerms(img: Image, h: nat, w: nat, weights: Image, y: nat, x: nat)
    requires Sized(img, h, w) && Sized(weights, 3, 3) && y + 3 <= h && x + 3 <= w
    ensures ConvSum(img, h, w, weights, 3, 3, y, x, 3) ==
              Product(img[y][x], weights[0][0]) + Product(img[y][x + 1], weights[0][1])
                  + Product(img[y][x + 2], weights[0][2])
              + Product(img[y + 1][x], weights[1][0]) + Product(img[y + 1][x + 1], weights[1][1])
                  + Product(img[y + 1][x + 2], weights[1][2])
              + Product(img[y + 2][x], weights[2][0]) + Product(img[y + 2][x + 1], weights[2][1])
                  + Product(img[y + 2][x + 2], weights[2][2])
  {
    hide Product;
    forall i: nat | i < 3
      ensures RowDot(img[y + i], weights[i], x, 3) ==
                Product(img[y + i][x], weights[i][0]) + Product(img[y + i][x + 1], weights[i][1])
                    + Product(img[y + i][x + 2], weights[i][2])
    {
      ThreeTerms(img[y + i], weights[i], x);
    }
    assert ConvSum(img, h, w, weights, 3, 3, y, x, 1) == RowDot(img[y], weights[0], x, 3);
    assert ConvSum(img, h, w, weights, 3, 3, y, x, 2)
           == RowDot(img[y], weights[0], x, 3) + RowDot(img[y + 1], weights[1], x, 3);
  }

  lemma ThreeTerms(row: seq<real>, weights: seq<real>, x: nat)
    requires |weights| == 3 && x + 3 <= |row|
    ensures RowDot(row, weights, x, 3) == Product(row[x], weights[0]) + Product(row[x + 1], weights[1])
            + Product(row[x + 2], weights[2])
  {
    assert RowDot(row, weights, x, 1) == Product(row[x], weights[0]);
  }

  lemma SobelAt(s: Scene, y: nat, x: nat)
    requires s.Valid() && y < s.h - 2 && x < s.w - 2
    ensures Conv3(GrayscaleOf(s), s.h, s.w, SobelXWeights(s.wt))[y][x] == s.Ix(y, x)
    ensures Conv3(GrayscaleOf(s), s.h, s.w, SobelYWeights(s.wt))[y][x] == s.Iy(y, x)
  {
    hide Scene.Gray;
    NineTerms(GrayscaleOf(s), s.h, s.w, SobelXWeights(s.wt), y, x);
    NineTerms(GrayscaleOf(s), s.h, s.w, SobelYWeights(s.wt), y, x);
  }

  /** A 3x3 window of ones, column by column. */
  lemma WindowAt(a: Image, b: Image, h1: nat, w1: nat, y: nat, x: nat)
    requires Sized(a, h1, w1) && Sized(b, h1, w1) && y + 3 <= h1 && x + 3 <= w1
    ensures WindowSums(a, b, h1, w1)[y][x] ==
              (Product(a[y][x], b[y][x]) + Product(a[y + 1][x], b[y + 1][x]) + Product(a[y + 2][x], b[y + 2][x]))
            + (Product(a[y][x + 1], b[y][x + 1]) + Product(a[y + 1][x + 1], b[y + 1][x + 1])
               + Product(a[y + 2][x + 1], b[y + 2][x + 1]))
            + (Product(a[y][x + 2], b[y][x + 2]) + Product(a[y + 1][x + 2], b[y + 1][x + 2])
               + Product(a[y + 2][x + 2], b[y + 2][x + 2]))
  {
    var ab := MulOf(a, b, h1, w1);
    NineTerms(ab, h1, w1, Ones(), y, x);
    forall i, j | y <= i < y + 3 && x <= j < x + 3
      ensures Product(ab[i][j], 1.0) == Product(a[i][j], b[i][j])
    {
    }
  }

  /** The whole-image pipeline computes the picture that is defined pixel by pixel. */
  lemma PipelineIsOutput(s: Scene)
    requires s.Valid()
    ensures var ix, iy, h1, w1 := SobelX(s), SobelY(s), s.h - 2, s.w - 2;
            CoarsityOf(WindowSums(ix, ix, h1, w1), WindowSums(ix, iy, h1, w1), WindowSums(iy, iy, h1, w1), h1 - 2,
                       w1 - 2, s.wt.kappa)
              == s.Output()
  {
    var ix, iy, h1, w1 := SobelX(s), SobelY(s), s.h - 2, s.w - 2;
    var sxx, sxy, syy := WindowSums(ix, ix, h1, w1), WindowSums(ix, iy, h1, w1), WindowSums(iy, iy, h1, w1);
    forall y: nat, x: nat | y < s.h - 4 && x < s.w - 4
      ensures Coarsity(s.wt.kappa, sxx[y][x], sxy[y][x], syy[y][x]) == s.Pixel(y, x)
    {
      WindowPixel(s, y, x);
    }
    SameMatrix(CoarsityOf(sxx, sxy, syy, h1 - 2, w1 - 2, s.wt.kappa), s.Output(), s.h - 4, s.w - 4);
  }

  lemma WindowPixel(s: Scene, y: nat, x: nat)
    requires s.Valid() && y < s.h - 4 && x < s.w - 4
    ensures var ix, iy, h1, w1 := SobelX(s), SobelY(s), s.h - 2, s.w - 2;
            Coarsity(s.wt.kappa, WindowSums(ix, ix, h1, w1)[y][x], WindowSums(ix, iy, h1, w1)[y][x],
                     WindowSums(iy, iy, h1, w1)[y][x]) == s.Pixel(y, x)
  {
    hide Scene.Ix, Scene.Iy, Conv3, Product, Coarsity, WindowSums;
    var ix, iy := SobelX(s), SobelY(s);
    forall i: nat, j: nat | i < s.h - 2 && j < s.w - 2
      ensures ix[i][j] == s.Ix(i, j) && iy[i][j] == s.Iy(i, j)
    {
      SobelAt(s, i, j);
    }
    WindowAt(ix, ix, s.h - 2, s.w - 2, y, x);
    WindowAt(ix, iy, s.h - 2, s.w - 2, y, x);
    WindowAt(iy, iy, s.h - 2, s.w - 2, y, x);
  }

  lemma PixelIs(s: Scene, y: nat, x: nat, sxx: real, sxy: real, syy: real)
    requires s.Valid() && y < s.h - 4 && x < s.w - 4
    requires sxx == s.Xx(y, x) + s.Xx(y, x + 1) + s.Xx(y, x + 2)
    requires sxy == s.Xy(y, x) + s.Xy(y, x + 1) + s.Xy(y, x + 2)
    requires syy == s.Yy(y, x) + s.Yy(y, x + 1) + s.Yy(y, x + 2)
    ensures s.Pixel(y, x) == sxx * syy - sxy * sxy - s.wt.kappa * (sxx + syy) * (sxx + syy)
  {
    hide Scene.Xx, Scene.Xy, Scene.Yy, Coarsity;
    CoarsityIs(s.wt.kappa, sxx, sxy, syy);
  }
}
