/**
 When the rotated kernels give the picture of the reference. They compute the horizontal
 gradient with twice the first Sobel weight, where the reference has the second one.
 */
module Pictures {
  import opened Matrices
  import opened Scene
  import Rotated

  // ----- the weights that the programs are written with

  /** The binary32 number nearest to x is m / scale, where scale is a power of two. */
  predicate NearestFloat(x: real, m: int, scale: real) {
    0x80_0000 <= m < 0x100_0000 && -0.5 < x * scale - m as real < 0.5
  }

  const TWO_TO_26 := 67108864.0
  const TWO_TO_27 := 134217728.0

  /** As floats, the two literals are 1/12 and 2/12, and the second is exactly twice the first. */
  lemma LiteralsAreTwice(m1: int, m2: int)
    requires NearestFloat(0.0833333333333, m1, TWO_TO_27) && NearestFloat(0.166666666667, m2, TWO_TO_26)
    ensures m2 as real / TWO_TO_26 == 2.0 * (m1 as real / TWO_TO_27)
    ensures NearestFloat(1.0 / 12.0, m1, TWO_TO_27) && NearestFloat(2.0 / 12.0, m2, TWO_TO_26)
  {
    assert m1 == 11184811 == m2;
  }

  // ----- all pictures of one size

  /** For every image of this size, the rotated kernels give the picture of the reference. */
  ghost predicate PicturesAgree(wt: Weights, h: nat, w: nat) {
    forall planes :: Scene(wt, planes, h, w).Valid() ==>
      Rotated.Seen(Scene(wt, planes, h, w)).Output() == Scene(wt, planes, h, w).Output()
  }

  predicate NoGray(wt: Weights) { wt.r == 0.0 && wt.g == 0.0 && wt.b == 0.0 }

  /** One column of stripes: a on the even rows and b on the odd ones, and black elsewhere. */
  function Striped(h: nat, w: nat, a: real, b: real): (image: Image)
    ensures Sized(image, h, w)
  {
    seq(h, y => seq(w, x => if x > 0 then 0.0 else if y % 2 == 0 then a else b))
  }

  function Black(h: nat, w: nat): (image: Image)
    ensures Sized(image, h, w)
  {
    seq(h, _ => seq(w, _ => 0.0))
  }

  /** The stripes in a plane whose weight is not zero. */
  function StripedScene(wt: Weights, h: nat, w: nat, a: real, b: real): (s: Scene)
    requires h >= 4 && w >= 4
    ensures s.Valid() && s.wt == wt && s.h == h && s.w == w
  {
    var stripes, black := Striped(h, w, a, b), Black(h, w);
    Scene(wt, if wt.r != 0.0 then [stripes, black, black] else if wt.g != 0.0 then [black, stripes, black]
              else [black, black, stripes], h, w)
  }

  function WeightOf(wt: Weights): real { if wt.r != 0.0 then wt.r else if wt.g != 0.0 then wt.g else wt.b }

  /** The gray value of a stripe. */
  function Tone(wt: Weights, a: real): real { Product(WeightOf(wt), a) }

  lemma StripedGray(wt: Weights, h: nat, w: nat, a: real, b: real, y: nat, x: nat)
    requires h >= 4 && w >= 4 && y < h && x < w
    ensures StripedScene(wt, h, w, a, b).Gray(y, x)
         == if x > 0 then 0.0 else if y % 2 == 0 then Tone(wt, a) else Tone(wt, b)
  {
  }

  /** What the horizontal gradient is next to the stripes, up to its sign. */
  function Slope(c1: real, c2: real, p: real, q: real): real { Product(c1, p) + Product(c2, q) + Product(c1, p) }

  lemma TimesZero(x: real)
    ensures Product(x, 0.0) == 0.0
  {
  }

  lemma StripedGradients(wt: Weights, h: nat, w: nat, a: real, b: real, y: nat, x: nat)
    requires h >= 5 && w >= 5 && y < 3 && x < 3
    ensures var s, p, q := StripedScene(wt, h, w, a, b), Tone(wt, a), Tone(wt, b);
            && s.Iy(y, x) == 0.0
            && s.Ix(y, x) == if x > 0 then 0.0
                             else if y % 2 == 0 then -Slope(wt.c1, wt.c2x, p, q) else -Slope(wt.c1, wt.c2x, q, p)
  {
    hide StripedScene, Tone, Scene.Gray, Product;
    forall i: nat, j: nat | i < h && j < w
      ensures StripedScene(wt, h, w, a, b).Gray(i, j)
           == if j > 0 then 0.0 else if i % 2 == 0 then Tone(wt, a) else Tone(wt, b)
    {
      StripedGray(wt, h, w, a, b, i, j);
    }
    TimesZero(wt.c1);
    TimesZero(wt.c2x);
    TimesZero(wt.c2y);
  }

  /** The sum of the squared slopes of three rows. */
  function Steepness(c1: real, c2: real, p: real, q: real): real {
    Product(Slope(c1, c2, p, q), Slope(c1, c2, p, q)) + Product(Slope(c1, c2, q, p), Slope(c1, c2, q, p))
    + Product(Slope(c1, c2, p, q), Slope(c1, c2, p, q))
  }

  lemma Negated(x: real)
    ensures Product(-x, -x) == Product(x, x)
  {
  }

  lemma StripedColumn(wt: Weights, h: nat, w: nat, a: real, b: real, x: nat)
    requires h >= 5 && w >= 5 && x < 3
    ensures var s := StripedScene(wt, h, w, a, b);
            && s.Xx(0, x) == (if x > 0 then 0.0 else Steepness(wt.c1, wt.c2x, Tone(wt, a), Tone(wt, b)))
            && s.Xy(0, x) == 0.0 == s.Yy(0, x)
  {
    hide StripedScene, Tone, Scene.Ix, Scene.Iy, Slope, Product;
    StripedGradients(wt, h, w, a, b, 0, x);
    StripedGradients(wt, h, w, a, b, 1, x);
    StripedGradients(wt, h, w, a, b, 2, x);
    var p, q := Slope(wt.c1, wt.c2x, Tone(wt, a), Tone(wt, b)), Slope(wt.c1, wt.c2x, Tone(wt, b), Tone(wt, a));
    Negated(p);
    Negated(q);
    TimesZero(-p);
    TimesZero(-q);
    TimesZero(0.0);
  }

  lemma StripedPixel(wt: Weights, h: nat, w: nat, a: real, b: real)
    requires h >= 5 && w >= 5
    ensures StripedScene(wt, h, w, a, b).Output()[0][0]
         == Coarsity(wt.kappa, Steepness(wt.c1, wt.c2x, Tone(wt, a), Tone(wt, b)), 0.0, 0.0)
  {
    hide StripedScene, Coarsity, Steepness, Tone, Scene.Xx, Scene.Xy, Scene.Yy;
    StripedColumn(wt, h, w, a, b, 0);
    StripedColumn(wt, h, w, a, b, 1);
    StripedColumn(wt, h, w, a, b, 2);
    assert StripedScene(wt, h, w, a, b).Output()[0][0] == StripedScene(wt, h, w, a, b).Pixel(0, 0);
  }

  // ----- what the corner pixel of two striped images says of the weights

  lemma SameSteepness(kappa: real, e: real, e': real)
    requires kappa != 0.0 && e >= 0.0 && e' >= 0.0 && Coarsity(kappa, e, 0.0, 0.0) == Coarsity(kappa, e', 0.0, 0.0)
    ensures e == e'
  {
    CoarsityOf(kappa, e);
    CoarsityOf(kappa, e');
    Cancelled(kappa, e * e, e' * e');
    if e + e' != 0.0 {
      Conjugate(e, e');
      ZeroProduct(e + e', e - e');
    }
  }

  lemma Conjugate(a: real, b: real)
    ensures (a + b) * (a - b) == a * a - b * b
  {
    assert (a + b) * (a - b) == a * (a - b) + b * (a - b);
  }

  lemma Cancelled(kappa: real, x: real, y: real)
    requires kappa != 0.0 && -(kappa * x) == -(kappa * y)
    ensures x == y
  {
    Divide(kappa, x, y);
  }

  lemma CoarsityOf(kappa: real, e: real)
    ensures Coarsity(kappa, e, 0.0, 0.0) == -(kappa * (e * e))
  {
  }

  lemma SteepnessIsPositive(c1: real, c2: real, p: real, q: real)
    ensures Steepness(c1, c2, p, q) >= 0.0
  {
    Squares(Slope(c1, c2, p, q));
    Squares(Slope(c1, c2, q, p));
  }

  lemma Squares(x: real)
    ensures Product(x, x) >= 0.0
  {
  }

  /** On tones (v, v) and (v, 0) the slopes tell the second weight from twice the first. */
  lemma SlopesTell(c1: real, c2: real, v: real)
    requires v != 0.0
    requires Steepness(c1, c2, v, v) == Steepness(c1, 2.0 * c1, v, v)
    requires Steepness(c1, c2, v, 0.0) == Steepness(c1, 2.0 * c1, v, 0.0)
    ensures c2 == 2.0 * c1
  {
    hide Steepness;
    var u := v * v;
    NonZeroSquare(v);
    OnBoth(c1, c2, v);
    OnBoth(c1, 2.0 * c1, v);
    OnOne(c1, c2, v);
    OnOne(c1, 2.0 * c1, v);
    Divide(u, 3.0 * Square(2.0 * c1 + c2), 3.0 * Square(2.0 * c1 + 2.0 * c1));
    Divide(u, 2.0 * Square(2.0 * c1) + Square(c2), 2.0 * Square(2.0 * c1) + Square(2.0 * c1));
    Roots(c1, c2);
  }

  function Square(x: real): real { x * x }

  lemma NonZeroSquare(v: real)
    ensures v * v == 0.0 <==> v == 0.0
  {
    if v * v == 0.0 && v != 0.0 {
      ZeroProduct(v, v);
    }
  }

  lemma ZeroProduct(u: real, x: real)
    requires u != 0.0 && u * x == 0.0
    ensures x == 0.0
  {
  }

  lemma Divide(u: real, x: real, y: real)
    requires u != 0.0 && u * x == u * y
    ensures x == y
  {
  }

  lemma SquareOfProduct(v: real, k: real)
    ensures Product(v * k, v * k) == (v * v) * Square(k)
  {
  }

  lemma OnBoth(c1: real, c2: real, v: real)
    ensures Steepness(c1, c2, v, v) == (v * v) * (3.0 * Square(2.0 * c1 + c2))
  {
    assert Slope(c1, c2, v, v) == v * (2.0 * c1 + c2);
    SquareOfProduct(v, 2.0 * c1 + c2);
    Triple(v * v, Square(2.0 * c1 + c2));
  }

  lemma Triple(u: real, x: real)
    ensures u * (3.0 * x) == u * x + u * x + u * x
  {
  }

  lemma OnOne(c1: real, c2: real, v: real)
    ensures Steepness(c1, c2, v, 0.0) == (v * v) * (2.0 * Square(2.0 * c1) + Square(c2))
  {
    assert Slope(c1, c2, v, 0.0) == v * (2.0 * c1) && Slope(c1, c2, 0.0, v) == v * c2;
    SquareOfProduct(v, 2.0 * c1);
    SquareOfProduct(v, c2);
    hide Square, Slope, Product;
    TwoAndOne(v * v, Square(2.0 * c1), Square(c2));
  }

  lemma TwoAndOne(u: real, x: real, y: real)
    ensures u * (2.0 * x + y) == u * x + u * y + u * x
  {
  }

  lemma Roots(c1: real, c2: real)
    requires Square(2.0 * c1 + c2) == Square(2.0 * c1 + 2.0 * c1) && Square(c2) == Square(2.0 * c1)
    ensures c2 == 2.0 * c1
  {
    assert Square(2.0 * c1 + c2) == 4.0 * (c1 * c1) + 4.0 * (c1 * c2) + Square(c2);
    assert Square(2.0 * c1 + 2.0 * c1) == 16.0 * (c1 * c1) && Square(2.0 * c1) == 4.0 * (c1 * c1);
    assert c1 * (2.0 * c1) == 2.0 * (c1 * c1);
    if c1 == 0.0 {
      NonZeroSquare(c2);
    } else {
      Divide(c1, c2, 2.0 * c1);
    }
  }

  // ----- the theorem

  /** Without gray, or without a whole window, there is nothing to see. */
  lemma NothingToSee(s: Scene)
    requires s.Valid() && (s.h == 4 || s.w == 4 || NoGray(s.wt))
    ensures Rotated.Seen(s).Output() == s.Output()
  {
    var t := Rotated.Seen(s);
    if NoGray(s.wt) {
      forall y: nat, x: nat | y < s.h && x < s.w
        ensures s.Gray(y, x) == 0.0 == t.Gray(y, x)
      {
        assert Product(0.0, s.planes[0][y][x]) == 0.0;
      }
      hide Scene.Gray;
      forall y: nat, x: nat | y < s.h - 2 && x < s.w - 2
        ensures s.Ix(y, x) == t.Ix(y, x) && s.Iy(y, x) == t.Iy(y, x)
      {
        assert Product(s.wt.c2x, 0.0) == 0.0 == Product(t.wt.c2x, 0.0);
      }
      hide Scene.Ix, Scene.Iy;
      forall y: nat, x: nat | y < s.h - 4 && x < s.w - 4
        ensures s.Pixel(y, x) == t.Pixel(y, x)
      {
      }
    }
    SameMatrix(t.Output(), s.Output(), s.h - 4, s.w - 4);
  }

  /**
   For weights and a size, the rotated kernels give the picture of the reference on every image exactly
   when the second Sobel weight of the horizontal gradient is twice the first, or no image has anything to see.
   */
  lemma PicturesAgreeExactly(wt: Weights, h: nat, w: nat)
    requires wt.kappa != 0.0 && h >= 4 && w >= 4
    ensures PicturesAgree(wt, h, w) <==> wt.c2x == 2.0 * wt.c1 || h == 4 || w == 4 || NoGray(wt)
  {
    if wt.c2x == 2.0 * wt.c1 || h == 4 || w == 4 || NoGray(wt) {
      forall planes | Scene(wt, planes, h, w).Valid()
        ensures Rotated.Seen(Scene(wt, planes, h, w)).Output() == Scene(wt, planes, h, w).Output()
      {
        if wt.c2x != 2.0 * wt.c1 {
          NothingToSee(Scene(wt, planes, h, w));
        }
      }
    } else if PicturesAgree(wt, h, w) {
      TwiceFromStripes(wt, h, w);
      assert false;
    }
  }

  lemma TwiceFromStripes(wt: Weights, h: nat, w: nat)
    requires wt.kappa != 0.0 && h >= 5 && w >= 5 && !NoGray(wt) && PicturesAgree(wt, h, w)
    ensures wt.c2x == 2.0 * wt.c1
  {
    StripesAgree(wt, h, w, 1.0, 1.0);
    StripesAgree(wt, h, w, 1.0, 0.0);
    assert Tone(wt, 1.0) == WeightOf(wt) != 0.0 && Tone(wt, 0.0) == 0.0;
    hide Steepness, Tone;
    SlopesTell(wt.c1, wt.c2x, WeightOf(wt));
  }

  lemma StripesAgree(wt: Weights, h: nat, w: nat, a: real, b: real)
    requires wt.kappa != 0.0 && h >= 5 && w >= 5 && PicturesAgree(wt, h, w)
    ensures Steepness(wt.c1, wt.c2x, Tone(wt, a), Tone(wt, b))
            == Steepness(wt.c1, 2.0 * wt.c1, Tone(wt, a), Tone(wt, b))
  {
    var s, twice := StripedScene(wt, h, w, a, b), wt.(c2x := 2.0 * wt.c1);
    assert Rotated.Seen(s) == StripedScene(twice, h, w, a, b);
    assert Scene(wt, s.planes, h, w) == s;
    assert Tone(twice, a) == Tone(wt, a) && Tone(twice, b) == Tone(wt, b);
    hide StripedScene, Steepness, Coarsity, Scene.Pixel, Tone;
    StripedPixel(wt, h, w, a, b);
    StripedPixel(twice, h, w, a, b);
    SteepnessIsPositive(wt.c1, wt.c2x, Tone(wt, a), Tone(wt, b));
    SteepnessIsPositive(wt.c1, 2.0 * wt.c1, Tone(wt, a), Tone(wt, b));
    SameSteepness(wt.kappa, Steepness(wt.c1, wt.c2x, Tone(wt, a), Tone(wt, b)),
                  Steepness(wt.c1, 2.0 * wt.c1, Tone(wt, a), Tone(wt, b)));
  }
}
