/**
 The Harris corner response of an image, pixel by pixel. Numbers are reals and the
 constants of the program are symbols.
 */
module Scene {
  import opened Matrices

  type Image = seq<seq<real>>

  /** The grayscale weights, the Sobel weights, and kappa. The first Sobel weight is 1/12; the second
      one is 2/12, written out separately for the horizontal and for the vertical gradient. */
  datatype Weights = Weights(r: real, g: real, b: real, c1: real, c2x: real, c2y: real, kappa: real)

  function Product(x: real, y: real): real { x * y }

  datatype Scene = Scene(wt: Weights, planes: seq<Image>, h: nat, w: nat) {

    predicate Valid() {
      && h >= 4 && w >= 4 && |planes| >= 3
      && forall c :: 0 <= c < |planes| ==> Sized(planes[c], h, w)
    }

    function Gray(y: nat, x: nat): real
      requires Valid() && y < h && x < w
    {
      Product(wt.r, planes[0][y][x]) + Product(wt.g, planes[1][y][x]) + Product(wt.b, planes[2][y][x])
    }

    function Ix(y: nat, x: nat): real
      requires Valid() && y < h - 2 && x < w - 2
    {
      - Product(wt.c1, Gray(y, x)) + Product(wt.c1, Gray(y, x + 2))
      - Product(wt.c2x, Gray(y + 1, x)) + Product(wt.c2x, Gray(y + 1, x + 2))
      - Product(wt.c1, Gray(y + 2, x)) + Product(wt.c1, Gray(y + 2, x + 2))
    }

    function Iy(y: nat, x: nat): real
      requires Valid() && y < h - 2 && x < w - 2
    {
      - Product(wt.c1, Gray(y, x)) - Product(wt.c2y, Gray(y, x + 1)) - Product(wt.c1, Gray(y, x + 2))
      + Product(wt.c1, Gray(y + 2, x)) + Product(wt.c2y, Gray(y + 2, x + 1)) + Product(wt.c1, Gray(y + 2, x + 2))
    }

    /** Three products of gradients in a column. */
    function Xx(y: nat, x: nat): real
      requires Valid() && y < h - 4 && x < w - 2
    {
      Product(Ix(y, x), Ix(y, x)) + Product(Ix(y + 1, x), Ix(y + 1, x)) + Product(Ix(y + 2, x), Ix(y + 2, x))
    }

    function Xy(y: nat, x: nat): real
      requires Valid() && y < h - 4 && x < w - 2
    {
      Product(Ix(y, x), Iy(y, x)) + Product(Ix(y + 1, x), Iy(y + 1, x)) + Product(Ix(y + 2, x), Iy(y + 2, x))
    }

    function Yy(y: nat, x: nat): real
      requires Valid() && y < h - 4 && x < w - 2
    {
      Product(Iy(y, x), Iy(y, x)) + Product(Iy(y + 1, x), Iy(y + 1, x)) + Product(Iy(y + 2, x), Iy(y + 2, x))
    }

    function Pixel(y: nat, x: nat): real
      requires Valid() && y < h - 4 && x < w - 4
    {
      Coarsity(wt.kappa, Xx(y, x) + Xx(y, x + 1) + Xx(y, x + 2), Xy(y, x) + Xy(y, x + 1) + Xy(y, x + 2),
               Yy(y, x) + Yy(y, x + 1) + Yy(y, x + 2))
    }

    /** The picture the program is to produce. */
    function Output(): (out: Image)
      requires Valid()
      ensures Sized(out, h - 4, w - 4)
    {
      seq(h - 4, y requires 0 <= y < h - 4 => seq(w - 4, x requires 0 <= x < w - 4 => Pixel(y, x)))
    }
  }

  function Coarsity(kappa: real, sxx: real, sxy: real, syy: real): real {
    sxx * syy - sxy * sxy - kappa * (sxx + syy) * (sxx + syy)
  }
}
