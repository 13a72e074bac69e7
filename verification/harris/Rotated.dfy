/**
 The row kernels with rotated accumulators: the sums of a column are computed once, when
 the window first reaches it, and handed from variable to variable as the window moves on.
 */
module Rotated {
  import opened Scene
  import Reference

  /** The smoothed column that the horizontal gradient is the difference of. */
  function ColumnX(s: Scene, y: nat, x: nat): real
    requires s.Valid() && y < s.h - 2 && x < s.w
  {
    s.Gray(y, x) + 2.0 * s.Gray(y + 1, x) + s.Gray(y + 2, x)
  }

  /** The column difference that the vertical gradient smooths. */
  function ColumnY(s: Scene, y: nat, x: nat): real
    requires s.Valid() && y < s.h - 2 && x < s.w
  {
    s.Gray(y + 2, x) - s.Gray(y, x)
  }

  function DirectStencil(c1: real, c2: real, a: real, b: real, c: real, d: real, e: real, f: real): real {
    -c1 * a + c1 * b + -c2 * c + c2 * d + -c1 * e + c1 * f
  }

  function RotatedStencil(c1: real, a: real, b: real, c: real, d: real, e: real, f: real): real {
    -c1 * (a + 2.0 * c + e) + c1 * (b + 2.0 * d + f)
  }

  ghost predicate StencilsAgree(c1: real, c2: real) {
    forall a: real, b: real, c: real, d: real, e: real, f: real ::
      DirectStencil(c1, c2, a, b, c, d, e, f) == RotatedStencil(c1, a, b, c, d, e, f)
  }

  /** The rotated sums use 2 * c1 where the direct ones use c2. */
  lemma StencilsAgreeExactly(c1: real, c2: real)
    ensures StencilsAgree(c1, c2) <==> c2 == 2.0 * c1
  {
    if c2 == 2.0 * c1 {
      forall a: real, b: real, c: real, d: real, e: real, f: real
        ensures DirectStencil(c1, c2, a, b, c, d, e, f) == RotatedStencil(c1, a, b, c, d, e, f)
      {
        Doubled(c1, c2, c);
        Doubled(c1, c2, d);
      }
    } else {
      assert DirectStencil(c1, c2, 0.0, 0.0, 0.0, 1.0, 0.0, 0.0) == c2;
      assert RotatedStencil(c1, 0.0, 0.0, 0.0, 1.0, 0.0, 0.0) == 2.0 * c1;
    }
  }

  lemma Doubled(c1: real, c2: real, g: real)
    requires c2 == 2.0 * c1
    ensures c1 * (2.0 * g) == c2 * g
  {
  }

  /** The scene whose horizontal gradient the rotated sums compute. */
  function Seen(s: Scene): Scene { s.(wt := s.wt.(c2x := 2.0 * s.wt.c1)) }

  lemma SeenGray(s: Scene)
    requires s.Valid()
    ensures forall y: nat, x: nat :: y < s.h && x < s.w ==> Seen(s).Gray(y, x) == s.Gray(y, x)
  {
  }

  lemma RotatedIx(s: Scene, y: nat, x: nat)
    requires s.Valid() && y < s.h - 2 && x < s.w - 2
    ensures Seen(s).Ix(y, x) == 0.0 + (-s.wt.c1) * ColumnX(s, y, x) + s.wt.c1 * ColumnX(s, y, x + 2)
  {
    SeenGray(s);
    hide Scene.Gray;
    var c1, c2 := s.wt.c1, Seen(s).wt.c2x;
    var a, b, c, d, e, f := s.Gray(y, x), s.Gray(y, x + 2), s.Gray(y + 1, x), s.Gray(y + 1, x + 2), s.Gray(y + 2, x),
        s.Gray(y + 2, x + 2);
    StencilsAgreeExactly(c1, c2);
    assert Seen(s).Ix(y, x) == DirectStencil(c1, c2, a, b, c, d, e, f);
    assert RotatedStencil(c1, a, b, c, d, e, f) == 0.0 + (-c1) * ColumnX(s, y, x) + c1 * ColumnX(s, y, x + 2);
  }

  lemma RotatedIy(s: Scene, y: nat, x: nat)
    requires s.Valid() && y < s.h - 2 && x < s.w - 2
    ensures Seen(s).Iy(y, x) == 0.0 + s.wt.c1 * ColumnY(s, y, x) + s.wt.c2y * ColumnY(s, y, x + 1)
            + s.wt.c1 * ColumnY(s, y, x + 2)
  {
    SeenGray(s);
    hide Scene.Gray;
  }

  /** Computes row `row` of both gradients into slot o, from the gray rows in slots g0, g1, g2. */
  method SobelRow(s: Scene, gray: array2<real>, ix: array2<real>, iy: array2<real>, g0: nat, g1: nat, g2: nat,
                  o: nat, row: nat)
    requires s.Valid() && row < s.h - 2 && gray.Length1 == s.w && g0 < gray.Length0 && g1 < gray.Length0
             && g2 < gray.Length0
    requires ix.Length0 == iy.Length0 && ix.Length1 == iy.Length1 == s.w - 2 && o < ix.Length0
    requires ix != iy && gray != ix && gray != iy
    requires forall x: nat :: x < s.w ==>
               gray[g0, x] == s.Gray(row, x) && gray[g1, x] == s.Gray(row + 1, x) && gray[g2, x] == s.Gray(row + 2, x)
    modifies ix, iy
    ensures forall x: nat :: x < s.w - 2 ==> ix[o, x] == Seen(s).Ix(row, x) && iy[o, x] == Seen(s).Iy(row, x)
    ensures forall r, x :: 0 <= r < ix.Length0 && r != o && 0 <= x < s.w - 2 ==>
              ix[r, x] == old(ix[r, x]) && iy[r, x] == old(iy[r, x])
  {
    hide Scene.Gray, Scene.Ix, Scene.Iy;
    var acc_ix_v0 := 0.0 + gray[g0, 0] + 2.0 * gray[g1, 0] + gray[g2, 0];
    var acc_ix_v1 := 0.0 + gray[g0, 1] + 2.0 * gray[g1, 1] + gray[g2, 1];
    var acc_iy_v0 := 0.0 + (-1.0) * gray[g0, 0] + 1.0 * gray[g2, 0];
    var acc_iy_v1 := 0.0 + (-1.0) * gray[g0, 1] + 1.0 * gray[g2, 1];
    for x: nat := 0 to s.w - 2
      invariant acc_ix_v0 == ColumnX(s, row, x) && acc_ix_v1 == ColumnX(s, row, x + 1)
      invariant acc_iy_v0 == ColumnY(s, row, x) && acc_iy_v1 == ColumnY(s, row, x + 1)
      invariant forall c: nat :: c < x ==> ix[o, c] == Seen(s).Ix(row, c) && iy[o, c] == Seen(s).Iy(row, c)
      invariant forall r, c :: 0 <= r < ix.Length0 && r != o && 0 <= c < s.w - 2 ==>
                  ix[r, c] == old(ix[r, c]) && iy[r, c] == old(iy[r, c])
    {
      var acc_ix_v2 := 0.0 + gray[g0, x + 2] + 2.0 * gray[g1, x + 2] + gray[g2, x + 2];
      assert acc_ix_v2 == ColumnX(s, row, x + 2);
      var acc_ix := 0.0 + (-s.wt.c1) * acc_ix_v0 + s.wt.c1 * acc_ix_v2;
      RotatedIx(s, row, x);
      ix[o, x] := acc_ix;
      var acc_iy_v2 := 0.0 + (-1.0) * gray[g0, x + 2] + 1.0 * gray[g2, x + 2];
      assert acc_iy_v2 == ColumnY(s, row, x + 2);
      var acc_iy := 0.0 + s.wt.c1 * acc_iy_v0 + s.wt.c2y * acc_iy_v1 + s.wt.c1 * acc_iy_v2;
      RotatedIy(s, row, x);
      iy[o, x] := acc_iy;
      acc_ix_v0 := acc_ix_v1;
      acc_ix_v1 := acc_ix_v2;
      acc_iy_v0 := acc_iy_v1;
      acc_iy_v1 := acc_iy_v2;
    }
  }

  /** One column of the three products. */
  method ColumnSums(s: Scene, ix: array2<real>, iy: array2<real>, i0: nat, i1: nat, i2: nat, row: nat, x: nat)
    returns (sxx: real, sxy: real, syy: real)
    requires s.Valid() && row < s.h - 4 && x < s.w - 2
    requires ix.Length0 == iy.Length0 && ix.Length1 == iy.Length1 == s.w - 2 && i0 < ix.Length0 && i1 < ix.Length0
             && i2 < ix.Length0
    requires ix[i0, x] == s.Ix(row, x) && ix[i1, x] == s.Ix(row + 1, x) && ix[i2, x] == s.Ix(row + 2, x)
    requires iy[i0, x] == s.Iy(row, x) && iy[i1, x] == s.Iy(row + 1, x) && iy[i2, x] == s.Iy(row + 2, x)
    ensures sxx == s.Xx(row, x) && sxy == s.Xy(row, x) && syy == s.Yy(row, x)
  {
    hide Scene.Ix, Scene.Iy;
    var ix_0, ix_1, ix_2 := ix[i0, x], ix[i1, x], ix[i2, x];
    var iy_0, iy_1, iy_2 := iy[i0, x], iy[i1, x], iy[i2, x];
    sxx := ix_0 * ix_0 + ix_1 * ix_1 + ix_2 * ix_2;
    sxy := ix_0 * iy_0 + ix_1 * iy_1 + ix_2 * iy_2;
    syy := iy_0 * iy_0 + iy_1 * iy_1 + iy_2 * iy_2;
  }

  /** Computes row `row` of the output from the gradient rows in slots i0, i1, i2. */
  method OutputRow(s: Scene, ix: array2<real>, iy: array2<real>, out: array2<real>, i0: nat, i1: nat, i2: nat, row: nat)
    requires s.Valid() && row < s.h - 4 && out.Length0 == s.h - 4 && out.Length1 == s.w - 4 && out != ix && out != iy
    requires ix.Length0 == iy.Length0 && ix.Length1 == iy.Length1 == s.w - 2 && i0 < ix.Length0 && i1 < ix.Length0
             && i2 < ix.Length0
    requires forall x: nat :: x < s.w - 2 ==>
               && ix[i0, x] == s.Ix(row, x) && ix[i1, x] == s.Ix(row + 1, x) && ix[i2, x] == s.Ix(row + 2, x)
               && iy[i0, x] == s.Iy(row, x) && iy[i1, x] == s.Iy(row + 1, x) && iy[i2, x] == s.Iy(row + 2, x)
    modifies out
    ensures forall r: nat, x: nat :: r < s.h - 4 && x < s.w - 4 ==>
              out[r, x] == if r == row then s.Pixel(row, x) else old(out[r, x])
  {
    hide Scene.Ix, Scene.Iy, Scene.Xx, Scene.Xy, Scene.Yy, Scene.Pixel;
    var acc_sxx_v0, acc_sxy_v0, acc_syy_v0 := ColumnSums(s, ix, iy, i0, i1, i2, row, 0);
    var acc_sxx_v1, acc_sxy_v1, acc_syy_v1 := ColumnSums(s, ix, iy, i0, i1, i2, row, 1);
    for x: nat := 0 to s.w - 4
      invariant acc_sxx_v0 == s.Xx(row, x) && acc_sxy_v0 == s.Xy(row, x) && acc_syy_v0 == s.Yy(row, x)
      invariant acc_sxx_v1 == s.Xx(row, x + 1) && acc_sxy_v1 == s.Xy(row, x + 1) && acc_syy_v1 == s.Yy(row, x + 1)
      invariant forall r: nat, c: nat :: r < s.h - 4 && c < s.w - 4 ==>
                  out[r, c] == if r == row && c < x then s.Pixel(row, c) else old(out[r, c])
    {
      var acc_sxx_v2, acc_sxy_v2, acc_syy_v2 := ColumnSums(s, ix, iy, i0, i1, i2, row, x + 2);
      var acc_sxx := acc_sxx_v0 + acc_sxx_v1 + acc_sxx_v2;
      var acc_sxy := acc_sxy_v0 + acc_sxy_v1 + acc_sxy_v2;
      var acc_syy := acc_syy_v0 + acc_syy_v1 + acc_syy_v2;
      var det := acc_sxx * acc_syy - acc_sxy * acc_sxy;
      var trace := acc_sxx + acc_syy;
      Reference.PixelIs(s, row, x, acc_sxx, acc_sxy, acc_syy);
      out[row, x] := det - s.wt.kappa * trace * trace;
      acc_sxx_v0 := acc_sxx_v1;
      acc_sxx_v1 := acc_sxx_v2;
      acc_sxy_v0 := acc_sxy_v1;
      acc_sxy_v1 := acc_sxy_v2;
      acc_syy_v0 := acc_syy_v1;
      acc_syy_v1 := acc_syy_v2;
    }
  }
}
