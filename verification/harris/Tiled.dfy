/**
 The optimised forms: the output is cut into tiles of 32 rows, and a tile keeps its
 intermediate rows in ring buffers. Row number t of a tile lives in slot t % ring.
 The ring has 4 slots in one program and 3 in another; any number from 3 on will do.
 */
module Tiled {
  import opened Matrices
  import opened Mindex
  import opened Scene
  import Reference
  import Rotated

  const TILE := 32

  /** How the rows are computed: directly, or with rotated accumulators. */
  datatype Kernel = Direct | Rotating

  /** The scene whose picture a kernel computes: the rotated sums use 2.0 * c1 where c2x is written. */
  function SeenBy(kernel: Kernel, s: Scene): (seen: Scene) {
    if kernel.Rotating? then Rotated.Seen(s) else s
  }

  /** That is the scene itself if the rotated sums are not used, or c2x is twice c1. */
  lemma SeenAsItIs(kernel: Kernel, s: Scene)
    ensures kernel.Direct? || s.wt.c2x == 2.0 * s.wt.c1 ==> SeenBy(kernel, s) == s
    ensures SeenBy(kernel, SeenBy(kernel, s)) == SeenBy(kernel, s)
  {
  }

  function Less(a: int, b: int): int { if a < b then a else b }

  // ----- ring buffers

  predicate ThreeRowsApart(ring: nat, t: nat)
    requires ring > 0
  {
    t % ring != (t + 1) % ring && t % ring != (t + 2) % ring && (t + 1) % ring != (t + 2) % ring
  }

  /** A ring tells any three consecutive rows apart exactly when it has at least three slots. */
  lemma RingHoldsThreeRows(ring: nat)
    requires ring > 0
    ensures (forall t: nat :: ThreeRowsApart(ring, t)) <==> ring >= 3
  {
    if ring >= 3 {
      forall t: nat
        ensures ThreeRowsApart(ring, t)
      {
        SlotsApart(ring, t, t + 1);
        SlotsApart(ring, t, t + 2);
        SlotsApart(ring, t + 1, t + 2);
      }
    } else {
      assert ring == 1 || ring == 2;
      assert !ThreeRowsApart(ring, 0);
    }
  }

  lemma SlotsApart(ring: nat, s: nat, t: nat)
    requires s < t < s + ring
    ensures s % ring != t % ring
  {
    RowsApart(ring, s / ring, t / ring);
    assert s == s / ring * ring + s % ring && t == t / ring * ring + t % ring;
  }

  /** Slot t % ring of the gray ring holds row t of the tile that starts at row y. */
  ghost predicate GrayHeld(s: Scene, gray: array2<real>, ring: nat, y: nat, t: nat)
    requires s.Valid() && ring > 0 && gray.Length0 == ring && gray.Length1 == s.w && y + t < s.h
    reads gray
  {
    forall x: nat :: x < s.w ==> gray[t % ring, x] == s.Gray(y + t, x)
  }

  ghost predicate GradientsHeld(s: Scene, ix: array2<real>, iy: array2<real>, ring: nat, y: nat, t: nat)
    requires s.Valid() && ring > 0 && ix.Length0 == iy.Length0 == ring && ix.Length1 == iy.Length1 == s.w - 2
             && y + t < s.h - 2
    reads ix, iy
  {
    forall x: nat :: x < s.w - 2 ==> ix[t % ring, x] == s.Ix(y + t, x) && iy[t % ring, x] == s.Iy(y + t, x)
  }

  // ----- the rows of one step

  /** Computes row `row` of the gray image into a slot. */
  method GrayRow(s: Scene, gray: array2<real>, slot: nat, row: nat)
    requires s.Valid() && slot < gray.Length0 && gray.Length1 == s.w && row < s.h
    modifies gray
    ensures forall x: nat :: x < s.w ==> gray[slot, x] == s.Gray(row, x)
    ensures forall r, x :: 0 <= r < gray.Length0 && r != slot && 0 <= x < s.w ==> gray[r, x] == old(gray[r, x])
  {
    hide Scene.Gray;
    for x: nat := 0 to s.w
      invariant forall c: nat :: c < x ==> gray[slot, c] == s.Gray(row, c)
      invariant forall r, c :: 0 <= r < gray.Length0 && r != slot && 0 <= c < s.w ==> gray[r, c] == old(gray[r, c])
    {
      gray[slot, x] := s.wt.r * s.planes[0][row][x] + s.wt.g * s.planes[1][row][x] + s.wt.b * s.planes[2][row][x];
      Reference.GrayIs(s, row, x);
    }
  }

  /** Computes row `row` of both gradients into slot o, from the gray rows in slots g0, g1, g2. */
  method SobelRow(s: Scene, gray: array2<real>, ix: array2<real>, iy: array2<real>, g0: nat, g1: nat, g2: nat,
                  o: nat, row: nat)
    requires s.Valid() && row < s.h - 2 && gray.Length1 == s.w && g0 < gray.Length0 && g1 < gray.Length0
             && g2 < gray.Length0
    requires ix.Length0 == iy.Length0 && ix.Length1 == iy.Length1 == s.w - 2 && o < ix.Length0
    requires ix != iy && gray != ix && gray != iy
    requires forall x: nat :: x < s.w ==>
               gray[g0, x] == s.Gray(row, x) && gray[g1, x] == s.Gray(row + 1, x) && gray[g2, x] == s.Gray(row + 2, x)
    modifies ix, iy
    ensures forall x: nat :: x < s.w - 2 ==> ix[o, x] == s.Ix(row, x) && iy[o, x] == s.Iy(row, x)
    ensures forall r, x :: 0 <= r < ix.Length0 && r != o && 0 <= x < s.w - 2 ==>
              ix[r, x] == old(ix[r, x]) && iy[r, x] == old(iy[r, x])
  {
    hide Scene.Gray, Scene.Ix, Scene.Iy;
    for x: nat := 0 to s.w - 2
      invariant forall c: nat :: c < x ==> ix[o, c] == s.Ix(row, c) && iy[o, c] == s.Iy(row, c)
      invariant forall r, c :: 0 <= r < ix.Length0 && r != o && 0 <= c < s.w - 2 ==>
                  ix[r, c] == old(ix[r, c]) && iy[r, c] == old(iy[r, c])
    {
      var acc_ix := 0.0;
      acc_ix := acc_ix + (-s.wt.c1) * gray[g0, x];
      acc_ix := acc_ix + s.wt.c1 * gray[g0, x + 2];
      acc_ix := acc_ix + (-s.wt.c2x) * gray[g1, x];
      acc_ix := acc_ix + s.wt.c2x * gray[g1, x + 2];
      acc_ix := acc_ix + (-s.wt.c1) * gray[g2, x];
      acc_ix := acc_ix + s.wt.c1 * gray[g2, x + 2];
      var acc_iy := 0.0;
      acc_iy := acc_iy + (-s.wt.c1) * gray[g0, x];
      acc_iy := acc_iy + (-s.wt.c2y) * gray[g0, x + 1];
      acc_iy := acc_iy + (-s.wt.c1) * gray[g0, x + 2];
      acc_iy := acc_iy + s.wt.c1 * gray[g2, x];
      acc_iy := acc_iy + s.wt.c2y * gray[g2, x + 1];
      acc_iy := acc_iy + s.wt.c1 * gray[g2, x + 2];
      SobelSums(s, row, x);
      ix[o, x] := acc_ix;
      iy[o, x] := acc_iy;
    }
  }

  lemma SobelSums(s: Scene, y: nat, x: nat)
    requires s.Valid() && y < s.h - 2 && x < s.w - 2
    ensures s.Ix(y, x) == 0.0 + (-s.wt.c1) * s.Gray(y, x) + s.wt.c1 * s.Gray(y, x + 2) + (-s.wt.c2x) * s.Gray(y + 1, x)
                        + s.wt.c2x * s.Gray(y + 1, x + 2) + (-s.wt.c1) * s.Gray(y + 2, x)
                            + s.wt.c1 * s.Gray(y + 2, x + 2)
    ensures s.Iy(y, x) == 0.0 + (-s.wt.c1) * s.Gray(y, x) + (-s.wt.c2y) * s.Gray(y, x + 1)
            + (-s.wt.c1) * s.Gray(y, x + 2)
                        + s.wt.c1 * s.Gray(y + 2, x) + s.wt.c2y * s.Gray(y + 2, x + 1) + s.wt.c1 * s.Gray(y + 2, x + 2)
  {
    hide Scene.Gray;
  }

  /** Computes one pixel from the 3x3 window of both gradients. */
  method OutputPixel(s: Scene, ix: array2<real>, iy: array2<real>, i0: nat, i1: nat, i2: nat, row: nat, x: nat)
    returns (p: real)
    requires s.Valid() && row < s.h - 4 && x < s.w - 4
    requires ix.Length0 == iy.Length0 && ix.Length1 == iy.Length1 == s.w - 2
    requires i0 < ix.Length0 && i1 < ix.Length0 && i2 < ix.Length0
    requires forall c: nat :: x <= c < x + 3 ==>
               && ix[i0, c] == s.Ix(row, c) && ix[i1, c] == s.Ix(row + 1, c) && ix[i2, c] == s.Ix(row + 2, c)
               && iy[i0, c] == s.Iy(row, c) && iy[i1, c] == s.Iy(row + 1, c) && iy[i2, c] == s.Iy(row + 2, c)
    ensures p == s.Pixel(row, x)
  {
    hide Scene.Ix, Scene.Iy, Scene.Pixel;
    var ix0, ix1, ix2 := ix[i0, x], ix[i0, x + 1], ix[i0, x + 2];
    var ix3, ix4, ix5 := ix[i1, x], ix[i1, x + 1], ix[i1, x + 2];
    var ix6, ix7, ix8 := ix[i2, x], ix[i2, x + 1], ix[i2, x + 2];
    var iy0, iy1, iy2 := iy[i0, x], iy[i0, x + 1], iy[i0, x + 2];
    var iy3, iy4, iy5 := iy[i1, x], iy[i1, x + 1], iy[i1, x + 2];
    var iy6, iy7, iy8 := iy[i2, x], iy[i2, x + 1], iy[i2, x + 2];
    var acc_sxx := 0.0 + ix0 * ix0 + ix1 * ix1 + ix2 * ix2 + ix3 * ix3 + ix4 * ix4 + ix5 * ix5 + ix6 * ix6
        + ix7 * ix7 + ix8 * ix8;
    var acc_sxy := 0.0 + ix0 * iy0 + ix1 * iy1 + ix2 * iy2 + ix3 * iy3 + ix4 * iy4 + ix5 * iy5 + ix6 * iy6
        + ix7 * iy7 + ix8 * iy8;
    var acc_syy := 0.0 + iy0 * iy0 + iy1 * iy1 + iy2 * iy2 + iy3 * iy3 + iy4 * iy4 + iy5 * iy5 + iy6 * iy6
        + iy7 * iy7 + iy8 * iy8;
    var det := acc_sxx * acc_syy - acc_sxy * acc_sxy;
    var trace := acc_sxx + acc_syy;
    ColumnsOfNine(s, row, x, acc_sxx, acc_sxy, acc_syy);
    Reference.PixelIs(s, row, x, acc_sxx, acc_sxy, acc_syy);
    p := det - s.wt.kappa * trace * trace;
  }

  /** Computes row `row` of the output from the gradient rows in slots i0, i1, i2. */
  method OutputRow(s: Scene, ix: array2<real>, iy: array2<real>, out: array2<real>, i0: nat, i1: nat, i2: nat, row: nat)
    requires s.Valid() && row < s.h - 4 && out.Length0 == s.h - 4 && out.Length1 == s.w - 4 && out != ix && out != iy
    requires ix.Length0 == iy.Length0 && ix.Length1 == iy.Length1 == s.w - 2
    requires i0 < ix.Length0 && i1 < ix.Length0 && i2 < ix.Length0
    requires forall x: nat :: x < s.w - 2 ==>
               && ix[i0, x] == s.Ix(row, x) && ix[i1, x] == s.Ix(row + 1, x) && ix[i2, x] == s.Ix(row + 2, x)
               && iy[i0, x] == s.Iy(row, x) && iy[i1, x] == s.Iy(row + 1, x) && iy[i2, x] == s.Iy(row + 2, x)
    modifies out
    ensures forall r: nat, x: nat :: r < s.h - 4 && x < s.w - 4 ==>
              out[r, x] == if r == row then s.Pixel(row, x) else old(out[r, x])
  {
    hide Scene.Ix, Scene.Iy, Scene.Pixel;
    for x: nat := 0 to s.w - 4
      invariant forall r: nat, c: nat :: r < s.h - 4 && c < s.w - 4 ==>
                  out[r, c] == if r == row && c < x then s.Pixel(row, c) else old(out[r, c])
    {
      out[row, x] := OutputPixel(s, ix, iy, i0, i1, i2, row, x);
    }
  }

  /** Summing the nine products row by row or column by column is the same. */
  lemma ColumnsOfNine(s: Scene, y: nat, x: nat, sxx: real, sxy: real, syy: real)
    requires s.Valid() && y < s.h - 4 && x < s.w - 4
    requires sxx == 0.0 + s.Ix(y, x) * s.Ix(y, x) + s.Ix(y, x + 1) * s.Ix(y, x + 1) + s.Ix(y, x + 2) * s.Ix(y, x + 2)
                  + s.Ix(y + 1, x) * s.Ix(y + 1, x) + s.Ix(y + 1, x + 1) * s.Ix(y + 1, x + 1)
                      + s.Ix(y + 1, x + 2) * s.Ix(y + 1, x + 2)
                  + s.Ix(y + 2, x) * s.Ix(y + 2, x) + s.Ix(y + 2, x + 1) * s.Ix(y + 2, x + 1)
                      + s.Ix(y + 2, x + 2) * s.Ix(y + 2, x + 2)
    requires sxy == 0.0 + s.Ix(y, x) * s.Iy(y, x) + s.Ix(y, x + 1) * s.Iy(y, x + 1) + s.Ix(y, x + 2) * s.Iy(y, x + 2)
                  + s.Ix(y + 1, x) * s.Iy(y + 1, x) + s.Ix(y + 1, x + 1) * s.Iy(y + 1, x + 1)
                      + s.Ix(y + 1, x + 2) * s.Iy(y + 1, x + 2)
                  + s.Ix(y + 2, x) * s.Iy(y + 2, x) + s.Ix(y + 2, x + 1) * s.Iy(y + 2, x + 1)
                      + s.Ix(y + 2, x + 2) * s.Iy(y + 2, x + 2)
    requires syy == 0.0 + s.Iy(y, x) * s.Iy(y, x) + s.Iy(y, x + 1) * s.Iy(y, x + 1) + s.Iy(y, x + 2) * s.Iy(y, x + 2)
                  + s.Iy(y + 1, x) * s.Iy(y + 1, x) + s.Iy(y + 1, x + 1) * s.Iy(y + 1, x + 1)
                      + s.Iy(y + 1, x + 2) * s.Iy(y + 1, x + 2)
                  + s.Iy(y + 2, x) * s.Iy(y + 2, x) + s.Iy(y + 2, x + 1) * s.Iy(y + 2, x + 1)
                      + s.Iy(y + 2, x + 2) * s.Iy(y + 2, x + 2)
    ensures sxx == s.Xx(y, x) + s.Xx(y, x + 1) + s.Xx(y, x + 2)
    ensures sxy == s.Xy(y, x) + s.Xy(y, x + 1) + s.Xy(y, x + 2)
    ensures syy == s.Yy(y, x) + s.Yy(y, x + 1) + s.Yy(y, x + 2)
  {
    hide Scene.Ix, Scene.Iy;
  }

  // ----- one tile

  ghost predicate Rows(s: Scene, gray: array2<real>, ix: array2<real>, iy: array2<real>, ring: nat)
  {
    && s.Valid() && ring >= 3 && gray.Length0 == ix.Length0 == iy.Length0 == ring
    && gray.Length1 == s.w && ix.Length1 == iy.Length1 == s.w - 2 && gray != ix && gray != iy && ix != iy
  }

  /** Before row t of the tile, the rings hold the two gray rows and the two gradient rows before it that are still
      needed. */
  ghost predicate RingsHold(s: Scene, gray: array2<real>, ix: array2<real>, iy: array2<real>, ring: nat, y: nat, t: nat)
    requires Rows(s, gray, ix, iy, ring) && y + t <= s.h
    reads gray, ix, iy
  {
    && (t >= 1 ==> GrayHeld(s, gray, ring, y, t - 1)) && (t >= 2 ==> GrayHeld(s, gray, ring, y, t - 2))
    && (t >= 3 ==> GradientsHeld(s, ix, iy, ring, y, t - 3)) && (t >= 4 ==> GradientsHeld(s, ix, iy, ring, y, t - 4))
  }

  /** The body of the loop over the rows of a tile. */
  method TileRow(kernel: Kernel, s: Scene, gray: array2<real>, ix: array2<real>, iy: array2<real>, out: array2<real>,
                 ring: nat, y: nat, t: nat)
    requires Rows(s, gray, ix, iy, ring) && y + t < s.h && SeenBy(kernel, s) == s
    requires out.Length0 == s.h - 4 && out.Length1 == s.w - 4 && out != gray && out != ix && out != iy
    requires RingsHold(s, gray, ix, iy, ring, y, t)
    modifies gray, ix, iy, out
    ensures RingsHold(s, gray, ix, iy, ring, y, t + 1)
    ensures forall r: nat, x: nat :: r < s.h - 4 && x < s.w - 4 ==>
              out[r, x] == if t >= 4 && r == y + t - 4 then s.Pixel(r, x) else old(out[r, x])
  {
    hide Scene.Gray, Scene.Ix, Scene.Iy, Scene.Pixel;
    GrayRow(s, gray, t % ring, y + t);
    if t >= 1 { SlotsApart(ring, t - 1, t); }
    if 2 <= t {
      SlotsApart(ring, t - 2, t);
      if kernel.Direct? {
        SobelRow(s, gray, ix, iy, (t - 2) % ring, (t - 1) % ring, t % ring, (t - 2) % ring, y + t - 2);
      } else {
        Rotated.SobelRow(s, gray, ix, iy, (t - 2) % ring, (t - 1) % ring, t % ring, (t - 2) % ring, y + t - 2);
      }
    }
    if t >= 3 { SlotsApart(ring, t - 3, t - 2); }
    if 4 <= t {
      SlotsApart(ring, t - 4, t - 2);
      if kernel.Direct? {
        OutputRow(s, ix, iy, out, (t - 4) % ring, (t - 3) % ring, (t - 2) % ring, y + t - 4);
      } else {
        Rotated.OutputRow(s, ix, iy, out, (t - 4) % ring, (t - 3) % ring, (t - 2) % ring, y + t - 4);
      }
    }
  }

  /** The rows that the tile starting at row y writes: at most 32 of the output's. */
  predicate InTile(s: Scene, y: nat, r: nat) {
    y <= r < y + TILE && r < s.h - 4
  }

  /** The body of the loop over the tiles. */
  method Tile(kernel: Kernel, s: Scene, out: array2<real>, ring: nat, y: nat)
    requires s.Valid() && SeenBy(kernel, s) == s && ring >= 3 && out.Length0 == s.h - 4 && out.Length1 == s.w - 4
             && y < s.h - 4
    modifies out
    ensures forall r: nat, x: nat :: r < s.h - 4 && x < s.w - 4 ==>
              out[r, x] == if InTile(s, y, r) then s.Pixel(r, x) else old(out[r, x])
  {
    hide Scene.Pixel;
    var iy := new real[ring, s.w - 2];
    var ix := new real[ring, s.w - 2];
    var gray := new real[ring, s.w];
    var rows := Less(s.h, y + TILE + 4) - y;
    for t: nat := 0 to rows
      invariant RingsHold(s, gray, ix, iy, ring, y, t)
      invariant forall r: nat, x: nat :: r < s.h - 4 && x < s.w - 4 ==>
                  out[r, x] == if y <= r < y + t - 4 then s.Pixel(r, x) else old(out[r, x])
    {
      TileRow(kernel, s, gray, ix, iy, out, ring, y, t);
    }
  }

  // ----- the whole picture

  /** The number of iterations of the loop over the tiles. */
  function TileCount(h: nat): (n: nat)
    requires h >= 4
  {
    (h - 4 + (TILE - 1)) / TILE
  }

  /** Every row of the output is in exactly one tile. */
  lemma TilesPartition(s: Scene, r: nat)
    requires s.Valid() && r < s.h - 4
    ensures r / TILE < TileCount(s.h) && InTile(s, TILE * (r / TILE), r)
    ensures forall k: nat :: InTile(s, TILE * k, r) ==> k == r / TILE
  {
  }

  /** harris: one tile after the other */
  method Harris(kernel: Kernel, out: array2<real>, s: Scene, ring: nat)
    requires s.Valid() && ring >= 3 && out.Length0 == s.h - 4 && out.Length1 == s.w - 4
    modifies out
    ensures View(out) == SeenBy(kernel, s).Output()
    ensures kernel.Direct? || s.wt.c2x == 2.0 * s.wt.c1 ==> View(out) == s.Output()
  {
    hide Scene.Pixel;
    SeenAsItIs(kernel, s);
    var s' := SeenBy(kernel, s);
    var y: nat := 0;
    while y < s.h - 4
      invariant forall r: nat, x: nat :: r < s.h - 4 && x < s.w - 4 && r < y ==> out[r, x] == s'.Pixel(r, x)
    {
      Tile(kernel, s', out, ring, y);
      y := y + TILE;
    }
    SameMatrix(View(out), s'.Output(), s.h - 4, s.w - 4);
  }

  /** The tiles may be run in any order: each one writes its own rows and reads none. */
  method HarrisInAnyOrder(kernel: Kernel, out: array2<real>, s: Scene, ring: nat, order: seq<nat>)
    requires s.Valid() && ring >= 3 && out.Length0 == s.h - 4 && out.Length1 == s.w - 4
    requires forall k: nat :: k < TileCount(s.h) <==> k in order
    modifies out
    ensures View(out) == SeenBy(kernel, s).Output()
    ensures kernel.Direct? || s.wt.c2x == 2.0 * s.wt.c1 ==> View(out) == s.Output()
  {
    hide Scene.Pixel;
    SeenAsItIs(kernel, s);
    var s' := SeenBy(kernel, s);
    for i := 0 to |order|
      invariant forall r: nat, x: nat :: r < s.h - 4 && x < s.w - 4 && r / TILE in order[..i] ==>
                  out[r, x] == s'.Pixel(r, x)
    {
      var k := order[i];
      assert k in order;
      Tile(kernel, s', out, ring, TILE * k);
      forall r: nat | r < s.h - 4
        ensures r / TILE in order[..i + 1] <==> r / TILE in order[..i] || InTile(s', TILE * k, r)
      {
        TilesPartition(s', r);
        assert order[..i + 1] == order[..i] + [k];
      }
    }
    assert order[..|order|] == order;
    forall r: nat, x: nat | r < s.h - 4 && x < s.w - 4
      ensures out[r, x] == s'.Pixel(r, x)
    {
      TilesPartition(s', r);
    }
    SameMatrix(View(out), s'.Output(), s.h - 4, s.w - 4);
  }
}
