/**
 Matrix multiplication, plain and with B packed, the output tiled and the reduction
 unrolled by four. The arithmetic is arbitrary, so that the two agree only because
 the products of an entry are added up in the same order.
 */
module Matmul {
  import opened Buffers
  import opened Floats
  import opened Mindex

  type Vec = seq<Float>

  /** The dimensions of C (m x n) and of the reduction (p); the sizes and numbers of the tiles. */
  datatype Shape = Shape(ops: Ops, m: nat, n: nat, p: nat, tileM: nat, tileN: nat, tilesM: nat, tilesN: nat, quads: nat)
  {
    /** The tiles fill the output and the reduction is a whole number of quadruples: 32, 32 and 256 of 4 in the
        program. */
    predicate Valid() {
      m == tilesM * tileM && n == tilesN * tileN && p == quads * 4
    }
  }

  predicate Sizes(s: Shape, a: Vec, b: Vec) {
    |a| == s.m * s.p && |b| == s.p * s.n
  }

  // ----- what an entry of C is

  function At(v: Vec, rows: nat, cols: nat, i: nat, j: nat): Float
    requires |v| == rows * cols && i < rows && j < cols
  {
    Mindex2Injective(rows, cols, i, j, i, j);
    v[MINDEX2(rows, cols, i, j)]
  }

  /** The first k products of entry (i, j), added up from the left from zero. */
  function Acc(s: Shape, a: Vec, b: Vec, i: nat, j: nat, k: nat): Float
    requires Sizes(s, a, b) && i < s.m && j < s.n && k <= s.p
  {
    if k == 0 then s.ops.zero
    else s.ops.add(Acc(s, a, b, i, j, k - 1), s.ops.mul(At(a, s.m, s.p, i, k - 1), At(b, s.p, s.n, k - 1, j)))
  }

  /** C is the product of A and B. */
  ghost predicate IsProduct(s: Shape, a: Vec, b: Vec, c: Vec)
    requires Sizes(s, a, b)
  {
    |c| == s.m * s.n && forall i: nat, j: nat :: i < s.m && j < s.n ==> At(c, s.m, s.n, i, j) == Acc(s, a, b, i, j, s.p)
  }

  lemma ProductIsUnique(s: Shape, a: Vec, b: Vec, c: Vec, c': Vec)
    requires Sizes(s, a, b) && IsProduct(s, a, b, c) && IsProduct(s, a, b, c')
    ensures c == c'
  {
    forall x: nat | x < |c|
      ensures c[x] == c'[x]
    {
      var i, j := Mindex2Onto(s.m, s.n, x);
      assert At(c, s.m, s.n, i, j) == At(c', s.m, s.n, i, j);
    }
  }

  /** Zero and one are what they should be. */
  ghost predicate UnitLaws(ops: Ops) {
    forall a :: && ops.add(a, ops.zero) == a && ops.add(ops.zero, a) == a
                && ops.mul(a, ops.one) == a && ops.mul(ops.one, a) == a
                && ops.mul(a, ops.zero) == ops.zero && ops.mul(ops.zero, a) == ops.zero
  }

  ghost predicate IsIdentity(ops: Ops, v: Vec, n: nat) {
    |v| == n * n && forall i: nat, j: nat :: i < n && j < n ==>
          At(v, n, n, i, j) == if i == j then ops.one else ops.zero
  }

  lemma {:induction false} TimesIdentity(s: Shape, a: Vec, b: Vec, i: nat, j: nat, k: nat)
    requires Sizes(s, a, b) && s.p == s.n && IsIdentity(s.ops, b, s.n) && UnitLaws(s.ops) && i < s.m && j < s.n
             && k <= s.p
    ensures Acc(s, a, b, i, j, k) == if j < k then At(a, s.m, s.p, i, j) else s.ops.zero
  {
    hide At;
    if k > 0 {
      TimesIdentity(s, a, b, i, j, k - 1);
    }
  }

  lemma {:induction false} IdentityTimes(s: Shape, a: Vec, b: Vec, i: nat, j: nat, k: nat)
    requires Sizes(s, a, b) && s.m == s.p && IsIdentity(s.ops, a, s.p) && UnitLaws(s.ops) && i < s.m && j < s.n
             && k <= s.p
    ensures Acc(s, a, b, i, j, k) == if i < k then At(b, s.p, s.n, i, j) else s.ops.zero
  {
    hide At;
    if k > 0 {
      IdentityTimes(s, a, b, i, j, k - 1);
    }
  }

  /** The product with the identity matrix, on either side, is the other matrix. */
  lemma IdentityIsNeutral(s: Shape, a: Vec, b: Vec, c: Vec)
    requires Sizes(s, a, b) && IsProduct(s, a, b, c) && UnitLaws(s.ops)
    ensures s.p == s.n && IsIdentity(s.ops, b, s.n) ==> c == a
    ensures s.m == s.p && IsIdentity(s.ops, a, s.p) ==> c == b
  {
    hide At, Acc, UnitLaws, IsIdentity;
    if s.p == s.n && IsIdentity(s.ops, b, s.n) {
      forall i: nat, j: nat | i < s.m && j < s.n
        ensures At(c, s.m, s.n, i, j) == At(a, s.m, s.n, i, j)
      {
        TimesIdentity(s, a, b, i, j, s.p);
      }
      SameEntries(a, c, s.m, s.n);
    }
    if s.m == s.p && IsIdentity(s.ops, a, s.p) {
      forall i: nat, j: nat | i < s.m && j < s.n
        ensures At(c, s.m, s.n, i, j) == At(b, s.m, s.n, i, j)
      {
        IdentityTimes(s, a, b, i, j, s.p);
      }
      SameEntries(b, c, s.m, s.n);
    }
  }

  lemma SameEntries(v: Vec, w: Vec, rows: nat, cols: nat)
    requires |v| == rows * cols == |w|
    requires forall i: nat, j: nat :: i < rows && j < cols ==> At(w, rows, cols, i, j) == At(v, rows, cols, i, j)
    ensures v == w
  {
    forall x: nat | x < |v|
      ensures v[x] == w[x]
    {
      var i, j := Mindex2Onto(rows, cols, x);
      assert At(w, rows, cols, i, j) == At(v, rows, cols, i, j);
    }
  }

  lemma AtAfterStore(v: Vec, v': Vec, rows: nat, cols: nat, i: nat, j: nat, o: nat, x: Float)
    requires |v| == rows * cols && i < rows && j < cols && o == MINDEX2(rows, cols, i, j) && o < |v| && v' == v[o := x]
    ensures forall i': nat, j': nat :: i' < rows && j' < cols ==>
              At(v', rows, cols, i', j') == if i' == i && j' == j then x else At(v, rows, cols, i', j')
  {
    forall i': nat, j': nat | i' < rows && j' < cols
      ensures At(v', rows, cols, i', j') == if i' == i && j' == j then x else At(v, rows, cols, i', j')
    {
      Mindex2Injective(rows, cols, i', j', i, j);
    }
  }

  // ----- mm: the plain triple loop

  method Mm(s: Shape, c: array<Float>, a: Vec, b: Vec)
    requires Sizes(s, a, b) && c.Length == s.m * s.n
    modifies c
    ensures IsProduct(s, a, b, c[..])
  {
    hide At, Acc;
    for i: nat := 0 to s.m
      invariant forall i': nat, j: nat :: i' < i && j < s.n ==> At(c[..], s.m, s.n, i', j) == Acc(s, a, b, i', j, s.p)
    {
      for j: nat := 0 to s.n
        invariant forall i': nat, j': nat :: (i' < i && j' < s.n) || (i' == i && j' < j) ==>
                    At(c[..], s.m, s.n, i', j') == Acc(s, a, b, i', j', s.p)
      {
        var sum := DotProduct(s, a, b, i, j);
        ghost var before := c[..];
        Mindex2Injective(s.m, s.n, i, j, i, j);
        c[MINDEX2(s.m, s.n, i, j)] := sum;
        AtAfterStore(before, c[..], s.m, s.n, i, j, MINDEX2(s.m, s.n, i, j), sum);
      }
    }
  }

  /** The innermost loop. */
  method DotProduct(s: Shape, a: Vec, b: Vec, i: nat, j: nat) returns (sum: Float)
    requires Sizes(s, a, b) && i < s.m && j < s.n
    ensures sum == Acc(s, a, b, i, j, s.p)
  {
    sum := s.ops.zero;
    for k: nat := 0 to s.p
      invariant sum == Acc(s, a, b, i, j, k)
    {
      Mindex2Injective(s.m, s.p, i, k, i, k);
      Mindex2Injective(s.p, s.n, k, j, k, j);
      sum := s.ops.add(sum, s.ops.mul(a[MINDEX2(s.m, s.p, i, k)], b[MINDEX2(s.p, s.n, k, j)]));
    }
  }

  // ----- packing B by blocks of columns

  /** Row kk of the packed block bj. */
  function PackedRow(s: Shape, pb: Vec, bj: nat, kk: nat): (row: Vec)
    requires s.Valid() && |pb| == s.tilesN * s.p * s.tileN && bj < s.tilesN && kk < s.p
    ensures |row| == s.tileN
  {
    RowIn2Bounds(s.tilesN, s.p, bj, kk);
    Row(pb, s.tilesN * s.p, s.tileN, RowIn2(s.p, bj, kk))
  }

  /** The stretch of row kk of B that falls in block bj. */
  function BlockRow(s: Shape, b: Vec, bj: nat, kk: nat): (row: Vec)
    requires s.Valid() && |b| == s.p * s.n && bj < s.tilesN && kk < s.p
    ensures |row| == s.tileN
  {
    RowInside(s.p, s.n, kk);
    RowInside(s.tilesN, s.tileN, bj);
    b[kk * s.n + s.tileN * bj..kk * s.n + s.tileN * bj + s.tileN]
  }

  /** The packed buffer holds each block of columns of B as consecutive rows. */
  ghost predicate Packed(s: Shape, pb: Vec, b: Vec)
    requires s.Valid() && |pb| == s.tilesN * s.p * s.tileN && |b| == s.p * s.n
  {
    forall bj: nat, kk: nat :: bj < s.tilesN && kk < s.p ==> PackedRow(s, pb, bj, kk) == BlockRow(s, b, bj, kk)
  }

  /** The flat index of the packed buffer, as the program writes it with its constants multiplied out. */
  lemma PackedIndex(s: Shape, bj: nat, bk: nat, k: nat)
    requires s.Valid() && bj < s.tilesN && bk < s.quads && k < 4
    ensures (s.p * s.tileN) * bj + (4 * s.tileN) * bk + s.tileN * k == RowIn2(s.p, bj, 4 * bk + k) * s.tileN
    ensures 0 <= RowIn2(s.p, bj, 4 * bk + k) * s.tileN
            && RowIn2(s.p, bj, 4 * bk + k) * s.tileN + s.tileN <= s.tilesN * s.p * s.tileN
  {
    RowIn2Bounds(s.tilesN, s.p, bj, 4 * bk + k);
    RowInside(s.tilesN * s.p, s.tileN, RowIn2(s.p, bj, 4 * bk + k));
    MultipliedOut(s.p, s.tileN, bj, bk, k);
  }

  lemma MultipliedOut(p: int, tileN: int, bj: int, bk: int, k: int)
    ensures (p * tileN) * bj + (4 * tileN) * bk + tileN * k == (bj * p + (4 * bk + k)) * tileN
  {
    assert (bj * p) * tileN == (p * tileN) * bj;
    assert (bj * p + (4 * bk + k)) * tileN == (bj * p) * tileN + (4 * bk + k) * tileN;
    assert (4 * bk + k) * tileN == (4 * tileN) * bk + tileN * k;
  }

  method Pack(s: Shape, pb: array<Float>, b: Vec)
    requires s.Valid() && pb.Length == s.tilesN * s.p * s.tileN && |b| == s.p * s.n
    modifies pb
    ensures Packed(s, pb[..], b)
  {
    hide PackedRow, BlockRow, Splice;
    for bj: nat := 0 to s.tilesN
      invariant forall bj': nat, kk: nat :: bj' < bj && kk < s.p ==>
                  PackedRow(s, pb[..], bj', kk) == BlockRow(s, b, bj', kk)
    {
      for bk: nat := 0 to s.quads
        invariant forall bj': nat, kk: nat :: (bj' < bj && kk < s.p) || (bj' == bj && kk < 4 * bk) ==>
                    PackedRow(s, pb[..], bj', kk) == BlockRow(s, b, bj', kk)
      {
        for k: nat := 0 to 4
          invariant forall bj': nat, kk: nat :: (bj' < bj && kk < s.p) || (bj' == bj && kk < 4 * bk + k) ==>
                      PackedRow(s, pb[..], bj', kk) == BlockRow(s, b, bj', kk)
        {
          ghost var before := pb[..];
          PackedIndex(s, bj, bk, k);
          BlockRowAt(s, b, bj, 4 * bk + k);
          CopyRow(s.tileN, pb, (s.p * s.tileN) * bj + (4 * s.tileN) * bk + s.tileN * k, b,
                  s.n * (4 * bk + k) + s.tileN * bj);
          PackedAfterStore(s, before, bj, 4 * bk + k, BlockRow(s, b, bj, 4 * bk + k));
        }
      }
    }
  }

  lemma BlockRowAt(s: Shape, b: Vec, bj: nat, kk: nat)
    requires s.Valid() && |b| == s.p * s.n && bj < s.tilesN && kk < s.p
    ensures var o := s.n * kk + s.tileN * bj;
            0 <= o && o + s.tileN <= |b| && b[o..o + s.tileN] == BlockRow(s, b, bj, kk)
  {
    RowInside(s.p, s.n, kk);
    RowInside(s.tilesN, s.tileN, bj);
  }

  lemma PackedAfterStore(s: Shape, pb: Vec, bj: nat, kk: nat, row: Vec)
    requires s.Valid() && |pb| == s.tilesN * s.p * s.tileN && bj < s.tilesN && kk < s.p && |row| == s.tileN
    ensures 0 <= RowIn2(s.p, bj, kk) * s.tileN && RowIn2(s.p, bj, kk) * s.tileN + s.tileN <= |pb|
    ensures forall bj': nat, kk': nat :: bj' < s.tilesN && kk' < s.p ==>
              PackedRow(s, Splice(pb, RowIn2(s.p, bj, kk) * s.tileN, row), bj', kk') ==
                if bj' == bj && kk' == kk then row else PackedRow(s, pb, bj', kk')
  {
    RowIn2Bounds(s.tilesN, s.p, bj, kk);
    RowAfterSplice(pb, s.tilesN * s.p, s.tileN, RowIn2(s.p, bj, kk), row);
    forall bj': nat, kk': nat | bj' < s.tilesN && kk' < s.p
      ensures PackedRow(s, Splice(pb, RowIn2(s.p, bj, kk) * s.tileN, row), bj', kk') ==
                if bj' == bj && kk' == kk then row else PackedRow(s, pb, bj', kk')
    {
      RowIn2Bounds(s.tilesN, s.p, bj', kk');
      if RowIn2(s.p, bj', kk') == RowIn2(s.p, bj, kk) {
        RowIn2Injective(s.p, bj, kk, bj', kk');
      }
    }
  }

  /** Where the packing puts entry (kk, x) of B. */
  function PackedPosition(s: Shape, kk: nat, x: nat): int
    requires s.Valid() && kk < s.p && x < s.n && s.tileN > 0
  {
    MINDEX2(s.tilesN * s.p, s.tileN, RowIn2(s.p, x / s.tileN, kk), x % s.tileN)
  }

  lemma ColumnOfTile(s: Shape, x: nat)
    requires s.Valid() && x < s.n && s.tileN > 0
    ensures x / s.tileN < s.tilesN && x % s.tileN < s.tileN && x == x / s.tileN * s.tileN + x % s.tileN
  {
    if x / s.tileN >= s.tilesN {
      MulMonotone(s.tilesN, x / s.tileN, s.tileN);
      assert false;
    }
  }

  /** Packing is a bijection from the entries of B to the cells of the buffer: in bounds, injective ... */
  lemma PackingInjective(s: Shape, kk: nat, x: nat, kk': nat, x': nat)
    requires s.Valid() && kk < s.p && x < s.n && kk' < s.p && x' < s.n && s.tileN > 0
    ensures 0 <= PackedPosition(s, kk, x) < s.tilesN * s.p * s.tileN
    ensures PackedPosition(s, kk, x) == PackedPosition(s, kk', x') ==> kk == kk' && x == x'
  {
    hide MINDEX2, RowIn2;
    ColumnOfTile(s, x);
    ColumnOfTile(s, x');
    PositionInjective(s, x / s.tileN, kk, x % s.tileN, x' / s.tileN, kk', x' % s.tileN);
  }

  lemma PositionInjective(s: Shape, bj: nat, kk: nat, j: nat, bj': nat, kk': nat, j': nat)
    requires bj < s.tilesN && kk < s.p && j < s.tileN && bj' < s.tilesN && kk' < s.p && j' < s.tileN
    ensures var y, y' := MINDEX2(s.tilesN * s.p, s.tileN, RowIn2(s.p, bj, kk), j),
            MINDEX2(s.tilesN * s.p, s.tileN, RowIn2(s.p, bj', kk'), j');
            && 0 <= y < s.tilesN * s.p * s.tileN
            && (y == y' ==> bj == bj' && kk == kk' && j == j')
  {
    hide MINDEX2, RowIn2;
    RowIn2Bounds(s.tilesN, s.p, bj, kk);
    RowIn2Bounds(s.tilesN, s.p, bj', kk');
    Mindex2Injective(s.tilesN * s.p, s.tileN, RowIn2(s.p, bj, kk), j, RowIn2(s.p, bj', kk'), j');
    if RowIn2(s.p, bj, kk) == RowIn2(s.p, bj', kk') {
      RowIn2Injective(s.p, bj, kk, bj', kk');
    }
  }

  /** ... and onto. */
  lemma PackingOnto(s: Shape, y: nat) returns (kk: nat, x: nat)
    requires s.Valid() && y < s.tilesN * s.p * s.tileN
    ensures kk < s.p && x < s.n && s.tileN > 0 && PackedPosition(s, kk, x) == y
  {
    var r, j := Mindex2Onto(s.tilesN * s.p, s.tileN, y);
    var bj: nat;
    bj, kk := Mindex2Onto(s.tilesN, s.p, r);
    x := s.tileN * bj + j;
    RowInside(s.tilesN, s.tileN, bj);
    RowIn2Injective(s.tileN, x / s.tileN, x % s.tileN, bj, j);
  }

  // ----- one tile of C

  /** Row i of the tile (bi, bj) after k products: entries tileN * bj to tileN * (bj + 1) of row tileM * bi + i. */
  function AccRow(s: Shape, a: Vec, b: Vec, r: nat, bj: nat, k: nat): (row: Vec)
    requires s.Valid() && Sizes(s, a, b) && r < s.m && bj < s.tilesN && k <= s.p
    ensures |row| == s.tileN
  {
    RowInside(s.tilesN, s.tileN, bj);
    seq(s.tileN, j requires 0 <= j < s.tileN => Acc(s, a, b, r, s.tileN * bj + j, k))
  }

  function Axpy(ops: Ops, acc: Vec, x: Float, row: Vec): (r: Vec)
    requires |acc| == |row|
    ensures |r| == |acc|
  {
    seq(|acc|, j requires 0 <= j < |acc| => ops.add(acc[j], ops.mul(x, row[j])))
  }

  lemma BlockRowCell(s: Shape, b: Vec, bj: nat, k: nat, j: nat)
    requires s.Valid() && |b| == s.p * s.n && bj < s.tilesN && k < s.p && j < s.tileN
    ensures s.tileN * bj + j < s.n && At(b, s.p, s.n, k, s.tileN * bj + j) == BlockRow(s, b, bj, k)[j]
  {
    RowInside(s.tilesN, s.tileN, bj);
    RowInside(s.p, s.n, k);
  }

  /** One step of the reduction adds one product to every entry of the row. */
  lemma NextProduct(s: Shape, a: Vec, b: Vec, r: nat, bj: nat, k: nat)
    requires s.Valid() && Sizes(s, a, b) && r < s.m && bj < s.tilesN && k < s.p
    ensures AccRow(s, a, b, r, bj, k + 1) == Axpy(s.ops, AccRow(s, a, b, r, bj, k), At(a, s.m, s.p, r, k),
                                                  BlockRow(s, b, bj, k))
  {
    hide At, BlockRow, Acc;
    forall j: nat | j < s.tileN
      ensures AccRow(s, a, b, r, bj, k + 1)[j]
           == s.ops.add(AccRow(s, a, b, r, bj, k)[j], s.ops.mul(At(a, s.m, s.p, r, k), BlockRow(s, b, bj, k)[j]))
    {
      BlockRowCell(s, b, bj, k, j);
      AccStep(s, a, b, r, s.tileN * bj + j, k);
    }
  }

  lemma AccStep(s: Shape, a: Vec, b: Vec, i: nat, j: nat, k: nat)
    requires Sizes(s, a, b) && i < s.m && j < s.n && k < s.p
    ensures Acc(s, a, b, i, j, k + 1) == s.ops.add(Acc(s, a, b, i, j, k),
                                                   s.ops.mul(At(a, s.m, s.p, i, k), At(b, s.p, s.n, k, j)))
  {
    hide At;
  }

  /** for j: v[j] += x * pB[o + j] */
  method AddProducts(s: Shape, v: array<Float>, x: Float, pb: array<Float>, o: nat)
    requires v != pb && v.Length == s.tileN && o + s.tileN <= pb.Length
    modifies v
    ensures v[..] == Axpy(s.ops, old(v[..]), x, pb[o..o + s.tileN])
  {
    ghost var was, row := v[..], pb[o..o + s.tileN];
    for j := 0 to s.tileN
      invariant v[..j] == Axpy(s.ops, was, x, row)[..j] && v[j..] == was[j..]
    {
      assert pb[o + j] == row[j];
      v[j] := s.ops.add(v[j], s.ops.mul(x, pb[o + j]));
    }
  }

  /** The four unrolled steps of the reduction on the copied row v. */
  method FourProducts(s: Shape, v: array<Float>, a: Vec, pb: array<Float>, ghost b: Vec, r: nat, bj: nat, bk: nat)
    requires s.Valid() && Sizes(s, a, b) && pb.Length == s.tilesN * s.p * s.tileN && Packed(s, pb[..], b)
    requires v != pb && v.Length == s.tileN && r < s.m && bj < s.tilesN && bk < s.quads
    requires v[..] == AccRow(s, a, b, r, bj, 4 * bk)
    modifies v
    ensures v[..] == AccRow(s, a, b, r, bj, 4 * bk + 4)
  {
    hide AccRow, Axpy, Packed;
    var base := (s.p * s.tileN) * bj + (4 * s.tileN) * bk;
    Step(s, v, a, pb, b, r, bj, bk, 0, base);
    Step(s, v, a, pb, b, r, bj, bk, 1, base + s.tileN);
    Step(s, v, a, pb, b, r, bj, bk, 2, base + s.tileN * 2);
    Step(s, v, a, pb, b, r, bj, bk, 3, base + s.tileN * 3);
  }

  /** One of the four: s[j] += A[r][4 * bk + k] * pB[o + j] */
  method Step(s: Shape, v: array<Float>, a: Vec, pb: array<Float>, ghost b: Vec, r: nat, bj: nat, bk: nat, k: nat,
              o: nat)
    requires s.Valid() && Sizes(s, a, b) && pb.Length == s.tilesN * s.p * s.tileN && Packed(s, pb[..], b)
    requires v != pb && v.Length == s.tileN && r < s.m && bj < s.tilesN && bk < s.quads && k < 4
    requires o == (s.p * s.tileN) * bj + (4 * s.tileN) * bk + s.tileN * k
    requires v[..] == AccRow(s, a, b, r, bj, 4 * bk + k)
    modifies v
    ensures v[..] == AccRow(s, a, b, r, bj, 4 * bk + k + 1)
  {
    hide AccRow, Axpy, Packed, Shape.Valid;
    ghost var packed := pb[..];
    PackedStep(s, a, packed, b, r, bj, bk, k, o);
    assert packed[o..o + s.tileN] == pb[o..o + s.tileN];
    AddProducts(s, v, a[MINDEX2(s.m, s.p, r, 4 * bk + k)], pb, o);
  }

  /** The packed row at o gives the next product of row r. */
  lemma PackedStep(s: Shape, a: Vec, pb: Vec, b: Vec, r: nat, bj: nat, bk: nat, k: nat, o: nat)
    requires s.Valid() && Sizes(s, a, b) && |pb| == s.tilesN * s.p * s.tileN && Packed(s, pb, b)
    requires r < s.m && bj < s.tilesN && bk < s.quads && k < 4
    requires o == (s.p * s.tileN) * bj + (4 * s.tileN) * bk + s.tileN * k
    ensures 4 * bk + k < s.p && 0 <= MINDEX2(s.m, s.p, r, 4 * bk + k) < |a| && o + s.tileN <= |pb|
    ensures AccRow(s, a, b, r, bj, 4 * bk + k + 1)
         == Axpy(s.ops, AccRow(s, a, b, r, bj, 4 * bk + k), a[MINDEX2(s.m, s.p, r, 4 * bk + k)], pb[o..o + s.tileN])
  {
    hide AccRow, Axpy, BlockRow;
    PackedIndex(s, bj, bk, k);
    assert PackedRow(s, pb, bj, 4 * bk + k) == BlockRow(s, b, bj, 4 * bk + k);
    Mindex2Injective(s.m, s.p, r, 4 * bk + k, r, 4 * bk + k);
    NextProduct(s, a, b, r, bj, 4 * bk + k);
  }

  /** The rows of the accumulator of tile (bi, bj): before `done` they have 4 * bk + 4 products, the others 4 * bk. */
  ghost predicate TileHolds(s: Shape, a: Vec, b: Vec, sum: Vec, bi: nat, bj: nat, bk: nat, done: nat)
    requires s.Valid() && Sizes(s, a, b) && |sum| == s.tileM * s.tileN && bi < s.tilesM && bj < s.tilesN
             && bk <= s.quads
    requires bk == s.quads ==> done == 0
  {
    forall i: nat :: i < s.tileM ==>
          Row(sum, s.tileM, s.tileN, i) ==
            AccRow(s, a, b, TileRow(s, bi, i), bj, if i < done then 4 * bk + 4 else 4 * bk)
  }

  /** The row of C that row i of the tiles bi is. */
  function TileRow(s: Shape, bi: nat, i: nat): (r: nat)
    requires s.Valid() && bi < s.tilesM && i < s.tileM
    ensures r < s.m && r == s.tileM * bi + i
  {
    RowInside(s.tilesM, s.tileM, bi);
    s.tileM * bi + i
  }

  function Zeros(s: Shape): (row: Vec)
    ensures |row| == s.tileN
  {
    seq(s.tileN, j => s.ops.zero)
  }

  /** for j: sum[o + j] = 0 */
  method ZeroRow(s: Shape, sum: array<Float>, o: nat)
    requires o + s.tileN <= sum.Length
    modifies sum
    ensures sum[..] == Splice(old(sum[..]), o, Zeros(s))
  {
    ghost var was := sum[..];
    for j: nat := 0 to s.tileN
      invariant Written(sum[..], was, o, Zeros(s), j)
    {
      sum[o + j] := s.ops.zero;
    }
    WrittenIsSplice(sum[..], was, o, Zeros(s));
  }

  /** for i, for j: sum[i][j] = 0 */
  method ZeroTile(s: Shape, ghost a: Vec, ghost b: Vec, sum: array<Float>, bi: nat, bj: nat)
    requires s.Valid() && Sizes(s, a, b) && sum.Length == s.tileM * s.tileN && bi < s.tilesM && bj < s.tilesN
    modifies sum
    ensures TileHolds(s, a, b, sum[..], bi, bj, 0, 0)
  {
    hide Row, Splice, Zeros, AccRow;
    for i: nat := 0 to s.tileM
      invariant forall r: nat :: r < i ==> Row(sum[..], s.tileM, s.tileN, r) == Zeros(s)
    {
      ghost var before := sum[..];
      RowAtPtr(before, s.tileM, s.tileN, i);
      RowAfterSplice(before, s.tileM, s.tileN, i, Zeros(s));
      ZeroRow(s, sum, s.tileN * i);
    }
    forall i: nat | i < s.tileM
      ensures Zeros(s) == AccRow(s, a, b, TileRow(s, bi, i), bj, 0)
    {
      NoProducts(s, a, b, TileRow(s, bi, i), bj);
    }
  }

  lemma NoProducts(s: Shape, a: Vec, b: Vec, r: nat, bj: nat)
    requires s.Valid() && Sizes(s, a, b) && r < s.m && bj < s.tilesN
    ensures Zeros(s) == AccRow(s, a, b, r, bj, 0)
  {
    forall j: nat | j < s.tileN
      ensures AccRow(s, a, b, r, bj, 0)[j] == s.ops.zero
    {
      AccRowCell(s, a, b, r, bj, j, 0);
    }
  }

  /** The body of the loop over bk: every row of the accumulator is copied out, gets four products, and is copied
      back. */
  method FourProductsTile(s: Shape, a: Vec, pb: array<Float>, ghost b: Vec, sum: array<Float>, v: array<Float>,
                          bi: nat, bj: nat, bk: nat)
    requires s.Valid() && Sizes(s, a, b) && pb.Length == s.tilesN * s.p * s.tileN && Packed(s, pb[..], b)
    requires sum.Length == s.tileM * s.tileN && v.Length == s.tileN && sum != v && v != pb && sum != pb
    requires bi < s.tilesM && bj < s.tilesN && bk < s.quads
    requires TileHolds(s, a, b, sum[..], bi, bj, bk, 0)
    modifies sum, v
    ensures TileHolds(s, a, b, sum[..], bi, bj, bk + 1, 0)
  {
    hide AccRow, Packed, Row, Splice;
    ghost var packed := pb[..];
    for i: nat := 0 to s.tileM
      invariant pb[..] == packed
      invariant TileHolds(s, a, b, sum[..], bi, bj, bk, i)
    {
      ghost var before, before' := sum[..], v[..];
      RowAtPtr(before, s.tileM, s.tileN, i);
      var r := TileRow(s, bi, i);
      CopyCells(s.tileN, v, 0, sum, s.tileN * i);
      WholeSplice(before', Row(before, s.tileM, s.tileN, i));
      FourProducts(s, v, a, pb, b, r, bj, bk);
      ghost var row := v[..];
      assert v[0..0 + s.tileN] == row;
      CopyCells(s.tileN, sum, s.tileN * i, v, 0);
      RowAfterSplice(before, s.tileM, s.tileN, i, row);
    }
  }

  // ----- C, tile by tile

  /** The stretch of row r of C in the tiles bj. */
  function Stretch(s: Shape, c: Vec, r: nat, bj: nat): (row: Vec)
    requires s.Valid() && |c| == s.m * s.n && r < s.m && bj < s.tilesN
    ensures |row| == s.tileN
  {
    RowInside(s.tilesN, s.tileN, bj);
    Row(c, s.m, s.n, r)[s.tileN * bj..s.tileN * bj + s.tileN]
  }

  lemma StretchAfterStore(s: Shape, c: Vec, r: nat, bj: nat, row: Vec)
    requires s.Valid() && |c| == s.m * s.n && r < s.m && bj < s.tilesN && |row| == s.tileN
    ensures var o := s.n * r + s.tileN * bj;
            && 0 <= o && o + s.tileN <= |c|
            && forall r': nat, bj': nat :: r' < s.m && bj' < s.tilesN ==>
                 Stretch(s, Splice(c, o, row), r', bj') == if r' == r && bj' == bj then row else Stretch(s, c, r', bj')
  {
    var o := s.n * r + s.tileN * bj;
    RowInside(s.m, s.n, r);
    RowInside(s.tilesN, s.tileN, bj);
    RowAfterPartialSplice(c, s.m, s.n, r, s.tileN * bj, row);
    forall r': nat, bj': nat | r' < s.m && bj' < s.tilesN
      ensures Stretch(s, Splice(c, o, row), r', bj') == if r' == r && bj' == bj then row else Stretch(s, c, r', bj')
    {
      hide Row;
      RowInside(s.tilesN, s.tileN, bj');
      RowsApart(s.tileN, bj, bj');
      SliceAfterSplice(Row(c, s.m, s.n, r), s.tileN * bj, row, s.tileN * bj', s.tileN);
    }
  }

  /** The tiles before (bi, bj) hold their part of the product, in the order of the loops. */
  ghost predicate TilesDone(s: Shape, a: Vec, b: Vec, c: Vec, bi: nat, bj: nat, rows: nat)
    requires s.Valid() && Sizes(s, a, b) && |c| == s.m * s.n
  {
    forall bi': nat, i: nat, bj': nat :: bi' < s.tilesM && i < s.tileM && bj' < s.tilesN ==>
      (bi' < bi || (bi' == bi && (bj' < bj || (bj' == bj && i < rows)))) ==>
        Stretch(s, c, TileRow(s, bi', i), bj') == AccRow(s, a, b, TileRow(s, bi', i), bj', s.p)
  }

  /** for i, for j: C[tileM * bi + i][tileN * bj + j] = sum[i][j] */
  method StoreTile(s: Shape, ghost a: Vec, ghost b: Vec, c: array<Float>, sum: array<Float>, bi: nat, bj: nat)
    requires s.Valid() && Sizes(s, a, b) && c.Length == s.m * s.n && sum.Length == s.tileM * s.tileN && c != sum
    requires bi < s.tilesM && bj < s.tilesN
    requires TileHolds(s, a, b, sum[..], bi, bj, s.quads, 0) && TilesDone(s, a, b, c[..], bi, bj, 0)
    modifies c
    ensures TilesDone(s, a, b, c[..], bi, bj + 1, 0)
  {
    hide AccRow, Row, Splice, Stretch;
    ghost var tile := sum[..];
    for i: nat := 0 to s.tileM
      invariant TilesDone(s, a, b, c[..], bi, bj, i)
    {
      ghost var before := c[..];
      RowAtPtr(tile, s.tileM, s.tileN, i);
      var r := TileRow(s, bi, i);
      StretchAfterStore(s, before, r, bj, Row(tile, s.tileM, s.tileN, i));
      assert sum[s.tileN * i..s.tileN * i + s.tileN] == tile[s.tileN * i..s.tileN * i + s.tileN];
      CopyCells(s.tileN, c, s.n * r + s.tileN * bj, sum, s.tileN * i);
      TileRowsApart(s, bi, i);
    }
  }

  lemma TileRowsApart(s: Shape, bi: nat, i: nat)
    requires s.Valid() && bi < s.tilesM && i < s.tileM
    ensures forall bi': nat, i': nat ::
              bi' < s.tilesM && i' < s.tileM && TileRow(s, bi', i') == TileRow(s, bi, i) ==> bi' == bi && i' == i
  {
    forall bi': nat, i': nat | bi' < s.tilesM && i' < s.tileM && TileRow(s, bi', i') == TileRow(s, bi, i)
      ensures bi' == bi && i' == i
    {
      RowIn2Injective(s.tileM, bi, i, bi', i');
    }
  }

  /** The body of the loops over bi and bj. */
  method Tile(s: Shape, a: Vec, pb: array<Float>, ghost b: Vec, c: array<Float>, bi: nat, bj: nat)
    requires s.Valid() && Sizes(s, a, b) && pb.Length == s.tilesN * s.p * s.tileN && Packed(s, pb[..], b)
    requires c.Length == s.m * s.n && c != pb && bi < s.tilesM && bj < s.tilesN && TilesDone(s, a, b, c[..], bi, bj, 0)
    modifies c
    ensures TilesDone(s, a, b, c[..], bi, bj + 1, 0)
  {
    hide TileHolds, TilesDone, Packed;
    MulNonNegative(s.tileM, s.tileN);
    var sum := new Float[s.tileM * s.tileN];
    var v := new Float[s.tileN];
    ghost var packed, c0 := pb[..], c[..];
    ZeroTile(s, a, b, sum, bi, bj);
    for bk: nat := 0 to s.quads
      invariant pb[..] == packed && c[..] == c0
      invariant TileHolds(s, a, b, sum[..], bi, bj, bk, 0)
    {
      FourProductsTile(s, a, pb, b, sum, v, bi, bj, bk);
    }
    StoreTile(s, a, b, c, sum, bi, bj);
  }

  /** mm1024: pack B, then compute C tile by tile */
  method TiledMm(s: Shape, c: array<Float>, a: Vec, b: Vec)
    requires s.Valid() && Sizes(s, a, b) && c.Length == s.m * s.n
    modifies c
    ensures IsProduct(s, a, b, c[..])
  {
    hide TilesDone, Packed;
    MulNonNegative(s.tilesN, s.p);
    MulNonNegative(s.tilesN * s.p, s.tileN);
    var pb := new Float[s.tilesN * s.p * s.tileN];
    Pack(s, pb, b);
    ghost var packed := pb[..];
    NoTileDone(s, a, b, c[..]);
    for bi: nat := 0 to s.tilesM
      invariant pb[..] == packed
      invariant TilesDone(s, a, b, c[..], bi, 0, 0)
    {
      for bj: nat := 0 to s.tilesN
        invariant pb[..] == packed
        invariant TilesDone(s, a, b, c[..], bi, bj, 0)
      {
        Tile(s, a, pb, b, c, bi, bj);
      }
      RowOfTilesDone(s, a, b, c[..], bi);
    }
    AllTilesDone(s, a, b, c[..]);
  }

  lemma NoTileDone(s: Shape, a: Vec, b: Vec, c: Vec)
    requires s.Valid() && Sizes(s, a, b) && |c| == s.m * s.n
    ensures TilesDone(s, a, b, c, 0, 0, 0)
  {
  }

  lemma RowOfTilesDone(s: Shape, a: Vec, b: Vec, c: Vec, bi: nat)
    requires s.Valid() && Sizes(s, a, b) && |c| == s.m * s.n && TilesDone(s, a, b, c, bi, s.tilesN, 0)
    ensures TilesDone(s, a, b, c, bi + 1, 0, 0)
  {
    hide Stretch, AccRow;
  }

  /** The tiles cover C: every entry is in one. */
  lemma AllTilesDone(s: Shape, a: Vec, b: Vec, c: Vec)
    requires s.Valid() && Sizes(s, a, b) && |c| == s.m * s.n && TilesDone(s, a, b, c, s.tilesM, 0, 0)
    ensures IsProduct(s, a, b, c)
  {
    hide Acc;
    forall r: nat, x: nat | r < s.m && x < s.n
      ensures At(c, s.m, s.n, r, x) == Acc(s, a, b, r, x, s.p)
    {
      var bi, i := Mindex2Onto(s.tilesM, s.tileM, r);
      var bj, j := Mindex2Onto(s.tilesN, s.tileN, x);
      assert TileRow(s, bi, i) == r;
      StretchCell(s, c, r, bj, j);
      AccRowCell(s, a, b, r, bj, j, s.p);
    }
  }

  lemma StretchCell(s: Shape, c: Vec, r: nat, bj: nat, j: nat)
    requires s.Valid() && |c| == s.m * s.n && r < s.m && bj < s.tilesN && j < s.tileN
    ensures s.tileN * bj + j < s.n && Stretch(s, c, r, bj)[j] == At(c, s.m, s.n, r, s.tileN * bj + j)
  {
    RowInside(s.tilesN, s.tileN, bj);
    RowInside(s.m, s.n, r);
  }

  lemma AccRowCell(s: Shape, a: Vec, b: Vec, r: nat, bj: nat, j: nat, k: nat)
    requires s.Valid() && Sizes(s, a, b) && r < s.m && bj < s.tilesN && j < s.tileN && k <= s.p
    ensures s.tileN * bj + j < s.n && AccRow(s, a, b, r, bj, k)[j] == Acc(s, a, b, r, s.tileN * bj + j, k)
  {
    RowInside(s.tilesN, s.tileN, bj);
  }
}
