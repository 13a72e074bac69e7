/** Row-major indices of flat matrices, and rows of a flat matrix as values. */
module Mindex {

  function MINDEX2(n1: int, n2: int, i1: int, i2: int): int { i1 * n2 + i2 }

  function MINDEX3(n1: int, n2: int, n3: int, i1: int, i2: int, i3: int): int { i1 * n2 * n3 + i2 * n3 + i3 }

  function MINDEX4(n1: int, n2: int, n3: int, n4: int, i1: int, i2: int, i3: int, i4: int): int {
    i1 * n2 * n3 * n4 + i2 * n3 * n4 + i3 * n4 + i4
  }

  // ----- bounds and injectivity

  lemma MulNonNegative(a: int, b: int)
    requires a >= 0 && b >= 0
    ensures a * b >= 0
  {
  }

  lemma MulMonotone(a: int, b: int, c: int)
    requires a <= b && c >= 0
    ensures a * c <= b * c
  {
    MulNonNegative(b - a, c);
    assert (b - a) * c == b * c - a * c;
  }

  /** Row i of an n1 x n2 matrix ends inside the matrix. */
  lemma RowInside(n1: int, n2: int, i: int)
    requires 0 <= i < n1 && n2 >= 0
    ensures 0 <= i * n2 && i * n2 + n2 <= n1 * n2
  {
    MulNonNegative(n1 - i - 1, n2);
    assert (n1 - i - 1) * n2 == n1 * n2 - i * n2 - n2;
    MulNonNegative(i, n2);
  }

  /** Distinct rows do not overlap. */
  lemma RowsApart(n2: int, i: int, j: int)
    requires n2 >= 0
    ensures i < j ==> i * n2 + n2 <= j * n2
    ensures j < i ==> j * n2 + n2 <= i * n2
  {
    if i < j {
      MulNonNegative(j - i - 1, n2);
      assert (j - i - 1) * n2 == j * n2 - i * n2 - n2;
    } else if j < i {
      MulNonNegative(i - j - 1, n2);
      assert (i - j - 1) * n2 == i * n2 - j * n2 - n2;
    }
  }

  /** MINDEX2 is a bijection from its index ranges: in bounds and injective. */
  lemma Mindex2Injective(n1: int, n2: int, i1: int, i2: int, j1: int, j2: int)
    requires 0 <= i1 < n1 && 0 <= i2 < n2 && 0 <= j1 < n1 && 0 <= j2 < n2
    ensures 0 <= MINDEX2(n1, n2, i1, i2) < n1 * n2
    ensures MINDEX2(n1, n2, i1, i2) == MINDEX2(n1, n2, j1, j2) ==> i1 == j1 && i2 == j2
  {
    RowInside(n1, n2, i1);
    RowsApart(n2, i1, j1);
  }

  /** ... and onto. */
  lemma Mindex2Onto(n1: nat, n2: nat, x: nat) returns (i1: nat, i2: nat)
    requires x < n1 * n2
    ensures i1 < n1 && i2 < n2 && x == i1 * n2 + i2
  {
    if n2 == 0 { assert false; }
    i1, i2 := x / n2, x % n2;
    assert x == n2 * i1 + i2;
    if i1 >= n1 {
      MulMonotone(n1, i1, n2);
      assert false;
    }
  }

  /** The row number of (i, j) among the rows of an n1 x n2 x n3 matrix. */
  function RowIn2(n2: int, i: int, j: int): int { i * n2 + j }

  /** The row number of (i, j, k) among the rows of an n1 x n2 x n3 x n4 matrix. */
  function RowIn3(n2: int, n3: int, i: int, j: int, k: int): int { (i * n2 + j) * n3 + k }

  lemma RowIn2Bounds(n1: int, n2: int, i: int, j: int)
    requires 0 <= i < n1 && 0 <= j < n2
    ensures 0 <= RowIn2(n2, i, j) < n1 * n2
  {
    RowInside(n1, n2, i);
  }

  lemma RowIn2Injective(n2: int, i: int, j: int, i': int, j': int)
    requires 0 <= j < n2 && 0 <= j' < n2 && RowIn2(n2, i, j) == RowIn2(n2, i', j')
    ensures i == i' && j == j'
  {
    RowsApart(n2, i, i');
  }

  lemma RowIn3Bounds(n1: int, n2: int, n3: int, i: int, j: int, k: int)
    requires 0 <= i < n1 && 0 <= j < n2 && 0 <= k < n3
    ensures 0 <= RowIn3(n2, n3, i, j, k) < n1 * n2 * n3
  {
    RowIn2Bounds(n1, n2, i, j);
    RowInside(n1 * n2, n3, RowIn2(n2, i, j));
  }

  lemma RowIn3Injective(n2: int, n3: int, i: int, j: int, k: int, i': int, j': int, k': int)
    requires 0 <= j < n2 && 0 <= j' < n2 && 0 <= k < n3 && 0 <= k' < n3
    requires RowIn3(n2, n3, i, j, k) == RowIn3(n2, n3, i', j', k')
    ensures i == i' && j == j' && k == k'
  {
    RowIn2Injective(n3, RowIn2(n2, i, j), k, RowIn2(n2, i', j'), k');
    RowIn2Injective(n2, i, j, i', j');
  }

  /** A pointer to the start of a row is its row number times the width. */
  lemma Mindex3IsRow(n1: int, n2: int, n3: int, i: int, j: int)
    ensures MINDEX3(n1, n2, n3, i, j, 0) == RowIn2(n2, i, j) * n3
  {
    assert (i * n2 + j) * n3 == i * n2 * n3 + j * n3;
  }

  lemma Mindex4IsRow(n1: int, n2: int, n3: int, n4: int, i: int, j: int, k: int)
    ensures MINDEX4(n1, n2, n3, n4, i, j, k, 0) == RowIn3(n2, n3, i, j, k) * n4
  {
    assert ((i * n2 + j) * n3 + k) * n4 == (i * n2 + j) * n3 * n4 + k * n4;
    assert (i * n2 + j) * n3 == i * n2 * n3 + j * n3;
    assert (i * n2 * n3 + j * n3) * n4 == i * n2 * n3 * n4 + j * n3 * n4;
  }

  // ----- rows of a flat matrix

  /** Row r of a flat matrix with n rows of the given width. */
  function Row<T>(a: seq<T>, n: nat, width: nat, r: nat): (row: seq<T>)
    requires |a| == n * width && r < n
    ensures |row| == width
  {
    RowInside(n, width, r);
    a[r * width..r * width + width]
  }

  lemma CellOfRow<T>(a: seq<T>, n: nat, width: nat, r: nat, e: nat, x: nat)
    requires |a| == n * width && r < n && e < width && x == r * width + e
    ensures x < |a| && Row(a, n, width, r)[e] == a[x]
  {
    RowInside(n, width, r);
  }

  /** The pointer &a[MINDEX2(n, width, r, 0)] is where row r starts. */
  lemma RowAtPtr<T>(a: seq<T>, n: nat, width: nat, r: nat)
    requires |a| == n * width && r < n
    ensures MINDEX2(n, width, r, 0) == r * width >= 0 && r * width + width <= |a|
    ensures a[r * width..r * width + width] == Row(a, n, width, r)
  {
    RowInside(n, width, r);
  }

  /** `a` with `s` written from position o on. */
  function Splice<T>(a: seq<T>, o: nat, s: seq<T>): (b: seq<T>)
    requires o + |s| <= |a|
    ensures |b| == |a|
  {
    a[..o] + s + a[o + |s|..]
  }

  /** `b` is `a` with `s` written at o, position by position. */
  ghost predicate Written<T>(b: seq<T>, a: seq<T>, o: nat, s: seq<T>, n: nat)
    requires o + |s| <= |a| && n <= |s|
  {
    && |b| == |a|
    && (forall i :: 0 <= i < n ==> b[o + i] == s[i])
    && (forall i :: 0 <= i < |a| && (i < o || o + n <= i) ==> b[i] == a[i])
  }

  lemma WrittenIsSplice<T>(b: seq<T>, a: seq<T>, o: nat, s: seq<T>)
    requires o + |s| <= |a| && Written(b, a, o, s, |s|)
    ensures b == Splice(a, o, s)
  {
    forall i | 0 <= i < |a|
      ensures b[i] == Splice(a, o, s)[i]
    {
      if o <= i < o + |s| {
        assert b[o + (i - o)] == s[i - o];
      }
    }
  }

  lemma WholeSplice<T>(a: seq<T>, s: seq<T>)
    requires |s| == |a|
    ensures Splice(a, 0, s) == s
  {
  }

  lemma WrittenNone<T>(a: seq<T>, o: nat, s: seq<T>)
    requires o + |s| <= |a|
    ensures Written(a, a, o, s, 0)
  {
  }

  lemma WrittenElsewhere<T>(b: seq<T>, a: seq<T>, o: nat, s: seq<T>, n: nat, i: nat)
    requires o + |s| <= |a| && n <= |s| && Written(b, a, o, s, n) && i < |a| && (i < o || o + n <= i)
    ensures |b| == |a| && b[i] == a[i]
  {
  }

  lemma WrittenNext<T>(b: seq<T>, b': seq<T>, a: seq<T>, o: nat, s: seq<T>, n: nat)
    requires o + |s| <= |a| && n < |s| && Written(b, a, o, s, n) && b' == b[o + n := s[n]]
    ensures Written(b', a, o, s, n + 1)
  {
  }

  /** Writing row r changes that row and no other. */
  lemma RowAfterSplice<T>(a: seq<T>, n: nat, width: nat, r: nat, s: seq<T>)
    requires |a| == n * width && r < n && |s| == width
    ensures 0 <= r * width && r * width + width <= |a|
    ensures forall q: nat :: q < n ==>
              Row(Splice(a, r * width, s), n, width, q) == if q == r then s else Row(a, n, width, q)
  {
    RowInside(n, width, r);
    forall q: nat | q < n
      ensures Row(Splice(a, r * width, s), n, width, q) == if q == r then s else Row(a, n, width, q)
    {
      RowInside(n, width, q);
      RowsApart(width, q, r);
      SliceAfterSplice(a, r * width, s, q * width, width);
    }
  }

  lemma SliceAfterSplice<T>(a: seq<T>, o: nat, s: seq<T>, p: nat, width: nat)
    requires o + |s| <= |a| && p + width <= |a| && |s| == width
    ensures p == o ==> Splice(a, o, s)[p..p + width] == s
    ensures p + width <= o || o + width <= p ==> Splice(a, o, s)[p..p + width] == a[p..p + width]
  {
  }

  /** Writing inside row r changes that row, at the same place, and no other row. */
  lemma RowAfterPartialSplice<T>(a: seq<T>, n: nat, width: nat, r: nat, o: nat, s: seq<T>)
    requires |a| == n * width && r < n && o + |s| <= width
    ensures 0 <= r * width && r * width + width <= |a|
    ensures forall q: nat :: q < n ==>
              Row(Splice(a, r * width + o, s), n, width, q) == if q == r then Splice(Row(a, n, width, r), o, s)
                  else Row(a, n, width, q)
  {
    RowInside(n, width, r);
    var row := Row(a, n, width, r);
    RowAfterSplice(a, n, width, r, Splice(row, o, s));
    NestedSplice(a, r * width, width, o, s);
  }

  lemma NestedSplice<T>(a: seq<T>, p: nat, width: nat, o: nat, s: seq<T>)
    requires p + width <= |a| && o + |s| <= width
    ensures Splice(a, p + o, s) == Splice(a, p, Splice(a[p..p + width], o, s))
  {
  }
}
