/** Unsigned 32-bit arithmetic, and square matrices of words. */
module Words {
  import opened Matrices
  import opened Mindex

  const TWO32 := 0x1_0000_0000
  const TWO31 := 0x8000_0000

  type Word = x: nat | x < TWO32

  /** The flat index of a matrix of up to this many rows does not wrap around. */
  const MAX_SIDE := 65536

  /** Addition of uint32_t values. */
  function Plus(x: Word, y: Word): Word { (x + y) % TWO32 }

  function Min(x: Word, y: Word): Word { if x > y then y else x }

  /** Doubling a word makes it smaller exactly when the doubling wraps around. */
  lemma DoublingWraps(x: Word)
    ensures Plus(x, x) < x <==> x >= TWO31
  {
    if x >= TWO31 {
      assert Plus(x, x) == x + x - TWO32;
    }
  }

  /** The flat index as the programs compute it, on 32 bits. */
  function FlatIndex(n: Word, i: Word, j: Word): Word { Plus((i * n) % TWO32, j) }

  ghost predicate CellsApart(n: Word) {
    forall i: Word, j: Word, i': Word, j': Word ::
      i < n && j < n && i' < n && j' < n && FlatIndex(n, i, j) == FlatIndex(n, i', j') ==> i == i' && j == j'
  }

  /** The flat index tells the cells of an n x n matrix apart exactly when n is at most 65536. */
  lemma FlatIndexInjective(n: Word)
    ensures CellsApart(n) <==> n <= MAX_SIDE
  {
    hide FlatIndex;
    if n <= MAX_SIDE {
      forall i: Word, j: Word, i': Word, j': Word | i < n && j < n && i' < n && j' < n
          && FlatIndex(n, i, j) == FlatIndex(n, i', j')
        ensures i == i' && j == j'
      {
        NoWrap(n, i, j);
        NoWrap(n, i', j');
        Mindex2Injective(n, n, i, j, i', j');
      }
    } else {
      var i, j := FallsOnFirstCell(n);
      assert FlatIndex(n, i, j) == FlatIndex(n, 0, 0);
    }
  }

  /** The cell whose exact index is 2^32. */
  lemma FallsOnFirstCell(n: Word) returns (i: Word, j: Word)
    requires n > MAX_SIDE
    ensures 0 < i < n && j < n && FlatIndex(n, i, j) == FlatIndex(n, 0, 0)
  {
    hide Plus;
    i, j := TWO32 / n, TWO32 % n;
    FirstRowPastTheEnd(n, i);
    WrapsToZero(i * n, j);
    WrapsToZero(TWO32, 0);
    assert FlatIndex(n, 0, 0) == Plus(0, 0);
  }

  lemma WrapsToZero(x: nat, y: Word)
    requires x + y == TWO32
    ensures Plus(x % TWO32, y) == 0
  {
  }

  lemma NoWrap(n: Word, i: Word, j: Word)
    requires i < n <= MAX_SIDE && j < n
    ensures FlatIndex(n, i, j) == MINDEX2(n, n, i, j) < n * n
  {
    RowInside(n, n, i);
    MulMonotone(n, MAX_SIDE, n);
  }

  /** Wrapped around or not, the index stays in the buffer of n * n words. */
  lemma InBounds(n: Word, i: Word, j: Word)
    requires i < n && j < n
    ensures FlatIndex(n, i, j) < n * n
  {
    if n <= MAX_SIDE {
      NoWrap(n, i, j);
    } else {
      MulMonotone(MAX_SIDE + 1, n, MAX_SIDE + 1);
      MulMonotone(MAX_SIDE + 1, n, n);
    }
  }

  lemma FirstRowPastTheEnd(n: Word, i: Word)
    requires n > MAX_SIDE && i == TWO32 / n
    ensures 0 < i < n
  {
    assert i * n <= TWO32;
    MulMonotone(MAX_SIDE + 1, n, n);
    if i >= n {
      MulMonotone(n, i, n);
      assert false;
    }
  }

  // ----- matrices

  type Matrix = seq<seq<Word>>

  predicate Square(m: Matrix, n: nat) { Sized(m, n, n) }
}
