/** optitrust_floyd, in its plain form and with cached row and column and split loops. */
module FloydWarshall {
  import opened Matrices
  import opened Words
  import opened Passes

  // ----- the flat matrix

  /** Cell (i, j), at the index that the programs compute. */
  function At(n: Word, a: array<Word>, i: Word, j: Word): Word
    requires a.Length == n * n && i < n && j < n
    reads a
  {
    InBounds(n, i, j);
    a[FlatIndex(n, i, j)]
  }

  ghost function Grid(n: Word, a: array<Word>): (m: Matrix)
    requires a.Length == n * n
    reads a
    ensures Square(m, n) && forall i, j :: 0 <= i < n && 0 <= j < n ==> m[i][j] == At(n, a, i, j)
  {
    seq(n, i requires 0 <= i < n reads a => seq(n, j requires 0 <= j < n reads a => At(n, a, i, j)))
  }

  /** The store A[i * N + j] = x. */
  method Put(n: Word, a: array<Word>, i: Word, j: Word, x: Word)
    requires a.Length == n * n && i < n && j < n
    modifies a
    ensures n <= MAX_SIDE ==> forall r, c :: 0 <= r < n && 0 <= c < n ==>
              At(n, a, r, c) == if r == i && c == j then x else old(At(n, a, r, c))
  {
    hide FlatIndex;
    InBounds(n, i, j);
    FlatIndexInjective(n);
    a[FlatIndex(n, i, j)] := x;
  }

  // ----- the plain form

  method Floyd(n: Word, a: array<Word>)
    requires a.Length == n * n
    modifies a
    ensures n <= MAX_SIDE ==> Grid(n, a) == Plain(old(Grid(n, a)), n, n)
  {
    hide PlainPass;
    ghost var m := Grid(n, a);
    for k: Word := 0 to n
      invariant n <= MAX_SIDE ==> Grid(n, a) == Plain(m, n, k)
    {
      FloydPass(n, a, k);
    }
  }

  /** The body of the outer loop. */
  method FloydPass(n: Word, a: array<Word>, k: Word)
    requires a.Length == n * n && k < n
    modifies a
    ensures n <= MAX_SIDE ==> Grid(n, a) == PlainPass(old(Grid(n, a)), n, k)
  {
    hide OtherRow, PlainKRow;
    ghost var m := Grid(n, a);
    ghost var m' := PlainPass(m, n, k);
    for i: Word := 0 to n
      invariant n <= MAX_SIDE ==> forall r :: 0 <= r < n ==> Grid(n, a)[r] == if r < i then m'[r] else m[r]
    {
      FloydRow(n, a, k, i);
    }
  }

  /** The innermost loop. When i is k, the cells it reads are cells of the row it writes. */
  method FloydRow(n: Word, a: array<Word>, k: Word, i: Word)
    requires a.Length == n * n && k < n && i < n
    modifies a
    ensures n <= MAX_SIDE ==>
              var m := old(Grid(n, a));
              Grid(n, a) == m[i := if i == k then PlainKRow(m[k], k) else OtherRow(m[i], k, m[k])]
  {
    ghost var m := Grid(n, a);
    ghost var row := if i == k then PlainKRow(m[k], k) else OtherRow(m[i], k, m[k]);
    for j: Word := 0 to n
      invariant n <= MAX_SIDE ==> forall r, c :: 0 <= r < n && 0 <= c < n ==>
                  At(n, a, r, c) == if r == i && c < j then row[c] else m[r][c]
    {
      if At(n, a, i, j) > Plus(At(n, a, i, k), At(n, a, k, j)) {
        Put(n, a, i, j, Plus(At(n, a, i, k), At(n, a, k, j)));
      }
    }
    if n <= MAX_SIDE {
      SameMatrix(Grid(n, a), m[i := row], n, n);
    }
  }

  // ----- the form with cached row and column

  method CachedFloyd(n: Word, a: array<Word>)
    requires a.Length == n * n
    modifies a
    ensures n <= MAX_SIDE ==> Grid(n, a) == Cached(old(Grid(n, a)), n, n)
  {
    hide CachedPass;
    ghost var m := Grid(n, a);
    var kj := new Word[n];
    var ik := new Word[n];
    for k: Word := 0 to n
      invariant n <= MAX_SIDE ==> Grid(n, a) == Cached(m, n, k)
    {
      CachedFloydPass(n, a, kj, ik, k);
    }
  }

  /** The body of the outer loop: the two copies and the seven loop nests. */
  method CachedFloydPass(n: Word, a: array<Word>, kj: array<Word>, ik: array<Word>, k: Word)
    requires a.Length == n * n && kj.Length == n == ik.Length && kj != ik && a != kj && a != ik && k < n
    modifies a, kj, ik
    ensures n <= MAX_SIDE ==> Grid(n, a) == CachedPass(old(Grid(n, a)), n, k)
  {
    hide OtherRow, CachedKRow, At;
    CopyRow(n, a, kj, k);
    CopyColumn(n, a, ik, k);
    RelaxRows(n, a, kj, ik, k, 0, k);
    RelaxKRow(n, a, kj, ik, k);
    RelaxRows(n, a, kj, ik, k, k + 1, n);
  }

  /** The three nests over rows i0 to i1: the columns before k, column k and the columns after it. */
  method RelaxRows(n: Word, a: array<Word>, kj: array<Word>, ik: array<Word>, k: Word, i0: Word, i1: Word)
    requires a.Length == n * n && kj.Length == n == ik.Length && kj != ik && a != kj && a != ik && k < n
             && i0 <= i1 <= n
    requires n <= MAX_SIDE ==> forall i :: i0 <= i < i1 ==> ik[i] == Grid(n, a)[i][k]
    modifies a, ik
    ensures n <= MAX_SIDE ==>
              var m := old(Grid(n, a));
              forall r :: 0 <= r < n ==> Grid(n, a)[r] == if i0 <= r < i1 then OtherRow(m[r], k, kj[..]) else m[r]
    ensures n <= MAX_SIDE ==> forall i :: 0 <= i < n && !(i0 <= i < i1) ==> ik[i] == old(ik[i])
  {
    ghost var m := Grid(n, a);
    RelaxBlock(n, a, kj, ik, i0, i1, 0, k);
    RelaxColumn(n, a, kj, ik, k, i0, i1);
    RelaxBlock(n, a, kj, ik, i0, i1, k + 1, n);
    if n <= MAX_SIDE {
      forall r | 0 <= r < n
        ensures Grid(n, a)[r] == if i0 <= r < i1 then OtherRow(m[r], k, kj[..]) else m[r]
      {
        assert forall c :: 0 <= c < n ==>
            At(n, a, r, c) == if i0 <= r < i1 then OtherRow(m[r], k, kj[..])[c] else m[r][c];
      }
    }
  }

  method CopyRow(n: Word, a: array<Word>, kj: array<Word>, k: Word)
    requires a.Length == n * n && kj.Length == n && a != kj && k < n
    modifies kj
    ensures n <= MAX_SIDE ==> kj[..] == Grid(n, a)[k]
  {
    for j: Word := 0 to n
      invariant n <= MAX_SIDE ==> forall c :: 0 <= c < j ==> kj[c] == At(n, a, k, c)
    {
      kj[j] := At(n, a, k, j);
    }
  }

  method CopyColumn(n: Word, a: array<Word>, ik: array<Word>, k: Word)
    requires a.Length == n * n && ik.Length == n && a != ik && k < n
    modifies ik
    ensures n <= MAX_SIDE ==> forall i :: 0 <= i < n ==> ik[i] == Grid(n, a)[i][k]
  {
    for i: Word := 0 to n
      invariant n <= MAX_SIDE ==> forall r :: 0 <= r < i ==> ik[r] == At(n, a, r, k)
    {
      ik[i] := At(n, a, i, k);
    }
  }

  /** A nest over rows i0 to i1 and columns j0 to j1, reading the caches only. */
  method RelaxBlock(n: Word, a: array<Word>, kj: array<Word>, ik: array<Word>, i0: Word, i1: Word, j0: Word, j1: Word)
    requires a.Length == n * n && kj.Length == n == ik.Length && a != kj && a != ik && i0 <= i1 <= n && j0 <= j1 <= n
    modifies a
    ensures n <= MAX_SIDE ==>
              var m := old(Grid(n, a));
              forall i, j :: 0 <= i < n && 0 <= j < n ==>
                At(n, a, i, j) == if i0 <= i < i1 && j0 <= j < j1 then Min(m[i][j], Plus(ik[i], kj[j])) else m[i][j]
  {
    ghost var m := Grid(n, a);
    for i: Word := i0 to i1
      invariant n <= MAX_SIDE ==> forall r, c :: 0 <= r < n && 0 <= c < n ==>
                  At(n, a, r, c) == if i0 <= r < i && j0 <= c < j1 then Min(m[r][c], Plus(ik[r], kj[c])) else m[r][c]
    {
      for j: Word := j0 to j1
        invariant n <= MAX_SIDE ==> forall r, c :: 0 <= r < n && 0 <= c < n ==>
                    At(n, a, r, c) == if (i0 <= r < i && j0 <= c < j1) || (r == i && j0 <= c < j)
                                      then Min(m[r][c], Plus(ik[r], kj[c]))
                                      else m[r][c]
      {
        var sum := Plus(ik[i], kj[j]);
        if At(n, a, i, j) > sum {
          Put(n, a, i, j, sum);
        }
      }
    }
  }

  /** A nest over column k, refreshing the cached column. */
  method RelaxColumn(n: Word, a: array<Word>, kj: array<Word>, ik: array<Word>, k: Word, i0: Word, i1: Word)
    requires a.Length == n * n && kj.Length == n == ik.Length && kj != ik && a != kj && a != ik && k < n
             && i0 <= i1 <= n
    requires n <= MAX_SIDE ==> forall i :: i0 <= i < i1 ==> ik[i] == At(n, a, i, k)
    modifies a, ik
    ensures n <= MAX_SIDE ==>
              var m := old(Grid(n, a));
              forall i, j :: 0 <= i < n && 0 <= j < n ==>
                At(n, a, i, j) == if i0 <= i < i1 && j == k then Min(m[i][k], Plus(m[i][k], kj[k])) else m[i][j]
    ensures n <= MAX_SIDE ==> forall i :: 0 <= i < n ==> ik[i] == if i0 <= i < i1 then At(n, a, i, k) else old(ik[i])
  {
    ghost var m := Grid(n, a);
    for i: Word := i0 to i1
      invariant n <= MAX_SIDE ==> forall r, c :: 0 <= r < n && 0 <= c < n ==>
                  At(n, a, r, c) == if i0 <= r < i && c == k then Min(m[r][k], Plus(m[r][k], kj[k])) else m[r][c]
      invariant n <= MAX_SIDE ==> forall r :: 0 <= r < n ==> ik[r] == if i0 <= r < i then At(n, a, r, k) else old(ik[r])
    {
      var sum := Plus(ik[i], kj[k]);
      if At(n, a, i, k) > sum {
        Put(n, a, i, k, sum);
        ik[i] := sum;
      }
    }
  }

  /** The nest over row k, refreshing the cached row but not the cached diagonal entry ik[k]. */
  method RelaxKRow(n: Word, a: array<Word>, kj: array<Word>, ik: array<Word>, k: Word)
    requires a.Length == n * n && kj.Length == n == ik.Length && kj != ik && a != kj && a != ik && k < n
    requires n <= MAX_SIDE ==> kj[..] == Grid(n, a)[k] && ik[k] == Grid(n, a)[k][k]
    modifies a, kj
    ensures n <= MAX_SIDE ==>
              var m := old(Grid(n, a));
              Grid(n, a) == m[k := CachedKRow(m[k], k)] && kj[..] == CachedKRow(m[k], k)
  {
    ghost var m := Grid(n, a);
    for j: Word := 0 to n
      invariant n <= MAX_SIDE ==> forall r, c :: 0 <= r < n && 0 <= c < n ==>
                  At(n, a, r, c) == if r == k && c < j then CachedKRow(m[k], k)[c] else m[r][c]
      invariant n <= MAX_SIDE ==> forall c :: 0 <= c < n ==> kj[c] == At(n, a, k, c)
    {
      var sum := Plus(ik[k], kj[j]);
      if At(n, a, k, j) > sum {
        Put(n, a, k, j, sum);
        kj[j] := sum;
      }
    }
    if n <= MAX_SIDE {
      SameMatrix(Grid(n, a), m[k := CachedKRow(m[k], k)], n, n);
    }
  }
}
