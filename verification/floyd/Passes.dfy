/**
 What one iteration of the outer loop of Floyd-Warshall does to the matrix, in the
 plain form and in the form with cached row and column. Both update in place, so that
 a cell may be computed from cells that the same iteration has already changed.
 */
module Passes {
  import opened Words

  /** Row i of the matrix after the iteration for k, when row k holds kRow while row i is processed. */
  function OtherRow(row: seq<Word>, k: nat, kRow: seq<Word>): (r: seq<Word>)
    requires k < |row| == |kRow|
    ensures |r| == |row|
  {
    var ik := Min(row[k], Plus(row[k], kRow[k]));
    seq(|row|, j requires 0 <= j < |row| => Min(row[j], Plus(if j <= k then row[k] else ik, kRow[j])))
  }

  /** Row k itself in the plain form: from column k on, its diagonal entry has changed. */
  function PlainKRow(row: seq<Word>, k: nat): (r: seq<Word>)
    requires k < |row|
    ensures |r| == |row|
  {
    var kk := Min(row[k], Plus(row[k], row[k]));
    seq(|row|, j requires 0 <= j < |row| => Min(row[j], Plus(if j <= k then row[k] else kk, row[j])))
  }

  /** Row k in the cached form, which keeps using the diagonal entry it has cached. */
  function CachedKRow(row: seq<Word>, k: nat): (r: seq<Word>)
    requires k < |row|
    ensures |r| == |row|
  {
    seq(|row|, j requires 0 <= j < |row| => Min(row[j], Plus(row[k], row[j])))
  }

  function Pass(m: Matrix, n: nat, k: nat, kRow: seq<Word>): (m': Matrix)
    requires Square(m, n) && k < n && |kRow| == n
    ensures Square(m', n)
  {
    seq(n, i requires 0 <= i < n =>
      if i < k then OtherRow(m[i], k, m[k]) else if i == k then kRow else OtherRow(m[i], k, kRow))
  }

  function PlainPass(m: Matrix, n: nat, k: nat): (m': Matrix)
    requires Square(m, n) && k < n
    ensures Square(m', n)
  {
    Pass(m, n, k, PlainKRow(m[k], k))
  }

  function CachedPass(m: Matrix, n: nat, k: nat): (m': Matrix)
    requires Square(m, n) && k < n
    ensures Square(m', n)
  {
    Pass(m, n, k, CachedKRow(m[k], k))
  }

  /** The first t iterations. */
  function Plain(m: Matrix, n: nat, t: nat): (m': Matrix)
    requires Square(m, n) && t <= n
    ensures Square(m', n)
  {
    if t == 0 then m else PlainPass(Plain(m, n, t - 1), n, t - 1)
  }

  function Cached(m: Matrix, n: nat, t: nat): (m': Matrix)
    requires Square(m, n) && t <= n
    ensures Square(m', n)
  {
    if t == 0 then m else CachedPass(Cached(m, n, t - 1), n, t - 1)
  }
}
