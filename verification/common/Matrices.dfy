/** Two-dimensional arrays as values. */
module Matrices {

  ghost function View<T>(a: array2<T>): (m: seq<seq<T>>)
    reads a
    ensures |m| == a.Length0 && forall i :: 0 <= i < |m| ==> |m[i]| == a.Length1
    ensures forall i, j :: 0 <= i < a.Length0 && 0 <= j < a.Length1 ==> m[i][j] == a[i, j]
  {
    seq(a.Length0, i requires 0 <= i < a.Length0 reads a =>
          seq(a.Length1, j requires 0 <= j < a.Length1 reads a => a[i, j]))
  }

  predicate Sized<T>(m: seq<seq<T>>, h: nat, w: nat) {
    |m| == h && forall i :: 0 <= i < h ==> |m[i]| == w
  }

  lemma SameMatrix<T>(m: seq<seq<T>>, m': seq<seq<T>>, h: nat, w: nat)
    requires Sized(m, h, w) && Sized(m', h, w)
    requires forall i, j :: 0 <= i < h && 0 <= j < w ==> m[i][j] == m'[i][j]
    ensures m == m'
  {
    forall i | 0 <= i < h
      ensures m[i] == m'[i]
    {
    }
  }
}
