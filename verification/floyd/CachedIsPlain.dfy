/**
 When the cached form computes what the plain form computes. The only difference is
 that in row k the cached form keeps using the diagonal entry it read at the start of
 the iteration, while the plain form sees it change, which happens exactly when
 doubling it wraps around.
 */
module CachedIsPlain {
  import opened Matrices
  import opened Words
  import opened Passes

  // ----- one iteration

  ghost predicate PassesAgreeOnDiagonal(n: nat, k: nat, d: Word)
    requires k < n
  {
    forall m: Matrix :: Square(m, n) && m[k][k] == d ==> PlainPass(m, n, k) == CachedPass(m, n, k)
  }

  lemma SmallDiagonalPass(m: Matrix, n: nat, k: nat)
    requires Square(m, n) && k < n && (m[k][k] < TWO31 || k == n - 1)
    ensures PlainPass(m, n, k) == CachedPass(m, n, k)
  {
    DoublingWraps(m[k][k]);
    assert PlainKRow(m[k], k) == CachedKRow(m[k], k);
  }

  /** All zeros, but for 2^31 after the diagonal entry d of row k. */
  function Spoiler(n: nat, k: nat, d: Word, x: Word): (m: Matrix)
    requires k < n
    ensures Square(m, n)
  {
    seq(n, i => seq(n, j => if i == k == j then d else if i == k && j > k then x else 0))
  }

  /**
   For a given diagonal entry, the two forms of iteration k agree on every matrix
   exactly when the entry is below 2^31 or there is no column after column k.
   */
  lemma PassesAgreeExactly(n: nat, k: nat, d: Word)
    requires k < n
    ensures PassesAgreeOnDiagonal(n, k, d) <==> d < TWO31 || k == n - 1
  {
    if d < TWO31 || k == n - 1 {
      forall m: Matrix | Square(m, n) && m[k][k] == d
        ensures PlainPass(m, n, k) == CachedPass(m, n, k)
      {
        SmallDiagonalPass(m, n, k);
      }
    } else {
      // Once doubled, d is twice what it exceeds 2^31 by; 2^32 - d exceeds it no more, and wraps to 0 with d itself.
      var m := Spoiler(n, k, d, TWO32 - d);
      DoublingWraps(d);
      assert Plus(d, TWO32 - d) == 0;
      assert CachedKRow(m[k], k)[k + 1] == 0;
      assert PlainKRow(m[k], k)[k + 1] != 0;
      assert PlainPass(m, n, k)[k] != CachedPass(m, n, k)[k];
    }
  }

  // ----- the whole run

  /** No diagonal entry but the last is 2^31 or more. */
  predicate DiagonalBelow(m: Matrix, n: nat, bound: nat)
    requires Square(m, n)
  {
    forall i :: 0 <= i < n - 1 ==> m[i][i] < bound
  }

  /** An iteration never increases an entry. */
  lemma PassDecreases(m: Matrix, n: nat, k: nat)
    requires Square(m, n) && k < n
    ensures forall i, j :: 0 <= i < n && 0 <= j < n ==> PlainPass(m, n, k)[i][j] <= m[i][j]
    ensures forall i, j :: 0 <= i < n && 0 <= j < n ==> CachedPass(m, n, k)[i][j] <= m[i][j]
  {
  }

  lemma {:induction false} SmallDiagonalRun(m: Matrix, n: nat, t: nat)
    requires Square(m, n) && t <= n && DiagonalBelow(m, n, TWO31)
    ensures Plain(m, n, t) == Cached(m, n, t) && DiagonalBelow(Plain(m, n, t), n, TWO31)
  {
    hide PlainPass, CachedPass;
    if t > 0 {
      SmallDiagonalRun(m, n, t - 1);
      SmallDiagonalPass(Plain(m, n, t - 1), n, t - 1);
      PassDecreases(Plain(m, n, t - 1), n, t - 1);
    }
  }

  /**
   The two programs compute the same matrix, bit for bit and even where off-diagonal
   sums wrap around, if no diagonal entry but the last is 2^31 or more.
   */
  lemma CachedEqualsPlain(m: Matrix, n: nat)
    requires Square(m, n) && DiagonalBelow(m, n, TWO31)
    ensures Cached(m, n, n) == Plain(m, n, n)
  {
    SmallDiagonalRun(m, n, n);
  }

  // ----- and no weaker condition on the diagonal will do

  predicate HasDiagonal(m: Matrix, n: nat, diag: seq<Word>)
    requires Square(m, n) && |diag| == n
  {
    forall i :: 0 <= i < n ==> m[i][i] == diag[i]
  }

  ghost predicate RunsAgreeOnDiagonal(n: nat, diag: seq<Word>)
    requires |diag| == n
  {
    forall m: Matrix :: Square(m, n) && HasDiagonal(m, n, diag) ==> Plain(m, n, n) == Cached(m, n, n)
  }

  /**
   For a given diagonal, the two programs agree on every matrix exactly when no entry of the
   diagonal but the last is 2^31 or more.
   */
  lemma DiagonalIsExact(n: nat, diag: seq<Word>)
    requires |diag| == n
    ensures RunsAgreeOnDiagonal(n, diag) <==> forall i :: 0 <= i < n - 1 ==> diag[i] < TWO31
  {
    if forall i :: 0 <= i < n - 1 ==> diag[i] < TWO31 {
      forall m: Matrix | Square(m, n) && HasDiagonal(m, n, diag)
        ensures Plain(m, n, n) == Cached(m, n, n)
      {
        CachedEqualsPlain(m, n);
      }
    } else {
      var k := FirstLarge(n, diag, 0);
      RunsDiffer(n, k, diag);
      assert HasDiagonal(Witness(n, k, diag), n, diag);
    }
  }

  lemma FirstLarge(n: nat, diag: seq<Word>, from: nat) returns (k: nat)
    requires |diag| == n && from < n && (forall i :: 0 <= i < from ==> diag[i] < TWO31)
    requires exists i :: from <= i < n - 1 && diag[i] >= TWO31
    ensures FirstLargeAt(n, k, diag)
    decreases n - from
  {
    k := from;
    if diag[from] < TWO31 {
      k := FirstLarge(n, diag, from + 1);
    }
  }

  predicate FirstLargeAt(n: nat, k: nat, diag: seq<Word>)
    requires |diag| == n
  {
    k < n - 1 && diag[k] >= TWO31 && forall i :: 0 <= i < k ==> diag[i] < TWO31
  }

  /**
   A matrix with the given diagonal that the iterations before k leave as it is, and on which iteration k
   makes the forms differ: the diagonal entry and the rest of row k add up to 2^32.
   */
  function WitnessAt(k: nat, diag: seq<Word>, i: nat, j: nat): Word
    requires i < |diag| && k < |diag| && diag[k] >= TWO31
  {
    if i == j then diag[i]
    else if j < k then TWO31 - 1
    else if i < k then TWO31
    else if i == k then TWO32 - diag[k]
    else if j == k && diag[k] == TWO31 then TWO31
    else 0
  }

  function Witness(n: nat, k: nat, diag: seq<Word>): (m: Matrix)
    requires |diag| == n && k < n && diag[k] >= TWO31
    ensures Square(m, n) && forall i: nat, j: nat :: i < n && j < n ==> m[i][j] == WitnessAt(k, diag, i, j)
  {
    seq(n, i requires 0 <= i < n => seq(n, j requires 0 <= j < n => WitnessAt(k, diag, i, j)))
  }

  lemma KRowStays(row: seq<Word>, k: nat)
    requires k < |row| && row[k] < TWO31 && forall j :: 0 <= j < |row| ==> row[k] + row[j] < TWO32
    ensures PlainKRow(row, k) == row
  {
  }

  lemma OtherRowStays(row: seq<Word>, k: nat, kRow: seq<Word>)
    requires k < |row| == |kRow| && forall j :: 0 <= j < |row| ==> row[j] <= row[k] + kRow[j] < TWO32
    ensures OtherRow(row, k, kRow) == row
  {
  }

  /** The first k iterations do nothing: every sum is an entry below 2^31 plus one that does not make it wrap. */
  lemma EarlyPass(n: nat, k: nat, diag: seq<Word>, t: nat)
    requires |diag| == n && FirstLargeAt(n, k, diag) && t < k
    ensures PlainPass(Witness(n, k, diag), n, t) == Witness(n, k, diag) == CachedPass(Witness(n, k, diag), n, t)
  {
    var m := Witness(n, k, diag);
    SmallDiagonalPass(m, n, t);
    hide Witness, OtherRow, PlainKRow;
    KRowStays(m[t], t);
    forall i | 0 <= i < n && i != t
      ensures OtherRow(m[i], t, m[t]) == m[i]
    {
      OtherRowStays(m[i], t, m[t]);
    }
    assert PlainPass(m, n, t) == m;
  }

  lemma {:induction false} UnchangedRun(m: Matrix, n: nat, t: nat)
    requires Square(m, n) && t <= n
    requires forall u: nat :: u < t ==> PlainPass(m, n, u) == m == CachedPass(m, n, u)
    ensures Plain(m, n, t) == m == Cached(m, n, t)
  {
    hide PlainPass, CachedPass;
    if t > 0 {
      UnchangedRun(m, n, t - 1);
    }
  }

  lemma EarlyRun(n: nat, k: nat, diag: seq<Word>)
    requires |diag| == n && FirstLargeAt(n, k, diag)
    ensures Plain(Witness(n, k, diag), n, k) == Witness(n, k, diag) == Cached(Witness(n, k, diag), n, k)
  {
    hide Witness, PlainPass, CachedPass, Plain, Cached;
    forall t: nat | t < k
      ensures PlainPass(Witness(n, k, diag), n, t) == Witness(n, k, diag) == CachedPass(Witness(n, k, diag), n, t)
    {
      EarlyPass(n, k, diag, t);
    }
    UnchangedRun(Witness(n, k, diag), n, k);
  }

  /** In the plain form the rest of row k stays at e, because all that is added to it is 0 or does not wrap. */
  predicate Survives(m: Matrix, n: nat, k: nat, e: Word)
    requires Square(m, n)
  {
    && (forall j :: k < j < n ==> m[k][j] == e)
    && (forall i, j :: k < i < n && k < j < n && i != j ==> m[i][j] == 0)
    && (forall i :: k < i < n ==> m[i][i] + e < TWO32)
  }

  /** Iteration k: the plain form has halved the diagonal entry's excess in time, the cached form wraps to 0. */
  lemma TurningPass(n: nat, k: nat, diag: seq<Word>)
    requires |diag| == n && FirstLargeAt(n, k, diag)
    ensures Survives(PlainPass(Witness(n, k, diag), n, k), n, k, TWO32 - diag[k])
    ensures CachedPass(Witness(n, k, diag), n, k)[k][k + 1] == 0
  {
    var m, d, e := Witness(n, k, diag), diag[k], TWO32 - diag[k];
    hide Witness, OtherRow, PlainKRow, CachedKRow;
    TurningRow(m[k], k, d, e);
    PassDecreases(m, n, k);
    forall i | k < i < n
      ensures PlainPass(m, n, k)[i][i] + e < TWO32
    {
      TurningDiagonal(m[i], k, PlainKRow(m[k], k), d, e, i);
    }
  }

  lemma TurningRow(row: seq<Word>, k: nat, d: Word, e: Word)
    requires k < |row| && row[k] == d >= TWO31 && e == TWO32 - d && forall j :: k < j < |row| ==> row[j] == e
    ensures PlainKRow(row, k)[k] == d + d - TWO32
    ensures forall j :: k < j < |row| ==> PlainKRow(row, k)[j] == e && CachedKRow(row, k)[j] == 0
  {
    assert Plus(d, d) == d + d - TWO32;
    assert Plus(d + d - TWO32, e) == d && Plus(d, e) == 0;
  }

  lemma TurningDiagonal(row: seq<Word>, k: nat, kRow: seq<Word>, d: Word, e: Word, i: nat)
    requires k < i < |row| == |kRow| && d >= TWO31 && e == TWO32 - d && kRow[k] == d + d - TWO32 && kRow[i] == e
    requires row[k] == if d == TWO31 then TWO31 else 0
    ensures OtherRow(row, k, kRow)[i] + e < TWO32
  {
  }

  lemma LaterRow(row: seq<Word>, t: nat, kRow: seq<Word>, k: nat, e: Word)
    requires k < t < |row| == |kRow| && (forall j :: k < j < |row| ==> row[j] == e)
    requires kRow[t] + e < TWO32 && forall j :: k < j < |row| && j != t ==> kRow[j] == 0
    ensures forall j :: k < j < |row| ==> OtherRow(row, t, kRow)[j] == e
  {
  }

  lemma LaterPass(m: Matrix, n: nat, k: nat, e: Word, t: nat)
    requires Square(m, n) && k < t < n && Survives(m, n, k, e)
    ensures Survives(PlainPass(m, n, t), n, k, e)
  {
    hide OtherRow, PlainKRow;
    PassDecreases(m, n, t);
    LaterRow(m[k], t, m[t], k, e);
  }

  lemma {:induction false} LaterRun(n: nat, k: nat, diag: seq<Word>, t: nat)
    requires |diag| == n && FirstLargeAt(n, k, diag) && k < t <= n
    ensures Survives(Plain(Witness(n, k, diag), n, t), n, k, TWO32 - diag[k])
    ensures Cached(Witness(n, k, diag), n, t)[k][k + 1] == 0
  {
    hide PlainPass, CachedPass, Witness, Survives;
    var m := Witness(n, k, diag);
    if t == k + 1 {
      EarlyRun(n, k, diag);
      TurningPass(n, k, diag);
    } else {
      LaterRun(n, k, diag, t - 1);
      LaterPass(Plain(m, n, t - 1), n, k, TWO32 - diag[k], t - 1);
      PassDecreases(Cached(m, n, t - 1), n, t - 1);
    }
  }

  lemma RunsDiffer(n: nat, k: nat, diag: seq<Word>)
    requires |diag| == n && FirstLargeAt(n, k, diag)
    ensures Plain(Witness(n, k, diag), n, n) != Cached(Witness(n, k, diag), n, n)
  {
    hide Plain, Cached, Witness;
    LaterRun(n, k, diag, n);
  }

  ghost predicate RunsAgreeBelow(n: nat, bound: nat) {
    forall m: Matrix :: Square(m, n) && DiagonalBelow(m, n, bound) ==> Plain(m, n, n) == Cached(m, n, n)
  }

  /** In particular, 2^31 is the largest bound on the diagonal that will do. */
  lemma BoundIsExact(n: nat, bound: nat)
    requires n >= 2
    ensures RunsAgreeBelow(n, bound) <==> bound <= TWO31
  {
    if bound <= TWO31 {
      forall m: Matrix | Square(m, n) && DiagonalBelow(m, n, bound)
        ensures Plain(m, n, n) == Cached(m, n, n)
      {
        CachedEqualsPlain(m, n);
      }
    } else {
      var diag := seq(n, _ => TWO31);
      RunsDiffer(n, 0, diag);
      assert DiagonalBelow(Witness(n, 0, diag), n, bound);
    }
  }
}
