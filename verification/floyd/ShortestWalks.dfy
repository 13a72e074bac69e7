/** What Floyd-Warshall computes when no sum can wrap around: least weights of walks. */
module ShortestWalks {
  import opened Words
  import opened Passes

  predicate Small(m: Matrix, n: nat)
    requires Square(m, n)
  {
    forall i, j :: 0 <= i < n && 0 <= j < n ==> m[i][j] < TWO31
  }

  /** The sum without wrap-around. */
  function Sum(x: Word, y: Word): nat { x + y }

  function Least(x: Word, y: nat): nat { if y < x then y else x }

  /** Below 2^31 no sum wraps, row k and column k stay as they are, and the bound is kept. */
  lemma SmallPass(m: Matrix, n: nat, k: nat)
    requires Square(m, n) && k < n && Small(m, n)
    ensures Small(PlainPass(m, n, k), n)
    ensures forall i, j :: 0 <= i < n && 0 <= j < n ==>
              PlainPass(m, n, k)[i][j] == Least(m[i][j], Sum(m[i][k], m[k][j]))
  {
    assert PlainKRow(m[k], k) == m[k];
    forall i, j | 0 <= i < n && 0 <= j < n
      ensures PlainPass(m, n, k)[i][j] == Least(m[i][j], Sum(m[i][k], m[k][j]))
    {
      SmallCell(m[i], k, m[k], j);
    }
  }

  lemma SmallCell(row: seq<Word>, k: nat, kRow: seq<Word>, j: nat)
    requires j < |row| == |kRow| && k < |row| && row[k] < TWO31 && kRow[k] < TWO31 && kRow[j] < TWO31
    ensures OtherRow(row, k, kRow)[j] == Least(row[j], Sum(row[k], kRow[j]))
  {
  }

  lemma PassStaysSmall(m: Matrix, n: nat, k: nat)
    requires Square(m, n) && k < n && Small(m, n)
    ensures Small(PlainPass(m, n, k), n)
  {
    hide PlainPass, Small;
    SmallPass(m, n, k);
  }

  lemma {:induction false} StaysSmall(m: Matrix, n: nat, t: nat)
    requires Square(m, n) && t <= n && Small(m, n)
    ensures Small(Plain(m, n, t), n)
  {
    hide PlainPass, Small;
    if t > 0 {
      var k: nat := t - 1;
      StaysSmall(m, n, k);
      PassStaysSmall(Plain(m, n, k), n, k);
    }
  }

  /** Below 2^31, an iteration is the textbook one. */
  lemma NextEntry(m: Matrix, n: nat, k: nat, i: nat, j: nat)
    requires Square(m, n) && Small(m, n) && k < n && i < n && j < n
    ensures var before := Plain(m, n, k);
            Plain(m, n, k + 1)[i][j] == Least(before[i][j], Sum(before[i][k], before[k][j]))
  {
    hide Small;
    StaysSmall(m, n, k);
    SmallPass(Plain(m, n, k), n, k);
    assert Plain(m, n, k + 1) == PlainPass(Plain(m, n, k), n, k);
  }

  // ----- walks

  predicate Vertices(w: seq<nat>, n: nat) {
    forall p :: 0 <= p < |w| ==> w[p] < n
  }

  /** A nonempty walk: at least one step, every vertex below n, every vertex between the ends below t. */
  predicate Walk(w: seq<nat>, n: nat, t: nat, i: nat, j: nat) {
    && |w| >= 2 && w[0] == i && w[|w| - 1] == j
    && Vertices(w, n)
    && forall p :: 1 <= p < |w| - 1 ==> w[p] < t
  }

  function Weight(m: Matrix, n: nat, w: seq<nat>): nat
    requires Square(m, n) && |w| >= 1 && Vertices(w, n)
  {
    if |w| == 1 then 0 else m[w[0]][w[1]] + Weight(m, n, w[1..])
  }

  /** Cutting a walk in two at a vertex splits its weight. */
  lemma {:induction false} WeightSplits(m: Matrix, n: nat, w: seq<nat>, p: nat)
    requires Square(m, n) && p < |w| && Vertices(w, n)
    ensures Weight(m, n, w) == Weight(m, n, w[..p + 1]) + Weight(m, n, w[p..])
  {
    if p == 0 {
      assert w[0..] == w;
    } else {
      WeightSplits(m, n, w[1..], p - 1);
      assert w[1..][..p] == w[..p + 1][1..];
      assert w[1..][p - 1..] == w[p..];
    }
  }

  /** The first place after the start of the walk, and before its end, where it visits k; or its end. */
  function FirstVisit(w: seq<nat>, k: nat, p: nat): (q: nat)
    requires 1 <= p < |w|
    ensures p <= q < |w|
    ensures q < |w| - 1 ==> w[q] == k
    ensures forall r :: p <= r < q ==> w[r] != k
    decreases |w| - p
  {
    if p == |w| - 1 || w[p] == k then p else FirstVisit(w, k, p + 1)
  }

  lemma NothingBelowZero(s: seq<nat>)
    requires forall p :: 0 <= p < |s| ==> s[p] < 0
    ensures s == []
  {
    var first := FirstOf(s);
  }

  function FirstOf(s: seq<nat>): nat { if s == [] then 0 else s[0] }

  /** A walk without intermediate vertices is one step, and weighs what the input says. */
  lemma OneStep(m: Matrix, n: nat, w: seq<nat>, i: nat, j: nat)
    requires Square(m, n) && Walk(w, n, 0, i, j)
    ensures Weight(m, n, w) == Plain(m, n, 0)[i][j]
  {
    NothingBelowZero(w[1..|w| - 1]);
    assert w[1..] == [j];
  }

  /** After t iterations, no walk through vertices below t weighs less than the entry. */
  lemma {:induction false} NoWalkIsLighter(m: Matrix, n: nat, t: nat, w: seq<nat>, i: nat, j: nat)
    requires Square(m, n) && Small(m, n) && t <= n && Walk(w, n, t, i, j)
    ensures Plain(m, n, t)[i][j] <= Weight(m, n, w)
    decreases t, |w|
  {
    hide Plain, Small, Weight;
    if t == 0 {
      OneStep(m, n, w, i, j);
    } else {
      var k: nat := t - 1;
      NextEntry(m, n, k, i, j);
      NextEntry(m, n, k, k, j);
      var q := FirstVisit(w, k, 1);
      if q == |w| - 1 {
        NoWalkIsLighter(m, n, k, w, i, j);
      } else {
        var head, tail := w[..q + 1], w[q..];
        WeightSplits(m, n, w, q);
        NoWalkIsLighter(m, n, k, head, i, k);
        NoWalkIsLighter(m, n, t, tail, k, j);
      }
    }
  }

  /** A walk that ends in k, continued by one that starts in k. */
  function Joined(head: seq<nat>, tail: seq<nat>, n: nat, k: nat, i: nat, j: nat): (w: seq<nat>)
    requires k < n && Walk(head, n, k, i, k) && Walk(tail, n, k, k, j)
    ensures Walk(w, n, k + 1, i, j) && |w| == |head| + |tail| - 1 && w[..|head|] == head && w[|head| - 1..] == tail
  {
    head + tail[1..]
  }

  /** A walk whose weight is the entry after t iterations. */
  function Lightest(m: Matrix, n: nat, t: nat, i: nat, j: nat): (w: seq<nat>)
    requires Square(m, n) && t <= n && i < n && j < n
    ensures Walk(w, n, t, i, j)
  {
    if t == 0 then [i, j]
    else
      var k := t - 1;
      var before := Plain(m, n, k);
      if Sum(before[i][k], before[k][j]) < before[i][j]
          then Joined(Lightest(m, n, k, i, k), Lightest(m, n, k, k, j), n, k, i, j)
      else Lightest(m, n, k, i, j)
  }

  lemma {:induction false} LightestWeight(m: Matrix, n: nat, t: nat, i: nat, j: nat)
    requires Square(m, n) && Small(m, n) && t <= n && i < n && j < n
    ensures Weight(m, n, Lightest(m, n, t, i, j)) == Plain(m, n, t)[i][j]
  {
    hide Plain, Small, Weight, Lightest;
    if t == 0 {
      NoIteration(m, n, i, j);
    } else {
      var k: nat := t - 1;
      NextEntry(m, n, k, i, j);
      LightestWeight(m, n, k, i, j);
      LightestWeight(m, n, k, i, k);
      LightestWeight(m, n, k, k, j);
      NextWeight(m, n, k, i, j);
    }
  }

  lemma NoIteration(m: Matrix, n: nat, i: nat, j: nat)
    requires Square(m, n) && i < n && j < n
    ensures Weight(m, n, Lightest(m, n, 0, i, j)) == Plain(m, n, 0)[i][j]
  {
    OneStep(m, n, Lightest(m, n, 0, i, j), i, j);
  }

  lemma NextWeight(m: Matrix, n: nat, k: nat, i: nat, j: nat)
    requires Square(m, n) && k < n && i < n && j < n
    ensures var before := Plain(m, n, k);
            Weight(m, n, Lightest(m, n, k + 1, i, j)) ==
              if Sum(before[i][k], before[k][j]) < before[i][j]
              then Weight(m, n, Lightest(m, n, k, i, k)) + Weight(m, n, Lightest(m, n, k, k, j))
              else Weight(m, n, Lightest(m, n, k, i, j))
  {
    hide Plain, Weight, Joined;
    JoinedWeight(m, n, Lightest(m, n, k, i, k), Lightest(m, n, k, k, j), k, i, j);
  }

  lemma JoinedWeight(m: Matrix, n: nat, head: seq<nat>, tail: seq<nat>, k: nat, i: nat, j: nat)
    requires Square(m, n) && k < n && Walk(head, n, k, i, k) && Walk(tail, n, k, k, j)
    ensures Weight(m, n, Joined(head, tail, n, k, i, j)) == Weight(m, n, head) + Weight(m, n, tail)
  {
    WeightSplits(m, n, Joined(head, tail, n, k, i, j), |head| - 1);
  }

  /**
   With all entries below 2^31, entry (i, j) of the result is the least weight of a
   nonempty walk from i to j: some walk has this weight and none has less.
   */
  lemma ResultIsLeastWeight(m: Matrix, n: nat, i: nat, j: nat)
    requires Square(m, n) && Small(m, n) && i < n && j < n
    ensures exists w :: Walk(w, n, n, i, j) && Weight(m, n, w) == Plain(m, n, n)[i][j]
    ensures forall w :: Walk(w, n, n, i, j) ==> Plain(m, n, n)[i][j] <= Weight(m, n, w)
    ensures Small(Plain(m, n, n), n)
  {
    StaysSmall(m, n, n);
    LightestWeight(m, n, n, i, j);
    hide Lightest, Plain, Weight, Small;
    assert Walk(Lightest(m, n, n, i, j), n, n, i, j);
    forall w | Walk(w, n, n, i, j)
      ensures Plain(m, n, n)[i][j] <= Weight(m, n, w)
    {
      NoWalkIsLighter(m, n, n, w, i, j);
    }
  }
}
