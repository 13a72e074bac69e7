/** The box-filter row sum: the simple form, the specialised form, and OpenCV's. */
module RowSum {
  import opened Mindex
  import opened Windows

  // ----- writing cells of the result

  /** Storing a window's sum at the cell's flat index completes this cell and keeps the completed ones. */
  lemma Put(d: seq<Word16>, s: seq<Byte>, w: nat, n: nat, cn: nat, i: nat, c: nat, x: nat)
    requires |d| == n * cn && i < n && c < cn && x == MINDEX2(n, cn, i, c)
    ensures x < |d| && CellIs(d[x := Partial(s, cn, i, w, c)], s, w, n, cn, i, c)
    ensures forall i': nat, c': nat :: i' < n && c' < cn && CellIs(d, s, w, n, cn, i', c') ==>
              CellIs(d[x := Partial(s, cn, i, w, c)], s, w, n, cn, i', c')
  {
    Mindex2Injective(n, cn, i, c, i, c);
    hide Window, Partial;
    var d' := d[x := Partial(s, cn, i, w, c)];
    assert Partial(s, cn, i, w, c) == Wrap16(Window(s, w, cn, i, c)) by { PartialIsWindow(s, w, cn, i, c); }
    forall i': nat, c': nat | i' < n && c' < cn && CellIs(d, s, w, n, cn, i', c')
      ensures CellIs(d', s, w, n, cn, i', c')
    {
      Mindex2Injective(n, cn, i', c', i, c);
    }
  }

  /** d[x] = v */
  method Store(d: array<Word16>, v: Word16, ghost s: seq<Byte>, ghost w: nat, ghost n: nat, ghost cn: nat,
               ghost i: nat, ghost c: nat, x: nat)
    requires d.Length == n * cn && i < n && c < cn && x == MINDEX2(n, cn, i, c) && v == Partial(s, cn, i, w, c)
    modifies d
    ensures CellIs(d[..], s, w, n, cn, i, c)
    ensures forall i': nat, c': nat :: i' < n && c' < cn && CellIs(old(d[..]), s, w, n, cn, i', c') ==>
              CellIs(d[..], s, w, n, cn, i', c')
  {
    hide CellIs, Partial;
    ghost var before := d[..];
    Put(before, s, w, n, cn, i, c, x);
    d[x] := v;
    assert d[..] == before[x := v];
  }

  lemma PartialIsWindow(s: seq<Byte>, w: nat, cn: nat, i: nat, c: nat)
    ensures Partial(s, cn, i, w, c) == Wrap16(Window(s, w, cn, i, c))
  {
  }

  // ----- the simple form

  method NaiveRowSum(w: nat, s: seq<Byte>, d: array<Word16>, n: nat, cn: nat)
    requires IsRow(s, w, n, cn) && d.Length == n * cn
    modifies d
    ensures Summed(d[..], s, w, n, cn)
  {
    hide CellIs, PixelAt, Partial;
    for i: nat := 0 to n
      invariant forall i': nat, c': nat :: i' < i && c' < cn ==> CellIs(d[..], s, w, n, cn, i', c')
    {
      for c: nat := 0 to cn
        invariant forall i': nat, c': nat :: (i' < i && c' < cn) || (i' == i && c' < c) ==>
                    CellIs(d[..], s, w, n, cn, i', c')
      {
        var sum := SumWindow(w, s, n, cn, i, c);
        Store(d, sum, s, w, n, cn, i, c, MINDEX2(n, cn, i, c));
      }
    }
  }

  /** The innermost loop. */
  method SumWindow(w: nat, s: seq<Byte>, n: nat, cn: nat, i: nat, c: nat) returns (sum: Word16)
    requires IsRow(s, w, n, cn) && i < n && c < cn
    ensures sum == Partial(s, cn, i, w, c)
  {
    sum := 0;
    for k: nat := i to i + w
      invariant sum == Partial(s, cn, i, k - i, c)
    {
      Extend(s, w, n, cn, i, k - i, c);
      PixelIs(s, w, n, cn, k, c);
      sum := Wrap16(sum + s[MINDEX2(n + w - 1, cn, k, c)]);
    }
  }

  function Cast(x: Byte): int { x }

  // ----- windows of three and of five pixels: no window is kept

  lemma FlatNeighbour(s: seq<Byte>, w: nat, n: nat, cn: nat, i: nat, c: nat, x: nat, k: nat)
    requires IsRow(s, w, n, cn) && i < n && c < cn && k < w && x == MINDEX2(n, cn, i, c)
    ensures 0 <= k * cn + x < |s| && s[k * cn + x] == PixelAt(s, w, n, cn, i + k, c)
  {
    PixelIs(s, w, n, cn, i + k, c);
    assert (i + k) * cn == i * cn + k * cn;
  }

  /** The k-th pixel of the window is k * cn cells further. */
  lemma Neighbour(s: seq<Byte>, w: nat, n: nat, cn: nat, i: nat, c: nat, x: nat, k: nat)
    requires IsRow(s, w, n, cn) && i < n && c < cn && k < w && x == MINDEX2(n, cn, i, c)
    ensures 0 <= k * cn + x < |s|
    ensures ReduceIntSum(i, i + (k + 1), Channel(s, cn, c))
            == ReduceIntSum(i, i + k, Channel(s, cn, c)) + Cast(s[k * cn + x])
  {
    FlatNeighbour(s, w, n, cn, i, c, x, k);
    Grow(s, w, n, cn, i, k, c);
  }

  method ThreePixels(count: nat, s: seq<Byte>, d: array<Word16>, n: nat, cn: nat)
    requires IsRow(s, 3, n, cn) && d.Length == n * cn == count
    modifies d
    ensures Summed(d[..], s, 3, n, cn)
  {
    hide CellIs, PixelAt, Partial, MINDEX2;
    InBounds(n, cn);
    for ic: nat := 0 to count
      invariant forall i: nat, c: nat :: i < n && c < cn && MINDEX2(n, cn, i, c) < ic ==>
                  CellIs(d[..], s, 3, n, cn, i, c)
    {
      ghost var i, c := ThreeNeighbours(s, n, cn, ic);
      OnlyCell(n, cn, i, c);
      Store(d, Wrap16(Cast(s[ic]) + Cast(s[cn + ic]) + Cast(s[2 * cn + ic])), s, 3, n, cn, i, c, ic);
    }
  }

  lemma ThreeNeighbours(s: seq<Byte>, n: nat, cn: nat, x: nat) returns (i: nat, c: nat)
    requires IsRow(s, 3, n, cn) && x < n * cn
    ensures i < n && c < cn && x == MINDEX2(n, cn, i, c) && 2 * cn + x < |s|
    ensures Wrap16(Cast(s[x]) + Cast(s[cn + x]) + Cast(s[2 * cn + x])) == Partial(s, cn, i, 3, c)
  {
    i, c := Mindex2Onto(n, cn, x);
    hide Channel, MINDEX2;
    Neighbour(s, 3, n, cn, i, c, x, 0);
    Neighbour(s, 3, n, cn, i, c, x, 1);
    Neighbour(s, 3, n, cn, i, c, x, 2);
  }

  method FivePixels(count: nat, s: seq<Byte>, d: array<Word16>, n: nat, cn: nat)
    requires IsRow(s, 5, n, cn) && d.Length == n * cn == count
    modifies d
    ensures Summed(d[..], s, 5, n, cn)
  {
    hide CellIs, PixelAt, Partial, MINDEX2;
    InBounds(n, cn);
    for ic: nat := 0 to count
      invariant forall i: nat, c: nat :: i < n && c < cn && MINDEX2(n, cn, i, c) < ic ==>
                  CellIs(d[..], s, 5, n, cn, i, c)
    {
      ghost var i, c := FiveNeighbours(s, n, cn, ic);
      OnlyCell(n, cn, i, c);
      Store(d, Wrap16(Cast(s[ic]) + Cast(s[cn + ic]) + Cast(s[2 * cn + ic]) + Cast(s[3 * cn + ic])
                      + Cast(s[4 * cn + ic])), s, 5, n, cn, i, c, ic);
    }
  }

  lemma FiveNeighbours(s: seq<Byte>, n: nat, cn: nat, x: nat) returns (i: nat, c: nat)
    requires IsRow(s, 5, n, cn) && x < n * cn
    ensures i < n && c < cn && x == MINDEX2(n, cn, i, c) && 4 * cn + x < |s|
    ensures Wrap16(Cast(s[x]) + Cast(s[cn + x]) + Cast(s[2 * cn + x]) + Cast(s[3 * cn + x]) + Cast(s[4 * cn + x]))
            == Partial(s, cn, i, 5, c)
  {
    i, c := Mindex2Onto(n, cn, x);
    hide Channel, MINDEX2;
    Neighbour(s, 5, n, cn, i, c, x, 0);
    Neighbour(s, 5, n, cn, i, c, x, 1);
    Neighbour(s, 5, n, cn, i, c, x, 2);
    Neighbour(s, 5, n, cn, i, c, x, 3);
    Neighbour(s, 5, n, cn, i, c, x, 4);
  }

  lemma OnlyCell(n: nat, cn: nat, i: nat, c: nat)
    requires i < n && c < cn
    ensures forall i': nat, c': nat :: i' < n && c' < cn && MINDEX2(n, cn, i', c') == MINDEX2(n, cn, i, c) ==>
              i' == i && c' == c
  {
    forall i': nat, c': nat | i' < n && c' < cn && MINDEX2(n, cn, i', c') == MINDEX2(n, cn, i, c)
      ensures i' == i && c' == c
    {
      Mindex2Injective(n, cn, i', c', i, c);
    }
  }

  lemma InBounds(n: nat, cn: nat)
    ensures forall i: nat, c: nat :: i < n && c < cn ==> 0 <= MINDEX2(n, cn, i, c) < n * cn
  {
    forall i: nat, c: nat | i < n && c < cn
      ensures 0 <= MINDEX2(n, cn, i, c) < n * cn
    {
      Mindex2Injective(n, cn, i, c, i, c);
    }
  }

  // ----- sliding windows with 1, 3 and 4 channels side by side

  method SlideOne(w: nat, width: nat, s: seq<Byte>, d: array<Word16>, n: nat)
    requires IsRow(s, w, n, 1) && d.Length == n && width == n - 1
    modifies d
    ensures Summed(d[..], s, w, n, 1)
  {
    hide CellIs, Partial;
    var sum: Word16 := 0;
    assert sum == Partial(s, 1, 0, 0, 0) by { EmptyPartial(s, 1, 0, 0); }
    for i: nat := 0 to w
      invariant sum == Partial(s, 1, 0, i, 0)
    {
      Extend(s, w, n, 1, 0, i, 0);
      sum := Wrap16(sum + s[i]);
    }
    Store(d, sum, s, w, n, 1, 0, 0, 0);
    for i: nat := 0 to width
      invariant sum == Partial(s, 1, i, w, 0)
      invariant forall k: nat :: k <= i ==> CellIs(d[..], s, w, n, 1, k, 0)
    {
      Slide(s, w, n, 1, i, 0);
      sum := Wrap16(sum + (Cast(s[i + w]) - Cast(s[i])));
      Store(d, sum, s, w, n, 1, i + 1, 0, i + 1);
    }
  }

  lemma EmptyPartial(s: seq<Byte>, cn: nat, i: nat, c: nat)
    ensures Partial(s, cn, i, 0, c) == 0
  {
  }

  /** The loop that sums the first windows of three channels. */
  method FirstThree(ksz: nat, s: seq<Byte>, n: nat, ghost w: nat) returns (s0: Word16, s1: Word16, s2: Word16)
    requires IsRow(s, w, n, 3) && ksz == 3 * w
    ensures s0 == Partial(s, 3, 0, w, 0) && s1 == Partial(s, 3, 0, w, 1) && s2 == Partial(s, 3, 0, w, 2)
  {
    hide Partial;
    s0, s1, s2 := 0, 0, 0;
    var i := 0;
    ghost var t: nat := 0;
    EmptyPartial(s, 3, 0, 0);
    EmptyPartial(s, 3, 0, 1);
    EmptyPartial(s, 3, 0, 2);
    while i < ksz
      invariant i == 3 * t && t <= w
      invariant s0 == Partial(s, 3, 0, t, 0) && s1 == Partial(s, 3, 0, t, 1) && s2 == Partial(s, 3, 0, t, 2)
    {
      Extend(s, w, n, 3, 0, t, 0);
      Extend(s, w, n, 3, 0, t, 1);
      Extend(s, w, n, 3, 0, t, 2);
      s0 := Wrap16(s0 + s[i]);
      s1 := Wrap16(s1 + s[i + 1]);
      s2 := Wrap16(s2 + s[i + 2]);
      i := i + 3;
      t := t + 1;
    }
  }

  method SlideThree(ksz: nat, width: nat, s: seq<Byte>, d: array<Word16>, n: nat, ghost w: nat)
    requires IsRow(s, w, n, 3) && d.Length == n * 3 && ksz == 3 * w && width == 3 * n - 3
    modifies d
    ensures Summed(d[..], s, w, n, 3)
  {
    hide CellIs, Partial;
    var s0, s1, s2 := FirstThree(ksz, s, n, w);
    Store(d, s0, s, w, n, 3, 0, 0, 0);
    Store(d, s1, s, w, n, 3, 0, 1, 1);
    Store(d, s2, s, w, n, 3, 0, 2, 2);
    var i := 0;
    ghost var t: nat := 0;
    while i < width
      invariant i == 3 * t && t < n
      invariant s0 == Partial(s, 3, t, w, 0) && s1 == Partial(s, 3, t, w, 1) && s2 == Partial(s, 3, t, w, 2)
      invariant forall k: nat, c: nat :: k <= t && c < 3 ==> CellIs(d[..], s, w, n, 3, k, c)
    {
      Slide(s, w, n, 3, t, 0);
      Slide(s, w, n, 3, t, 1);
      Slide(s, w, n, 3, t, 2);
      s0 := Wrap16(s0 + (Cast(s[i + ksz]) - Cast(s[i])));
      s1 := Wrap16(s1 + (Cast(s[i + ksz + 1]) - Cast(s[i + 1])));
      s2 := Wrap16(s2 + (Cast(s[i + ksz + 2]) - Cast(s[i + 2])));
      Store(d, s0, s, w, n, 3, t + 1, 0, i + 3);
      Store(d, s1, s, w, n, 3, t + 1, 1, i + 4);
      Store(d, s2, s, w, n, 3, t + 1, 2, i + 5);
      i := i + 3;
      t := t + 1;
    }
  }

  /** The loop that sums the first windows of four channels. */
  method FirstFour(ksz: nat, s: seq<Byte>, n: nat, ghost w: nat)
    returns (s0: Word16, s1: Word16, s2: Word16, s3: Word16)
    requires IsRow(s, w, n, 4) && ksz == 4 * w
    ensures s0 == Partial(s, 4, 0, w, 0) && s1 == Partial(s, 4, 0, w, 1) && s2 == Partial(s, 4, 0, w, 2)
            && s3 == Partial(s, 4, 0, w, 3)
  {
    hide Partial;
    s0, s1, s2, s3 := 0, 0, 0, 0;
    var i := 0;
    ghost var t: nat := 0;
    EmptyPartial(s, 4, 0, 0);
    EmptyPartial(s, 4, 0, 1);
    EmptyPartial(s, 4, 0, 2);
    EmptyPartial(s, 4, 0, 3);
    while i < ksz
      invariant i == 4 * t && t <= w
      invariant s0 == Partial(s, 4, 0, t, 0) && s1 == Partial(s, 4, 0, t, 1) && s2 == Partial(s, 4, 0, t, 2)
                && s3 == Partial(s, 4, 0, t, 3)
    {
      Extend(s, w, n, 4, 0, t, 0);
      Extend(s, w, n, 4, 0, t, 1);
      Extend(s, w, n, 4, 0, t, 2);
      Extend(s, w, n, 4, 0, t, 3);
      s0 := Wrap16(s0 + s[i]);
      s1 := Wrap16(s1 + s[i + 1]);
      s2 := Wrap16(s2 + s[i + 2]);
      s3 := Wrap16(s3 + s[i + 3]);
      i := i + 4;
      t := t + 1;
    }
  }

  method SlideFour(ksz: nat, width: nat, s: seq<Byte>, d: array<Word16>, n: nat, ghost w: nat)
    requires IsRow(s, w, n, 4) && d.Length == n * 4 && ksz == 4 * w && width == 4 * n - 4
    modifies d
    ensures Summed(d[..], s, w, n, 4)
  {
    hide CellIs, Partial;
    var s0, s1, s2, s3 := FirstFour(ksz, s, n, w);
    Store(d, s0, s, w, n, 4, 0, 0, 0);
    Store(d, s1, s, w, n, 4, 0, 1, 1);
    Store(d, s2, s, w, n, 4, 0, 2, 2);
    Store(d, s3, s, w, n, 4, 0, 3, 3);
    var i := 0;
    ghost var t: nat := 0;
    while i < width
      invariant i == 4 * t && t < n
      invariant s0 == Partial(s, 4, t, w, 0) && s1 == Partial(s, 4, t, w, 1) && s2 == Partial(s, 4, t, w, 2)
                && s3 == Partial(s, 4, t, w, 3)
      invariant forall k: nat, c: nat :: k <= t && c < 4 ==> CellIs(d[..], s, w, n, 4, k, c)
    {
      Slide(s, w, n, 4, t, 0);
      Slide(s, w, n, 4, t, 1);
      Slide(s, w, n, 4, t, 2);
      Slide(s, w, n, 4, t, 3);
      s0 := Wrap16(s0 + (Cast(s[i + ksz]) - Cast(s[i])));
      s1 := Wrap16(s1 + (Cast(s[i + ksz + 1]) - Cast(s[i + 1])));
      s2 := Wrap16(s2 + (Cast(s[i + ksz + 2]) - Cast(s[i + 2])));
      s3 := Wrap16(s3 + (Cast(s[i + ksz + 3]) - Cast(s[i + 3])));
      Store(d, s0, s, w, n, 4, t + 1, 0, i + 4);
      Store(d, s1, s, w, n, 4, t + 1, 1, i + 5);
      Store(d, s2, s, w, n, 4, t + 1, 2, i + 6);
      Store(d, s3, s, w, n, 4, t + 1, 3, i + 7);
      i := i + 4;
      t := t + 1;
    }
  }

  // ----- sliding windows, one channel after the other

  /** The flat counters of the loops that step by cn. */
  lemma Steps(cn: nat, t: nat, bound: nat)
    requires cn >= 1
    ensures cn * t < cn * bound <==> t < bound
    ensures cn * (t + 1) == cn * t + cn
    ensures 0 <= cn * t
  {
    MulNonNegative(cn, t);
    if t < bound {
      MulMonotone(t + 1, bound, cn);
    } else {
      MulMonotone(bound, t, cn);
    }
  }

  lemma StepsAdd(cn: int, t: int, w: int)
    ensures cn * (t + w) == cn * t + cn * w
  {
  }

  lemma PixelAtStep(s: seq<Byte>, w: nat, n: nat, cn: nat, k: nat, c: nat)
    requires IsRow(s, w, n, cn) && k < n + w - 1 && c < cn
    ensures 0 <= c + cn * k < |s| && PixelAt(s, w, n, cn, k, c) == s[c + cn * k]
  {
    PixelIs(s, w, n, cn, k, c);
  }

  /** From window t of channel c, which starts at s[x], to the next one: one pixel in, one out. */
  method SlideWindow(sum: Word16, s: seq<Byte>, d: array<Word16>, gap: nat, x: nat, ghost n: nat, cn: nat,
                     ghost w: nat, ghost t: nat, ghost c: nat)
    returns (sum': Word16)
    requires IsRow(s, w, n, cn) && d.Length == n * cn && gap == cn * w && x == c + cn * t && t + 1 < n && c < cn
    requires sum == Partial(s, cn, t, w, c)
    modifies d
    ensures sum' == Partial(s, cn, t + 1, w, c) && CellIs(d[..], s, w, n, cn, t + 1, c)
    ensures forall i: nat, c': nat :: i < n && c' < cn && CellIs(old(d[..]), s, w, n, cn, i, c') ==>
              CellIs(d[..], s, w, n, cn, i, c')
  {
    hide CellIs, Partial, PixelAt;
    Slide(s, w, n, cn, t, c);
    PixelAtStep(s, w, n, cn, t, c);
    PixelAtStep(s, w, n, cn, t + w, c);
    StepsAdd(cn, t, w);
    StepsAdd(cn, t, 1);
    sum' := Wrap16(sum + (Cast(s[x + gap]) - Cast(s[x])));
    Store(d, sum', s, w, n, cn, t + 1, c, x + cn);
  }

  /** The loop that sums the first window of channel c. */
  method FirstWindow(bound: nat, s: seq<Byte>, n: nat, cn: nat, ghost w: nat, c: nat) returns (sum: Word16)
    requires IsRow(s, w, n, cn) && c < cn && bound == cn * w
    ensures sum == Partial(s, cn, 0, w, c)
  {
    hide Partial, PixelAt;
    EmptyPartial(s, cn, 0, c);
    sum := 0;
    var i := 0;
    ghost var t: nat := 0;
    while i < bound
      invariant i == cn * t && t <= w
      invariant sum == Partial(s, cn, 0, t, c)
      decreases w - t
    {
      Steps(cn, t, w);
      Extend(s, w, n, cn, 0, t, c);
      PixelAtStep(s, w, n, cn, t, c);
      sum := Wrap16(sum + Cast(s[c + i]));
      i := i + cn;
      t := t + 1;
    }
    Steps(cn, t, w);
  }

  method SlideAny(w: nat, s: seq<Byte>, d: array<Word16>, n: nat, cn: nat)
    requires IsRow(s, w, n, cn) && d.Length == n * cn
    modifies d
    ensures Summed(d[..], s, w, n, cn)
  {
    hide CellIs, Partial, PixelAt;
    for c: nat := 0 to cn
      invariant forall k: nat, c': nat :: k < n && c' < c ==> CellIs(d[..], s, w, n, cn, k, c')
    {
      var sum := FirstWindow(cn * w, s, n, cn, w, c);
      Store(d, sum, s, w, n, cn, 0, c, c);
      var i := c;
      ghost var t: nat := 0;
      while i < cn * n - cn + c
        invariant i == c + cn * t && t < n
        invariant sum == Partial(s, cn, t, w, c)
        invariant forall k: nat, c': nat :: k < n && c' < c ==> CellIs(d[..], s, w, n, cn, k, c')
        invariant forall k: nat :: k <= t ==> CellIs(d[..], s, w, n, cn, k, c)
        decreases n - t
      {
        Steps(cn, t, n - 1);
        Steps(cn, n - 1, n);
        sum := SlideWindow(sum, s, d, w * cn, i, n, cn, w, t, c);
        i := i + cn;
        t := t + 1;
      }
      Steps(cn, t, n - 1);
      Steps(cn, n - 1, n);
    }
  }

  /** OpenCV's form bumps the pointers S and D once per channel; off is how far they are. */
  method SlidePointers(ksz_cn: nat, width: nat, s: seq<Byte>, d: array<Word16>, n: nat, cn: nat, ghost w: nat)
    requires IsRow(s, w, n, cn) && d.Length == n * cn && ksz_cn == cn * w && width == cn * (n - 1)
    modifies d
    ensures Summed(d[..], s, w, n, cn)
  {
    hide CellIs, Partial, PixelAt;
    var off: nat := 0;
    for k: nat := 0 to cn
      invariant off == k
      invariant forall r: nat, c': nat :: r < n && c' < k ==> CellIs(d[..], s, w, n, cn, r, c')
    {
      var sum := FirstWindow(ksz_cn, s, n, cn, w, off);
      Store(d, sum, s, w, n, cn, 0, k, off);
      var i := 0;
      ghost var t: nat := 0;
      while i < width
        invariant i == cn * t && t < n
        invariant sum == Partial(s, cn, t, w, k)
        invariant forall r: nat, c': nat :: r < n && c' < k ==> CellIs(d[..], s, w, n, cn, r, c')
        invariant forall r: nat :: r <= t ==> CellIs(d[..], s, w, n, cn, r, k)
        decreases n - t
      {
        Steps(cn, t, n - 1);
        sum := SlideWindow(sum, s, d, ksz_cn, off + i, n, cn, w, t, k);
        i := i + cn;
        t := t + 1;
      }
      Steps(cn, t, n - 1);
      off := off + 1;
    }
  }

  // ----- the two optimised programs

  /** rowSum, specialised by width and by number of channels */
  method SpecialisedRowSum(w: nat, s: seq<Byte>, d: array<Word16>, n: nat, cn: nat)
    requires IsRow(s, w, n, cn) && d.Length == n * cn
    modifies d
    ensures Summed(d[..], s, w, n, cn)
  {
    if w == 3 {
      ThreePixels(cn * n, s, d, n, cn);
    } else if w == 5 {
      FivePixels(cn * n, s, d, n, cn);
    } else if cn == 1 {
      SlideOne(w, n - 1, s, d, n);
    } else if cn == 3 {
      SlideThree(3 * w, 3 * n - 3, s, d, n, w);
    } else if cn == 4 {
      SlideFour(4 * w, 4 * n - 4, s, d, n, w);
    } else {
      SlideAny(w, s, d, n, cn);
    }
  }

  /** OpenCV's RowSum::operator() */
  method OpenCvRowSum(ksize: nat, s: seq<Byte>, d: array<Word16>, n: nat, cn: nat)
    requires IsRow(s, ksize, n, cn) && d.Length == n * cn
    modifies d
    ensures Summed(d[..], s, ksize, n, cn)
  {
    MulNonNegative(ksize, cn);
    MulNonNegative(n - 1, cn);
    var ksz_cn, width := ksize * cn, (n - 1) * cn;
    assert width + cn == n * cn;
    if ksize == 3 {
      ThreePixels(width + cn, s, d, n, cn);
    } else if ksize == 5 {
      FivePixels(width + cn, s, d, n, cn);
    } else if cn == 1 {
      SlideOne(ksz_cn, width, s, d, n);
    } else if cn == 3 {
      SlideThree(ksz_cn, width, s, d, n, ksize);
    } else if cn == 4 {
      SlideFour(ksz_cn, width, s, d, n, ksize);
    } else {
      SlidePointers(ksz_cn, width, s, d, n, cn, ksize);
    }
  }
}
