/** The hybrid quicksort: ranges of at most 256 elements are finished by selection. */
module Quicksort {

  const SMALL := 256

  predicate Sorted(s: seq<int>) {
    forall i, j :: 0 <= i < j < |s| ==> s[i] <= s[j]
  }

  /** Only positions lo to hi differ. */
  ghost predicate SameOutside(now: seq<int>, was: seq<int>, lo: nat, hi: nat) {
    |now| == |was| && forall i :: 0 <= i < |was| && (i < lo || hi <= i) ==> now[i] == was[i]
  }

  ghost predicate Permuted(now: seq<int>, was: seq<int>) {
    multiset(now) == multiset(was)
  }

  /** The range lo to hi of `now` is a permutation of the same range of `was`, and nothing else has changed. */
  ghost predicate Rearranged(now: seq<int>, was: seq<int>, lo: nat, hi: nat)
    requires lo <= hi <= |was| == |now|
  {
    SameOutside(now, was, lo, hi) && Permuted(now[lo..hi], was[lo..hi])
  }

  lemma RearrangedTwice(c: seq<int>, b: seq<int>, a: seq<int>, lo: nat, hi: nat)
    requires lo <= hi <= |a| == |b| == |c| && Rearranged(b, a, lo, hi) && Rearranged(c, b, lo, hi)
    ensures Rearranged(c, a, lo, hi)
  {
  }

  /** Rearranging a part of a range rearranges the range. */
  lemma RearrangedPart(now: seq<int>, was: seq<int>, lo: nat, l: nat, h: nat, hi: nat)
    requires lo <= l <= h <= hi <= |was| == |now| && Rearranged(now, was, l, h)
    ensures Rearranged(now, was, lo, hi)
  {
    assert now[lo..hi] == now[lo..l] + now[l..h] + now[h..hi];
    assert was[lo..hi] == was[lo..l] + was[l..h] + was[h..hi];
    assert now[lo..l] == was[lo..l] && now[h..hi] == was[h..hi];
  }

  lemma SwappedIsRearranged(a: seq<int>, i: nat, j: nat, lo: nat, hi: nat)
    requires lo <= i < hi && lo <= j < hi <= |a|
    ensures Rearranged(a[i := a[j]][j := a[i]], a, lo, hi)
  {
    var b, s := a[i := a[j]][j := a[i]], a[lo..hi];
    assert b[lo..hi] == s[i - lo := s[j - lo]][j - lo := s[i - lo]];
  }

  /** swap(&a[i], &a[j]), within the range that `was` is being rearranged in */
  method Swap(a: array<int>, i: nat, j: nat, ghost lo: nat, ghost hi: nat, ghost was: seq<int>)
    requires lo <= i < hi && lo <= j < hi <= a.Length == |was| && Rearranged(a[..], was, lo, hi)
    modifies a
    ensures a[i] == old(a[j]) && a[j] == old(a[i])
    ensures forall k :: 0 <= k < a.Length && k != i && k != j ==> a[k] == old(a[k])
    ensures Rearranged(a[..], was, lo, hi)
  {
    ghost var before := a[..];
    var temp := a[i];
    a[i] := a[j];
    a[j] := temp;
    SwappedIsRearranged(before, i, j, lo, hi);
    assert a[..] == before[i := before[j]][j := before[i]];
    RearrangedTwice(a[..], before, was, lo, hi);
  }

  /** Partition: the last element goes where it separates the smaller ones from the others. */
  method Partition(a: array<int>, lo: nat, rightLimit: nat) returns (outPivot: nat)
    requires 1 <= rightLimit && lo + rightLimit <= a.Length
    modifies a
    ensures outPivot < rightLimit && a[lo + outPivot] == old(a[lo + rightLimit - 1])
    ensures forall i :: lo <= i < lo + outPivot ==> a[i] < a[lo + outPivot]
    ensures forall i :: lo + outPivot < i < lo + rightLimit ==> a[lo + outPivot] <= a[i]
    ensures Rearranged(a[..], old(a[..]), lo, lo + rightLimit)
  {
    hide Rearranged;
    ghost var was := a[..];
    var pivot := a[lo + rightLimit - 1];
    var idxLeft := -1;
    RearrangedSelf(was, lo, lo + rightLimit);
    for idxIter: nat := 0 to rightLimit - 1
      invariant -1 <= idxLeft < idxIter
      invariant a[lo + rightLimit - 1] == pivot
      invariant forall i :: lo <= i <= lo + idxLeft ==> a[i] < pivot
      invariant forall i :: lo + idxLeft < i < lo + idxIter ==> pivot <= a[i]
      invariant Rearranged(a[..], was, lo, lo + rightLimit)
    {
      if a[lo + idxIter] < pivot {
        idxLeft := idxLeft + 1;
        Swap(a, lo + idxLeft, lo + idxIter, lo, lo + rightLimit, was);
      }
    }
    Swap(a, lo + idxLeft + 1, lo + rightLimit - 1, lo, lo + rightLimit, was);
    outPivot := idxLeft + 1;
  }

  lemma RearrangedSelf(a: seq<int>, lo: nat, hi: nat)
    requires lo <= hi <= |a|
    ensures Rearranged(a, a, lo, hi)
  {
  }

  /** InsertionSort, which selects the least of the remaining elements in turn. */
  method InsertionSort(a: array<int>, lo: nat, rightLimit: nat)
    requires 1 <= rightLimit && lo + rightLimit <= a.Length
    modifies a
    ensures Sorted(a[lo..lo + rightLimit]) && Rearranged(a[..], old(a[..]), lo, lo + rightLimit)
  {
    hide Rearranged;
    ghost var was, hi := a[..], lo + rightLimit;
    RearrangedSelf(was, lo, hi);
    for idx: nat := 0 to rightLimit - 1
      invariant forall i, j :: lo <= i < lo + idx && i < j < hi ==> a[i] <= a[j]
      invariant Rearranged(a[..], was, lo, hi)
    {
      var idxMin := idx;
      for idxIter: nat := idx + 1 to rightLimit
        invariant idx <= idxMin < rightLimit
        invariant forall j :: lo + idx <= j < lo + idxIter ==> a[lo + idxMin] <= a[j]
      {
        if a[lo + idxMin] > a[lo + idxIter] {
          idxMin := idxIter;
        }
      }
      Swap(a, lo + idx, lo + idxMin, lo, hi, was);
    }
  }

  // ----- the recursion

  predicate AllBelow(s: seq<int>, v: int) { forall x :: x in s ==> x <= v }

  predicate AllAbove(s: seq<int>, v: int) { forall x :: x in s ==> v <= x }

  lemma BoundsSurvive(now: seq<int>, was: seq<int>, v: int)
    requires Permuted(now, was)
    ensures AllBelow(was, v) ==> AllBelow(now, v)
    ensures AllAbove(was, v) ==> AllAbove(now, v)
  {
    forall x | x in now
      ensures x in was
    {
      assert x in multiset(now);
    }
  }

  lemma SortedParts(s: seq<int>, p: nat)
    requires p < |s| && Sorted(s[..p]) && Sorted(s[p + 1..]) && AllBelow(s[..p], s[p]) && AllAbove(s[p + 1..], s[p])
    ensures Sorted(s)
  {
    forall i, j | 0 <= i < j < |s|
      ensures s[i] <= s[j]
    {
      if j < p {
        assert s[..p][i] <= s[..p][j];
      } else if i > p {
        assert s[p + 1..][i - p - 1] <= s[p + 1..][j - p - 1];
      } else {
        assert i < p ==> s[..p][i] in s[..p];
        assert j > p ==> s[p + 1..][j - p - 1] in s[p + 1..];
      }
    }
  }

  method SortCore(a: array<int>, lo: nat, rightLimit: nat)
    requires lo + rightLimit <= a.Length
    modifies a
    ensures Sorted(a[lo..lo + rightLimit]) && Rearranged(a[..], old(a[..]), lo, lo + rightLimit)
    decreases rightLimit
  {
    hide Permuted;
    if 0 >= rightLimit {
      RearrangedSelf(a[..], lo, lo);
      return;
    }
    if rightLimit <= SMALL {
      InsertionSort(a, lo, rightLimit);
    } else {
      var pivot := Partition(a, lo, rightLimit);
      ghost var hi, m := lo + rightLimit, lo + pivot;
      ghost var split := a[..];
      SortCore(a, lo, pivot);
      ghost var half := a[..];
      SortCore(a, lo + pivot + 1, rightLimit - (pivot + 1));
      BothHalves(split, half, a[..], lo, m, hi);
      RearrangedTwice(a[..], split, old(a[..]), lo, hi);
    }
  }

  /** Sorting the two sides of the pivot, which they exclude, sorts the range. */
  lemma BothHalves(split: seq<int>, half: seq<int>, done: seq<int>, lo: nat, m: nat, hi: nat)
    requires lo <= m < hi <= |split| == |half| == |done|
    requires forall i :: lo <= i < m ==> split[i] < split[m]
    requires forall i :: m < i < hi ==> split[m] <= split[i]
    requires Rearranged(half, split, lo, m) && Sorted(half[lo..m])
    requires Rearranged(done, half, m + 1, hi) && Sorted(done[m + 1..hi])
    ensures Sorted(done[lo..hi]) && Rearranged(done, split, lo, hi)
  {
    hide Sorted;
    RearrangedPart(half, split, lo, lo, m, hi);
    RearrangedPart(done, half, lo, m + 1, hi, hi);
    RearrangedTwice(done, half, split, lo, hi);
    var s, p := done[lo..hi], m - lo;
    assert s[..p] == half[lo..m] && s[p] == split[m] && s[p + 1..] == done[m + 1..hi];
    assert half[m + 1..hi] == split[m + 1..hi];
    BoundsSurvive(half[lo..m], split[lo..m], split[m]);
    BoundsSurvive(done[m + 1..hi], split[m + 1..hi], split[m]);
    SortedParts(s, p);
  }

  method Sort(inOutData: array<int>)
    modifies inOutData
    ensures Sorted(inOutData[..]) && Permuted(inOutData[..], old(inOutData[..]))
  {
    SortCore(inOutData, 0, inOutData.Length);
    assert inOutData[0..inOutData.Length] == inOutData[..];
    ghost var was := old(inOutData[..]);
    assert was[0..|was|] == was;
  }
}
