/**
 The index-set rewritings that the annotations use without proof. A group is read as
 the multiset of its items, and range(a, b, s) as a, a + s, a + 2 s, ... as long as they
 are below b; a range whose step is not positive is empty.
 */
module Groups {
  import opened Mindex

  datatype Range = Range(start: int, stop: int, step: int) {
    predicate Empty() { step <= 0 || stop <= start }

    function Next(): Range { this.(start := start + step) }

    predicate Has(i: int) { step > 0 && start <= i < stop && (i - start) % step == 0 }
  }

  function To(stop: int): Range { Range(0, stop, 1) }

  /** for i in r -> items(i) */
  function Group<T>(r: Range, items: int -> T): multiset<T>
    decreases r.stop - r.start
  {
    if r.Empty() then multiset{} else multiset{items(r.start)} + Group(r.Next(), items)
  }

  /** for i in outer -> for j in inner -> items(i, j) */
  function Group2<T>(outer: Range, inner: Range, items: (int, int) -> T): multiset<T>
    decreases outer.stop - outer.start
  {
    if outer.Empty() then multiset{} else Group(inner, RowOf(items, outer.start)) + Group2(outer.Next(), inner, items)
  }

  /** The definition, one step at a time. */
  lemma Unfold<T>(r: Range, items: int -> T)
    ensures Group(r, items) == if r.Empty() then multiset{} else multiset{items(r.start)} + Group(r.Next(), items)
  {
  }

  lemma Unfold2<T>(outer: Range, inner: Range, items: (int, int) -> T)
    ensures Group2(outer, inner, items)
         == if outer.Empty() then multiset{}
            else Group(inner, RowOf(items, outer.start)) + Group2(outer.Next(), inner, items)
  {
  }

  // ----- families of items

  function RowOf<T>(items: (int, int) -> T, i: int): int -> T { j => items(i, j) }

  function ColumnOf<T>(items: (int, int) -> T, j: int): int -> T { i => items(i, j) }

  function Swapped<T>(items: (int, int) -> T): (int, int) -> T { (j, i) => items(i, j) }

  function Shifted<T>(items: int -> T, shift: int): int -> T { i => items(i - shift) }

  function Scaled<T>(items: int -> T, factor: int): int -> T
    requires factor != 0
  {
    i => items(ExactDiv(i, factor))
  }

  function Tiled<T>(items: int -> T, tileSize: int): (int, int) -> T { (bi, i) => items(bi * tileSize + i) }

  function Flat<T>(items: (int, int) -> T, m: int): int -> T { ij => items(QuotientBy(m, ij), RemainderBy(m, ij)) }

  // ----- a group depends on its items only

  lemma {:induction false} SameItems<T>(r: Range, f: int -> T, g: int -> T)
    requires forall i :: r.start <= i < r.stop ==> f(i) == g(i)
    ensures Group(r, f) == Group(r, g)
    decreases r.stop - r.start
  {
    if !r.Empty() {
      SameItems(r.Next(), f, g);
    }
  }

  lemma {:induction false} SameItems2<T>(outer: Range, inner: Range, f: (int, int) -> T, g: (int, int) -> T)
    requires forall i, j :: outer.start <= i < outer.stop && inner.start <= j < inner.stop ==> f(i, j) == g(i, j)
    ensures Group2(outer, inner, f) == Group2(outer, inner, g)
    decreases outer.stop - outer.start
  {
    if !outer.Empty() {
      SameItems(inner, RowOf(f, outer.start), RowOf(g, outer.start));
      SameItems2(outer.Next(), inner, f, g);
    }
  }

  /** An empty group is the only one without items. */
  lemma EmptyGroup<T>(r: Range, items: int -> T)
    ensures Group(r, items) == multiset{} <==> r.Empty()
  {
    if !r.Empty() {
      assert items(r.start) in Group(r, items);
    }
  }

  lemma NextHas(r: Range, i: int)
    requires !r.Empty()
    ensures r.Has(i) <==> i == r.start || r.Next().Has(i)
    ensures !r.Next().Has(r.start)
  {
    if r.start <= i < r.stop && r.step > 0 {
      assert (i - r.start) - r.step == i - r.Next().start;
      ModuloBack(i - r.start, r.step);
    }
  }

  lemma ModuloBack(x: int, n: int)
    requires n > 0 && x >= 0
    ensures x % n == 0 <==> x == 0 || (x >= n && (x - n) % n == 0)
  {
    if x >= n {
      var q := x / n;
      assert x == q * n + x % n;
      assert x - n == (q - 1) * n + x % n;
      RemainderIs(x - n, n, q - 1, x % n);
    }
  }

  lemma RemainderIs(x: int, n: int, q: int, r: int)
    requires n > 0 && x == q * n + r && 0 <= r < n
    ensures x % n == r
  {
    var d := x / n;
    assert x == d * n + x % n;
    OneTimesMore(q, n);
    OneTimesMore(d, n);
    if d > q {
      MulMonotone(q + 1, d, n);
      assert false;
    } else if d < q {
      MulMonotone(d + 1, q, n);
      assert false;
    }
  }

  lemma OneTimesMore(q: int, n: int)
    ensures (q + 1) * n == q * n + n
  {
  }

  /** A group has one item for every index of its range, and no other. */
  lemma {:induction false} GroupIsOfRange(r: Range, i: int)
    ensures Group(r, (k: int) => k)[i] == if r.Has(i) then 1 else 0
    decreases r.stop - r.start
  {
    if !r.Empty() {
      GroupIsOfRange(r.Next(), i);
      NextHas(r, i);
    }
  }

  // ----- swap_groups

  lemma {:induction false} PeelInner<T>(outer: Range, inner: Range, items: (int, int) -> T)
    requires !inner.Empty()
    ensures Group2(outer, inner, items) == Group(outer, ColumnOf(items, inner.start))
            + Group2(outer, inner.Next(), items)
    decreases outer.stop - outer.start
  {
    if !outer.Empty() {
      PeelInner(outer.Next(), inner, items);
      assert Group(inner, RowOf(items, outer.start))
             == multiset{items(outer.start, inner.start)} + Group(inner.Next(), RowOf(items, outer.start));
      assert Group(outer, ColumnOf(items, inner.start))
             == multiset{items(outer.start, inner.start)} + Group(outer.Next(), ColumnOf(items, inner.start));
    }
  }

  lemma {:induction false} EmptyInner<T>(outer: Range, inner: Range, items: (int, int) -> T)
    requires inner.Empty()
    ensures Group2(outer, inner, items) == multiset{}
    decreases outer.stop - outer.start
  {
    if !outer.Empty() {
      EmptyInner(outer.Next(), inner, items);
    }
  }

  lemma {:induction false} SwapGroups<T>(outer: Range, inner: Range, items: (int, int) -> T)
    ensures Group2(outer, inner, items) == Group2(inner, outer, Swapped(items))
    decreases inner.stop - inner.start
  {
    if inner.Empty() {
      EmptyInner(outer, inner, items);
    } else {
      PeelInner(outer, inner, items);
      SwapGroups(outer, inner.Next(), items);
      SameItems(outer, RowOf(Swapped(items), inner.start), ColumnOf(items, inner.start));
    }
  }

  // ----- group_shift

  lemma {:induction false} GroupShift<T>(start: int, stop: int, step: int, items: int -> T, shift: int)
    ensures Group(Range(start, stop, step), items)
            == Group(Range(start + shift, stop + shift, step), Shifted(items, shift))
    decreases stop - start
  {
    hide Group;
    var r, r' := Range(start, stop, step), Range(start + shift, stop + shift, step);
    Unfold(r, items);
    Unfold(r', Shifted(items, shift));
    if !r.Empty() {
      GroupShift(start + step, stop, step, items, shift);
    }
  }

  // ----- group_scale

  /** C's division and remainder, which truncate toward zero. */
  function CDiv(a: int, b: int): int
    requires b != 0
  {
    if (a >= 0) == (b > 0) then Magnitude(a) / Magnitude(b) else -(Magnitude(a) / Magnitude(b))
  }

  function CRem(a: int, b: int): int
    requires b != 0
  {
    a - CDiv(a, b) * b
  }

  function Magnitude(x: int): nat { if x >= 0 then x else -x }

  /** exact_div is C's division. */
  function ExactDiv(n: int, b: int): int
    requires b != 0
  {
    CDiv(n, b)
  }

  lemma DivisionIsUnique(m: int, i: int, j: int, ij: int)
    requires 0 <= j < m && ij == i * m + j
    ensures ij / m == i
  {
    RowsApart(m, i, ij / m);
    assert ij == ij / m * m + ij % m;
  }

  lemma ScaleProgress(a: int, b: int, factor: int)
    requires factor > 0
    ensures a < b <==> factor * a < factor * b
    ensures a > 0 <==> factor * a > 0
  {
    if a < b {
      MulMonotone(a + 1, b, factor);
    } else {
      MulMonotone(b, a, factor);
    }
    if a > 0 {
      MulMonotone(1, a, factor);
    } else {
      MulMonotone(a, 0, factor);
    }
  }

  lemma DivideMultiple(factor: int, a: int)
    requires factor > 0
    ensures ExactDiv(factor * a, factor) == a
  {
    ScaleProgress(-1, a, factor);
    var m := Magnitude(a);
    assert Magnitude(factor * a) == m * factor by { NegatedFactor(factor, a); }
    DivisionIsUnique(factor, m, 0, m * factor);
  }

  lemma NegatedFactor(factor: int, a: int)
    ensures factor * -a == -(factor * a)
  {
  }

  lemma {:induction false} ScaleFrom<T>(start: int, stop: int, step: int, items: int -> T, factor: int, r': Range)
    requires factor > 0 && r' == Range(factor * start, factor * stop, factor * step)
    ensures Group(Range(start, stop, step), items) == Group(r', Scaled(items, factor))
    decreases stop - start
  {
    hide Group;
    var r := Range(start, stop, step);
    Unfold(r, items);
    Unfold(r', Scaled(items, factor));
    ScaleProgress(start, stop, factor);
    ScaleProgress(step, step, factor);
    if !r.Empty() {
      assert r'.Next() == Range(factor * (start + step), factor * stop, factor * step)
             by { ScaleSum(factor, start, step); }
      ScaleFrom(start + step, stop, step, items, factor, r'.Next());
      DivideMultiple(factor, start);
      hide ExactDiv;
      assert Scaled(items, factor)(r'.start) == items(start);
    }
  }

  lemma ScaleSum(factor: int, a: int, b: int)
    ensures factor * (a + b) == factor * a + factor * b
  {
  }

  /** Scaling produces exactly what it consumes. */
  ghost predicate ScaleConserves(stop: int, step: int, factor: int)
    requires factor != 0
  {
    forall items: int -> int :: Group(Range(0, stop, step), items)
        == Group(Range(0, factor * stop, factor * step), Scaled(items, factor))
  }

  /** The written condition, factor <> 0, is not enough: a negative factor turns a non-empty range into an empty one,
      and back. */
  lemma GroupScale(stop: int, step: int, factor: int)
    requires factor != 0
    ensures ScaleConserves(stop, step, factor)
            <==> factor > 0 || (Range(0, stop, step).Empty() && !(stop < 0 && step < 0))
  {
    if factor > 0 {
      forall items: int -> int
        ensures Group(Range(0, stop, step), items)
                == Group(Range(0, factor * stop, factor * step), Scaled(items, factor))
      {
        ScaleFrom(0, stop, step, items, factor, Range(0, factor * stop, factor * step));
      }
    } else {
      NegativeFactor(stop, step, factor);
      forall items: int -> int
        ensures (Group(Range(0, stop, step), items) == multiset{} <==> Range(0, stop, step).Empty())
        ensures (Group(Range(0, factor * stop, factor * step), Scaled(items, factor)) == multiset{}
                 <==> !(stop < 0 && step < 0))
      {
        EmptyGroup(Range(0, stop, step), items);
        EmptyGroup(Range(0, factor * stop, factor * step), Scaled(items, factor));
      }
      var items := (i: int) => i;
      assert Group(Range(0, stop, step), items) == multiset{} <==> Range(0, stop, step).Empty();
    }
  }

  lemma NegativeFactor(stop: int, step: int, factor: int)
    requires factor < 0
    ensures Range(0, factor * stop, factor * step).Empty() <==> !(stop < 0 && step < 0)
  {
    ScaleProgress(-stop, 0, -factor);
    ScaleProgress(-step, 0, -factor);
  }

  // ----- the same with signed ranges

  function Mirrored<T>(items: int -> T): int -> T { i => items(-i) }

  function Upward(r: Range): Range { if r.step >= 0 then r else Range(-r.start, -r.stop, -r.step) }

  function FromBelow<T>(step: int, items: int -> T): int -> T { if step >= 0 then items else Mirrored(items) }

  /** The other reading of a range: one with a negative step goes down, as long as it is above stop. */
  function SignedGroup<T>(r: Range, items: int -> T): multiset<T> {
    Group(Upward(r), FromBelow(r.step, items))
  }

  lemma UpwardScale(stop: int, step: int, factor: int)
    requires factor != 0 && step != 0
    ensures var r, size := Upward(Range(0, stop, step)), Magnitude(factor);
            Upward(Range(0, factor * stop, factor * step)) == Range(0, size * r.stop, size * r.step)
    ensures factor * step >= 0 <==> (factor > 0 <==> step > 0)
  {
    NegatedFactor(factor, stop);
    NegatedFactor(factor, step);
    NegatedFactor(stop, factor);
    NegatedFactor(step, factor);
    ScaleProgress(0, step, Magnitude(factor));
    ScaleProgress(step, 0, Magnitude(factor));
  }

  lemma MirroredDiv(i: int, factor: int)
    requires factor != 0
    ensures ExactDiv(-i, factor) == ExactDiv(i, -factor) == -ExactDiv(i, factor)
  {
  }

  lemma SeenFromBelow<T>(step: int, items: int -> T, i: int)
    ensures FromBelow(step, items)(i) == items(if step >= 0 then i else -i)
  {
  }

  lemma ScaledFromBelow<T>(step: int, step': int, items: int -> T, factor: int, i: int)
    requires factor != 0 && (step' >= 0 <==> (factor > 0 <==> step >= 0))
    ensures Scaled(FromBelow(step, items), Magnitude(factor))(i) == FromBelow(step', Scaled(items, factor))(i)
  {
    hide ExactDiv, FromBelow;
    MirroredDiv(i, factor);
    SeenFromBelow(step, items, ExactDiv(i, Magnitude(factor)));
    SeenFromBelow(step', Scaled(items, factor), i);
  }

  /** Read this way, groups are scaled as the source writes it: by any factor that is not zero. */
  lemma SignedGroupScale<T>(stop: int, step: int, items: int -> T, factor: int)
    requires factor != 0
    ensures SignedGroup(Range(0, stop, step), items)
         == SignedGroup(Range(0, factor * stop, factor * step), Scaled(items, factor))
  {
    if step != 0 {
      hide Group, Upward, FromBelow, Scaled;
      UpwardScale(stop, step, factor);
      var r, r' := Upward(Range(0, stop, step)), Upward(Range(0, factor * stop, factor * step));
      assert r.start == 0 by { UpwardStart(stop, step); }
      ScaleFrom(0, r.stop, r.step, FromBelow(step, items), Magnitude(factor), r');
      forall i
        ensures Scaled(FromBelow(step, items), Magnitude(factor))(i)
                == FromBelow(factor * step, Scaled(items, factor))(i)
      {
        ScaledFromBelow(step, factor * step, items, factor, i);
      }
      SameItems(r', Scaled(FromBelow(step, items), Magnitude(factor)), FromBelow(factor * step, Scaled(items, factor)));
    }
  }

  lemma UpwardStart(stop: int, step: int)
    ensures Upward(Range(0, stop, step)).start == 0
  {
  }

  // ----- tile_divides

  lemma {:induction false} SplitGroup<T>(start: int, middle: int, stop: int, items: int -> T)
    requires start <= middle <= stop
    ensures Group(Range(start, stop, 1), items)
            == Group(Range(start, middle, 1), items) + Group(Range(middle, stop, 1), items)
    decreases middle - start
  {
    hide Group;
    Unfold(Range(start, middle, 1), items);
    Unfold(Range(start, stop, 1), items);
    if start < middle {
      SplitGroup(start + 1, middle, stop, items);
    }
  }

  /** One tile. */
  lemma OneTile<T>(start: int, t: int, tileSize: int, items: int -> T)
    requires start == t * tileSize
    ensures Group(Range(start, start + tileSize, 1), items) == Group(To(tileSize), RowOf(Tiled(items, tileSize), t))
  {
    hide Group;
    GroupShift(start, start + tileSize, 1, items, -start);
    SameItems(To(tileSize), Shifted(items, -start), RowOf(Tiled(items, tileSize), t));
  }

  /** The tiles from number t on. */
  lemma {:induction false} TilesFrom<T>(t: int, tileCount: int, tileSize: int, items: int -> T, start: int, size: int)
    requires 0 <= t <= tileCount && tileSize >= 0 && start == t * tileSize && size == tileCount * tileSize
    ensures Group(Range(start, size, 1), items) == Group2(Range(t, tileCount, 1), To(tileSize), Tiled(items, tileSize))
    decreases tileCount - t
  {
    hide Group, Group2;
    Unfold2(Range(t, tileCount, 1), To(tileSize), Tiled(items, tileSize));
    if t == tileCount {
      Unfold(Range(start, size, 1), items);
    } else {
      RowInside(tileCount, tileSize, t);
      SplitGroup(start, start + tileSize, size, items);
      OneTile(start, t, tileSize, items);
      TilesFrom(t + 1, tileCount, tileSize, items, start + tileSize, size);
    }
  }

  lemma TileDivides<T>(tileCount: int, tileSize: int, size: int, items: int -> T)
    requires size == tileCount * tileSize && tileSize >= 0
    ensures Group(To(size), items) == Group2(To(tileCount), To(tileSize), Tiled(items, tileSize))
  {
    if tileCount >= 0 {
      TilesFrom(0, tileCount, tileSize, items, 0, size);
    } else {
      MulMonotone(tileCount, 0, tileSize);
    }
  }

  lemma TiledIndexInRange(tileIndex: int, index: int, tileCount: int, tileSize: int, size: int)
    requires size == tileCount * tileSize && To(tileCount).Has(tileIndex) && To(tileSize).Has(index)
    ensures To(size).Has(tileIndex * tileSize + index)
  {
    RowInside(tileCount, tileSize, tileIndex);
  }

  // ----- group_collapse

  function QuotientBy(m: int, ij: int): int { if m == 0 then 0 else CDiv(ij, m) }

  function RemainderBy(m: int, ij: int): int { if m == 0 then 0 else CRem(ij, m) }

  lemma QuotientAndRemainder(m: int, i: int, j: int, ij: int)
    requires 0 <= i && 0 <= j < m && ij == i * m + j
    ensures QuotientBy(m, ij) == i && RemainderBy(m, ij) == j
  {
    MulNonNegative(i, m);
    DivisionIsUnique(m, i, j, ij);
  }

  ghost predicate CollapseConserves(n: int, m: int) {
    forall items: (int, int) -> int :: Group2(To(n), To(m), items) == Group(To(n * m), Flat(items, m))
  }

  lemma CollapsePositive<T>(n: int, m: int, items: (int, int) -> T)
    requires n >= 0 && m >= 0
    ensures Group2(To(n), To(m), items) == Group(To(n * m), Flat(items, m))
  {
    hide QuotientBy, RemainderBy, Group, Group2;
    TileDivides(n, m, n * m, Flat(items, m));
    forall i, j | 0 <= i < n && 0 <= j < m
      ensures items(i, j) == Tiled(Flat(items, m), m)(i, j)
    {
      QuotientAndRemainder(m, i, j, i * m + j);
    }
    SameItems2(To(n), To(m), items, Tiled(Flat(items, m), m));
  }

  /** No condition on n and m is written; two negative ones would turn no items into n * m. */
  lemma GroupCollapse(n: int, m: int)
    ensures CollapseConserves(n, m) <==> !(n < 0 && m < 0)
  {
    if n >= 0 && m >= 0 {
      forall items: (int, int) -> int
        ensures Group2(To(n), To(m), items) == Group(To(n * m), Flat(items, m))
      {
        CollapsePositive(n, m, items);
      }
    } else {
      SignOfProduct(n, m);
      forall items: (int, int) -> int
        ensures Group2(To(n), To(m), items) == multiset{}
        ensures (Group(To(n * m), Flat(items, m)) == multiset{} <==> !(n < 0 && m < 0))
      {
        if m <= 0 {
          EmptyInner(To(n), To(m), items);
        }
        EmptyGroup(To(n * m), Flat(items, m));
      }
      var items := (i: int, j: int) => i;
      assert Group2(To(n), To(m), items) == multiset{};
    }
  }

  lemma SignOfProduct(n: int, m: int)
    requires n < 0 || m < 0
    ensures n * m > 0 <==> n < 0 && m < 0
  {
    if n < 0 {
      ScaleProgress(-m, 0, -n);
    } else {
      MulNonNegative(n, -m);
    }
  }
}
