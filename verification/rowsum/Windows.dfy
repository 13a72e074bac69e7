/** Sums over sliding windows, exact and on 16 bits. */
module Windows {
  import opened Mindex

  type Byte = x: nat | x < 0x100
  type Word16 = x: nat | x < 0x1_0000

  /** What a uint16_t keeps of an integer. */
  function Wrap16(x: int): Word16 { x % 0x1_0000 }

  // ----- sums over a range, with the laws that the row-sum transformations assume of them

  function ReduceIntSum(a: int, b: int, f: int -> int): int
    decreases b - a
  {
    if b <= a then 0 else ReduceIntSum(a, b - 1, f) + f(b - 1)
  }

  lemma ReduceIntSumAddRight(a: int, b: int, f: int -> int)
    requires b >= a
    ensures ReduceIntSum(a, b, f) + f(b) == ReduceIntSum(a, b + 1, f)
  {
  }

  lemma {:induction false} ReduceIntSumSubLeft(a: int, b: int, f: int -> int)
    requires b > a
    ensures ReduceIntSum(a, b, f) - f(a) == ReduceIntSum(a + 1, b, f)
    decreases b - a
  {
    if b > a + 1 {
      ReduceIntSumSubLeft(a, b - 1, f);
    } else {
      assert ReduceIntSum(a, a, f) == 0;
    }
  }

  /** Sliding a window by one adds the element that enters and removes the one that leaves. */
  lemma ReduceIntSumSlide(a: int, b: int, f: int -> int)
    requires b >= a
    ensures ReduceIntSum(a, b, f) + (f(b) - f(a)) == ReduceIntSum(a + 1, b + 1, f)
  {
    ReduceIntSumAddRight(a, b, f);
    ReduceIntSumSubLeft(a, b + 1, f);
  }

  // ----- the windows of a row of pixels

  /** Channel c of the pixels of a row. */
  function Channel(s: seq<Byte>, cn: nat, c: nat): int -> int {
    k => if 0 <= MINDEX2(0, cn, k, c) < |s| then s[MINDEX2(0, cn, k, c)] else 0
  }

  function Window(s: seq<Byte>, w: nat, cn: nat, i: nat, c: nat): int {
    ReduceIntSum(i, i + w, Channel(s, cn, c))
  }

  /** The row has the n + w - 1 pixels that n windows of width w need. */
  predicate IsRow(s: seq<Byte>, w: nat, n: nat, cn: nat) {
    n >= 1 && |s| == (n + w - 1) * cn
  }

  /** Every cell of the result holds its window's sum, wrapped to 16 bits. */
  predicate Summed(d: seq<Word16>, s: seq<Byte>, w: nat, n: nat, cn: nat) {
    |d| == n * cn && forall i: nat, c: nat :: i < n && c < cn ==> CellIs(d, s, w, n, cn, i, c)
  }

  predicate CellIs(d: seq<Word16>, s: seq<Byte>, w: nat, n: nat, cn: nat, i: nat, c: nat)
    requires |d| == n * cn && i < n && c < cn
  {
    Mindex2Injective(n, cn, i, c, i, c);
    d[MINDEX2(n, cn, i, c)] == Wrap16(Window(s, w, cn, i, c))
  }

  /** Channel c of pixel k. */
  function PixelAt(s: seq<Byte>, w: nat, n: nat, cn: nat, k: nat, c: nat): Byte
    requires IsRow(s, w, n, cn) && k < n + w - 1 && c < cn
  {
    Mindex2Injective(n + w - 1, cn, k, c, k, c);
    s[MINDEX2(n + w - 1, cn, k, c)]
  }

  lemma PixelIs(s: seq<Byte>, w: nat, n: nat, cn: nat, k: nat, c: nat)
    requires IsRow(s, w, n, cn) && k < n + w - 1 && c < cn
    ensures 0 <= MINDEX2(n + w - 1, cn, k, c) < |s| && PixelAt(s, w, n, cn, k, c) == s[MINDEX2(n + w - 1, cn, k, c)]
    ensures Channel(s, cn, c)(k) == PixelAt(s, w, n, cn, k, c)
  {
    Mindex2Injective(n + w - 1, cn, k, c, k, c);
  }

  lemma WrapAdd(x: int, d: int)
    ensures Wrap16(Wrap16(x) + d) == Wrap16(x + d)
  {
  }

  /** The first k pixels of the window that starts at pixel i. */
  function Partial(s: seq<Byte>, cn: nat, i: nat, k: nat, c: nat): Word16 {
    Wrap16(ReduceIntSum(i, i + k, Channel(s, cn, c)))
  }

  lemma Grow(s: seq<Byte>, w: nat, n: nat, cn: nat, i: nat, k: nat, c: nat)
    requires IsRow(s, w, n, cn) && i + k < n + w - 1 && c < cn
    ensures ReduceIntSum(i, i + (k + 1), Channel(s, cn, c))
            == ReduceIntSum(i, i + k, Channel(s, cn, c)) + PixelAt(s, w, n, cn, i + k, c)
  {
    PixelIs(s, w, n, cn, i + k, c);
  }

  /** Adding a pixel to a window. */
  lemma Extend(s: seq<Byte>, w: nat, n: nat, cn: nat, i: nat, k: nat, c: nat)
    requires IsRow(s, w, n, cn) && i + k < n + w - 1 && c < cn
    ensures Wrap16(Partial(s, cn, i, k, c) + PixelAt(s, w, n, cn, i + k, c)) == Partial(s, cn, i, k + 1, c)
  {
    PixelIs(s, w, n, cn, i + k, c);
    ReduceIntSumAddRight(i, i + k, Channel(s, cn, c));
    WrapAdd(ReduceIntSum(i, i + k, Channel(s, cn, c)), PixelAt(s, w, n, cn, i + k, c));
  }

  /** The only byte of the row that is not zero is channel ch of pixel p. */
  ghost predicate Impulse(s: seq<Byte>, w: nat, n: nat, cn: nat, p: nat, ch: nat)
    requires IsRow(s, w, n, cn)
  {
    forall k: nat, c: nat :: k < n + w - 1 && c < cn && (k != p || c != ch) ==> PixelAt(s, w, n, cn, k, c) == 0
  }

  lemma {:induction false} ImpulseInPart(s: seq<Byte>, w: nat, n: nat, cn: nat, p: nat, ch: nat, i: nat, c: nat, k: nat)
    requires IsRow(s, w, n, cn) && p < n + w - 1 && ch < cn && Impulse(s, w, n, cn, p, ch)
    requires i < n && c < cn && k <= w
    ensures ReduceIntSum(i, i + k, Channel(s, cn, c))
         == if c == ch && i <= p < i + k then PixelAt(s, w, n, cn, p, ch) else 0
  {
    hide PixelAt, Channel;
    if k > 0 {
      ImpulseInPart(s, w, n, cn, p, ch, i, c, k - 1);
      Grow(s, w, n, cn, i, k - 1, c);
    }
  }

  /** A window sees a byte exactly when it covers its pixel, in the channel of the byte. */
  lemma WindowOfImpulse(s: seq<Byte>, w: nat, n: nat, cn: nat, p: nat, ch: nat, i: nat, c: nat)
    requires IsRow(s, w, n, cn) && p < n + w - 1 && ch < cn && Impulse(s, w, n, cn, p, ch) && i < n && c < cn
    ensures Window(s, w, cn, i, c) == if c == ch && i <= p < i + w then PixelAt(s, w, n, cn, p, ch) else 0
  {
    ImpulseInPart(s, w, n, cn, p, ch, i, c, w);
  }

  /** The windows of a sum of two rows are the sums of their windows. */
  lemma {:induction false} WindowsAdd(s: seq<Byte>, t: seq<Byte>, u: seq<Byte>, w: nat, cn: nat, i: nat, c: nat)
    requires |s| == |t| == |u| && forall x :: 0 <= x < |u| ==> u[x] == s[x] as int + t[x] as int
    ensures Window(u, w, cn, i, c) == Window(s, w, cn, i, c) + Window(t, w, cn, i, c)
  {
    if w > 0 {
      WindowsAdd(s, t, u, w - 1, cn, i, c);
    }
  }

  function Minus(x: int, y: int): int { x - y }

  /** Sliding a window, on 16 bits: the difference of the two pixels may be negative. */
  lemma Slide(s: seq<Byte>, w: nat, n: nat, cn: nat, i: nat, c: nat)
    requires IsRow(s, w, n, cn) && i + 1 < n && c < cn
    ensures Wrap16(Partial(s, cn, i, w, c) + Minus(PixelAt(s, w, n, cn, i + w, c), PixelAt(s, w, n, cn, i, c)))
            == Partial(s, cn, i + 1, w, c)
  {
    hide PixelAt;
    PixelIs(s, w, n, cn, i + w, c);
    PixelIs(s, w, n, cn, i, c);
    ReduceIntSumSlide(i, i + w, Channel(s, cn, c));
    WrapAdd(ReduceIntSum(i, i + w, Channel(s, cn, c)),
            Minus(PixelAt(s, w, n, cn, i + w, c), PixelAt(s, w, n, cn, i, c)));
  }

  /** The result is determined by the row. */
  lemma SummedIsUnique(d: seq<Word16>, d': seq<Word16>, s: seq<Byte>, w: nat, n: nat, cn: nat)
    requires Summed(d, s, w, n, cn) && Summed(d', s, w, n, cn)
    ensures d == d'
  {
    forall x: nat | x < |d|
      ensures d[x] == d'[x]
    {
      var i, c := Mindex2Onto(n, cn, x);
      assert CellIs(d, s, w, n, cn, i, c) && CellIs(d', s, w, n, cn, i, c);
    }
  }

  // ----- when 16 bits are enough

  lemma {:induction false} WindowBound(s: seq<Byte>, w: nat, cn: nat, i: nat, c: nat)
    ensures 0 <= Window(s, w, cn, i, c) <= 255 * w
  {
    if w > 0 {
      WindowBound(s, w - 1, cn, i, c);
    }
  }

  /** No window of width w needs more than 16 bits. */
  ghost predicate NeverWraps(w: nat) {
    forall s: seq<Byte>, n: nat, cn: nat, i: nat, c: nat :: IsRow(s, w, n, cn) && i < n && c < cn ==>
      Wrap16(Window(s, w, cn, i, c)) == Window(s, w, cn, i, c)
  }

  lemma NeverWrapsExactly(w: nat)
    ensures NeverWraps(w) <==> w <= 257
  {
    if w <= 257 {
      forall s: seq<Byte>, n: nat, cn: nat, i: nat, c: nat | IsRow(s, w, n, cn) && i < n && c < cn
        ensures Wrap16(Window(s, w, cn, i, c)) == Window(s, w, cn, i, c)
      {
        WindowBound(s, w, cn, i, c);
      }
    } else {
      var s := White(w);
      WhiteWindow(w, w);
      assert IsRow(s, w, 1, 1);
      assert Wrap16(Window(s, w, 1, 0, 0)) != Window(s, w, 1, 0, 0);
    }
  }

  function White(n: nat): seq<Byte> { seq(n, i => 255) }

  lemma {:induction false} WhiteWindow(n: nat, w: nat)
    requires w <= n
    ensures Window(White(n), w, 1, 0, 0) == 255 * w
  {
    if w > 0 {
      WhiteWindow(n, w - 1);
      assert Channel(White(n), 1, 0)(w - 1) == 255;
    }
  }
}
