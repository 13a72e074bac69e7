/** Matrix-vector products on quantized operands, and how far they are from the real ones. */
module QuantizedMatvec {
  import opened Mindex
  import opened Quantize

  type Int32 = x: int | -0x8000_0000 <= x < 0x8000_0000

  // ----- the products as functions

  /** The first j products, added up from the left. */
  function Dot(x: seq<real>, w: seq<real>, j: nat): real
    requires j <= |x| && j <= |w|
  {
    if j == 0 then 0.0 else Dot(x, w, j - 1) + x[j - 1] * w[j - 1]
  }

  function IntDot(q: seq<int>, p: seq<int>, k: nat): int
    requires k <= |q| && k <= |p|
  {
    if k == 0 then 0 else IntDot(q, p, k - 1) + q[k - 1] * p[k - 1]
  }

  /** The integer products of a group, rescaled. */
  function Rescaled(ival: int, sx: real, sw: real): real { ival as real * sw * sx }

  /** The first g groups. */
  function QuantizedDot(q: seq<int>, sx: seq<real>, p: seq<int>, sw: seq<real>, g: nat): real
    requires g * GS <= |q| && g * GS <= |p| && g <= |sx| && g <= |sw|
  {
    if g == 0 then 0.0
    else QuantizedDot(q, sx, p, sw, g - 1) + Rescaled(IntDot(Group(q, g - 1), Group(p, g - 1), GS), sx[g - 1],
                                                      sw[g - 1])
  }

  // ----- the products as loops

  method Matvec(xout: array<real>, x: seq<real>, w: seq<real>, n: nat, d: nat)
    requires |x| == n && |w| == d * n && xout.Length == d
    modifies xout
    ensures forall i: nat :: i < d ==> xout[i] == Dot(x, Row(w, d, n, i), n)
  {
    hide Row;
    for i: nat := 0 to d
      invariant forall r: nat :: r < i ==> xout[r] == Dot(x, Row(w, d, n, r), n)
    {
      RowAtPtr(w, d, n, i);
      ghost var row := Row(w, d, n, i);
      xout[i] := 0.0;
      var start := i * n;
      for j: nat := 0 to n
        invariant xout[i] == Dot(x, row, j)
        invariant forall r: nat :: r < i ==> xout[r] == Dot(x, Row(w, d, n, r), n)
      {
        assert w[start + j] == row[j];
        xout[i] := xout[i] + x[j] * w[start + j];
      }
    }
  }

  lemma ProductBound(a: int, b: int)
    requires -128 <= a <= 127 && -128 <= b <= 127
    ensures -16384 <= a * b <= 16384
  {
    if a >= 0 {
      MulMonotone(b, 128, a);
      MulMonotone(-128, b, a);
    } else {
      MulMonotone(b, 128, -a);
      MulMonotone(-128, b, -a);
    }
  }

  /** The accumulator of k products stays within 16384 * k: 32 bits are enough for a group. */
  lemma {:induction false} AccumulatorBound(q: seq<Int8>, p: seq<Int8>, k: nat)
    requires k <= |q| && k <= |p|
    ensures -16384 * k <= IntDot(q, p, k) <= 16384 * k
  {
    if k > 0 {
      AccumulatorBound(q, p, k - 1);
      ProductBound(q[k - 1], p[k - 1]);
    }
  }

  function Cast(x: Int8): int { x }

  /** The innermost loop, with its 32-bit accumulator. */
  method GroupDot(qx: seq<Int8>, w: seq<Int8>, j: nat, start: nat, ghost g: nat, ghost row: seq<Int8>)
    returns (ival: Int32)
    requires j == g * GS && j + GS <= |qx| && j + GS <= |row| && start + |row| <= |w| && w[start..start + |row|] == row
    ensures ival == IntDot(Group<int>(qx, g), Group<int>(row, g), GS)
  {
    ghost var q, p := Group<Int8>(qx, g), Group<Int8>(row, g);
    ival := 0;
    for k: nat := 0 to GS
      invariant ival == IntDot(q, p, k)
    {
      assert qx[j + k] == q[k] && w[start + j + k] == row[j + k] == p[k];
      AccumulatorBound(q, p, k + 1);
      var product := Cast(qx[j + k]) * Cast(w[start + j + k]);
      ival := ival + product;
    }
  }

  /** The scales that row i uses: that of the group, in the flat matrix, of the first entry of each of its own
      groups. */
  function RowScales(s_w: seq<real>, n: nat, d: nat, i: nat): (scales: seq<real>)
    requires i < d && |s_w| >= Groups(d * n)
    ensures |scales| == Groups(n)
  {
    seq(Groups(n), g requires 0 <= g < Groups(n) =>
      ScaleInBounds(n, d, i, g);
      s_w[(i * n + g * GS) / GS])
  }

  lemma ScaleInBounds(n: nat, d: nat, i: nat, g: nat)
    requires i < d && g < Groups(n)
    ensures 0 <= (i * n + g * GS) / GS < Groups(d * n)
  {
    RowInside(d, n, i);
  }

  lemma NextGroup(q: seq<int>, sx: seq<real>, p: seq<int>, sw: seq<real>, g: nat, ival: int)
    requires g * GS + GS <= |q| && g * GS + GS <= |p| && g < |sx| && g < |sw|
    requires ival == IntDot(Group(q, g), Group(p, g), GS)
    ensures QuantizedDot(q, sx, p, sw, g + 1) == QuantizedDot(q, sx, p, sw, g) + ival as real * sw[g] * sx[g]
  {
  }

  /** The loop over the groups of the row that starts at w[start]. */
  method RowGroups(qx: seq<Int8>, s_x: seq<real>, w: seq<Int8>, s_w: seq<real>, n: nat, start: nat,
                   ghost row: seq<Int8>, ghost scales: seq<real>)
    returns (val: real)
    requires |qx| == n == |row| && |s_x| >= Groups(n) == |scales| && start + n <= |w| && w[start..start + n] == row
    requires forall g: nat :: g < Groups(n) ==>
               (start + g * GS) / GS < |s_w| && scales[g] == s_w[(start + g * GS) / GS]
    ensures val == QuantizedDot(qx, s_x, row, scales, Groups(n))
  {
    hide Group;
    val := 0.0;
    assert QuantizedDot(qx, s_x, row, scales, 0) == val;
    hide QuantizedDot;
    var j: nat := 0;
    ghost var g: nat := 0;
    while j <= n - GS
      invariant j == g * GS && g <= Groups(n)
      invariant val == QuantizedDot(qx, s_x, row, scales, g)
    {
      var ival := GroupDot(qx, w, j, start, g, row);
      NextGroup(qx, s_x, row, scales, g, ival);
      val := val + ival as real * s_w[(start + j) / GS] * s_x[j / GS];
      j := j + GS;
      g := g + 1;
    }
  }

  /** The body of the loop over the rows. */
  method RowProduct(qx: seq<Int8>, s_x: seq<real>, w: seq<Int8>, s_w: seq<real>, n: nat, i: nat, ghost d: nat)
    returns (val: real)
    requires |qx| == n && |s_x| >= Groups(n) && |w| == d * n && |s_w| >= Groups(d * n) && i < d
    ensures val == QuantizedDot(qx, s_x, Row<int>(w, d, n, i), RowScales(s_w, n, d, i), Groups(n))
  {
    hide Row, Group, QuantizedDot;
    RowAtPtr<Int8>(w, d, n, i);
    ghost var row, scales := Row<Int8>(w, d, n, i), RowScales(s_w, n, d, i);
    assert row == Row<int>(w, d, n, i) by { SameRow(w, d, n, i); }
    var start := i * n;
    forall g: nat | g < Groups(n)
      ensures (start + g * GS) / GS < |s_w|
    {
      ScaleInBounds(n, d, i, g);
    }
    val := RowGroups(qx, s_x, w, s_w, n, start, row, scales);
  }

  lemma SameRow(w: seq<Int8>, d: nat, n: nat, i: nat)
    requires |w| == d * n && i < d
    ensures Row<Int8>(w, d, n, i) == Row<int>(w, d, n, i)
  {
  }

  method MatvecQuantized(xout: array<real>, qx: seq<Int8>, s_x: seq<real>, w: seq<Int8>, s_w: seq<real>, n: nat, d: nat)
    requires |qx| == n && |s_x| >= Groups(n) && |w| == d * n && |s_w| >= Groups(d * n) && xout.Length == d
    modifies xout
    ensures forall i: nat :: i < d ==>
              xout[i] == QuantizedDot(qx, s_x, Row<int>(w, d, n, i), RowScales(s_w, n, d, i), Groups(n))
  {
    hide Row, QuantizedDot, RowScales;
    for i: nat := 0 to d
      invariant forall r: nat :: r < i ==>
                  xout[r] == QuantizedDot(qx, s_x, Row<int>(w, d, n, r), RowScales(s_w, n, d, r), Groups(n))
    {
      xout[i] := RowProduct(qx, s_x, w, s_w, n, i, d);
    }
  }

  // ----- the error

  /** The error bound of one product. */
  function Unit(sx: real, sw: real): real { 127.0 * sx * sw }

  /** How much a product changes, and the two parts of the change. */
  function Change(x: real, q: real, sx: real, w: real, p: real, sw: real): real { x * w - (q * p) * sw * sx }

  function ChangeOfW(x: real, w: real, p: real, sw: real): real { Times(x, w - Times(sw, p)) }

  function ChangeOfX(x: real, q: real, sx: real, p: real, sw: real): real { Times(Times(sw, p), x - Times(sx, q)) }

  lemma ChangeSplits(x: real, q: real, sx: real, w: real, p: real, sw: real)
    ensures Change(x, q, sx, w, p, sw) == ChangeOfW(x, w, p, sw) + ChangeOfX(x, q, sx, p, sw)
  {
    assert x * (w - sw * p) == x * w - x * (sw * p);
    assert (sw * p) * (x - sx * q) == (sw * p) * x - (sw * p) * (sx * q);
    assert (sw * p) * (sx * q) == (q * p) * sw * sx;
  }

  predicate Within(x: real, q: real, scale: real) {
    && scale >= 0.0 && Abs(x) <= Times(127.0, scale)
    && Abs(Times(scale, q)) <= Times(scale, 127.0) && Abs(x - Times(scale, q)) <= scale / 2.0
  }

  lemma ChangeOfWBound(x: real, q: real, sx: real, w: real, p: real, sw: real)
    requires Within(x, q, sx) && Within(w, p, sw)
    ensures Abs(ChangeOfW(x, w, p, sw)) <= Unit(sx, sw) / 2.0
  {
    hide Times, Unit;
    AbsTimes(x, w - Times(sw, p), Times(127.0, sx), sw / 2.0);
    HalfUnit(sx, sw);
  }

  lemma ChangeOfXBound(x: real, q: real, sx: real, w: real, p: real, sw: real)
    requires Within(x, q, sx) && Within(w, p, sw)
    ensures Abs(ChangeOfX(x, q, sx, p, sw)) <= Unit(sx, sw) / 2.0
  {
    hide Times, Unit;
    AbsTimes(Times(sw, p), x - Times(sx, q), Times(sw, 127.0), sx / 2.0);
    HalfUnit(sx, sw);
  }

  lemma HalfUnit(sx: real, sw: real)
    ensures Times(Times(127.0, sx), sw / 2.0) == Unit(sx, sw) / 2.0
    ensures Times(Times(sw, 127.0), sx / 2.0) == Unit(sx, sw) / 2.0
  {
    assert (127.0 * sx) * (sw / 2.0) == (sx * sw) * 63.5;
    assert (sw * 127.0) * (sx / 2.0) == (sx * sw) * 63.5;
  }

  lemma ChangeBound(x: real, q: real, sx: real, w: real, p: real, sw: real)
    requires Within(x, q, sx) && Within(w, p, sw)
    ensures Abs(Change(x, q, sx, w, p, sw)) <= Unit(sx, sw)
  {
    hide Change, ChangeOfW, ChangeOfX, Unit, Within;
    ChangeSplits(x, q, sx, w, p, sw);
    ChangeOfWBound(x, q, sx, w, p, sw);
    ChangeOfXBound(x, q, sx, w, p, sw);
  }

  lemma RescaledProduct(x: real, q: int, sx: real, w: real, p: int, sw: real)
    ensures x * w - Rescaled(q * p, sx, sw) == Change(x, q as real, sx, w, p as real, sw)
  {
    IntProduct(q, p);
  }

  lemma IntProduct(q: int, p: int)
    ensures (q * p) as real == q as real * p as real
  {
  }

  /** The error of one product. */
  lemma NearError(x: real, q: int, sx: real, w: real, p: int, sw: real, product: real, rescaled: real)
    requires sx >= 0.0 && sw >= 0.0 && Near(x, q, sx) && Near(w, p, sw) && product == x * w
             && rescaled == Rescaled(q * p, sx, sw)
    ensures Abs(product - rescaled) <= Unit(sx, sw)
  {
    hide Change, Unit, Rescaled;
    RescaledProduct(x, q, sx, w, p, sw);
    NearIsWithin(x, q, sx);
    NearIsWithin(w, p, sw);
    hide Near, Within;
    ChangeBound(x, q as real, sx, w, p as real, sw);
  }

  lemma NearIsWithin(x: real, q: int, scale: real)
    requires scale >= 0.0 && Near(x, q, scale)
    ensures Within(x, q as real, scale)
  {
    if scale > 0.0 {
      AbsTimes(scale, q as real, scale, 127.0);
    }
  }

  lemma RescaledSum(a: int, b: int, sx: real, sw: real)
    ensures Rescaled(a + b, sx, sw) == Rescaled(a, sx, sw) + Rescaled(b, sx, sw)
  {
    var f := sw * sx;
    assert Rescaled(a + b, sx, sw) == (a as real + b as real) * f;
  }

  /** The products of one group. */
  lemma {:induction false} GroupError(v: seq<real>, q: seq<int>, sx: real, w: seq<real>, p: seq<int>, sw: real, k: nat)
    requires GroupQuantized(v, q, sx) && GroupQuantized(w, p, sw) && |q| == |v| && |p| == |w| && k <= |v| && k <= |w|
    ensures Abs(Dot(v, w, k) - Rescaled(IntDot(q, p, k), sx, sw)) <= k as real * Unit(sx, sw)
  {
    hide Abs, Rescaled, Unit, Near, GroupQuantized;
    if k == 0 {
      NoError(sx, sw);
    } else {
      GroupError(v, q, sx, w, p, sw, k - 1);
      RescaledSum(IntDot(q, p, k - 1), q[k - 1] * p[k - 1], sx, sw);
      NearAt(v, q, sx, k - 1);
      NearAt(w, p, sw, k - 1);
      var dx, dy := v[k - 1] * w[k - 1], Rescaled(q[k - 1] * p[k - 1], sx, sw);
      NearError(v[k - 1], q[k - 1], sx, w[k - 1], p[k - 1], sw, dx, dy);
      OneMore(Dot(v, w, k - 1), dx, Rescaled(IntDot(q, p, k - 1), sx, sw), dy, k - 1, Unit(sx, sw));
    }
  }

  lemma NoError(sx: real, sw: real)
    ensures Abs(0.0 - Rescaled(0, sx, sw)) <= 0 as real * Unit(sx, sw)
  {
  }

  lemma OneMore(x: real, dx: real, y: real, dy: real, k: nat, unit: real)
    requires Abs(x - y) <= k as real * unit && Abs(dx - dy) <= unit
    ensures Abs((x + dx) - (y + dy)) <= (k + 1) as real * unit
  {
    assert (k + 1) as real * unit == k as real * unit + unit;
  }

  /** The sum over the first g groups of GS * 127 * s_x * s_w. */
  function ErrorBound(sx: seq<real>, sw: seq<real>, g: nat): real
    requires g <= |sx| && g <= |sw|
  {
    if g == 0 then 0.0 else ErrorBound(sx, sw, g - 1) + GS as real * Unit(sx[g - 1], sw[g - 1])
  }

  lemma {:induction false} DotByGroups(x: seq<real>, w: seq<real>, g: nat, k: nat)
    requires g * GS + GS <= |x| && g * GS + GS <= |w| && k <= GS
    ensures Dot(x, w, g * GS + k) == Dot(x, w, g * GS) + Dot(Group(x, g), Group(w, g), k)
  {
    if k > 0 {
      DotByGroups(x, w, g, k - 1);
      assert Group(x, g)[k - 1] == x[g * GS + k - 1] && Group(w, g)[k - 1] == w[g * GS + k - 1];
    }
  }

  /** What a row loses to the quantization is bounded, as far as its groups go. */
  lemma {:induction false} RowError(x: seq<real>, q: seq<int>, sx: seq<real>, w: seq<real>, p: seq<int>,
                                    sw: seq<real>, g: nat)
    requires |x| == |w| && g <= Groups(|x|) && Quantized(x, q, sx) && Quantized(w, p, sw)
    ensures Abs(Dot(x, w, g * GS) - QuantizedDot(q, sx, p, sw, g)) <= ErrorBound(sx, sw, g)
  {
    hide GroupQuantized, Group, Rescaled, Unit;
    if g > 0 {
      var k: nat := g - 1;
      RowError(x, q, sx, w, p, sw, k);
      assert GroupQuantized(Group(x, k), Group(q, k), sx[k]) && GroupQuantized(Group(w, k), Group(p, k), sw[k]);
      GroupError(Group(x, k), Group(q, k), sx[k], Group(w, k), Group(p, k), sw[k], GS);
      DotByGroups(x, w, k, GS);
      assert g * GS == k * GS + GS;
    }
  }

  /** The quantized product is within the bound of the real one. */
  ghost predicate ProductIsNear(x: seq<real>, q: seq<int>, sx: seq<real>, w: seq<real>, p: seq<int>, sw: seq<real>)
    requires |x| == |w| && Quantized(x, q, sx) && Quantized(w, p, sw)
  {
    Abs(Dot(x, w, |x|) - QuantizedDot(q, sx, p, sw, Groups(|x|))) <= ErrorBound(sx, sw, Groups(|x|))
  }

  ghost predicate ProductsAreNear(n: nat) {
    forall x, q, sx, w, p, sw :: |x| == n == |w| && Quantized(x, q, sx) && Quantized(w, p, sw) ==>
      ProductIsNear(x, q, sx, w, p, sw)
  }

  /** The bound holds of every vector and row of length n exactly when n is a whole number of groups: the rest is
      dropped. */
  lemma BoundIsExact(n: nat)
    ensures ProductsAreNear(n) <==> n % GS == 0
  {
    hide Quantized, Dot, QuantizedDot, ErrorBound;
    if n % GS == 0 {
      forall x, q, sx, w, p, sw | |x| == n == |w| && Quantized(x, q, sx) && Quantized(w, p, sw)
        ensures ProductIsNear(x, q, sx, w, p, sw)
      {
        RowError(x, q, sx, w, p, sw, Groups(n));
      }
    } else {
      var x, q, sx := LastOne(n), Zeros(n), seq(Groups(n), _ => 0.0);
      LastOneQuantized(n, q, sx);
      DotOfLastOne(n, n);
      NothingLeft(q, sx, q, sx, Groups(n));
      assert !ProductIsNear(x, q, sx, x, q, sx);
    }
  }

  function LastOne(n: nat): (x: seq<real>)
    ensures |x| == n
  {
    seq(n, i => if i == n - 1 then 1.0 else 0.0)
  }

  function Zeros(n: nat): (q: seq<int>)
    ensures |q| == n
  {
    seq(n, _ => 0)
  }

  lemma {:induction false} MaxOfZeros(v: seq<real>, k: nat)
    requires k <= |v| && forall i :: 0 <= i < |v| ==> v[i] == 0.0
    ensures MaxAbs(v, k) == 0.0
  {
    if k > 0 {
      MaxOfZeros(v, k - 1);
    }
  }

  /** The last entry is in no group; all the groups are zero. */
  lemma LastOneQuantized(n: nat, q: seq<int>, s: seq<real>)
    requires n % GS != 0 && |q| == n && |s| == Groups(n) && forall g :: 0 <= g < |s| ==> s[g] == 0.0
    ensures Quantized(LastOne(n), q, s)
  {
    forall g: nat | g < Groups(n)
      ensures GroupQuantized(Group(LastOne(n), g), Group(q, g), s[g])
    {
      MaxOfZeros(Group(LastOne(n), g), GS);
    }
  }

  lemma {:induction false} DotOfLastOne(n: nat, k: nat)
    requires 1 <= n && k <= n
    ensures Dot(LastOne(n), LastOne(n), k) == if k == n then 1.0 else 0.0
  {
    if k > 0 {
      DotOfLastOne(n, k - 1);
    }
  }

  lemma {:induction false} NothingLeft(q: seq<int>, sx: seq<real>, p: seq<int>, sw: seq<real>, g: nat)
    requires g * GS <= |q| && g * GS <= |p| && g <= |sx| && g <= |sw|
    requires forall h :: 0 <= h < g ==> sx[h] == 0.0
    ensures QuantizedDot(q, sx, p, sw, g) == 0.0 == ErrorBound(sx, sw, g)
  {
    if g > 0 {
      NothingLeft(q, sx, p, sw, g - 1);
    }
  }

  /** The rows of a quantized matrix are the quantized rows, when rows are whole numbers of groups. */
  lemma QuantizedRow(w: seq<real>, q: seq<int>, s: seq<real>, d: nat, n: nat, i: nat)
    requires n % GS == 0 && |w| == d * n == |q| && Quantized(w, q, s) && i < d
    ensures Quantized(Row(w, d, n, i), Row(q, d, n, i), RowScales(s, n, d, i))
  {
    hide GroupQuantized;
    forall g: nat | g < Groups(n)
      ensures GroupQuantized(Group(Row(w, d, n, i), g), Group(Row(q, d, n, i), g), RowScales(s, n, d, i)[g])
    {
      var k := (i * n + g * GS) / GS;
      ScaleInBounds(n, d, i, g);
      GroupStart(i, n, g);
      assert GroupQuantized(Group(w, k), Group(q, k), s[k]);
      GroupOfRow(w, d, n, i, g);
      GroupOfRow(q, d, n, i, g);
    }
  }

  lemma GroupOfRow<T>(w: seq<T>, d: nat, n: nat, i: nat, g: nat)
    requires n % GS == 0 && |w| == d * n && i < d && g < Groups(n)
    ensures (i * n + g * GS) / GS * GS + GS <= |w|
    ensures Group(Row(w, d, n, i), g) == Group(w, (i * n + g * GS) / GS)
  {
    RowInside(d, n, i);
    GroupStart(i, n, g);
    SliceOfSlice(w, i * n, n, g * GS, GS);
  }

  lemma GroupStart(i: nat, n: nat, g: nat)
    requires n % GS == 0
    ensures (i * n + g * GS) / GS * GS == i * n + g * GS
  {
    assert i * n == i * (n / GS) * GS;
  }

  lemma SliceOfSlice<T>(w: seq<T>, o: nat, len: nat, p: nat, m: nat)
    requires o + len <= |w| && p + m <= len
    ensures w[o..o + len][p..p + m] == w[o + p..o + p + m]
  {
    var a, b := w[o..o + len][p..p + m], w[o + p..o + p + m];
    assert |a| == |b| && forall k :: 0 <= k < m ==> a[k] == b[k];
  }

  /** matvec_quantized_wrapper; the weights that w and s_w stand for matter only to the error */
  method MatvecQuantizedWrapper(xout: array<real>, x: seq<real>, w: seq<Int8>, s_w: seq<real>, n: nat, d: nat,
                                nan: nat -> Int8, ghost weights: seq<real>)
    returns (ghost qx: seq<Int8>, ghost s_x: seq<real>)
    requires |x| == n && |w| == d * n && |s_w| >= Groups(d * n) && xout.Length == d
    modifies xout
    ensures Quantized(x, qx, s_x)
    ensures forall i: nat :: i < d ==>
              xout[i] == QuantizedDot(qx, s_x, Row<int>(w, d, n, i), RowScales(s_w, n, d, i), Groups(n))
    ensures n % GS == 0 && |weights| == d * n && Quantized(weights, w, s_w) ==>
              forall i: nat :: i < d ==>
                Abs(Dot(x, Row(weights, d, n, i), n) - xout[i]) <= ErrorBound(s_x, RowScales(s_w, n, d, i), Groups(n))
  {
    hide Row, Group, Dot, QuantizedDot, ErrorBound, Abs, RowScales, GroupQuantized;
    var q := new Int8[n](_ => 0);
    var scales := new real[n](_ => 0.0);
    QuantizeVector(q, scales, n, x, nan);
    qx, s_x := q[..], scales[..];
    MatvecQuantized(xout, q[..], scales[..], w, s_w, n, d);
    if n % GS == 0 && |weights| == d * n && Quantized(weights, w, s_w) {
      forall i: nat | i < d
        ensures Abs(Dot(x, Row(weights, d, n, i), n) - xout[i]) <= ErrorBound(s_x, RowScales(s_w, n, d, i), Groups(n))
      {
        QuantizedRow(weights, w, s_w, d, n, i);
        RowError(x, qx, s_x, Row(weights, d, n, i), Row<int>(w, d, n, i), RowScales(s_w, n, d, i), Groups(n));
      }
    }
  }
}
