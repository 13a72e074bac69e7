/** Quantizing a vector to 8-bit integers: one scale for every group of 32 entries. */
module Quantize {

  /** The group size. */
  const GS := 32

  type Int8 = x: int | -0x80 <= x < 0x80

  function Abs(x: real): real { if x < 0.0 then -x else x }

  /** C's round: to the nearest integer, halves away from zero. */
  function Round(x: real): int {
    if x >= 0.0 then (x + 0.5).Floor else -(-x + 0.5).Floor
  }

  lemma RoundIsNear(x: real)
    ensures Abs(x - Round(x) as real) <= 0.5
  {
  }

  /** Group g of a vector. */
  function Group<T>(x: seq<T>, g: nat): (v: seq<T>)
    requires g * GS + GS <= |x|
    ensures |v| == GS
  {
    x[g * GS..g * GS + GS]
  }

  // ----- one group

  /** The greatest absolute value among the first k entries, or 0. */
  function MaxAbs(v: seq<real>, k: nat): (r: real)
    requires k <= |v|
    ensures r >= 0.0 && forall i :: 0 <= i < k ==> Abs(v[i]) <= r
  {
    if k == 0 then 0.0
    else
      var m := MaxAbs(v, k - 1);
      if Abs(v[k - 1]) > m then Abs(v[k - 1]) else m
  }

  function Scale(v: seq<real>): real { MaxAbs(v, |v|) / 127.0 }

  /** q times the scale is within half a scale of x, and |q| is at most 127 unless the scale is zero. */
  predicate Near(x: real, q: int, scale: real) {
    && (scale > 0.0 ==> -127 <= q <= 127)
    && Abs(x) <= 127.0 * scale
    && Abs(x - scale * q as real) <= scale / 2.0
  }

  /** q and scale are what quantize makes of a group. Of a group of zeros it makes 0 / 0, whose conversion is not
      specified. */
  predicate GroupQuantized(v: seq<real>, q: seq<int>, scale: real) {
    && |v| == |q| && scale == Scale(v) >= 0.0
    && forall i :: 0 <= i < |v| ==> Near(v[i], q[i], scale) && (scale > 0.0 ==> q[i] == Round(v[i] / scale))
  }

  lemma NearAt(v: seq<real>, q: seq<int>, scale: real, i: nat)
    requires GroupQuantized(v, q, scale) && i < |v|
    ensures |v| == |q| && scale >= 0.0 && Near(v[i], q[i], scale)
  {
  }

  lemma EntryBound(v: seq<real>, i: nat)
    requires i < |v|
    ensures Abs(v[i]) <= 127.0 * Scale(v) && Scale(v) >= 0.0
  {
    assert Abs(v[i]) <= MaxAbs(v, |v|);
  }

  // ----- the scale is the least one that fits, and uses the whole range

  lemma {:induction false} MaxIsReached(v: seq<real>, k: nat) returns (i: nat)
    requires 0 < k <= |v|
    ensures i < k && MaxAbs(v, k) == Abs(v[i])
  {
    i := k - 1;
    if k > 1 && Abs(v[k - 1]) <= MaxAbs(v, k - 1) {
      i := MaxIsReached(v, k - 1);
    }
  }

  /** Of all scales by which 127 steps reach every entry, the scale of a group is the least. */
  lemma ScaleIsLeast(v: seq<real>, t: real)
    requires |v| > 0
    ensures Scale(v) <= t <==> forall i :: 0 <= i < |v| ==> Abs(v[i]) <= 127.0 * t
  {
    var j := MaxIsReached(v, |v|);
    forall i: nat | i < |v|
      ensures Abs(v[i]) <= 127.0 * Scale(v)
    {
      EntryBound(v, i);
    }
  }

  lemma RoundOfExtreme(x: real, scale: real)
    requires scale > 0.0 && Abs(x) == 127.0 * scale
    ensures Abs(Round(x / scale) as real) == 127.0
  {
    TimesOver(127.0, scale);
    TimesOver(-127.0, scale);
    assert x == 127.0 * scale || x == -127.0 * scale;
    assert Round(127.0) == 127 && Round(-127.0) == -127;
  }

  lemma TimesOver(c: real, scale: real)
    requires scale > 0.0
    ensures c * scale / scale == c
  {
  }

  /** A group whose scale is not zero has an entry that is quantized to 127 or -127. */
  lemma WholeRangeIsUsed(v: seq<real>, q: seq<int>, scale: real) returns (i: nat)
    requires GroupQuantized(v, q, scale) && scale > 0.0 && |v| > 0
    ensures i < |q| && (q[i] == 127 || q[i] == -127)
  {
    hide Round, Near;
    i := MaxIsReached(v, |v|);
    RoundOfExtreme(v[i], scale);
  }

  /** Rounding goes to the nearest integer, from a half to the one farther from zero. */
  lemma RoundIsNearest(x: real, n: int)
    ensures Round(x) == n <==>
              Abs(x - n as real) < 0.5 || (Abs(x - n as real) == 0.5 && Abs(n as real) > Abs(x))
  {
  }

  function Times(a: real, b: real): real { a * b }

  lemma AbsTimes(a: real, b: real, boundA: real, boundB: real)
    requires Abs(a) <= boundA && Abs(b) <= boundB
    ensures Abs(Times(a, b)) <= Times(boundA, boundB)
  {
    assert Abs(a * b) == Abs(a) * Abs(b);
    assert Abs(a) * Abs(b) <= boundA * Abs(b);
    assert boundA * Abs(b) <= boundA * boundB;
  }

  lemma Bounded(v: real, scale: real, bound: real)
    requires scale > 0.0 && Abs(v * scale) <= bound * scale
    ensures Abs(v) <= bound
  {
    if v > bound {
      assert (v - bound) * scale > 0.0;
    } else if v < -bound {
      assert (-bound - v) * scale > 0.0;
    }
  }

  /** Rounding x / scale gives an integer within 127 of zero that stands for x. */
  lemma RoundedIsNear(x: real, scale: real)
    requires scale > 0.0 && Abs(x) <= 127.0 * scale
    ensures Near(x, Round(x / scale), scale) && -127 <= Round(x / scale) <= 127
  {
    hide Round;
    var v, q := x / scale, Round(x / scale);
    RoundIsNear(v);
    QuotientBound(x, scale, v);
    RoundInRange(v);
    hide Times;
    AbsTimes(v - q as real, scale, 0.5, scale);
    QuotientError(x, scale, v, q as real);
  }

  lemma QuotientBound(x: real, scale: real, v: real)
    requires scale > 0.0 && Abs(x) <= 127.0 * scale && v == x / scale
    ensures Abs(v) <= 127.0
  {
    assert v * scale == x;
    Bounded(v, scale, 127.0);
  }

  lemma QuotientError(x: real, scale: real, v: real, q: real)
    requires scale > 0.0 && v == x / scale
    ensures Times(v - q, scale) == x - scale * q && Times(0.5, scale) == scale / 2.0
  {
    assert v * scale == x;
    assert (v - q) * scale == v * scale - q * scale;
  }

  lemma RoundInRange(x: real)
    requires Abs(x) <= 127.0
    ensures -127 <= Round(x) <= 127
  {
  }

  // ----- a whole vector

  function Groups(n: nat): (groups: nat)
    ensures groups * GS <= n < groups * GS + GS
  {
    n / GS
  }

  /** q and s are what quantize makes of x, whose last entries are left alone if they do not fill a group. */
  ghost predicate Quantized(x: seq<real>, q: seq<int>, s: seq<real>) {
    && |q| == |x| && |s| >= Groups(|x|)
    && forall g: nat :: g < Groups(|x|) ==> GroupQuantized(Group(x, g), Group(q, g), s[g])
  }

  /** quantize; nan(i) stands for whatever the conversion of 0 / 0 to int8_t yields for entry i */
  method QuantizeVector(qx: array<Int8>, s: array<real>, n: nat, x: seq<real>, nan: nat -> Int8)
    requires |x| == n == qx.Length && s.Length >= Groups(n)
    modifies qx, s
    ensures Quantized(x, qx[..], s[..])
    ensures forall i :: Groups(n) * GS <= i < n ==> qx[i] == old(qx[i])
    ensures forall g :: Groups(n) <= g < s.Length ==> s[g] == old(s[g])
  {
    hide GroupQuantized, Group;
    var num_groups := n / GS;
    for group: nat := 0 to num_groups
      invariant forall g: nat :: g < group ==> GroupQuantized(Group(x, g), Group<int>(qx[..], g), s[g])
      invariant forall i :: group * GS <= i < n ==> qx[i] == old(qx[i])
      invariant forall g :: group <= g < s.Length ==> s[g] == old(s[g])
    {
      ghost var was, scales := qx[..], s[..];
      QuantizeGroup(qx, s, x, group, nan);
      forall g: nat | g < group
        ensures Group<int>(qx[..], g) == Group<int>(was, g) && s[g] == scales[g]
      {
        OtherGroup<int>(was, qx[..], group, g);
      }
    }
  }

  lemma OtherGroup<T>(was: seq<T>, now: seq<T>, group: nat, g: nat)
    requires |was| == |now| && group * GS + GS <= |now| && g < group
    requires forall i :: 0 <= i < |now| && (i < group * GS || group * GS + GS <= i) ==> now[i] == was[i]
    ensures Group(now, g) == Group(was, g)
  {
  }

  /** The body of the loop over the groups. */
  method QuantizeGroup(qx: array<Int8>, s: array<real>, x: seq<real>, group: nat, nan: nat -> Int8)
    requires |x| == qx.Length && group * GS + GS <= |x| && group < s.Length
    modifies qx, s
    ensures GroupQuantized(Group(x, group), Group<int>(qx[..], group), s[group])
    ensures forall i :: 0 <= i < qx.Length && (i < group * GS || group * GS + GS <= i) ==> qx[i] == old(qx[i])
    ensures forall g :: 0 <= g < s.Length && g != group ==> s[g] == old(s[g])
  {
    ghost var v := Group(x, group);
    var wmax := 0.0;
    for i: nat := 0 to GS
      invariant wmax == MaxAbs(v, i)
    {
      assert x[group * GS + i] == v[i];
      var val := Abs(x[group * GS + i]);
      if val > wmax {
        wmax := val;
      }
    }
    var scale := wmax / 127.0;
    s[group] := scale;
    RoundGroup(qx, x, group, scale, nan);
  }

  /** The second loop over a group. */
  method RoundGroup(qx: array<Int8>, x: seq<real>, group: nat, scale: real, nan: nat -> Int8)
    requires |x| == qx.Length && group * GS + GS <= |x| && scale == Scale(Group(x, group)) >= 0.0
    modifies qx
    ensures GroupQuantized(Group(x, group), Group<int>(qx[..], group), scale)
    ensures forall i :: 0 <= i < qx.Length && (i < group * GS || group * GS + GS <= i) ==> qx[i] == old(qx[i])
  {
    hide Scale, Near, Round;
    ghost var v := Group(x, group);
    for i: nat := 0 to GS
      invariant forall k :: 0 <= k < qx.Length && (k < group * GS || group * GS + i <= k) ==> qx[k] == old(qx[k])
      invariant forall k :: 0 <= k < i ==>
                  var q := Group<int>(qx[..], group)[k];
                  Near(v[k], q, scale) && (scale > 0.0 ==> q == Round(v[k] / scale))
    {
      assert x[group * GS + i] == v[i];
      EntryBound(v, i);
      qx[group * GS + i] := RoundEntry(x[group * GS + i], scale, nan(group * GS + i));
    }
  }

  /** (int8_t)round(x / scale) */
  method RoundEntry(x: real, scale: real, nan: Int8) returns (quantized: Int8)
    requires scale >= 0.0 && Abs(x) <= 127.0 * scale
    ensures Near(x, quantized, scale) && (scale > 0.0 ==> quantized == Round(x / scale))
  {
    if scale > 0.0 {
      hide Round, Near;
      var quant_value := x / scale;
      RoundedIsNear(x, scale);
      quantized := Round(quant_value);
    } else {
      quantized := nan;
    }
  }
}
