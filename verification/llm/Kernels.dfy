/**
 The numeric kernels shared by the two forms of prompt processing. Each is given
 twice: as a function of rows, and as the loops over pointers into flat buffers.
 A pointer is an array together with an offset.
 */
module Kernels {
  import opened Floats
  import opened Mindex

  type Vec = seq<Float>

  // ----- the kernels as functions

  /** x[0]*w[0] + ... + x[n-1]*w[n-1], accumulated from the left from zero. */
  function Dot(ops: Ops, x: Vec, w: Vec, n: nat): Float
    requires n <= |x| && n <= |w|
  {
    if n == 0 then ops.zero else ops.add(Dot(ops, x, w, n - 1), ops.mul(x[n - 1], w[n - 1]))
  }

  function MatvecOf(ops: Ops, cols: nat, x: Vec, w: Vec): (y: Vec)
    requires |w| == cols * |x|
    ensures |y| == cols
  {
    seq(cols, j requires 0 <= j < cols => Dot(ops, x, Row(w, cols, |x|, j), |x|))
  }

  function RmsScale(ops: Ops, x: Vec, epsilon: Float): Float {
    ops.div(ops.one, ops.sqrt(ops.add(ops.div(Dot(ops, x, x, |x|), ops.ofInt(|x|)), epsilon)))
  }

  function Rescaled(ops: Ops, x: Vec, w: Vec, ss: Float): (y: Vec)
    requires |w| == |x|
    ensures |y| == |x|
  {
    seq(|x|, j requires 0 <= j < |x| => ops.mul(w[j], ops.mul(ss, x[j])))
  }

  function RmsnormOf(ops: Ops, x: Vec, w: Vec, epsilon: Float): (y: Vec)
    requires |w| == |x|
    ensures |y| == |x|
  {
    Rescaled(ops, x, w, RmsScale(ops, x, epsilon))
  }

  function MaxTo(ops: Ops, x: Vec, n: nat): Float
    requires 1 <= n <= |x|
  {
    if n == 1 then x[0]
    else
      var m := MaxTo(ops, x, n - 1);
      if ops.greater(x[n - 1], m) then x[n - 1] else m
  }

  function Exps(ops: Ops, x: Vec): (e: Vec)
    requires |x| >= 1
    ensures |e| == |x|
  {
    seq(|x|, j requires 0 <= j < |x| => ops.exp(ops.sub(x[j], MaxTo(ops, x, |x|))))
  }

  function SumTo(ops: Ops, x: Vec, n: nat): Float
    requires n <= |x|
  {
    if n == 0 then ops.zero else ops.add(SumTo(ops, x, n - 1), x[n - 1])
  }

  function SoftmaxOf(ops: Ops, x: Vec): (y: Vec)
    requires |x| >= 1
    ensures |y| == |x|
  {
    var e := Exps(ops, x);
    Divided(ops, e, SumTo(ops, e, |e|))
  }

  function Divided(ops: Ops, x: Vec, sum: Float): (y: Vec)
    ensures |y| == |x|
  {
    seq(|x|, j requires 0 <= j < |x| => ops.div(x[j], sum))
  }

  function Angle(ops: Ops, cols: nat, j: nat, pos: nat): Float {
    ops.mul(ops.ofInt(pos), ops.div(ops.one, ops.pow(ops.ofInt(500000), ops.div(ops.ofInt(j), ops.ofInt(cols)))))
  }

  function RopeOf(ops: Ops, x: Vec, pos: nat): (y: Vec)
    requires |x| % 2 == 0
    ensures |y| == |x|
  {
    seq(|x|, j requires 0 <= j < |x| =>
      if j % 2 == 0 then
        var a := Angle(ops, |x|, j, pos);
        ops.sub(ops.mul(x[j], ops.cos(a)), ops.mul(x[j + 1], ops.sin(a)))
      else
        var a := Angle(ops, |x|, j - 1, pos);
        ops.add(ops.mul(x[j - 1], ops.sin(a)), ops.mul(x[j], ops.cos(a))))
  }

  lemma RopePair(ops: Ops, x: Vec, pos: nat, j: nat)
    requires |x| % 2 == 0 && j % 2 == 0 && j < |x|
    ensures var a := Angle(ops, |x|, j, pos);
            && RopeOf(ops, x, pos)[j] == ops.sub(ops.mul(x[j], ops.cos(a)), ops.mul(x[j + 1], ops.sin(a)))
            && RopeOf(ops, x, pos)[j + 1] == ops.add(ops.mul(x[j], ops.sin(a)), ops.mul(x[j + 1], ops.cos(a)))
  {
  }

  // ----- the kernels as loops

  method Matvec(ops: Ops, col_count: nat, red_count: nat, y: array<Float>, yo: nat, x: array<Float>, xo: nat, w: Vec)
    requires y != x && yo + col_count <= y.Length && xo + red_count <= x.Length && |w| == col_count * red_count
    modifies y
    ensures y[..] == Splice(old(y[..]), yo, MatvecOf(ops, col_count, x[xo..xo + red_count], w))
  {
    ghost var was, row := y[..], x[xo..xo + red_count];
    ghost var done := MatvecOf(ops, col_count, row, w);
    for j := 0 to col_count
      invariant Written(y[..], was, yo, done, j)
    {
      var r := DotInPlace(ops, col_count, red_count, y, yo + j, x, xo, w, j);
      assert r == done[j];
    }
    WrittenIsSplice(y[..], was, yo, done);
  }

  /** The inner loop of matvec, which accumulates into its output cell. */
  method DotInPlace(ops: Ops, col_count: nat, red_count: nat, y: array<Float>, yj: nat, x: array<Float>, xo: nat,
                    w: Vec, j: nat)
    returns (ghost r: Float)
    requires y != x && yj < y.Length && xo + red_count <= x.Length && |w| == col_count * red_count && j < col_count
    modifies y
    ensures y[..] == old(y[..])[yj := r] && r
            == Dot(ops, x[xo..xo + red_count], Row(w, col_count, red_count, j), red_count)
  {
    RowInside(col_count, red_count, j);
    ghost var row, wj := x[xo..xo + red_count], Row(w, col_count, red_count, j);
    y[yj] := ops.zero;
    for k := 0 to red_count
      invariant y[..] == old(y[..])[yj := Dot(ops, row, wj, k)]
    {
      assert w[MINDEX2(col_count, red_count, j, k)] == wj[k];
      y[yj] := ops.add(y[yj], ops.mul(x[xo + k], w[MINDEX2(col_count, red_count, j, k)]));
    }
    r := y[yj];
  }

  /** rmsnorm; x may be the same row as y. */
  method Rmsnorm(ops: Ops, col_count: nat, y: array<Float>, yo: nat, x: array<Float>, xo: nat, w: Vec, epsilon: Float)
    requires yo + col_count <= y.Length && xo + col_count <= x.Length && |w| == col_count
    requires y != x || yo == xo
    modifies y
    ensures y[..] == Splice(old(y[..]), yo, RmsnormOf(ops, old(x[xo..xo + col_count]), w, epsilon))
  {
    hide Splice, Dot;
    var ss := SumOfSquares(ops, col_count, x, xo);
    ss := ops.div(ss, ops.ofInt(col_count));
    ss := ops.add(ss, epsilon);
    ss := ops.div(ops.one, ops.sqrt(ss));
    ScaleRow(ops, col_count, y, yo, x, xo, w, ss);
  }

  method SumOfSquares(ops: Ops, col_count: nat, x: array<Float>, xo: nat) returns (ss: Float)
    requires xo + col_count <= x.Length
    ensures var row := x[xo..xo + col_count]; ss == Dot(ops, row, row, col_count)
  {
    ghost var row := x[xo..xo + col_count];
    ss := ops.zero;
    for j := 0 to col_count
      invariant ss == Dot(ops, row, row, j)
    {
      ss := ops.add(ss, ops.mul(x[xo + j], x[xo + j]));
    }
  }

  /** The second loop of rmsnorm. */
  method ScaleRow(ops: Ops, col_count: nat, y: array<Float>, yo: nat, x: array<Float>, xo: nat, w: Vec, ss: Float)
    requires yo + col_count <= y.Length && xo + col_count <= x.Length && |w| == col_count
    requires y != x || yo == xo
    modifies y
    ensures y[..] == Splice(old(y[..]), yo, Rescaled(ops, old(x[xo..xo + col_count]), w, ss))
  {
    ghost var was, row := y[..], x[xo..xo + col_count];
    ghost var done := Rescaled(ops, row, w, ss);
    for j := 0 to col_count
      invariant Written(y[..], was, yo, done, j)
      invariant forall k :: j <= k < col_count ==> x[xo + k] == row[k]
    {
      y[yo + j] := ops.mul(w[j], ops.mul(ss, x[xo + j]));
      assert y[yo + j] == done[j];
    }
    WrittenIsSplice(y[..], was, yo, done);
  }

  method MaxValue(ops: Ops, col_count: nat, x: array<Float>, xo: nat) returns (max_val: Float)
    requires 1 <= col_count && xo + col_count <= x.Length
    ensures max_val == MaxTo(ops, x[xo..xo + col_count], col_count)
  {
    max_val := x[xo];
    for j := 1 to col_count
      invariant max_val == MaxTo(ops, x[xo..xo + col_count], j)
    {
      if ops.greater(x[xo + j], max_val) {
        max_val := x[xo + j];
      }
    }
  }

  method ExpAndSum(ops: Ops, col_count: nat, x: array<Float>, xo: nat, max_val: Float) returns (sum: Float)
    requires 1 <= col_count && xo + col_count <= x.Length && max_val == MaxTo(ops, x[xo..xo + col_count], col_count)
    modifies x
    ensures var e := Exps(ops, old(x[xo..xo + col_count]));
            x[..] == Splice(old(x[..]), xo, e) && sum == SumTo(ops, e, col_count)
  {
    ghost var was, e := x[..], Exps(ops, x[xo..xo + col_count]);
    sum := ops.zero;
    for j := 0 to col_count
      invariant Written(x[..], was, xo, e, j)
      invariant sum == SumTo(ops, e, j)
    {
      x[xo + j] := ops.exp(ops.sub(x[xo + j], max_val));
      sum := ops.add(sum, x[xo + j]);
    }
    WrittenIsSplice(x[..], was, xo, e);
  }

  method DivideAll(ops: Ops, col_count: nat, x: array<Float>, xo: nat, sum: Float)
    requires xo + col_count <= x.Length
    modifies x
    ensures x[..] == Splice(old(x[..]), xo, Divided(ops, old(x[xo..xo + col_count]), sum))
  {
    ghost var was, row := x[..], x[xo..xo + col_count];
    for j := 0 to col_count
      invariant Written(x[..], was, xo, Divided(ops, row, sum), j)
    {
      x[xo + j] := ops.div(x[xo + j], sum);
    }
    WrittenIsSplice(x[..], was, xo, Divided(ops, row, sum));
  }

  method Softmax(ops: Ops, col_count: nat, x: array<Float>, xo: nat)
    requires 1 <= col_count && xo + col_count <= x.Length
    modifies x
    ensures x[..] == Splice(old(x[..]), xo, SoftmaxOf(ops, old(x[xo..xo + col_count])))
  {
    hide MaxTo, Exps, SumTo, Divided;
    var max_val := MaxValue(ops, col_count, x, xo);
    var sum := ExpAndSum(ops, col_count, x, xo, max_val);
    DivideAll(ops, col_count, x, xo, sum);
  }

  method Rope(ops: Ops, col_count: nat, x: array<Float>, xo: nat, pos: nat)
    requires col_count % 2 == 0 && xo + col_count <= x.Length
    modifies x
    ensures x[..] == Splice(old(x[..]), xo, RopeOf(ops, old(x[xo..xo + col_count]), pos))
  {
    ghost var was, row := x[..], x[xo..xo + col_count];
    ghost var done := RopeOf(ops, row, pos);
    hide RopeOf, Written, Angle;
    WrittenNone(was, xo, done);
    var j := 0;
    while j < col_count
      invariant 0 <= j <= col_count && j % 2 == 0
      invariant Written(x[..], was, xo, done, j)
    {
      ghost var before := x[..];
      WrittenElsewhere(before, was, xo, done, j, xo + j);
      WrittenElsewhere(before, was, xo, done, j, xo + j + 1);
      RopePair(ops, row, pos, j);
      RotatePair(ops, col_count, x, xo, pos, j);
      WrittenNext(before, before[xo + j := done[j]], was, xo, done, j);
      WrittenNext(before[xo + j := done[j]], x[..], was, xo, done, j + 1);
      j := j + 2;
    }
    WrittenIsSplice(x[..], was, xo, done);
  }

  /** The body of rope's loop. */
  method RotatePair(ops: Ops, col_count: nat, x: array<Float>, xo: nat, pos: nat, j: nat)
    requires xo + j + 1 < x.Length
    modifies x
    ensures var a, v0, v1 := Angle(ops, col_count, j, pos), old(x[xo + j]), old(x[xo + j + 1]);
            x[..] == old(x[..])[xo + j := ops.sub(ops.mul(v0, ops.cos(a)), ops.mul(v1, ops.sin(a)))]
                               [xo + j + 1 := ops.add(ops.mul(v0, ops.sin(a)), ops.mul(v1, ops.cos(a)))]
  {
    var freq := ops.div(ops.one, ops.pow(ops.ofInt(500000), ops.div(ops.ofInt(j), ops.ofInt(col_count))));
    var val := ops.mul(ops.ofInt(pos), freq);
    var fcr := ops.cos(val);
    var fci := ops.sin(val);
    var v0 := x[xo + j];
    var v1 := x[xo + j + 1];
    x[xo + j] := ops.sub(ops.mul(v0, fcr), ops.mul(v1, fci));
    x[xo + j + 1] := ops.add(ops.mul(v0, fci), ops.mul(v1, fcr));
  }

  // ----- the element loops of a residual connection and of the SwiGLU non-linearity

  function AddTo(ops: Ops, x: Vec, y: Vec): (z: Vec)
    requires |x| == |y|
    ensures |z| == |x|
  {
    seq(|x|, e requires 0 <= e < |x| => ops.add(x[e], y[e]))
  }

  function SwigluOf(ops: Ops, fc: Vec, up: Vec): (y: Vec)
    requires |fc| == |up|
    ensures |y| == |fc|
  {
    seq(|fc|, e requires 0 <= e < |fc| =>
      ops.mul(ops.mul(fc[e], ops.div(ops.one, ops.add(ops.one, ops.exp(ops.neg(fc[e]))))), up[e]))
  }

  method AddRow(ops: Ops, width: nat, x: array<Float>, xo: nat, y: array<Float>, yo: nat)
    requires x != y && xo + width <= x.Length && yo + width <= y.Length
    modifies x
    ensures x[..] == Splice(old(x[..]), xo, AddTo(ops, old(x[xo..xo + width]), y[yo..yo + width]))
  {
    ghost var was, done := x[..], AddTo(ops, x[xo..xo + width], y[yo..yo + width]);
    for e := 0 to width
      invariant Written(x[..], was, xo, done, e)
    {
      x[xo + e] := ops.add(x[xo + e], y[yo + e]);
      assert x[xo + e] == done[e];
    }
    WrittenIsSplice(x[..], was, xo, done);
  }

  method SwigluRow(ops: Ops, width: nat, fc: array<Float>, fo: nat, up: array<Float>, uo: nat)
    requires fc != up && fo + width <= fc.Length && uo + width <= up.Length
    modifies fc
    ensures fc[..] == Splice(old(fc[..]), fo, SwigluOf(ops, old(fc[fo..fo + width]), up[uo..uo + width]))
  {
    ghost var was, done := fc[..], SwigluOf(ops, fc[fo..fo + width], up[uo..uo + width]);
    for e := 0 to width
      invariant Written(fc[..], was, fo, done, e)
    {
      fc[fo + e] := ops.mul(fc[fo + e], ops.div(ops.one, ops.add(ops.one, ops.exp(ops.neg(fc[fo + e])))));
      fc[fo + e] := ops.mul(fc[fo + e], up[uo + e]);
      assert fc[fo + e] == done[e];
    }
    WrittenIsSplice(fc[..], was, fo, done);
  }
}
