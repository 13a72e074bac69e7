/**
 What the kernels compute when the operations are exact. The programs are compared for arbitrary
 operations; here the floats stand for real numbers, of which the operations are those of the reals,
 and each kernel is shown to be what its name says.
 */
module ExactArithmetic {
  import opened Floats
  import opened Mindex
  import opened Kernels
  import opened Transformer

  /** The real that each float stands for, and the functions of the mathematical library. */
  datatype Reals = Reals(val: Float -> real, sqrt: real -> real, exp: real -> real, cos: real -> real,
                         sin: real -> real, pow: (real, real) -> real)
  {
    function Vals(x: Vec): (v: seq<real>)
      ensures |v| == |x| && forall j :: 0 <= j < |x| ==> v[j] == val(x[j])
    {
      seq(|x|, j requires 0 <= j < |x| => val(x[j]))
    }
  }

  /** The operations are those of the reals. Countably many reals are closed under them, so floats can name these. */
  ghost predicate Exact(ops: Ops, r: Reals) {
    && r.val(ops.zero) == 0.0 && r.val(ops.one) == 1.0
    && (forall a, b :: r.val(ops.add(a, b)) == r.val(a) + r.val(b))
    && (forall a, b :: r.val(ops.sub(a, b)) == r.val(a) - r.val(b))
    && (forall a, b :: r.val(ops.mul(a, b)) == r.val(a) * r.val(b))
    && (forall a, b :: r.val(b) != 0.0 ==> r.val(ops.div(a, b)) == r.val(a) / r.val(b))
    && (forall a :: r.val(ops.neg(a)) == -r.val(a))
    && (forall a, b :: ops.greater(a, b) <==> r.val(a) > r.val(b))
    && (forall n: int :: r.val(ops.ofInt(n)) == n as real)
    && (forall a :: r.val(ops.sqrt(a)) == r.sqrt(r.val(a)))
    && (forall a :: r.val(ops.exp(a)) == r.exp(r.val(a)))
    && (forall a :: r.val(ops.cos(a)) == r.cos(r.val(a)))
    && (forall a :: r.val(ops.sin(a)) == r.sin(r.val(a)))
    && (forall a, b :: r.val(ops.pow(a, b)) == r.pow(r.val(a), r.val(b)))
  }

  ghost predicate SqrtLaw(r: Reals) { forall x :: x > 0.0 ==> r.sqrt(x) > 0.0 && r.sqrt(x) * r.sqrt(x) == x }

  ghost predicate ExpLaw(r: Reals) { (forall x :: r.exp(x) > 0.0) && forall x, y :: ExpSplitsAt(r, x, y) }

  ghost predicate ExpSplitsAt(r: Reals, x: real, y: real) { r.exp(x) == r.exp(x - y) * r.exp(y) }

  ghost predicate AngleLaws(r: Reals) { forall x, y :: AngleSplitsAt(r, x, y) }

  ghost predicate AngleSplitsAt(r: Reals, x: real, y: real) {
    && r.cos(y) * r.cos(y) + r.sin(y) * r.sin(y) == 1.0
    && r.cos(x) == r.cos(x - y) * r.cos(y) - r.sin(x - y) * r.sin(y)
    && r.sin(x) == r.sin(x - y) * r.cos(y) + r.cos(x - y) * r.sin(y)
  }

  ghost predicate PowLaws(r: Reals) { forall b, x, y :: b > 0.0 ==> PowSplitsAt(r, b, x, y) }

  ghost predicate PowSplitsAt(r: Reals, b: real, x: real, y: real) {
    r.pow(b, 1.0) == b && r.pow(b, x) > 0.0 && r.pow(b, x) == r.pow(b, x - y) * r.pow(b, y)
  }

  lemma Adds(ops: Ops, r: Reals, a: Float, b: Float)
    requires Exact(ops, r)
    ensures r.val(ops.add(a, b)) == r.val(a) + r.val(b)
  {
  }

  lemma Subtracts(ops: Ops, r: Reals, a: Float, b: Float)
    requires Exact(ops, r)
    ensures r.val(ops.sub(a, b)) == r.val(a) - r.val(b)
  {
  }

  lemma Multiplies(ops: Ops, r: Reals, a: Float, b: Float)
    requires Exact(ops, r)
    ensures r.val(ops.mul(a, b)) == r.val(a) * r.val(b)
  {
  }

  lemma Divides(ops: Ops, r: Reals, a: Float, b: Float)
    requires Exact(ops, r) && r.val(b) != 0.0
    ensures r.val(ops.div(a, b)) == r.val(a) / r.val(b)
  {
  }

  lemma Constants(ops: Ops, r: Reals, n: int)
    requires Exact(ops, r)
    ensures r.val(ops.zero) == 0.0 && r.val(ops.one) == 1.0 && r.val(ops.ofInt(n)) == n as real
  {
  }

  // ----- sums of products

  function Sum(v: seq<real>, n: nat): real
    requires n <= |v|
  {
    if n == 0 then 0.0 else Sum(v, n - 1) + v[n - 1]
  }

  function Times(a: real, b: real): real { a * b }

  function Products(v: seq<real>, w: seq<real>): (p: seq<real>)
    requires |v| == |w|
    ensures |p| == |v| && forall k :: 0 <= k < |v| ==> p[k] == Times(v[k], w[k])
  {
    seq(|v|, k requires 0 <= k < |v| => Times(v[k], w[k]))
  }

  lemma {:induction false} DotIsSum(ops: Ops, r: Reals, x: Vec, w: Vec, n: nat)
    requires Exact(ops, r) && n <= |x| == |w|
    ensures r.val(Dot(ops, x, w, n)) == Sum(Products(r.Vals(x), r.Vals(w)), n)
  {
    hide Exact;
    if n == 0 {
      Constants(ops, r, 0);
    } else {
      DotIsSum(ops, r, x, w, n - 1);
      Adds(ops, r, Dot(ops, x, w, n - 1), ops.mul(x[n - 1], w[n - 1]));
      Multiplies(ops, r, x[n - 1], w[n - 1]);
    }
  }

  /** Row j of a matrix of weights that lies row by row in a buffer. */
  function WeightRow(r: Reals, w: Vec, cols: nat, n: nat, j: nat): (v: seq<real>)
    requires |w| == cols * n && j < cols
    ensures |v| == n
    ensures forall k :: 0 <= k < n ==> 0 <= MINDEX2(cols, n, j, k) < |w| && v[k] == r.val(w[MINDEX2(cols, n, j, k)])
  {
    RowInside(cols, n, j);
    seq(n, k requires 0 <= k < n => r.val(w[MINDEX2(cols, n, j, k)]))
  }

  /** Entry j of a product is the sum of the products of row j of the matrix with the vector. */
  lemma MatvecIsProduct(ops: Ops, r: Reals, cols: nat, x: Vec, w: Vec, j: nat)
    requires Exact(ops, r) && |w| == cols * |x| && j < cols
    ensures r.val(MatvecOf(ops, cols, x, w)[j]) == Sum(Products(r.Vals(x), WeightRow(r, w, cols, |x|, j)), |x|)
  {
    hide Exact, Dot, Sum, Products, Row, Reals.Vals;
    WeightRowIs(r, w, cols, |x|, j);
    DotIsSum(ops, r, x, Row(w, cols, |x|, j), |x|);
  }

  lemma WeightRowIs(r: Reals, w: Vec, cols: nat, n: nat, j: nat)
    requires |w| == cols * n && j < cols
    ensures r.Vals(Row(w, cols, n, j)) == WeightRow(r, w, cols, n, j)
  {
    RowInside(cols, n, j);
  }

  lemma {:induction false} SumToIsSum(ops: Ops, r: Reals, x: Vec, n: nat)
    requires Exact(ops, r) && n <= |x|
    ensures r.val(SumTo(ops, x, n)) == Sum(r.Vals(x), n)
  {
    hide Exact;
    if n == 0 {
      Constants(ops, r, 0);
    } else {
      SumToIsSum(ops, r, x, n - 1);
      Adds(ops, r, SumTo(ops, x, n - 1), x[n - 1]);
    }
  }

  lemma {:induction false} SumScales(v: seq<real>, w: seq<real>, c: real, n: nat)
    requires n <= |v| == |w| && forall k :: 0 <= k < |v| ==> w[k] == Times(v[k], c)
    ensures Sum(w, n) == Times(Sum(v, n), c)
  {
    if n > 0 {
      SumScales(v, w, c, n - 1);
    }
  }

  lemma {:induction false} SumPositive(v: seq<real>, n: nat)
    requires 0 < n <= |v| && forall k :: 0 <= k < |v| ==> v[k] > 0.0
    ensures Sum(v, n) > 0.0
  {
    if n > 1 {
      SumPositive(v, n - 1);
    } else {
      assert Sum(v, 0) == 0.0;
    }
  }

  // ----- softmax

  lemma {:induction false} MaxIsGreatest(ops: Ops, r: Reals, x: Vec, n: nat) returns (j: nat)
    requires Exact(ops, r) && 1 <= n <= |x|
    ensures forall k :: 0 <= k < n ==> r.val(x[k]) <= r.val(MaxTo(ops, x, n))
    ensures j < n && MaxTo(ops, x, n) == x[j]
  {
    j := n - 1;
    if n > 1 {
      var i := MaxIsGreatest(ops, r, x, n - 1);
      if !ops.greater(x[n - 1], MaxTo(ops, x, n - 1)) {
        j := i;
      }
    }
  }

  /** The exponentials of the entries. */
  function Exponentials(r: Reals, x: Vec): (e: seq<real>)
    ensures |e| == |x| && forall j :: 0 <= j < |x| ==> e[j] == r.exp(r.val(x[j]))
  {
    seq(|x|, j requires 0 <= j < |x| => r.exp(r.val(x[j])))
  }

  lemma ExpsAre(ops: Ops, r: Reals, x: Vec, j: nat)
    requires Exact(ops, r) && ExpLaw(r) && j < |x|
    ensures var m := r.val(MaxTo(ops, x, |x|));
            && r.exp(r.val(x[j])) == Times(r.val(Exps(ops, x)[j]), r.exp(m))
            && r.val(Exps(ops, x)[j]) > 0.0 && r.exp(m) > 0.0
  {
    var max := MaxTo(ops, x, |x|);
    ExpIs(ops, r, ops.sub(x[j], max));
    Subtracts(ops, r, x[j], max);
    hide Exact, MaxTo;
    ExpSplits(r, r.val(x[j]), r.val(max));
  }

  lemma ExpIs(ops: Ops, r: Reals, a: Float)
    requires Exact(ops, r)
    ensures r.val(ops.exp(a)) == r.exp(r.val(a))
  {
  }

  lemma ExpSplits(r: Reals, x: real, y: real)
    requires ExpLaw(r)
    ensures r.exp(x) == Times(r.exp(x - y), r.exp(y)) && r.exp(x - y) > 0.0 && r.exp(y) > 0.0
  {
    assert ExpSplitsAt(r, x, y);
  }

  lemma Cancel(y: real, e: real, s: real, c: real)
    requires s != 0.0 && y == e / s
    ensures Times(y, Times(s, c)) == Times(e, c)
  {
    assert y * s == e;
    assert y * (s * c) == (y * s) * c;
  }

  /** Entry i of a softmax is the share of its exponential in the sum of all exponentials. */
  lemma SoftmaxIsShare(ops: Ops, r: Reals, x: Vec, i: nat)
    requires Exact(ops, r) && ExpLaw(r) && i < |x|
    ensures var e := Exponentials(r, x);
            Times(r.val(SoftmaxOf(ops, x)[i]), Sum(e, |e|)) == e[i] && Sum(e, |e|) > 0.0
  {
    hide Exact, ExpLaw, Exps, MaxTo, Sum, Times;
    var f, e, c := Exps(ops, x), Exponentials(r, x), r.exp(r.val(MaxTo(ops, x, |x|)));
    forall k: nat | k < |x|
      ensures e[k] == Times(r.Vals(f)[k], c) && r.Vals(f)[k] > 0.0 && e[k] > 0.0
    {
      ExpsAre(ops, r, x, k);
      ExpPositive(r, r.val(x[k]));
    }
    SumScales(r.Vals(f), e, c, |x|);
    SumPositive(r.Vals(f), |x|);
    SumPositive(e, |x|);
    SumToIsSum(ops, r, f, |x|);
    Divides(ops, r, f[i], SumTo(ops, f, |f|));
    Cancel(r.val(SoftmaxOf(ops, x)[i]), r.val(f[i]), Sum(r.Vals(f), |f|), c);
  }

  lemma ExpPositive(r: Reals, x: real)
    requires ExpLaw(r)
    ensures r.exp(x) > 0.0
  {
  }

  /** The entries of a softmax add up to one. */
  lemma SoftmaxAddsUpToOne(ops: Ops, r: Reals, x: Vec)
    requires Exact(ops, r) && ExpLaw(r) && |x| >= 1
    ensures Sum(r.Vals(SoftmaxOf(ops, x)), |x|) == 1.0
  {
    hide Exact, ExpLaw, SoftmaxOf, Sum, Times;
    var y, e := r.Vals(SoftmaxOf(ops, x)), Exponentials(r, x);
    var total := Sum(e, |e|);
    forall i: nat | i < |x|
      ensures e[i] == Times(y[i], total) && total > 0.0
    {
      SoftmaxIsShare(ops, r, x, i);
    }
    SoftmaxIsShare(ops, r, x, 0);
    SumScales(y, e, total, |x|);
    OnlyOne(Sum(y, |x|), total);
  }

  lemma OnlyOne(a: real, c: real)
    requires c > 0.0 && c == Times(a, c)
    ensures a == 1.0
  {
    assert (a - 1.0) * c == 0.0;
  }

  // ----- rmsnorm

  /** A normalised row is the weighted row over the root of its mean square, epsilon added. */
  lemma RmsnormIs(ops: Ops, r: Reals, x: Vec, w: Vec, epsilon: Float) returns (s: real)
    requires Exact(ops, r) && SqrtLaw(r) && |x| == |w| > 0
    requires var v := r.Vals(x); Sum(Products(v, v), |v|) / |v| as real + r.val(epsilon) > 0.0
    ensures var v := r.Vals(x); s > 0.0 && Times(Times(s, s),
                                                 Sum(Products(v, v), |v|) / |v| as real + r.val(epsilon)) == 1.0
    ensures forall j :: 0 <= j < |x| ==>
              r.val(RmsnormOf(ops, x, w, epsilon)[j]) == Times(r.val(w[j]), Times(s, r.val(x[j])))
  {
    hide Exact, SqrtLaw, Sum, Dot, Times;
    var scale := RmsScale(ops, x, epsilon);
    s := r.val(scale);
    RmsScaleIs(ops, r, x, epsilon);
    forall j | 0 <= j < |x|
      ensures r.val(RmsnormOf(ops, x, w, epsilon)[j]) == Times(r.val(w[j]), Times(s, r.val(x[j])))
    {
      ScaledEntry(ops, r, w[j], scale, x[j]);
    }
  }

  lemma ScaledEntry(ops: Ops, r: Reals, w: Float, s: Float, x: Float)
    requires Exact(ops, r)
    ensures r.val(ops.mul(w, ops.mul(s, x))) == Times(r.val(w), Times(r.val(s), r.val(x)))
  {
    hide Exact;
    Multiplies(ops, r, w, ops.mul(s, x));
    Multiplies(ops, r, s, x);
  }

  lemma RmsScaleIs(ops: Ops, r: Reals, x: Vec, epsilon: Float)
    requires Exact(ops, r) && SqrtLaw(r) && |x| > 0
    requires var v := r.Vals(x); Sum(Products(v, v), |v|) / |v| as real + r.val(epsilon) > 0.0
    ensures var v, s := r.Vals(x), r.val(RmsScale(ops, x, epsilon));
            s > 0.0 && Times(Times(s, s), Sum(Products(v, v), |v|) / |v| as real + r.val(epsilon)) == 1.0
  {
    hide Exact, SqrtLaw, Sum, Dot, Times;
    var squares, n := Dot(ops, x, x, |x|), ops.ofInt(|x|);
    var mean := ops.div(squares, n);
    DotIsSum(ops, r, x, x, |x|);
    Constants(ops, r, |x|);
    Divides(ops, r, squares, n);
    Adds(ops, r, mean, epsilon);
    var root := ops.sqrt(ops.add(mean, epsilon));
    SqrtIs(ops, r, ops.add(mean, epsilon));
    Divides(ops, r, ops.one, root);
    Inverse(r.val(root), r.val(ops.add(mean, epsilon)));
  }

  lemma SqrtIs(ops: Ops, r: Reals, a: Float)
    requires Exact(ops, r) && SqrtLaw(r) && r.val(a) > 0.0
    ensures r.val(ops.sqrt(a)) > 0.0 && Times(r.val(ops.sqrt(a)), r.val(ops.sqrt(a))) == r.val(a)
  {
  }

  lemma Inverse(root: real, x: real)
    requires root > 0.0 && Times(root, root) == x
    ensures 1.0 / root > 0.0 && Times(Times(1.0 / root, 1.0 / root), x) == 1.0
  {
    var i := 1.0 / root;
    assert i * root == 1.0;
    assert i * i * (root * root) == (i * root) * (i * root);
  }

  // ----- SwiGLU and the residual connection

  lemma SwigluIs(ops: Ops, r: Reals, fc: Vec, up: Vec, e: nat)
    requires Exact(ops, r) && ExpLaw(r) && |fc| == |up| && e < |fc|
    ensures Times(r.val(SwigluOf(ops, fc, up)[e]), 1.0 + r.exp(-r.val(fc[e]))) == Times(r.val(fc[e]), r.val(up[e]))
  {
    hide Exact, ExpLaw, Times;
    var f, d := fc[e], ops.add(ops.one, ops.exp(ops.neg(fc[e])));
    LogisticIs(ops, r, f);
    Multiplies(ops, r, f, ops.div(ops.one, d));
    Multiplies(ops, r, ops.mul(f, ops.div(ops.one, d)), up[e]);
    Gated(r.val(f), r.val(up[e]), r.val(d), r.val(ops.mul(f, ops.div(ops.one, d))), r.val(SwigluOf(ops, fc, up)[e]));
  }

  lemma LogisticIs(ops: Ops, r: Reals, f: Float)
    requires Exact(ops, r) && ExpLaw(r)
    ensures var d := ops.add(ops.one, ops.exp(ops.neg(f)));
            r.val(d) == 1.0 + r.exp(-r.val(f)) && r.val(d) > 0.0 && r.val(ops.div(ops.one, d)) == 1.0 / r.val(d)
  {
    hide Exact, ExpLaw;
    Negates(ops, r, f);
    ExpIs(ops, r, ops.neg(f));
    ExpPositive(r, -r.val(f));
    Constants(ops, r, 0);
    Adds(ops, r, ops.one, ops.exp(ops.neg(f)));
    Divides(ops, r, ops.one, ops.add(ops.one, ops.exp(ops.neg(f))));
  }

  lemma Gated(f: real, u: real, d: real, g: real, y: real)
    requires d != 0.0 && g == f * (1.0 / d) && y == g * u
    ensures Times(y, d) == Times(f, u)
  {
    var i := 1.0 / d;
    assert i * d == 1.0;
    assert f * i * u * d == f * u * (i * d);
  }

  lemma Negates(ops: Ops, r: Reals, a: Float)
    requires Exact(ops, r)
    ensures r.val(ops.neg(a)) == -r.val(a)
  {
  }

  /** What a layer adds to each coordinate of an embedding: the two outputs of its projections. */
  lemma LayerAdds(m: Model, r: Reals, tokens: seq<nat>, l: nat, i: nat, e: nat)
    requires m.Valid() && TokensOk(m, tokens) && i < |tokens| && l < m.layerCount && e < m.embeddingDim
    requires Exact(m.ops, r)
    ensures r.val(Embedding(m, tokens, l + 1, i)[e])
         == r.val(Embedding(m, tokens, l, i)[e]) + r.val(AttentionOutput(m, tokens, l, i)[e])
            + r.val(FfnOutput(m, tokens, l, i)[e])
  {
    hide Exact, NormOf, AttentionOf, KeysUpTo, ValuesUpTo, FfnNormOf, FcOf, UpOf, SwigluOf, MatvecOf, WeightOf;
    var x := Embedding(m, tokens, l, i);
    var att := AttentionOf(m, l, NormOf(m, l, x), i, KeysUpTo(m, tokens, l, i), ValuesUpTo(m, tokens, l, i));
    var y := AfterAttention(m, l, x, att);
    assert y[e] == m.ops.add(x[e], AttentionOutput(m, tokens, l, i)[e]);
    Adds(m.ops, r, x[e], AttentionOutput(m, tokens, l, i)[e]);
    Adds(m.ops, r, y[e], FfnOutput(m, tokens, l, i)[e]);
  }

  function ProjectedAttention(m: Model, l: nat, att: Vec): (y: Vec)
    requires m.Valid() && l < m.layerCount && |att| == m.embeddingDim
    ensures |y| == m.embeddingDim
  {
    MatvecOf(m.ops, m.embeddingDim, att, WeightOf(m.mhaOutWeight, m.layerCount, m.embeddingDim * m.embeddingDim, l))
  }

  /** The output projection of the attention of layer l, for token i. */
  function AttentionOutput(m: Model, tokens: seq<nat>, l: nat, i: nat): (y: Vec)
    requires m.Valid() && TokensOk(m, tokens) && i < |tokens| && l < m.layerCount
    ensures |y| == m.embeddingDim
  {
    var n := NormOf(m, l, Embedding(m, tokens, l, i));
    ProjectedAttention(m, l, AttentionOf(m, l, n, i, KeysUpTo(m, tokens, l, i), ValuesUpTo(m, tokens, l, i)))
  }

  function ProjectedFfn(m: Model, l: nat, n: Vec): (y: Vec)
    requires m.Valid() && l < m.layerCount && |n| == m.embeddingDim
    ensures |y| == m.embeddingDim
  {
    MatvecOf(m.ops, m.embeddingDim, SwigluOf(m.ops, FcOf(m, l, n), UpOf(m, l, n)),
             WeightOf(m.ffnOutWeight, m.layerCount, m.embeddingDim * m.hiddenDim, l))
  }

  /** The output projection of its feed-forward network. */
  function FfnOutput(m: Model, tokens: seq<nat>, l: nat, i: nat): (y: Vec)
    requires m.Valid() && TokensOk(m, tokens) && i < |tokens| && l < m.layerCount
    ensures |y| == m.embeddingDim
  {
    var x := Embedding(m, tokens, l, i);
    var att := AttentionOf(m, l, NormOf(m, l, x), i, KeysUpTo(m, tokens, l, i), ValuesUpTo(m, tokens, l, i));
    ProjectedFfn(m, l, FfnNormOf(m, l, AfterAttention(m, l, x, att)))
  }

  // ----- attention

  /** The exponential of the scaled product of the query with each key. */
  function AttentionWeights(r: Reals, q: Vec, ks: seq<Vec>): (e: seq<real>)
    requires AllOfLength(ks, |q|) && r.sqrt(|q| as real) != 0.0
    ensures |e| == |ks|
    ensures forall p :: 0 <= p < |ks| ==>
              e[p] == r.exp(Sum(Products(r.Vals(q), r.Vals(ks[p])), |q|) / r.sqrt(|q| as real))
  {
    seq(|ks|, p requires 0 <= p < |ks| =>
      r.exp(Sum(Products(r.Vals(q), r.Vals(ks[p])), |q|) / r.sqrt(|q| as real)))
  }

  /** Coordinate e of every value. */
  function Coordinate(r: Reals, vs: seq<Vec>, dim: nat, e: nat): (c: seq<real>)
    requires AllOfLength(vs, dim) && e < dim
    ensures |c| == |vs| && forall p :: 0 <= p < |vs| ==> c[p] == r.val(vs[p][e])
  {
    seq(|vs|, p requires 0 <= p < |vs| => r.val(vs[p][e]))
  }

  lemma ScoreIs(ops: Ops, r: Reals, q: Vec, ks: seq<Vec>, p: nat)
    requires Exact(ops, r) && SqrtLaw(r) && |q| > 0 && AllOfLength(ks, |q|) && p < |ks|
    ensures r.sqrt(|q| as real) > 0.0
    ensures r.val(ScoresOf(ops, q, ks)[p]) == Sum(Products(r.Vals(q), r.Vals(ks[p])), |q|) / r.sqrt(|q| as real)
  {
    RootIs(ops, r, ops.ofInt(|q|));
    Constants(ops, r, |q|);
    hide Exact, SqrtLaw, Sum, Dot;
    RootPositive(r, |q| as real);
    DotIsSum(ops, r, q, ks[p], |q|);
    Divides(ops, r, Dot(ops, q, ks[p], |q|), ops.sqrt(ops.ofInt(|q|)));
  }

  lemma RootIs(ops: Ops, r: Reals, a: Float)
    requires Exact(ops, r)
    ensures r.val(ops.sqrt(a)) == r.sqrt(r.val(a))
  {
  }

  lemma RootPositive(r: Reals, x: real)
    requires SqrtLaw(r) && x > 0.0
    ensures r.sqrt(x) > 0.0
  {
  }

  lemma {:induction false} BlendIsSum(ops: Ops, r: Reals, s: Vec, vs: seq<Vec>, dim: nat, e: nat, n: nat)
    requires Exact(ops, r) && n <= |s| == |vs| && AllOfLength(vs, dim) && e < dim
    ensures r.val(BlendAt(ops, s, vs, e, n)) == Sum(Products(r.Vals(s), Coordinate(r, vs, dim, e)), n)
  {
    hide Exact, Products, Coordinate, Reals.Vals;
    if n == 0 {
      Constants(ops, r, 0);
    } else {
      BlendIsSum(ops, r, s, vs, dim, e, n - 1);
      Adds(ops, r, BlendAt(ops, s, vs, e, n - 1), ops.mul(s[n - 1], vs[n - 1][e]));
      Multiplies(ops, r, s[n - 1], vs[n - 1][e]);
    }
  }

  lemma Regroup(s: real, total: real, c: real, e: real)
    requires Times(s, total) == e
    ensures Times(e, c) == Times(Times(s, c), total)
  {
    assert s * total * c == s * c * total;
  }

  /**
   What a head attends to is the average of the values, each weighted by the exponential of its key's product
   with the query over the root of the dimension.
   */
  lemma AttentionIs(ops: Ops, r: Reals, q: Vec, ks: seq<Vec>, vs: seq<Vec>, e: nat)
    requires Exact(ops, r) && ExpLaw(r) && SqrtLaw(r)
    requires |ks| == |vs| >= 1 && AllOfLength(ks, |q|) && AllOfLength(vs, |q|) && e < |q|
    ensures r.sqrt(|q| as real) > 0.0
    ensures var w := AttentionWeights(r, q, ks);
            Times(r.val(HeadOf(ops, q, ks, vs)[e]), Sum(w, |w|)) == Sum(Products(w, Coordinate(r, vs, |q|, e)), |w|)
  {
    RootPositive(r, |q| as real);
    hide Exact, ExpLaw, SqrtLaw, Sum, Times, SoftmaxOf, BlendAt, ScoresOf;
    var scores := ScoresOf(ops, q, ks);
    var s, w, c := SoftmaxOf(ops, scores), AttentionWeights(r, q, ks), Coordinate(r, vs, |q|, e);
    WeightsAre(ops, r, q, ks);
    BlendIsSum(ops, r, s, vs, |q|, e, |vs|);
    var total := Sum(w, |w|);
    forall p: nat | p < |w|
      ensures Products(w, c)[p] == Times(Products(r.Vals(s), c)[p], total)
    {
      SoftmaxIsShare(ops, r, scores, p);
      Regroup(r.val(s[p]), total, c[p], w[p]);
    }
    SumScales(Products(r.Vals(s), c), Products(w, c), total, |w|);
  }

  lemma WeightsAre(ops: Ops, r: Reals, q: Vec, ks: seq<Vec>)
    requires Exact(ops, r) && SqrtLaw(r) && |q| > 0 && AllOfLength(ks, |q|)
    ensures r.sqrt(|q| as real) > 0.0
    ensures AttentionWeights(r, q, ks) == Exponentials(r, ScoresOf(ops, q, ks))
  {
    RootPositive(r, |q| as real);
    hide Exact, SqrtLaw, Sum, ScoresOf;
    forall p: nat | p < |ks|
      ensures AttentionWeights(r, q, ks)[p] == Exponentials(r, ScoresOf(ops, q, ks))[p]
    {
      ScoreIs(ops, r, q, ks, p);
    }
  }
}
