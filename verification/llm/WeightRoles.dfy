/**
 What each weight of the model is for, in terms of the flat buffers that the programs index: the
 projections as sums over the buffers, and what a layer adds to an embedding as a formula over reals.
 */
module WeightRoles {
  import opened ExactArithmetic
  import opened Floats
  import opened Kernels
  import opened Mindex
  import opened RotaryPositions
  import opened Transformer
  import A = Attention

  // ----- weights by layer, and by layer and head

  lemma LayerCell(layers: nat, rows: nat, cols: nat, l: nat, e: nat, k: nat)
    requires l < layers && e < rows && k < cols
    ensures var x := MINDEX2(rows, cols, e, k);
            0 <= x < rows * cols && MINDEX3(layers, rows, cols, l, e, k) == l * (rows * cols) + x
    ensures 0 <= MINDEX3(layers, rows, cols, l, e, k) < layers * (rows * cols)
  {
    Mindex2Injective(rows, cols, e, k, e, k);
    RowInside(layers, rows * cols, l);
    assert l * rows * cols == l * (rows * cols);
  }

  /** Row e of the matrix of layer l. */
  function LayerRow(r: Reals, w: Vec, layers: nat, rows: nat, cols: nat, l: nat, e: nat): (v: seq<real>)
    requires |w| == layers * (rows * cols) && l < layers && e < rows
    ensures |v| == cols
    ensures forall k :: 0 <= k < cols ==>
              var x := MINDEX3(layers, rows, cols, l, e, k); 0 <= x < |w| && v[k] == r.val(w[x])
  {
    assert forall k :: 0 <= k < cols ==> 0 <= MINDEX3(layers, rows, cols, l, e, k) < |w| by {
      forall k | 0 <= k < cols
        ensures 0 <= MINDEX3(layers, rows, cols, l, e, k) < |w|
      {
        LayerCell(layers, rows, cols, l, e, k);
      }
    }
    seq(cols, k requires 0 <= k < cols => r.val(w[MINDEX3(layers, rows, cols, l, e, k)]))
  }

  lemma LayerRowIs(r: Reals, w: Vec, layers: nat, rows: nat, cols: nat, l: nat, e: nat)
    requires |w| == layers * (rows * cols) && l < layers && e < rows
    ensures |WeightOf(w, layers, rows * cols, l)| == rows * cols
    ensures WeightRow(r, WeightOf(w, layers, rows * cols, l), rows, cols, e) == LayerRow(r, w, layers, rows, cols, l, e)
  {
    hide MINDEX2, MINDEX3;
    var block := WeightOf(w, layers, rows * cols, l);
    forall k | 0 <= k < cols
      ensures WeightRow(r, block, rows, cols, e)[k] == LayerRow(r, w, layers, rows, cols, l, e)[k]
    {
      LayerCell(layers, rows, cols, l, e, k);
      CellOfRow(w, layers, rows * cols, l, MINDEX2(rows, cols, e, k), MINDEX3(layers, rows, cols, l, e, k));
    }
  }

  lemma HeadCell(layers: nat, heads: nat, rows: nat, cols: nat, l: nat, h: nat, e: nat, k: nat)
    requires l < layers && h < heads && e < rows && k < cols
    ensures var x := MINDEX2(rows, cols, e, k);
            0 <= x < rows * cols
            && MINDEX4(layers, heads, rows, cols, l, h, e, k) == RowIn2(heads, l, h) * (rows * cols) + x
    ensures 0 <= MINDEX4(layers, heads, rows, cols, l, h, e, k) < layers * heads * (rows * cols)
  {
    Mindex2Injective(rows, cols, e, k, e, k);
    RowIn2Bounds(layers, heads, l, h);
    RowInside(layers * heads, rows * cols, RowIn2(heads, l, h));
    FourFactors(l, heads, h, rows, cols);
  }

  lemma FourFactors(l: int, heads: int, h: int, rows: int, cols: int)
    ensures (l * heads + h) * (rows * cols) == l * heads * rows * cols + h * rows * cols
  {
    assert (l * heads + h) * (rows * cols) == l * heads * (rows * cols) + h * (rows * cols);
    assert l * heads * (rows * cols) == l * heads * rows * cols;
    assert h * (rows * cols) == h * rows * cols;
  }

  /** Row e of the matrix of head h of layer l. */
  function HeadRow(r: Reals, w: Vec, layers: nat, heads: nat, rows: nat, cols: nat, l: nat, h: nat, e: nat)
    : (v: seq<real>)
    requires |w| == layers * heads * (rows * cols) && l < layers && h < heads && e < rows
    ensures |v| == cols
    ensures forall k :: 0 <= k < cols ==>
              var x := MINDEX4(layers, heads, rows, cols, l, h, e, k); 0 <= x < |w| && v[k] == r.val(w[x])
  {
    assert forall k :: 0 <= k < cols ==> 0 <= MINDEX4(layers, heads, rows, cols, l, h, e, k) < |w| by {
      forall k | 0 <= k < cols
        ensures 0 <= MINDEX4(layers, heads, rows, cols, l, h, e, k) < |w|
      {
        HeadCell(layers, heads, rows, cols, l, h, e, k);
      }
    }
    seq(cols, k requires 0 <= k < cols => r.val(w[MINDEX4(layers, heads, rows, cols, l, h, e, k)]))
  }

  lemma HeadRowIs(r: Reals, w: Vec, layers: nat, heads: nat, rows: nat, cols: nat, l: nat, h: nat, e: nat)
    requires |w| == layers * heads * (rows * cols) && l < layers && h < heads && e < rows
    ensures |HeadWeightOf(w, layers, heads, rows * cols, l, h)| == rows * cols
    ensures WeightRow(r, HeadWeightOf(w, layers, heads, rows * cols, l, h), rows, cols, e)
         == HeadRow(r, w, layers, heads, rows, cols, l, h, e)
  {
    hide MINDEX2, MINDEX4, RowIn2;
    RowIn2Bounds(layers, heads, l, h);
    var block := HeadWeightOf(w, layers, heads, rows * cols, l, h);
    forall k | 0 <= k < cols
      ensures WeightRow(r, block, rows, cols, e)[k] == HeadRow(r, w, layers, heads, rows, cols, l, h, e)[k]
    {
      HeadCell(layers, heads, rows, cols, l, h, e, k);
      CellOfRow(w, layers * heads, rows * cols, RowIn2(heads, l, h), MINDEX2(rows, cols, e, k),
                MINDEX4(layers, heads, rows, cols, l, h, e, k));
    }
  }

  // ----- the projections

  function Inner(v: seq<real>, w: seq<real>): real
    requires |v| == |w|
  {
    Sum(Products(v, w), |v|)
  }

  /** A projection by the matrix of a layer. */
  lemma LayerProjection(ops: Ops, r: Reals, w: Vec, layers: nat, rows: nat, l: nat, x: Vec, e: nat)
    requires Exact(ops, r) && |w| == layers * (rows * |x|) && l < layers && e < rows
    ensures r.val(MatvecOf(ops, rows, x, WeightOf(w, layers, rows * |x|, l))[e])
         == Inner(r.Vals(x), LayerRow(r, w, layers, rows, |x|, l, e))
  {
    hide Exact, MatvecOf, WeightOf, Sum;
    LayerRowIs(r, w, layers, rows, |x|, l, e);
    MatvecIsProduct(ops, r, rows, x, WeightOf(w, layers, rows * |x|, l), e);
  }

  /** A projection by the matrix of a head. */
  lemma HeadProjection(ops: Ops, r: Reals, w: Vec, layers: nat, heads: nat, rows: nat, l: nat, h: nat, x: Vec, e: nat)
    requires Exact(ops, r) && |w| == layers * heads * (rows * |x|) && l < layers && h < heads && e < rows
    ensures r.val(MatvecOf(ops, rows, x, HeadWeightOf(w, layers, heads, rows * |x|, l, h))[e])
         == Inner(r.Vals(x), HeadRow(r, w, layers, heads, rows, |x|, l, h, e))
  {
    hide Exact, MatvecOf, HeadWeightOf, Sum;
    HeadRowIs(r, w, layers, heads, rows, |x|, l, h, e);
    MatvecIsProduct(ops, r, rows, x, HeadWeightOf(w, layers, heads, rows * |x|, l, h), e);
  }

  /** The product of row e of a head's matrix with a normalised row, for every e. */
  function Projected(m: Model, r: Reals, w: Vec, heads: nat, l: nat, h: nat, n: Vec): (v: seq<real>)
    requires |w| == m.layerCount * heads * (m.headDim * m.embeddingDim) && |n| == m.embeddingDim
    requires l < m.layerCount && h < heads
    ensures |v| == m.headDim
    ensures forall e :: 0 <= e < |v| ==>
              v[e] == Inner(r.Vals(n), HeadRow(r, w, m.layerCount, heads, m.headDim, m.embeddingDim, l, h, e))
  {
    seq(m.headDim, e requires 0 <= e < m.headDim =>
      Inner(r.Vals(n), HeadRow(r, w, m.layerCount, heads, m.headDim, m.embeddingDim, l, h, e)))
  }

  lemma QueryIs(m: Model, r: Reals, l: nat, q: nat, n: Vec)
    requires m.Valid() && Exact(m.ops, r) && l < m.layerCount && q < m.qHeadCount && |n| == m.embeddingDim
    ensures r.Vals(QProjection(m, l, q, n)) == Projected(m, r, m.mhaQWeight, m.qHeadCount, l, q, n)
  {
    hide Exact, MatvecOf, HeadWeightOf, Inner;
    forall e: nat | e < m.headDim
      ensures r.val(QProjection(m, l, q, n)[e]) == Projected(m, r, m.mhaQWeight, m.qHeadCount, l, q, n)[e]
    {
      HeadProjection(m.ops, r, m.mhaQWeight, m.layerCount, m.qHeadCount, m.headDim, l, q, n, e);
    }
  }

  lemma ProjectionIsExact(m: Model, r: Reals, w: Vec, l: nat, h: nat, n: Vec)
    requires Exact(m.ops, r) && l < m.layerCount && h < m.kvHeadCount && |n| == m.embeddingDim
    requires |w| == m.layerCount * m.kvHeadCount * (m.headDim * m.embeddingDim)
    ensures r.Vals(ProjectionOf(m, w, l, h, n)) == Projected(m, r, w, m.kvHeadCount, l, h, n)
  {
    hide Exact, MatvecOf, HeadWeightOf, Inner;
    forall e: nat | e < m.headDim
      ensures r.val(ProjectionOf(m, w, l, h, n)[e]) == Projected(m, r, w, m.kvHeadCount, l, h, n)[e]
    {
      HeadProjection(m.ops, r, w, m.layerCount, m.kvHeadCount, m.headDim, l, h, n, e);
    }
  }

  // ----- the attention of a token

  /** The normalised embedding of token p when it enters layer l. */
  function Normed(m: Model, tokens: seq<nat>, l: nat, p: nat): (n: Vec)
    requires m.Valid() && TokensOk(m, tokens) && p < |tokens| && l < m.layerCount
    ensures |n| == m.embeddingDim
  {
    NormOf(m, l, Embedding(m, tokens, l, p))
  }

  /** The exponentials of the scores of query head q of token i against the tokens up to it. */
  ghost function ScoreWeights(m: Model, r: Reals, tokens: seq<nat>, l: nat, i: nat, q: nat): (w: seq<real>)
    requires m.Valid() && TokensOk(m, tokens) && i < |tokens| && l < m.layerCount && q < m.qHeadCount
    requires PowLaws(r) && r.sqrt(m.headDim as real) != 0.0
    ensures |w| == i + 1
    ensures forall p :: 0 <= p <= i ==> w[p] == ScoreWeight(m, r, tokens, l, i, q, p)
  {
    seq(i + 1, p requires 0 <= p <= i => ScoreWeight(m, r, tokens, l, i, q, p))
  }

  /** The query and the key are projected, turned by their positions, multiplied, and scaled. */
  ghost function ScoreWeight(m: Model, r: Reals, tokens: seq<nat>, l: nat, i: nat, q: nat, p: nat): real
    requires m.Valid() && TokensOk(m, tokens) && i < |tokens| && l < m.layerCount && q < m.qHeadCount && p <= i
    requires PowLaws(r) && r.sqrt(m.headDim as real) != 0.0
  {
    var query := Projected(m, r, m.mhaQWeight, m.qHeadCount, l, q, Normed(m, tokens, l, i));
    var key := Projected(m, r, m.mhaKWeight, m.kvHeadCount, l, A.KvHead(m, q), Normed(m, tokens, l, p));
    r.exp(RelativeScore(r, query, key, i - p, m.headDim / 2) / r.sqrt(m.headDim as real))
  }

  /** Coordinate e of the values that query head q averages. */
  function HeadValues(m: Model, r: Reals, tokens: seq<nat>, l: nat, i: nat, q: nat, e: nat): (v: seq<real>)
    requires m.Valid() && TokensOk(m, tokens) && i < |tokens| && l < m.layerCount && q < m.qHeadCount && e < m.headDim
    ensures |v| == i + 1
    ensures forall p :: 0 <= p <= i ==>
              v[p] == Projected(m, r, m.mhaVWeight, m.kvHeadCount, l, A.KvHead(m, q), Normed(m, tokens, l, p))[e]
  {
    seq(i + 1, p requires 0 <= p <= i =>
      Projected(m, r, m.mhaVWeight, m.kvHeadCount, l, A.KvHead(m, q), Normed(m, tokens, l, p))[e])
  }

  lemma KeyScore(m: Model, r: Reals, tokens: seq<nat>, l: nat, i: nat, q: nat, p: nat)
    requires m.Valid() && TokensOk(m, tokens) && i < |tokens| && l < m.layerCount && q < m.qHeadCount && p <= i
    requires Exact(m.ops, r) && PowLaws(r) && AngleLaws(r)
    ensures var query := RopeOf(m.ops, QProjection(m, l, q, Normed(m, tokens, l, i)), i);
            Sum(Products(r.Vals(query), r.Vals(Key(m, tokens, l, A.KvHead(m, q), p))), m.headDim)
              == RelativeScore(r, Projected(m, r, m.mhaQWeight, m.qHeadCount, l, q, Normed(m, tokens, l, i)),
                               Projected(m, r, m.mhaKWeight, m.kvHeadCount, l, A.KvHead(m, q), Normed(m, tokens, l, p)),
                               i - p, m.headDim / 2)
  {
    var h, ni, np := A.KvHead(m, q), Normed(m, tokens, l, i), Normed(m, tokens, l, p);
    assert Key(m, tokens, l, h, p) == RopeOf(m.ops, ProjectionOf(m, m.mhaKWeight, l, h, np), p);
    assert m.headDim == 2 * (m.headDim / 2);
    QueryIs(m, r, l, q, ni);
    ProjectionIsExact(m, r, m.mhaKWeight, l, h, np);
    hide Exact, PowLaws, AngleLaws, RopeOf, QProjection, ProjectionOf, Projected, RelativeScore, Normed, A.KvHead, Sum,
         Products, Key, Embedding;
    ScoreIsRelative(m.ops, r, QProjection(m, l, q, ni), ProjectionOf(m, m.mhaKWeight, l, h, np), i, p, m.headDim / 2);
  }

  lemma WeightsOfHead(m: Model, r: Reals, tokens: seq<nat>, l: nat, i: nat, q: nat)
    requires m.Valid() && TokensOk(m, tokens) && i < |tokens| && l < m.layerCount && q < m.qHeadCount
    requires Exact(m.ops, r) && PowLaws(r) && AngleLaws(r) && r.sqrt(m.headDim as real) != 0.0
    ensures var query := RopeOf(m.ops, QProjection(m, l, q, Normed(m, tokens, l, i)), i);
            AttentionWeights(r, query, KeysUpTo(m, tokens, l, i)[A.KvHead(m, q)]) == ScoreWeights(m, r, tokens, l, i, q)
  {
    hide Exact, PowLaws, AngleLaws, RopeOf, QProjection, Projected, RelativeScore, Normed, A.KvHead, Sum, Products,
         Key, Embedding;
    var query := RopeOf(m.ops, QProjection(m, l, q, Normed(m, tokens, l, i)), i);
    var ks := KeysUpTo(m, tokens, l, i)[A.KvHead(m, q)];
    forall p: nat | p <= i
      ensures AttentionWeights(r, query, ks)[p] == ScoreWeight(m, r, tokens, l, i, q, p)
    {
      assert ks[p] == Key(m, tokens, l, A.KvHead(m, q), p);
      KeyScore(m, r, tokens, l, i, q, p);
    }
  }

  lemma ValuesOfHead(m: Model, r: Reals, tokens: seq<nat>, l: nat, i: nat, q: nat, e: nat)
    requires m.Valid() && TokensOk(m, tokens) && i < |tokens| && l < m.layerCount && q < m.qHeadCount && e < m.headDim
    requires Exact(m.ops, r)
    ensures Coordinate(r, ValuesUpTo(m, tokens, l, i)[A.KvHead(m, q)], m.headDim, e)
            == HeadValues(m, r, tokens, l, i, q, e)
  {
    hide Exact, ProjectionOf, Projected, NormOf, A.KvHead, Embedding;
    var h := A.KvHead(m, q);
    forall p: nat | p <= i
      ensures r.val(ValuesUpTo(m, tokens, l, i)[h][p][e])
           == Projected(m, r, m.mhaVWeight, m.kvHeadCount, l, h, Normed(m, tokens, l, p))[e]
    {
      assert ValuesUpTo(m, tokens, l, i)[h][p] == Value(m, tokens, l, h, p);
      ProjectionIsExact(m, r, m.mhaVWeight, l, h, Normed(m, tokens, l, p));
    }
  }

  lemma {:induction false} ConcatAt(k: nat, dim: nat, rows: seq<Vec>, q: nat, e: nat)
    requires k <= |rows| && AllOfLength(rows, dim) && q < k && e < dim
    ensures q * dim + e < |ConcatHeads(k, dim, rows)| && ConcatHeads(k, dim, rows)[q * dim + e] == rows[q][e]
  {
    RowInside(k, dim, q);
    if q < k - 1 {
      ConcatAt(k - 1, dim, rows, q, e);
    }
  }

  lemma HeadInAttention(m: Model, tokens: seq<nat>, l: nat, i: nat, q: nat, e: nat)
    requires m.Valid() && TokensOk(m, tokens) && i < |tokens| && l < m.layerCount && q < m.qHeadCount && e < m.headDim
    ensures var ks, vs, n := KeysUpTo(m, tokens, l, i), ValuesUpTo(m, tokens, l, i), Normed(m, tokens, l, i);
            && 0 <= q * m.headDim + e < m.embeddingDim
            && AttentionOf(m, l, n, i, ks, vs)[q * m.headDim + e]
                 == HeadOf(m.ops, RopeOf(m.ops, QProjection(m, l, q, n), i), ks[A.KvHead(m, q)], vs[A.KvHead(m, q)])[e]
  {
    hide RopeOf, QProjection, HeadOf, KeysUpTo, ValuesUpTo, Normed, ConcatHeads;
    var ks, vs, n := KeysUpTo(m, tokens, l, i), ValuesUpTo(m, tokens, l, i), Normed(m, tokens, l, i);
    var rows := seq(m.qHeadCount, h requires 0 <= h < m.qHeadCount => QueryHeadOf(m, l, h, n, i, ks, vs));
    RowInside(m.qHeadCount, m.headDim, q);
    ConcatAt(m.qHeadCount, m.headDim, rows, q, e);
  }

  /**
   Coordinate e of query head q of a token is the average of the projected values of the tokens up to it, each
   weighted by the exponential of its score, which depends on the distance of the two tokens.
   */
  lemma AttentionIsAverage(m: Model, r: Reals, tokens: seq<nat>, l: nat, i: nat, q: nat, e: nat)
    requires m.Valid() && TokensOk(m, tokens) && i < |tokens| && l < m.layerCount && q < m.qHeadCount && e < m.headDim
    requires Exact(m.ops, r) && PowLaws(r) && AngleLaws(r) && ExpLaw(r) && SqrtLaw(r)
    ensures r.sqrt(m.headDim as real) > 0.0 && 0 <= q * m.headDim + e < m.embeddingDim
    ensures var w := ScoreWeights(m, r, tokens, l, i, q);
            var att := AttentionOf(m, l, Normed(m, tokens, l, i), i, KeysUpTo(m, tokens, l, i),
                                   ValuesUpTo(m, tokens, l, i));
            Times(r.val(att[q * m.headDim + e]), Sum(w, |w|)) == Inner(w, HeadValues(m, r, tokens, l, i, q, e))
  {
    RootPositive(r, m.headDim as real);
    hide Exact, PowLaws, AngleLaws, ExpLaw, SqrtLaw, RopeOf, QProjection, HeadOf, KeysUpTo, ValuesUpTo, Normed,
         AttentionOf, A.KvHead, Sum, Products, Times, AttentionWeights, Coordinate, ScoreWeights, HeadValues,
         Projected;
    var h := A.KvHead(m, q);
    var query := RopeOf(m.ops, QProjection(m, l, q, Normed(m, tokens, l, i)), i);
    HeadInAttention(m, tokens, l, i, q, e);
    WeightsOfHead(m, r, tokens, l, i, q);
    ValuesOfHead(m, r, tokens, l, i, q, e);
    AttentionIs(m.ops, r, query, KeysUpTo(m, tokens, l, i)[h], ValuesUpTo(m, tokens, l, i)[h], e);
  }

  // ----- the output projections, the feed-forward network and the logits

  lemma AttentionOutputIs(m: Model, r: Reals, l: nat, att: Vec, e: nat)
    requires m.Valid() && Exact(m.ops, r) && l < m.layerCount && |att| == m.embeddingDim && e < m.embeddingDim
    ensures r.val(ProjectedAttention(m, l, att)[e])
         == Inner(r.Vals(att), LayerRow(r, m.mhaOutWeight, m.layerCount, m.embeddingDim, m.embeddingDim, l, e))
  {
    hide Exact, MatvecOf, WeightOf, Inner;
    LayerProjection(m.ops, r, m.mhaOutWeight, m.layerCount, m.embeddingDim, l, att, e);
  }

  /** Unit k of the feed-forward network of layer l: the gate f / (1 + exp(-f)) times u. */
  lemma HiddenUnitIs(m: Model, r: Reals, l: nat, n: Vec, k: nat)
    requires m.Valid() && Exact(m.ops, r) && ExpLaw(r) && l < m.layerCount && |n| == m.embeddingDim && k < m.hiddenDim
    ensures var f := Inner(r.Vals(n), LayerRow(r, m.ffnFcWeight, m.layerCount, m.hiddenDim, m.embeddingDim, l, k));
            var u := Inner(r.Vals(n), LayerRow(r, m.ffnUpWeight, m.layerCount, m.hiddenDim, m.embeddingDim, l, k));
            Times(r.val(SwigluOf(m.ops, FcOf(m, l, n), UpOf(m, l, n))[k]), 1.0 + r.exp(-f)) == Times(f, u)
  {
    hide Exact, ExpLaw, MatvecOf, WeightOf, Inner, SwigluOf, Times;
    LayerProjection(m.ops, r, m.ffnFcWeight, m.layerCount, m.hiddenDim, l, n, k);
    LayerProjection(m.ops, r, m.ffnUpWeight, m.layerCount, m.hiddenDim, l, n, k);
    SwigluIs(m.ops, r, FcOf(m, l, n), UpOf(m, l, n), k);
  }

  lemma FfnOutputIs(m: Model, r: Reals, l: nat, n: Vec, e: nat)
    requires m.Valid() && Exact(m.ops, r) && l < m.layerCount && |n| == m.embeddingDim && e < m.embeddingDim
    ensures r.val(ProjectedFfn(m, l, n)[e])
         == Inner(r.Vals(SwigluOf(m.ops, FcOf(m, l, n), UpOf(m, l, n))),
                  LayerRow(r, m.ffnOutWeight, m.layerCount, m.embeddingDim, m.hiddenDim, l, e))
  {
    hide Exact, MatvecOf, WeightOf, Inner, SwigluOf, FcOf, UpOf;
    LayerProjection(m.ops, r, m.ffnOutWeight, m.layerCount, m.embeddingDim, l,
                    SwigluOf(m.ops, FcOf(m, l, n), UpOf(m, l, n)),
                    e);
  }

  function MeanSquare(r: Reals, x: Vec): real
    requires |x| > 0
  {
    Inner(r.Vals(x), r.Vals(x)) / |x| as real
  }

  /** A row is normalised by one positive factor and the weights w from position o of a buffer on. */
  ghost predicate IsNormalised(r: Reals, y: Vec, x: Vec, w: Vec, o: nat, epsilon: real) {
    && |y| == |x| > 0 && o + |x| <= |w|
    && exists s: real :: s > 0.0 && Normalises(r, y, x, w, o, epsilon, s)
  }

  ghost predicate Normalises(r: Reals, y: Vec, x: Vec, w: Vec, o: nat, epsilon: real, s: real)
    requires |y| == |x| > 0 && o + |x| <= |w|
  {
    && Times(Times(s, s), MeanSquare(r, x) + epsilon) == 1.0
    && forall j :: 0 <= j < |x| ==> r.val(y[j]) == Times(r.val(w[o + j]), Times(s, r.val(x[j])))
  }

  lemma NormIs(ops: Ops, r: Reals, x: Vec, w: Vec, o: nat, epsilon: Float)
    requires Exact(ops, r) && SqrtLaw(r) && |x| > 0 && o + |x| <= |w|
    requires MeanSquare(r, x) + r.val(epsilon) > 0.0
    ensures IsNormalised(r, RmsnormOf(ops, x, w[o..o + |x|], epsilon), x, w, o, r.val(epsilon))
  {
    hide Exact, SqrtLaw, RmsnormOf, Sum, Products, Times;
    var s := RmsnormIs(ops, r, x, w[o..o + |x|], epsilon);
    assert Normalises(r, RmsnormOf(ops, x, w[o..o + |x|], epsilon), x, w, o, r.val(epsilon), s);
  }

  /** Where the weights of layer l start in a buffer of n weights for each. */
  function LayerStart(l: nat, n: nat): nat {
    MulNonNegative(l, n);
    l * n
  }

  /** The two normalisations of a layer use that layer's weights, each its own. */
  lemma NormsAre(m: Model, r: Reals, l: nat, x: Vec)
    requires m.Valid() && Exact(m.ops, r) && SqrtLaw(r) && l < m.layerCount && |x| == m.embeddingDim > 0
    requires MeanSquare(r, x) + r.val(m.epsilon) > 0.0
    ensures IsNormalised(r, NormOf(m, l, x), x, m.mhaNormWeight, LayerStart(l, |x|), r.val(m.epsilon))
    ensures IsNormalised(r, FfnNormOf(m, l, x), x, m.ffnNormWeight, LayerStart(l, |x|), r.val(m.epsilon))
  {
    hide Exact, SqrtLaw, RmsnormOf, MeanSquare, IsNormalised;
    RowInside(m.layerCount, m.embeddingDim, l);
    NormIs(m.ops, r, x, m.mhaNormWeight, LayerStart(l, |x|), m.epsilon);
    NormIs(m.ops, r, x, m.ffnNormWeight, LayerStart(l, |x|), m.epsilon);
  }

  /** The last one uses those of the output. */
  lemma OutputNormIs(m: Model, r: Reals, x: Vec)
    requires m.Valid() && Exact(m.ops, r) && SqrtLaw(r) && |x| == m.embeddingDim > 0
    requires MeanSquare(r, x) + r.val(m.epsilon) > 0.0
    ensures IsNormalised(r, RmsnormOf(m.ops, x, m.outNormWeight, m.epsilon), x, m.outNormWeight, 0, r.val(m.epsilon))
  {
    hide Exact, SqrtLaw, RmsnormOf, MeanSquare, IsNormalised;
    assert m.outNormWeight[0..0 + |x|] == m.outNormWeight;
    NormIs(m.ops, r, x, m.outNormWeight, 0, m.epsilon);
  }

  /** The logit of a word: the product of its row of the output weights with the normalised embedding. */
  lemma LogitIs(m: Model, r: Reals, x: Vec, word: nat)
    requires m.Valid() && Exact(m.ops, r) && |x| == m.embeddingDim && word < m.vocabularyLen
    ensures r.val(LogitsOf(m, x)[word])
         == Inner(r.Vals(RmsnormOf(m.ops, x, m.outNormWeight, m.epsilon)),
                  WeightRow(r, m.outWeight, m.vocabularyLen, m.embeddingDim, word))
  {
    hide Exact, MatvecOf, RmsnormOf, Sum;
    MatvecIsProduct(m.ops, r, m.vocabularyLen, RmsnormOf(m.ops, x, m.outNormWeight, m.epsilon), m.outWeight, word);
  }
}
