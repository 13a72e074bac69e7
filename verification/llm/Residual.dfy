/**
 What the residual connections are for: what a layer adds to an embedding is what its two output
 projections give, and a layer whose projections are zero passes every token through unchanged.
 */
module Residual {
  import opened Floats
  import opened Mindex
  import opened Kernels
  import opened Transformer

  /** Zero is neutral for addition and absorbs products. */
  ghost predicate ZeroLaws(ops: Ops) {
    forall a :: ops.add(a, ops.zero) == a && ops.mul(a, ops.zero) == ops.zero
  }

  predicate AllZero(ops: Ops, w: Vec) { forall k :: 0 <= k < |w| ==> w[k] == ops.zero }

  lemma {:induction false} DotWithZeros(ops: Ops, x: Vec, w: Vec, n: nat)
    requires n <= |x| && n <= |w| && ZeroLaws(ops) && AllZero(ops, w)
    ensures Dot(ops, x, w, n) == ops.zero
  {
    if n > 0 {
      DotWithZeros(ops, x, w, n - 1);
      assert ops.add(ops.zero, ops.zero) == ops.zero;
    }
  }

  lemma MatvecWithZeros(ops: Ops, cols: nat, x: Vec, w: Vec)
    requires |w| == cols * |x| && ZeroLaws(ops) && AllZero(ops, w)
    ensures AllZero(ops, MatvecOf(ops, cols, x, w))
  {
    forall j | 0 <= j < cols
      ensures MatvecOf(ops, cols, x, w)[j] == ops.zero
    {
      RowInside(cols, |x|, j);
      DotWithZeros(ops, x, Row(w, cols, |x|, j), |x|);
    }
  }

  lemma AddZeros(ops: Ops, x: Vec, y: Vec)
    requires |x| == |y| && ZeroLaws(ops) && AllZero(ops, y)
    ensures AddTo(ops, x, y) == x
  {
  }

  /** Both output projections of layer l are zero. */
  predicate Silent(m: Model, l: nat)
    requires m.Valid() && l < m.layerCount
  {
    && AllZero(m.ops, WeightOf(m.mhaOutWeight, m.layerCount, m.embeddingDim * m.embeddingDim, l))
    && AllZero(m.ops, WeightOf(m.ffnOutWeight, m.layerCount, m.embeddingDim * m.hiddenDim, l))
  }

  lemma SilentAttention(m: Model, l: nat, x: Vec, att: Vec)
    requires m.Valid() && l < m.layerCount && |x| == m.embeddingDim && |att| == m.embeddingDim
    requires ZeroLaws(m.ops) && Silent(m, l)
    ensures AfterAttention(m, l, x, att) == x
  {
    hide AddTo, WeightOf, MatvecOf, ZeroLaws;
    var w := WeightOf(m.mhaOutWeight, m.layerCount, m.embeddingDim * m.embeddingDim, l);
    MatvecWithZeros(m.ops, m.embeddingDim, att, w);
    AddZeros(m.ops, x, MatvecOf(m.ops, m.embeddingDim, att, w));
  }

  lemma SilentFfn(m: Model, l: nat, x: Vec)
    requires m.Valid() && l < m.layerCount && |x| == m.embeddingDim
    requires ZeroLaws(m.ops) && Silent(m, l)
    ensures AfterFfn(m, l, x) == x
  {
    hide AddTo, WeightOf, MatvecOf, ZeroLaws, FfnNormOf, FcOf, UpOf, SwigluOf;
    var w, n := WeightOf(m.ffnOutWeight, m.layerCount, m.embeddingDim * m.hiddenDim, l), FfnNormOf(m, l, x);
    var y := SwigluOf(m.ops, FcOf(m, l, n), UpOf(m, l, n));
    MatvecWithZeros(m.ops, m.embeddingDim, y, w);
    AddZeros(m.ops, x, MatvecOf(m.ops, m.embeddingDim, y, w));
  }

  /** A layer whose output projections are zero is the identity on every token. */
  lemma SilentLayerIsIdentity(m: Model, tokens: seq<nat>, l: nat, i: nat)
    requires m.Valid() && TokensOk(m, tokens) && i < |tokens| && l < m.layerCount
    requires ZeroLaws(m.ops) && Silent(m, l)
    ensures Embedding(m, tokens, l + 1, i) == Embedding(m, tokens, l, i)
  {
    hide Silent, AfterAttention, AfterFfn, AttentionOf, NormOf, KeysUpTo, ValuesUpTo, ZeroLaws;
    var x := Embedding(m, tokens, l, i);
    var att := AttentionOf(m, l, NormOf(m, l, x), i, KeysUpTo(m, tokens, l, i), ValuesUpTo(m, tokens, l, i));
    SilentAttention(m, l, x, att);
    SilentFfn(m, l, x);
  }

  lemma SilentEverywhere(m: Model, l: nat)
    requires m.Valid() && l < m.layerCount && AllZero(m.ops, m.mhaOutWeight) && AllZero(m.ops, m.ffnOutWeight)
    ensures Silent(m, l)
  {
    RowInside(m.layerCount, m.embeddingDim * m.embeddingDim, l);
    RowInside(m.layerCount, m.embeddingDim * m.hiddenDim, l);
  }

  lemma FirstEmbedding(m: Model, tokens: seq<nat>, i: nat)
    requires m.Valid() && TokensOk(m, tokens) && i < |tokens|
    ensures Embedding(m, tokens, 0, i) == Row(m.embeddingWeight, m.vocabularyLen, m.embeddingDim, tokens[i])
  {
  }

  /** A model whose output projections are all zero ends with the embeddings that it started from. */
  lemma {:induction false} SilentModelKeepsEmbeddings(m: Model, tokens: seq<nat>, l: nat, i: nat)
    requires m.Valid() && TokensOk(m, tokens) && i < |tokens| && l <= m.layerCount
    requires ZeroLaws(m.ops) && AllZero(m.ops, m.mhaOutWeight) && AllZero(m.ops, m.ffnOutWeight)
    ensures Embedding(m, tokens, l, i) == Row(m.embeddingWeight, m.vocabularyLen, m.embeddingDim, tokens[i])
  {
    hide Embedding, ZeroLaws, Silent, AllZero, Row;
    if l == 0 {
      FirstEmbedding(m, tokens, i);
    } else {
      SilentModelKeepsEmbeddings(m, tokens, l - 1, i);
      SilentEverywhere(m, l - 1);
      SilentLayerIsIdentity(m, tokens, l - 1, i);
    }
  }
}
