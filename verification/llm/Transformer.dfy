/**
 The transformer as a function: what each token's embedding is after each layer, and
 what the key and value caches hold. A token depends on the tokens before it only
 through the keys and values of the same layer, which is what makes it possible to
 run the layers one after the other over all the tokens at once.
 */
module Transformer {
  import opened Floats
  import opened Mindex
  import opened Kernels

  datatype Model = Model(
    ops: Ops, epsilon: Float,
    vocabularyLen: nat, contextLen: nat, layerCount: nat,
    qHeadCount: nat, kvHeadCount: nat, qHeadPerKvHeadCount: nat,
    embeddingDim: nat, headDim: nat, hiddenDim: nat,
    embeddingWeight: Vec, mhaNormWeight: Vec, mhaQWeight: Vec, mhaKWeight: Vec, mhaVWeight: Vec, mhaOutWeight: Vec,
    ffnNormWeight: Vec, ffnFcWeight: Vec, ffnUpWeight: Vec, ffnOutWeight: Vec, outNormWeight: Vec, outWeight: Vec)
  {
    /** The buffers have the sizes their indices assume, every query head has a key head, heads
        have an even number of coordinates (rope takes them in pairs) and fill the embedding. */
    predicate Valid() {
      && headDim % 2 == 0
      && qHeadPerKvHeadCount >= 1
      && (forall q: nat :: q < qHeadCount ==> q / qHeadPerKvHeadCount < kvHeadCount)
      && qHeadCount * headDim == embeddingDim
      && |embeddingWeight| == vocabularyLen * embeddingDim
      && |mhaNormWeight| == layerCount * embeddingDim
      && |mhaQWeight| == layerCount * qHeadCount * (headDim * embeddingDim)
      && |mhaKWeight| == layerCount * kvHeadCount * (headDim * embeddingDim)
      && |mhaVWeight| == layerCount * kvHeadCount * (headDim * embeddingDim)
      && |mhaOutWeight| == layerCount * (embeddingDim * embeddingDim)
      && |ffnNormWeight| == layerCount * embeddingDim
      && |ffnFcWeight| == layerCount * (hiddenDim * embeddingDim)
      && |ffnUpWeight| == layerCount * (hiddenDim * embeddingDim)
      && |ffnOutWeight| == layerCount * (embeddingDim * hiddenDim)
      && |outNormWeight| == embeddingDim
      && |outWeight| == vocabularyLen * embeddingDim
    }

    function CacheRows(): nat {
      RowCount(layerCount, kvHeadCount, contextLen)
    }

    function CacheSize(): nat {
      MulNonNegative(CacheRows(), headDim);
      CacheRows() * headDim
    }
  }

  function RowCount(a: nat, b: nat, c: nat): nat {
    MulNonNegative(a, b);
    MulNonNegative(a * b, c);
    a * b * c
  }

  // ----- the weights of one layer and head

  function WeightOf(w: Vec, layers: nat, size: nat, l: nat): (block: Vec)
    requires |w| == layers * size && l < layers
    ensures |block| == size
  {
    Row(w, layers, size, l)
  }

  function HeadWeightOf(w: Vec, layers: nat, heads: nat, size: nat, l: nat, h: nat): (block: Vec)
    requires |w| == layers * heads * size && l < layers && h < heads
    ensures |block| == size
  {
    RowIn2Bounds(layers, heads, l, h);
    Row(w, RowCount(layers, heads, 1), size, RowIn2(heads, l, h))
  }

  // ----- one layer, one token

  function NormOf(m: Model, l: nat, x: Vec): (n: Vec)
    requires m.Valid() && l < m.layerCount && |x| == m.embeddingDim
    ensures |n| == m.embeddingDim
  {
    RmsnormOf(m.ops, x, WeightOf(m.mhaNormWeight, m.layerCount, m.embeddingDim, l), m.epsilon)
  }

  function QProjection(m: Model, l: nat, q: nat, n: Vec): (row: Vec)
    requires m.Valid() && l < m.layerCount && q < m.qHeadCount && |n| == m.embeddingDim
    ensures |row| == m.headDim
  {
    MatvecOf(m.ops, m.headDim, n, HeadWeightOf(m.mhaQWeight, m.layerCount, m.qHeadCount, m.headDim * m.embeddingDim,
                                               l, q))
  }

  /** The projection of a normalised row by the weights of key/value head h. */
  function ProjectionOf(m: Model, weights: Vec, l: nat, h: nat, n: Vec): (row: Vec)
    requires l < m.layerCount && h < m.kvHeadCount && |n| == m.embeddingDim
    requires |weights| == m.layerCount * m.kvHeadCount * (m.headDim * m.embeddingDim)
    ensures |row| == m.headDim
  {
    MatvecOf(m.ops, m.headDim, n, HeadWeightOf(weights, m.layerCount, m.kvHeadCount, m.headDim * m.embeddingDim, l, h))
  }

  lemma ProjectionIs(m: Model, weights: Vec, l: nat, h: nat, n: Vec)
    requires l < m.layerCount && h < m.kvHeadCount && |n| == m.embeddingDim
    requires |weights| == m.layerCount * m.kvHeadCount * (m.headDim * m.embeddingDim)
    ensures ProjectionOf(m, weights, l, h, n)
         == MatvecOf(m.ops, m.headDim, n, HeadWeightOf(weights, m.layerCount, m.kvHeadCount,
                                                       m.headDim * m.embeddingDim, l, h))
  {
  }

  predicate AllOfLength(rows: seq<Vec>, n: nat) {
    forall p :: 0 <= p < |rows| ==> |rows[p]| == n
  }

  /** The scores of a query against the keys so far. */
  function ScoresOf(ops: Ops, q: Vec, ks: seq<Vec>): (s: Vec)
    requires AllOfLength(ks, |q|)
    ensures |s| == |ks|
  {
    seq(|ks|, p requires 0 <= p < |ks| => ops.div(Dot(ops, q, ks[p], |q|), ops.sqrt(ops.ofInt(|q|))))
  }

  function BlendAt(ops: Ops, s: Vec, vs: seq<Vec>, e: nat, n: nat): Float
    requires n <= |s| && n <= |vs| && forall p :: 0 <= p < n ==> e < |vs[p]|
  {
    if n == 0 then ops.zero else ops.add(BlendAt(ops, s, vs, e, n - 1), ops.mul(s[n - 1], vs[n - 1][e]))
  }

  /** The sum of the first n values, each weighted by its score. */
  function BlendOf(ops: Ops, s: Vec, vs: seq<Vec>, dim: nat, n: nat): (b: Vec)
    requires n <= |s| && n <= |vs| && AllOfLength(vs, dim)
    ensures |b| == dim
  {
    seq(dim, e requires 0 <= e < dim => BlendAt(ops, s, vs, e, n))
  }

  /** What one query head attends to. */
  function HeadOf(ops: Ops, q: Vec, ks: seq<Vec>, vs: seq<Vec>): (b: Vec)
    requires |ks| == |vs| >= 1 && AllOfLength(ks, |q|) && AllOfLength(vs, |q|)
    ensures |b| == |q|
  {
    BlendOf(ops, SoftmaxOf(ops, ScoresOf(ops, q, ks)), vs, |q|, |vs|)
  }

  /** The keys, or the values, of every head at the positions up to the current one. */
  type History = seq<seq<Vec>>

  predicate HistoryOk(m: Model, hist: History, n: nat) {
    |hist| == m.kvHeadCount && forall h :: 0 <= h < |hist| ==> |hist[h]| == n && AllOfLength(hist[h], m.headDim)
  }

  function QueryHeadOf(m: Model, l: nat, q: nat, n: Vec, pos: nat, ks: History, vs: History): (b: Vec)
    requires m.Valid() && l < m.layerCount && q < m.qHeadCount && |n| == m.embeddingDim
    requires HistoryOk(m, ks, pos + 1) && HistoryOk(m, vs, pos + 1)
    ensures |b| == m.headDim
  {
    var h := q / m.qHeadPerKvHeadCount;
    HeadOf(m.ops, RopeOf(m.ops, QProjection(m, l, q, n), pos), ks[h], vs[h])
  }

  /** The heads side by side. */
  function AttentionOf(m: Model, l: nat, n: Vec, pos: nat, ks: History, vs: History): (att: Vec)
    requires m.Valid() && l < m.layerCount && |n| == m.embeddingDim
    requires HistoryOk(m, ks, pos + 1) && HistoryOk(m, vs, pos + 1)
    ensures |att| == m.embeddingDim
  {
    ConcatHeads(m.qHeadCount, m.headDim, seq(m.qHeadCount, q requires 0 <= q < m.qHeadCount =>
                                               QueryHeadOf(m, l, q, n, pos, ks, vs)))
  }

  /** The first k rows side by side. */
  function ConcatHeads(k: nat, dim: nat, rows: seq<Vec>): (att: Vec)
    requires k <= |rows| && AllOfLength(rows, dim)
    ensures |att| == k * dim
  {
    if k == 0 then []
    else
      assert (k - 1) * dim + dim == k * dim;
      ConcatHeads(k - 1, dim, rows) + rows[k - 1]
  }

  function AfterAttention(m: Model, l: nat, x: Vec, att: Vec): (y: Vec)
    requires m.Valid() && l < m.layerCount && |x| == m.embeddingDim && |att| == m.embeddingDim
    ensures |y| == m.embeddingDim
  {
    AddTo(m.ops, x,
      MatvecOf(m.ops, m.embeddingDim, att, WeightOf(m.mhaOutWeight, m.layerCount, m.embeddingDim * m.embeddingDim, l)))
  }

  function FfnNormOf(m: Model, l: nat, x: Vec): (n: Vec)
    requires m.Valid() && l < m.layerCount && |x| == m.embeddingDim
    ensures |n| == m.embeddingDim
  {
    RmsnormOf(m.ops, x, WeightOf(m.ffnNormWeight, m.layerCount, m.embeddingDim, l), m.epsilon)
  }

  function FcOf(m: Model, l: nat, n: Vec): (y: Vec)
    requires m.Valid() && l < m.layerCount && |n| == m.embeddingDim
    ensures |y| == m.hiddenDim
  {
    MatvecOf(m.ops, m.hiddenDim, n, WeightOf(m.ffnFcWeight, m.layerCount, m.hiddenDim * m.embeddingDim, l))
  }

  function UpOf(m: Model, l: nat, n: Vec): (y: Vec)
    requires m.Valid() && l < m.layerCount && |n| == m.embeddingDim
    ensures |y| == m.hiddenDim
  {
    MatvecOf(m.ops, m.hiddenDim, n, WeightOf(m.ffnUpWeight, m.layerCount, m.hiddenDim * m.embeddingDim, l))
  }

  function AfterFfn(m: Model, l: nat, x: Vec): (y: Vec)
    requires m.Valid() && l < m.layerCount && |x| == m.embeddingDim
    ensures |y| == m.embeddingDim
  {
    var n := FfnNormOf(m, l, x);
    AddTo(m.ops, x,
      MatvecOf(m.ops, m.embeddingDim, SwigluOf(m.ops, FcOf(m, l, n), UpOf(m, l, n)),
               WeightOf(m.ffnOutWeight, m.layerCount, m.embeddingDim * m.hiddenDim, l)))
  }

  // ----- all the layers, all the tokens

  predicate TokensOk(m: Model, tokens: seq<nat>) {
    |tokens| <= m.contextLen && forall i :: 0 <= i < |tokens| ==> tokens[i] < m.vocabularyLen
  }

  /** The embedding of token i when it enters layer l. */
  function Embedding(m: Model, tokens: seq<nat>, l: nat, i: nat): (x: Vec)
    requires m.Valid() && TokensOk(m, tokens) && i < |tokens| && l <= m.layerCount
    ensures |x| == m.embeddingDim
    decreases l, 0
  {
    if l == 0 then Row(m.embeddingWeight, m.vocabularyLen, m.embeddingDim, tokens[i])
    else
      var x := Embedding(m, tokens, l - 1, i);
      var ks := KeysUpTo(m, tokens, l - 1, i);
      var vs := ValuesUpTo(m, tokens, l - 1, i);
      AfterFfn(m, l - 1, AfterAttention(m, l - 1, x, AttentionOf(m, l - 1, NormOf(m, l - 1, x), i, ks, vs)))
  }

  /** The key that token p leaves in the cache for head h of layer l. */
  function Key(m: Model, tokens: seq<nat>, l: nat, h: nat, p: nat): (k: Vec)
    requires m.Valid() && TokensOk(m, tokens) && p < |tokens| && l < m.layerCount && h < m.kvHeadCount
    ensures |k| == m.headDim
    decreases l, 1
  {
    RopeOf(m.ops, ProjectionOf(m, m.mhaKWeight, l, h, NormOf(m, l, Embedding(m, tokens, l, p))), p)
  }

  function Value(m: Model, tokens: seq<nat>, l: nat, h: nat, p: nat): (v: Vec)
    requires m.Valid() && TokensOk(m, tokens) && p < |tokens| && l < m.layerCount && h < m.kvHeadCount
    ensures |v| == m.headDim
    decreases l, 1
  {
    ProjectionOf(m, m.mhaVWeight, l, h, NormOf(m, l, Embedding(m, tokens, l, p)))
  }

  function KeysUpTo(m: Model, tokens: seq<nat>, l: nat, i: nat): (ks: History)
    requires m.Valid() && TokensOk(m, tokens) && i < |tokens| && l < m.layerCount
    ensures HistoryOk(m, ks, i + 1)
    decreases l, 2
  {
    seq(m.kvHeadCount, h requires 0 <= h < m.kvHeadCount =>
          seq(i + 1, p requires 0 <= p < i + 1 => Key(m, tokens, l, h, p)))
  }

  function ValuesUpTo(m: Model, tokens: seq<nat>, l: nat, i: nat): (vs: History)
    requires m.Valid() && TokensOk(m, tokens) && i < |tokens| && l < m.layerCount
    ensures HistoryOk(m, vs, i + 1)
    decreases l, 2
  {
    seq(m.kvHeadCount, h requires 0 <= h < m.kvHeadCount =>
          seq(i + 1, p requires 0 <= p < i + 1 => Value(m, tokens, l, h, p)))
  }

  function LogitsOf(m: Model, x: Vec): (y: Vec)
    requires m.Valid() && |x| == m.embeddingDim
    ensures |y| == m.vocabularyLen
  {
    MatvecOf(m.ops, m.vocabularyLen, RmsnormOf(m.ops, x, m.outNormWeight, m.epsilon), m.outWeight)
  }

  // ----- causality

  predicate AgreeUpTo(tokens: seq<nat>, tokens': seq<nat>, i: nat) {
    i < |tokens| && i < |tokens'| && forall p :: 0 <= p <= i ==> tokens[p] == tokens'[p]
  }

  /** Equal embeddings leave equal keys and values. */
  lemma SameKeyAndValue(m: Model, tokens: seq<nat>, tokens': seq<nat>, l: nat, h: nat, p: nat)
    requires m.Valid() && TokensOk(m, tokens) && TokensOk(m, tokens') && l < m.layerCount && h < m.kvHeadCount
    requires p < |tokens| && p < |tokens'| && Embedding(m, tokens, l, p) == Embedding(m, tokens', l, p)
    ensures Key(m, tokens, l, h, p) == Key(m, tokens', l, h, p)
            && Value(m, tokens, l, h, p) == Value(m, tokens', l, h, p)
  {
    hide NormOf, RopeOf, ProjectionOf, Embedding;
  }

  lemma SameHistory(m: Model, tokens: seq<nat>, tokens': seq<nat>, l: nat, i: nat)
    requires m.Valid() && TokensOk(m, tokens) && TokensOk(m, tokens') && l < m.layerCount && i < |tokens|
             && i < |tokens'|
    requires forall p: nat :: p <= i ==> Embedding(m, tokens, l, p) == Embedding(m, tokens', l, p)
    ensures KeysUpTo(m, tokens, l, i) == KeysUpTo(m, tokens', l, i)
            && ValuesUpTo(m, tokens, l, i) == ValuesUpTo(m, tokens', l, i)
  {
    hide Key, Value, Embedding;
    forall h: nat, p: nat | h < m.kvHeadCount && p <= i
      ensures Key(m, tokens, l, h, p) == Key(m, tokens', l, h, p)
              && Value(m, tokens, l, h, p) == Value(m, tokens', l, h, p)
    {
      SameKeyAndValue(m, tokens, tokens', l, h, p);
    }
    forall h: nat | h < m.kvHeadCount
      ensures KeysUpTo(m, tokens, l, i)[h] == KeysUpTo(m, tokens', l, i)[h]
      ensures ValuesUpTo(m, tokens, l, i)[h] == ValuesUpTo(m, tokens', l, i)[h]
    {
    }
  }

  /**
   What a token goes through depends on the tokens up to it, and not on those that
   follow: two prompts that agree up to token i agree on its embeddings.
   */
  lemma {:induction false} Causality(m: Model, tokens: seq<nat>, tokens': seq<nat>, l: nat, i: nat)
    requires m.Valid() && TokensOk(m, tokens) && TokensOk(m, tokens') && l <= m.layerCount
             && AgreeUpTo(tokens, tokens', i)
    ensures Embedding(m, tokens, l, i) == Embedding(m, tokens', l, i)
    decreases l, i
  {
    hide AfterFfn, AfterAttention, AttentionOf, NormOf, KeysUpTo, ValuesUpTo;
    if l > 0 {
      var below: nat := l - 1;
      forall p: nat | p <= i
        ensures Embedding(m, tokens, below, p) == Embedding(m, tokens', below, p)
      {
        Causality(m, tokens, tokens', below, p);
      }
      SameHistory(m, tokens, tokens', below, i);
    }
  }
}
