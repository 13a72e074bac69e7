/**
 The reference form: one token at a time goes through all the layers, reading the keys
 and values that the tokens before it left in the caches.
 */
module TokenMajor {
  import opened Buffers
  import opened Floats
  import opened Mindex
  import opened Kernels
  import opened Transformer
  import opened Attention
  import opened PromptState
  import opened Workspaces

  // ----- stages with one row per head

  /** Row q of a q_head_count x head_dim buffer. */
  function QRow(m: Model, a: Vec, q: nat): (row: Vec)
    requires |a| == m.qHeadCount * m.headDim && q < m.qHeadCount
    ensures |row| == m.headDim
  {
    Row(a, m.qHeadCount, m.headDim, q)
  }

  /** for q: matvec(mha_q row q, mha_norm, the weights of head q) */
  method QueryProjections(m: Model, l: nat, mha_q: array<Float>, mha_norm: array<Float>)
    requires m.Valid() && l < m.layerCount && mha_q != mha_norm
    requires mha_q.Length == m.qHeadCount * m.headDim && mha_norm.Length == m.embeddingDim
    modifies mha_q
    ensures forall q: nat :: q < m.qHeadCount ==> QRow(m, mha_q[..], q) == QProjection(m, l, q, mha_norm[..])
  {
    hide Row, MatvecOf, Splice;
    for q: nat := 0 to m.qHeadCount
      invariant forall r: nat :: r < q ==> QRow(m, mha_q[..], r) == QProjection(m, l, r, mha_norm[..])
    {
      ghost var before := mha_q[..];
      RowAtPtr(before, m.qHeadCount, m.headDim, q);
      var w := HeadWeightOf(m.mhaQWeight, m.layerCount, m.qHeadCount, m.headDim * m.embeddingDim, l, q);
      assert mha_norm[0..0 + m.embeddingDim] == mha_norm[..];
      Matvec(m.ops, m.headDim, m.embeddingDim, mha_q, MINDEX2(m.qHeadCount, m.headDim, q, 0), mha_norm, 0, w);
      RowAfterSplice(before, m.qHeadCount, m.headDim, q, QProjection(m, l, q, mha_norm[..]));
    }
  }

  /** Position pos of layer l holds the projections of the normalised row; the other rows are as before. */
  ghost predicate Projected(m: Model, weights: Vec, l: nat, pos: nat, norm: Vec, after: Vec, before: Vec)
    requires l < m.layerCount && |after| == m.CacheSize() == |before| && |norm| == m.embeddingDim
    requires |weights| == m.layerCount * m.kvHeadCount * (m.headDim * m.embeddingDim)
  {
    forall l': nat, h: nat, p: nat :: InCache(m, l', h, p) ==>
      CacheRow(m, after, l', h, p) == if l' == l && p == pos then ProjectionOf(m, weights, l, h, norm)
          else CacheRow(m, before, l', h, p)
  }

  /** Position pos of layer l is rotated; the other rows are as before. */
  ghost predicate Rotated(m: Model, l: nat, pos: nat, after: Vec, before: Vec)
    requires m.Valid() && l < m.layerCount && pos < m.contextLen && |after| == m.CacheSize() == |before|
  {
    forall l': nat, h: nat, p: nat :: InCache(m, l', h, p) ==>
      CacheRow(m, after, l', h, p) ==
        if l' == l && p == pos then RopeOf(m.ops, CacheRow(m, before, l, h, p), p) else CacheRow(m, before, l', h, p)
  }

  /** for h: matvec(cache row (l, h, pos), mha_norm, the weights of head h) */
  method ProjectToCache(m: Model, l: nat, pos: nat, cache: array<Float>, mha_norm: array<Float>, weights: Vec)
    requires m.Valid() && l < m.layerCount && pos < m.contextLen && cache != mha_norm
    requires cache.Length == m.CacheSize() && mha_norm.Length == m.embeddingDim
    requires |weights| == m.layerCount * m.kvHeadCount * (m.headDim * m.embeddingDim)
    modifies cache
    ensures Projected(m, weights, l, pos, mha_norm[..], cache[..], old(cache[..]))
  {
    hide CacheRow, ProjectionOf, Splice;
    ghost var was, norm := cache[..], mha_norm[..];
    for h: nat := 0 to m.kvHeadCount
      invariant forall l': nat, h': nat, p: nat :: InCache(m, l', h', p) ==>
                  CacheRow(m, cache[..], l', h', p) ==
                    if l' == l && p == pos && h' < h then ProjectionOf(m, weights, l, h', norm)
                        else CacheRow(m, was, l', h', p)
    {
      ghost var before := cache[..];
      ProjectionIs(m, weights, l, h, norm);
      assert mha_norm[0..0 + m.embeddingDim] == norm;
      var w := HeadWeightOf(weights, m.layerCount, m.kvHeadCount, m.headDim * m.embeddingDim, l, h);
      Matvec(m.ops, m.headDim, m.embeddingDim, cache, CachePtr(m, l, h, pos), mha_norm, 0, w);
      CacheStore(m, before, l, h, pos, ProjectionOf(m, weights, l, h, norm));
    }
  }

  /** for q: rope(mha_q row q, pos) */
  method RopeQueries(m: Model, mha_q: array<Float>, pos: nat)
    requires m.Valid() && mha_q.Length == m.qHeadCount * m.headDim
    modifies mha_q
    ensures forall q: nat :: q < m.qHeadCount ==>
              QRow(m, mha_q[..], q) == RopeOf(m.ops, QRow(m, old(mha_q[..]), q), pos)
  {
    hide Row, RopeOf, Splice;
    ghost var was := mha_q[..];
    for q: nat := 0 to m.qHeadCount
      invariant forall r: nat :: r < m.qHeadCount ==>
                  QRow(m, mha_q[..], r) == if r < q then RopeOf(m.ops, QRow(m, was, r), pos) else QRow(m, was, r)
    {
      ghost var before := mha_q[..];
      RowAtPtr(before, m.qHeadCount, m.headDim, q);
      Rope(m.ops, m.headDim, mha_q, MINDEX2(m.qHeadCount, m.headDim, q, 0), pos);
      RowAfterSplice(before, m.qHeadCount, m.headDim, q, RopeOf(m.ops, QRow(m, was, q), pos));
    }
  }

  /** for h: rope(k_cache row (l, h, pos), pos) */
  method RopeCache(m: Model, l: nat, pos: nat, k_cache: array<Float>)
    requires m.Valid() && l < m.layerCount && pos < m.contextLen && k_cache.Length == m.CacheSize()
    modifies k_cache
    ensures Rotated(m, l, pos, k_cache[..], old(k_cache[..]))
  {
    hide CacheRow, RopeOf, Splice;
    ghost var was := k_cache[..];
    for h: nat := 0 to m.kvHeadCount
      invariant forall l': nat, h': nat, p: nat :: InCache(m, l', h', p) ==>
                  CacheRow(m, k_cache[..], l', h', p) ==
                    if l' == l && p == pos && h' < h then RopeOf(m.ops, CacheRow(m, was, l, h', p), p)
                        else CacheRow(m, was, l', h', p)
    {
      ghost var before := k_cache[..];
      CacheRowAtPtr(m, before, l, h, pos);
      Rope(m.ops, m.headDim, k_cache, CachePtr(m, l, h, pos), pos);
      CacheStore(m, before, l, h, pos, RopeOf(m.ops, CacheRow(m, was, l, h, pos), pos));
    }
  }

  /** for q: the attention of query head q over the positions up to pos */
  method Attend(m: Model, l: nat, pos: nat, mha_q: array<Float>, mha_score: array<Float>, mha_blend: array<Float>,
                k_cache: array<Float>, v_cache: array<Float>)
    requires m.Valid() && l < m.layerCount && pos < m.contextLen
    requires k_cache.Length == m.CacheSize() == v_cache.Length
    requires mha_q.Length == m.qHeadCount * m.headDim == mha_blend.Length
             && mha_score.Length == m.qHeadCount * m.contextLen
    requires mha_score != mha_q && mha_score != k_cache && mha_score != v_cache && mha_score != mha_blend
    requires mha_blend != mha_q && mha_blend != k_cache && mha_blend != v_cache
    modifies mha_score, mha_blend
    ensures forall q: nat :: q < m.qHeadCount ==>
              QRow(m, mha_blend[..], q) == AttendedHead(m, l, q, pos, QRow(m, mha_q[..], q), k_cache[..], v_cache[..])
  {
    hide Row, AttendedHead, Splice, Model.Valid, Model.CacheSize, CacheRows;
    ghost var qs, ks, vs := mha_q[..], k_cache[..], v_cache[..];
    for q: nat := 0 to m.qHeadCount
      invariant forall r: nat :: r < q ==>
                  QRow(m, mha_blend[..], r) == AttendedHead(m, l, r, pos, QRow(m, qs, r), ks, vs)
    {
      var h := KvHead(m, q);
      ghost var before := mha_blend[..];
      RowAtPtr(qs, m.qHeadCount, m.headDim, q);
      RowInside(m.qHeadCount, m.contextLen, q);
      var o := MINDEX2(m.qHeadCount, m.headDim, q, 0);
      assert mha_q[o..o + m.headDim] == qs[o..o + m.headDim];
      AttendHead(m, l, h, pos, mha_q, o, mha_score, MINDEX2(m.qHeadCount, m.contextLen, q, 0), mha_blend, o, k_cache,
                 v_cache);
      AttendedIs(m, l, q, pos, QRow(m, qs, q), ks, vs);
      RowAfterSplice(before, m.qHeadCount, m.headDim, q, AttendedHead(m, l, q, pos, QRow(m, qs, q), ks, vs));
    }
  }

  function HeadRows(m: Model, a: Vec): (rows: seq<Vec>)
    requires |a| == m.qHeadCount * m.headDim
    ensures |rows| == m.qHeadCount && AllOfLength(rows, m.headDim)
  {
    seq(m.qHeadCount, q requires 0 <= q < m.qHeadCount => QRow(m, a, q))
  }

  /** for q, for e: mha_att[q * head_dim + e] = mha_blend[q][e] */
  method JoinHeads(m: Model, mha_att: array<Float>, mha_blend: array<Float>)
    requires m.Valid() && mha_att != mha_blend
    requires mha_att.Length == m.embeddingDim && mha_blend.Length == m.qHeadCount * m.headDim
    modifies mha_att
    ensures mha_att[..] == ConcatHeads(m.qHeadCount, m.headDim, HeadRows(m, mha_blend[..]))
  {
    hide Row, HeadRows;
    ghost var blend := mha_blend[..];
    ghost var rows := HeadRows(m, blend);
    for q: nat := 0 to m.qHeadCount
      invariant 0 <= q * m.headDim <= m.embeddingDim
      invariant mha_att[..q * m.headDim] == ConcatHeads(q, m.headDim, rows)
    {
      RowInside(m.qHeadCount, m.headDim, q);
      RowAtPtr(blend, m.qHeadCount, m.headDim, q);
      HeadRowsAt(m, blend, q);
      ghost var before := mha_att[..];
      var o := q * m.headDim;
      CopyRow(m.headDim, mha_att, o, mha_blend[..], MINDEX2(m.qHeadCount, m.headDim, q, 0));
      assert mha_att[..o + m.headDim] == before[..o] + rows[q];
      assert (q + 1) * m.headDim == o + m.headDim;
    }
  }

  lemma HeadRowsAt(m: Model, a: Vec, q: nat)
    requires |a| == m.qHeadCount * m.headDim && q < m.qHeadCount
    ensures HeadRows(m, a)[q] == QRow(m, a, q)
  {
  }

  // ----- one layer for one token

  /** Projecting the normalised row and rotating the keys fills position pos of layer l. */
  lemma PositionFilled(m: Model, tokens: seq<nat>, l: nat, pos: nat, norm: Vec,
                       k: Vec, projected: Vec, k': Vec, k0: Vec, v: Vec, v': Vec, v0: Vec)
    requires InRun(m, tokens, l, pos) && norm == NormAt(m, tokens, l, pos)
    requires |k| == |projected| == |k'| == m.CacheSize() == |k0| && |v| == |v'| == m.CacheSize() == |v0|
    requires KeysFilled(m, tokens, k, k0, l, pos, pos + 1) && ValuesFilled(m, tokens, v, v0, l, pos, pos + 1)
    requires Projected(m, m.mhaKWeight, l, pos, norm, projected, k) && Rotated(m, l, pos, k', projected)
    requires Projected(m, m.mhaVWeight, l, pos, norm, v', v)
    ensures KeysFilled(m, tokens, k', k0, l + 1, pos, pos + 1) && ValuesFilled(m, tokens, v', v0, l + 1, pos, pos + 1)
  {
    hide CacheRow, RopeOf, ProjectionOf, Key, Value, NormAt, Model.CacheSize;
    forall h: nat | h < m.kvHeadCount
      ensures Key(m, tokens, l, h, pos) == RopeOf(m.ops, ProjectionOf(m, m.mhaKWeight, l, h, norm), pos)
      ensures Value(m, tokens, l, h, pos) == ProjectionOf(m, m.mhaVWeight, l, h, norm)
    {
      KeyIsRope(m, tokens, l, h, pos);
    }
  }

  /** rmsnorm, the q, k and v projections, and rope on q and k */
  method ProjectLayer(m: Model, ghost tokens: seq<nat>, l: nat, pos: nat, embedding: array<Float>,
                      mha_norm: array<Float>, mha_q: array<Float>,
                      k_cache: array<Float>, v_cache: array<Float>, ghost k0: Vec, ghost v0: Vec)
    requires InRun(m, tokens, l, pos)
    requires embedding.Length == m.embeddingDim == mha_norm.Length && mha_q.Length == m.qHeadCount * m.headDim
    requires k_cache.Length == m.CacheSize() == v_cache.Length && |k0| == m.CacheSize() == |v0|
    requires mha_norm != embedding && mha_q != mha_norm && k_cache != mha_norm && v_cache != mha_norm
    requires mha_q != k_cache && mha_q != v_cache && k_cache != v_cache
    requires embedding[..] == Embedding(m, tokens, l, pos)
    requires KeysFilled(m, tokens, k_cache[..], k0, l, pos, pos + 1)
             && ValuesFilled(m, tokens, v_cache[..], v0, l, pos, pos + 1)
    modifies mha_norm, mha_q, k_cache, v_cache
    ensures forall q: nat :: q < m.qHeadCount ==> QRow(m, mha_q[..], q) == QueryAt(m, tokens, l, q, pos)
    ensures KeysFilled(m, tokens, k_cache[..], k0, l + 1, pos, pos + 1)
            && ValuesFilled(m, tokens, v_cache[..], v0, l + 1, pos, pos + 1)
  {
    hide Splice, QRow, RopeOf, QProjection, RmsnormOf, Model.CacheSize, KeysFilled, ValuesFilled, Projected, Rotated,
        Embedding;
    ghost var k, v := k_cache[..], v_cache[..];
    assert embedding[0..0 + m.embeddingDim] == embedding[..];
    ghost var was := mha_norm[..];
    Rmsnorm(m.ops, m.embeddingDim, mha_norm, 0, embedding, 0,
            WeightOf(m.mhaNormWeight, m.layerCount, m.embeddingDim, l), m.epsilon);
    ghost var norm := NormAt(m, tokens, l, pos);
    WholeSplice(was, norm);
    QueryProjections(m, l, mha_q, mha_norm);
    ProjectToCache(m, l, pos, k_cache, mha_norm, m.mhaKWeight);
    ghost var projected := k_cache[..];
    ProjectToCache(m, l, pos, v_cache, mha_norm, m.mhaVWeight);
    RopeQueries(m, mha_q, pos);
    RopeCache(m, l, pos, k_cache);
    PositionFilled(m, tokens, l, pos, norm, k, projected, k_cache[..], k0, v, v_cache[..], v0);
  }

  /** attention over the caches, and the heads joined */
  method AttendLayer(m: Model, ghost tokens: seq<nat>, l: nat, pos: nat, mha_q: array<Float>,
                     mha_score: array<Float>, mha_blend: array<Float>,
                     mha_att: array<Float>, k_cache: array<Float>, v_cache: array<Float>, ghost k0: Vec, ghost v0: Vec)
    requires InRun(m, tokens, l, pos)
    requires mha_q.Length == m.qHeadCount * m.headDim == mha_blend.Length
             && mha_score.Length == m.qHeadCount * m.contextLen
    requires mha_att.Length == m.embeddingDim
    requires k_cache.Length == m.CacheSize() == v_cache.Length && |k0| == m.CacheSize() == |v0|
    requires mha_score != mha_q && mha_score != k_cache && mha_score != v_cache && mha_score != mha_blend
    requires mha_blend != mha_q && mha_blend != k_cache && mha_blend != v_cache && mha_att != mha_blend
    requires forall q: nat :: q < m.qHeadCount ==> QRow(m, mha_q[..], q) == QueryAt(m, tokens, l, q, pos)
    requires KeysFilled(m, tokens, k_cache[..], k0, l + 1, pos, pos + 1)
             && ValuesFilled(m, tokens, v_cache[..], v0, l + 1, pos, pos + 1)
    modifies mha_score, mha_blend, mha_att
    ensures mha_att[..] == AttentionAt(m, tokens, l, pos)
  {
    hide QRow, AttendedHead, QueryAt, HeadAt, AttentionAt, Model.Valid, Model.CacheSize, KeysFilled, ValuesFilled,
        ConcatHeads, HeadRows;
    Attend(m, l, pos, mha_q, mha_score, mha_blend, k_cache, v_cache);
    ghost var blend := mha_blend[..];
    forall q: nat | q < m.qHeadCount
      ensures HeadRows(m, blend)[q] == HeadAt(m, tokens, l, q, pos)
    {
      AttendedIsHead(m, tokens, l, q, pos, k_cache[..], k0, v_cache[..], v0, pos, pos + 1);
      HeadRowsAt(m, blend, q);
    }
    JoinHeads(m, mha_att, mha_blend);
    HeadsMakeAttention(m, tokens, l, pos, HeadRows(m, blend));
  }

  /** matvec over whole buffers */
  method MatvecRow(ops: Ops, colCount: nat, redCount: nat, y: array<Float>, x: array<Float>, w: Vec)
    requires y != x && y.Length == colCount && x.Length == redCount && |w| == colCount * redCount
    modifies y
    ensures y[..] == MatvecOf(ops, colCount, x[..], w)
  {
    hide MatvecOf, Splice;
    ghost var before := y[..];
    assert x[0..0 + redCount] == x[..];
    Matvec(ops, colCount, redCount, y, 0, x, 0, w);
    WholeSplice(before, MatvecOf(ops, colCount, x[..], w));
  }

  /** x[e] += y[e] over whole buffers */
  method AddBuffers(ops: Ops, width: nat, x: array<Float>, y: array<Float>)
    requires x != y && x.Length == width == y.Length
    modifies x
    ensures x[..] == AddTo(ops, old(x[..]), y[..])
  {
    hide AddTo, Splice;
    ghost var before := x[..];
    assert x[0..0 + width] == x[..] && y[0..0 + width] == y[..];
    AddRow(ops, width, x, 0, y, 0);
    WholeSplice(before, AddTo(ops, before, y[..]));
  }

  /** the attention output and its residual connection */
  method AddAttention(m: Model, ghost tokens: seq<nat>, l: nat, pos: nat, embedding: array<Float>,
                      mha_att: array<Float>, mha_out: array<Float>)
    requires InRun(m, tokens, l, pos)
    requires embedding.Length == m.embeddingDim == mha_att.Length == mha_out.Length
    requires embedding != mha_att && embedding != mha_out && mha_att != mha_out
    requires embedding[..] == Embedding(m, tokens, l, pos) && mha_att[..] == AttentionAt(m, tokens, l, pos)
    modifies mha_out, embedding
    ensures embedding[..] == AfterAttentionAt(m, tokens, l, pos)
  {
    hide AttentionAt, MatvecOf, AddTo, Embedding;
    MatvecRow(m.ops, m.embeddingDim, m.embeddingDim, mha_out, mha_att,
              WeightOf(m.mhaOutWeight, m.layerCount, m.embeddingDim * m.embeddingDim, l));
    AddBuffers(m.ops, m.embeddingDim, embedding, mha_out);
  }

  /** the feed-forward network and its residual connection */
  method FeedForward(m: Model, ghost tokens: seq<nat>, l: nat, pos: nat, embedding: array<Float>,
                     ffn_norm: array<Float>,
                     ffn_fc: array<Float>, ffn_up: array<Float>, ffn_out: array<Float>)
    requires InRun(m, tokens, l, pos)
    requires embedding.Length == m.embeddingDim == ffn_norm.Length == ffn_out.Length
             && ffn_fc.Length == m.hiddenDim == ffn_up.Length
    requires embedding != ffn_norm && embedding != ffn_out && embedding != ffn_fc && embedding != ffn_up
    requires ffn_norm != ffn_fc && ffn_norm != ffn_up && ffn_fc != ffn_up && ffn_fc != ffn_out
    requires embedding[..] == AfterAttentionAt(m, tokens, l, pos)
    modifies embedding, ffn_norm, ffn_fc, ffn_up, ffn_out
    ensures embedding[..] == Embedding(m, tokens, l + 1, pos)
  {
    hide AfterAttentionAt, MatvecOf, AddTo, SwigluOf, RmsnormOf, Embedding, Splice;
    NormBuffers(m, ffn_norm, embedding, WeightOf(m.ffnNormWeight, m.layerCount, m.embeddingDim, l));
    MatvecRow(m.ops, m.hiddenDim, m.embeddingDim, ffn_fc, ffn_norm,
              WeightOf(m.ffnFcWeight, m.layerCount, m.hiddenDim * m.embeddingDim, l));
    MatvecRow(m.ops, m.hiddenDim, m.embeddingDim, ffn_up, ffn_norm,
              WeightOf(m.ffnUpWeight, m.layerCount, m.hiddenDim * m.embeddingDim, l));
    ghost var fc := ffn_fc[..];
    assert fc == ffn_fc[0..0 + m.hiddenDim] && ffn_up[..] == ffn_up[0..0 + m.hiddenDim];
    SwigluRow(m.ops, m.hiddenDim, ffn_fc, 0, ffn_up, 0);
    WholeSplice(fc, SwigluOf(m.ops, fc, ffn_up[..]));
    MatvecRow(m.ops, m.embeddingDim, m.hiddenDim, ffn_out, ffn_fc,
              WeightOf(m.ffnOutWeight, m.layerCount, m.embeddingDim * m.hiddenDim, l));
    AddBuffers(m.ops, m.embeddingDim, embedding, ffn_out);
    NextEmbedding(m, tokens, l, pos);
  }

  /** rmsnorm over whole buffers; dst may be src */
  method NormBuffers(m: Model, dst: array<Float>, src: array<Float>, w: Vec)
    requires dst.Length == m.embeddingDim == src.Length && |w| == m.embeddingDim
    modifies dst
    ensures dst[..] == RmsnormOf(m.ops, old(src[..]), w, m.epsilon)
  {
    hide RmsnormOf, Splice;
    ghost var before, row := dst[..], src[..];
    assert src[0..0 + m.embeddingDim] == row;
    Rmsnorm(m.ops, m.embeddingDim, dst, 0, src, 0, w, m.epsilon);
    WholeSplice(before, RmsnormOf(m.ops, row, w, m.epsilon));
  }

  /** The body of the loop over the layers. */
  method Layer(m: Model, ghost tokens: seq<nat>, l: nat, pos: nat, w: Workspace, k_cache: array<Float>,
               v_cache: array<Float>,
               ghost k0: Vec, ghost v0: Vec, ghost number: map<array<Float>, nat>)
    requires InRun(m, tokens, l, pos)
    requires w.Sized(m, 1) && w.Apart(number, k_cache, v_cache)
    requires k_cache.Length == m.CacheSize() == v_cache.Length && |k0| == m.CacheSize() == |v0|
    requires w.embedding[..] == Embedding(m, tokens, l, pos)
    requires KeysFilled(m, tokens, k_cache[..], k0, l, pos, pos + 1)
             && ValuesFilled(m, tokens, v_cache[..], v0, l, pos, pos + 1)
    modifies w.Buffers(), k_cache, v_cache
    ensures w.embedding[..] == Embedding(m, tokens, l + 1, pos)
    ensures KeysFilled(m, tokens, k_cache[..], k0, l + 1, pos, pos + 1)
            && ValuesFilled(m, tokens, v_cache[..], v0, l + 1, pos, pos + 1)
  {
    hide KeysFilled, ValuesFilled, Embedding, Model.CacheSize, Model.Valid, QRow;
    ProjectLayer(m, tokens, l, pos, w.embedding, w.mha_norm, w.mha_q, k_cache, v_cache, k0, v0);
    AttendLayer(m, tokens, l, pos, w.mha_q, w.mha_score, w.mha_blend, w.mha_att, k_cache, v_cache, k0, v0);
    AddAttention(m, tokens, l, pos, w.embedding, w.mha_att, w.mha_out);
    FeedForward(m, tokens, l, pos, w.embedding, w.ffn_norm, w.ffn_fc, w.ffn_up, w.ffn_out);
  }

  /** The loop over the layers. */
  method Layers(m: Model, ghost tokens: seq<nat>, pos: nat, w: Workspace, k_cache: array<Float>, v_cache: array<Float>,
                ghost k0: Vec, ghost v0: Vec, ghost number: map<array<Float>, nat>)
    requires m.Valid() && TokensOk(m, tokens) && pos < |tokens|
    requires w.Sized(m, 1) && w.Apart(number, k_cache, v_cache)
    requires k_cache.Length == m.CacheSize() == v_cache.Length && |k0| == m.CacheSize() == |v0|
    requires w.embedding[..] == Embedding(m, tokens, 0, pos)
    requires KeysFilled(m, tokens, k_cache[..], k0, 0, pos, pos + 1)
             && ValuesFilled(m, tokens, v_cache[..], v0, 0, pos, pos + 1)
    modifies w.Buffers(), k_cache, v_cache
    ensures w.embedding[..] == Embedding(m, tokens, m.layerCount, pos)
    ensures KeysFilled(m, tokens, k_cache[..], k0, m.layerCount, pos, pos + 1)
    ensures ValuesFilled(m, tokens, v_cache[..], v0, m.layerCount, pos, pos + 1)
  {
    hide KeysFilled, ValuesFilled, Model.CacheSize, Model.Valid, Workspace.Apart, Embedding;
    for l: nat := 0 to m.layerCount
      invariant w.embedding[..] == Embedding(m, tokens, l, pos)
      invariant KeysFilled(m, tokens, k_cache[..], k0, l, pos, pos + 1)
                && ValuesFilled(m, tokens, v_cache[..], v0, l, pos, pos + 1)
    {
      Layer(m, tokens, l, pos, w, k_cache, v_cache, k0, v0, number);
    }
  }

  // ----- one token, and the whole prompt

  /** forward: the token at position pos of the prompt, the earlier ones having left their rows in the caches */
  method Forward(m: Model, ghost tokens: seq<nat>, token: nat, k_cache: array<Float>, v_cache: array<Float>,
                 logits: array<Float>,
                 pos: nat, logits_count: nat, ghost k0: Vec, ghost v0: Vec)
    requires m.Valid() && TokensOk(m, tokens) && pos < |tokens| && token == tokens[pos]
    requires k_cache.Length == m.CacheSize() == v_cache.Length && logits.Length == m.vocabularyLen
             && |k0| == m.CacheSize() == |v0|
    requires k_cache != v_cache && k_cache != logits && v_cache != logits
    requires KeysFilled(m, tokens, k_cache[..], k0, 0, pos, pos)
             && ValuesFilled(m, tokens, v_cache[..], v0, 0, pos, pos)
    modifies k_cache, v_cache, logits
    ensures KeysFilled(m, tokens, k_cache[..], k0, 0, pos + 1, pos + 1)
            && ValuesFilled(m, tokens, v_cache[..], v0, 0, pos + 1, pos + 1)
    ensures logits[..] == if logits_count != 0 then LogitsOf(m, Embedding(m, tokens, m.layerCount, pos))
            else old(logits[..])
  {
    hide KeysFilled, ValuesFilled, Model.CacheSize, Model.Valid, Workspace.Apart, LogitsOf, Embedding;
    var w, number := Allocate(m, 1, k_cache, v_cache);
    LoadEmbedding(m, tokens, token, pos, w.embedding);
    FilledBounds(m, tokens, k_cache[..], k0, v_cache[..], v0, pos);
    Layers(m, tokens, pos, w, k_cache, v_cache, k0, v0, number);
    FilledBounds(m, tokens, k_cache[..], k0, v_cache[..], v0, pos);
    Classify(m, w.embedding, logits, logits_count);
  }

  /** for e: embedding[e] = embedding_weight[token][e] */
  method LoadEmbedding(m: Model, ghost tokens: seq<nat>, token: nat, pos: nat, embedding: array<Float>)
    requires m.Valid() && TokensOk(m, tokens) && pos < |tokens| && token == tokens[pos]
             && embedding.Length == m.embeddingDim
    modifies embedding
    ensures embedding[..] == Embedding(m, tokens, 0, pos)
  {
    hide Row, Splice;
    RowAtPtr(m.embeddingWeight, m.vocabularyLen, m.embeddingDim, token);
    ghost var before := embedding[..];
    CopyRow(m.embeddingDim, embedding, 0, m.embeddingWeight, MINDEX2(m.vocabularyLen, m.embeddingDim, token, 0));
    WholeSplice(before, Embedding(m, tokens, 0, pos));
  }

  /** The final rmsnorm, in place, and the classifier when the logits are wanted. */
  method Classify(m: Model, embedding: array<Float>, logits: array<Float>, logits_count: nat)
    requires m.Valid() && embedding != logits && embedding.Length == m.embeddingDim && logits.Length == m.vocabularyLen
    modifies embedding, logits
    ensures logits[..] == if logits_count != 0 then LogitsOf(m, old(embedding[..])) else old(logits[..])
  {
    hide RmsnormOf, MatvecOf;
    NormBuffers(m, embedding, embedding, m.outNormWeight);
    if logits_count != 0 {
      MatvecRow(m.ops, m.vocabularyLen, m.embeddingDim, logits, embedding, m.outWeight);
    }
  }

  /** generate_prompt_proc, token by token; only the last token computes the logits */
  method GeneratePromptProc(m: Model, k_cache: array<Float>, v_cache: array<Float>, logits: array<Float>,
                            sequence: seq<nat>)
    requires m.Valid() && TokensOk(m, sequence)
    requires k_cache.Length == m.CacheSize() == v_cache.Length && logits.Length == m.vocabularyLen
    requires k_cache != v_cache && k_cache != logits && v_cache != logits
    modifies k_cache, v_cache, logits
    ensures Processed(m, sequence, k_cache[..], old(k_cache[..]), v_cache[..], old(v_cache[..]), logits[..],
                      old(logits[..]))
  {
    hide KeysFilled, ValuesFilled, Model.CacheSize, Model.Valid, LogitsOf, Embedding;
    var n := |sequence|;
    ghost var k0, v0, logits0 := k_cache[..], v_cache[..], logits[..];
    AllFilled(m, sequence, k0, k0, v0, v0);
    for i: nat := 0 to n
      invariant KeysFilled(m, sequence, k_cache[..], k0, 0, i, i) && ValuesFilled(m, sequence, v_cache[..], v0, 0, i, i)
      invariant logits[..] == if 0 < i == n then LogitsOf(m, Embedding(m, sequence, m.layerCount, n - 1)) else logits0
    {
      Forward(m, sequence, sequence[i], k_cache, v_cache, logits, i, if i == n - 1 then 1 else 0, k0, v0);
    }
    AllFilled(m, sequence, k_cache[..], k0, v_cache[..], v0);
  }

  /** Done for all tokens is done for all layers up to the last token; before the first token, nothing is done. */
  lemma AllFilled(m: Model, tokens: seq<nat>, k: Vec, k0: Vec, v: Vec, v0: Vec)
    requires m.Valid() && TokensOk(m, tokens)
    requires |k| == m.CacheSize() == |k0| && |v| == m.CacheSize() == |v0|
    ensures KeysFilled(m, tokens, k0, k0, 0, 0, 0) && ValuesFilled(m, tokens, v0, v0, 0, 0, 0)
    ensures KeysFilled(m, tokens, k, k0, 0, |tokens|, |tokens|)
            == KeysFilled(m, tokens, k, k0, m.layerCount, 0, |tokens|)
    ensures ValuesFilled(m, tokens, v, v0, 0, |tokens|, |tokens|)
            == ValuesFilled(m, tokens, v, v0, m.layerCount, 0, |tokens|)
  {
    hide CacheRow, Key, Value;
  }
}
