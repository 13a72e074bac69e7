/**
 The optimised form: every stage of a layer runs over all the tokens of the prompt
 before the next stage starts.
 */
module LayerMajor {
  import opened Buffers
  import opened Floats
  import opened Mindex
  import opened Kernels
  import opened Transformer
  import opened Attention
  import opened PromptState
  import opened Workspaces

  // ----- stages that treat the tokens row by row

  /** for i: rmsnorm(row i of dst, row i of src); dst may be src. */
  method NormRows(m: Model, n: nat, dst: array<Float>, src: array<Float>, w: Vec)
    requires dst.Length == n * m.embeddingDim == src.Length && |w| == m.embeddingDim
    modifies dst
    ensures forall i: nat :: i < n ==>
              Row(dst[..], n, m.embeddingDim, i) ==
                RmsnormOf(m.ops, Row(old(src[..]), n, m.embeddingDim, i), w, m.epsilon)
  {
    hide RmsnormOf, Splice, Row;
    ghost var was := src[..];
    for i: nat := 0 to n
      invariant forall r: nat :: r < i ==>
                  Row(dst[..], n, m.embeddingDim, r) == RmsnormOf(m.ops, Row(was, n, m.embeddingDim, r), w, m.epsilon)
      invariant forall r: nat :: i <= r < n ==> Row(src[..], n, m.embeddingDim, r) == Row(was, n, m.embeddingDim, r)
    {
      RowAtPtr(src[..], n, m.embeddingDim, i);
      ghost var before := dst[..];
      var o := MINDEX2(n, m.embeddingDim, i, 0);
      Rmsnorm(m.ops, m.embeddingDim, dst, o, src, o, w, m.epsilon);
      RowAfterSplice(before, n, m.embeddingDim, i, RmsnormOf(m.ops, Row(was, n, m.embeddingDim, i), w, m.epsilon));
    }
  }

  /** iter_matvec: for i: matvec(row i of y, row i of x). */
  method IterMatvec(ops: Ops, rowCount: nat, colCount: nat, redCount: nat, y: array<Float>, x: array<Float>, w: Vec)
    requires y != x && y.Length == rowCount * colCount && x.Length == rowCount * redCount && |w| == colCount * redCount
    modifies y
    ensures forall i: nat :: i < rowCount ==>
              Row(y[..], rowCount, colCount, i) == MatvecOf(ops, colCount, Row(x[..], rowCount, redCount, i), w)
  {
    hide MatvecOf, Splice, Row;
    for i: nat := 0 to rowCount
      invariant forall r: nat :: r < i ==>
                  Row(y[..], rowCount, colCount, r) == MatvecOf(ops, colCount, Row(x[..], rowCount, redCount, r), w)
    {
      RowAtPtr(y[..], rowCount, colCount, i);
      RowAtPtr(x[..], rowCount, redCount, i);
      ghost var before := y[..];
      Matvec(ops, colCount, redCount, y, MINDEX2(rowCount, colCount, i, 0), x, MINDEX2(rowCount, redCount, i, 0), w);
      RowAfterSplice(before, rowCount, colCount, i, MatvecOf(ops, colCount, Row(x[..], rowCount, redCount, i), w));
    }
  }

  /** for i, for e: x[i][e] += y[i][e] */
  method AddRows(ops: Ops, n: nat, width: nat, x: array<Float>, y: array<Float>)
    requires x != y && x.Length == n * width == y.Length
    modifies x
    ensures forall i: nat :: i < n ==>
              Row(x[..], n, width, i) == AddTo(ops, Row(old(x[..]), n, width, i), Row(y[..], n, width, i))
  {
    hide AddTo, Splice, Row;
    ghost var was := x[..];
    for i: nat := 0 to n
      invariant forall r: nat :: r < i ==>
                  Row(x[..], n, width, r) == AddTo(ops, Row(was, n, width, r), Row(y[..], n, width, r))
      invariant forall r: nat :: i <= r < n ==> Row(x[..], n, width, r) == Row(was, n, width, r)
    {
      RowAtPtr(x[..], n, width, i);
      RowAtPtr(y[..], n, width, i);
      ghost var before := x[..];
      AddRow(ops, width, x, MINDEX2(n, width, i, 0), y, MINDEX2(n, width, i, 0));
      RowAfterSplice(before, n, width, i, AddTo(ops, Row(was, n, width, i), Row(y[..], n, width, i)));
    }
  }

  /** for i, for e: fc[i][e] *= 1 / (1 + exp(-fc[i][e])); fc[i][e] *= up[i][e] */
  method SwigluRows(ops: Ops, n: nat, width: nat, fc: array<Float>, up: array<Float>)
    requires fc != up && fc.Length == n * width == up.Length
    modifies fc
    ensures forall i: nat :: i < n ==>
              Row(fc[..], n, width, i) == SwigluOf(ops, Row(old(fc[..]), n, width, i), Row(up[..], n, width, i))
  {
    hide SwigluOf, Splice, Row;
    ghost var was := fc[..];
    for i: nat := 0 to n
      invariant forall r: nat :: r < i ==>
                  Row(fc[..], n, width, r) == SwigluOf(ops, Row(was, n, width, r), Row(up[..], n, width, r))
      invariant forall r: nat :: i <= r < n ==> Row(fc[..], n, width, r) == Row(was, n, width, r)
    {
      RowAtPtr(fc[..], n, width, i);
      RowAtPtr(up[..], n, width, i);
      ghost var before := fc[..];
      SwigluRow(ops, width, fc, MINDEX2(n, width, i, 0), up, MINDEX2(n, width, i, 0));
      RowAfterSplice(before, n, width, i, SwigluOf(ops, Row(was, n, width, i), Row(up[..], n, width, i)));
    }
  }

  // ----- stages with one row per head and token

  /** for q, for i: matvec(mha_q row (q, i), mha_norm row i, the weights of head q) */
  method QueryProjections(m: Model, n: nat, l: nat, mha_q: array<Float>, mha_norm: array<Float>)
    requires m.Valid() && l < m.layerCount && mha_q != mha_norm
    requires mha_q.Length == m.qHeadCount * n * m.headDim && mha_norm.Length == n * m.embeddingDim
    modifies mha_q
    ensures forall q: nat, i: nat :: q < m.qHeadCount && i < n ==>
              HeadRow(m, mha_q[..], n, q, i) == QProjection(m, l, q, Row(mha_norm[..], n, m.embeddingDim, i))
  {
    hide HeadRow, Row, MatvecOf, Splice;
    ghost var norm := mha_norm[..];
    for q: nat := 0 to m.qHeadCount
      invariant forall q': nat, i: nat :: q' < q && i < n ==>
                  HeadRow(m, mha_q[..], n, q', i) == QProjection(m, l, q', Row(norm, n, m.embeddingDim, i))
    {
      var w := HeadWeightOf(m.mhaQWeight, m.layerCount, m.qHeadCount, m.headDim * m.embeddingDim, l, q);
      for i: nat := 0 to n
        invariant forall q': nat, i': nat :: (q' < q && i' < n) || (q' == q && i' < i) ==>
                    HeadRow(m, mha_q[..], n, q', i') == QProjection(m, l, q', Row(norm, n, m.embeddingDim, i'))
      {
        ghost var before := mha_q[..];
        RowAtPtr(norm, n, m.embeddingDim, i);
        var o := HeadPtr(m, n, q, i);
        Matvec(m.ops, m.headDim, m.embeddingDim, mha_q, o, mha_norm, MINDEX2(n, m.embeddingDim, i, 0), w);
        HeadStore(m, before, n, q, i, QProjection(m, l, q, Row(norm, n, m.embeddingDim, i)));
      }
    }
  }

  function HeadRow(m: Model, a: Vec, n: nat, q: nat, i: nat): (row: Vec)
    requires |a| == m.qHeadCount * n * m.headDim && q < m.qHeadCount && i < n
    ensures |row| == m.headDim
  {
    RowIn2Bounds(m.qHeadCount, n, q, i);
    Row(a, m.qHeadCount * n, m.headDim, RowIn2(n, q, i))
  }

  /** &a[MINDEX3(q_head_count, sequence_len, head_dim, q, i, 0)] */
  function HeadPtr(m: Model, n: nat, q: nat, i: nat): (o: nat)
    requires q < m.qHeadCount && i < n
    ensures o + m.headDim <= m.qHeadCount * n * m.headDim
    ensures forall a: Vec :: |a| == m.qHeadCount * n * m.headDim ==> a[o..o + m.headDim] == HeadRow(m, a, n, q, i)
  {
    RowIn2Bounds(m.qHeadCount, n, q, i);
    Mindex3IsRow(m.qHeadCount, n, m.headDim, q, i);
    RowInside(m.qHeadCount * n, m.headDim, RowIn2(n, q, i));
    MINDEX3(m.qHeadCount, n, m.headDim, q, i, 0)
  }

  lemma HeadStore(m: Model, a: Vec, n: nat, q: nat, i: nat, s: Vec)
    requires |a| == m.qHeadCount * n * m.headDim && q < m.qHeadCount && i < n && |s| == m.headDim
    ensures forall q': nat, i': nat :: q' < m.qHeadCount && i' < n ==>
              HeadRow(m, Splice(a, HeadPtr(m, n, q, i), s), n, q', i') ==
                if q' == q && i' == i then s else HeadRow(m, a, n, q', i')
  {
    RowIn2Bounds(m.qHeadCount, n, q, i);
    Mindex3IsRow(m.qHeadCount, n, m.headDim, q, i);
    RowAfterSplice(a, m.qHeadCount * n, m.headDim, RowIn2(n, q, i), s);
    forall q': nat, i': nat | q' < m.qHeadCount && i' < n
      ensures HeadRow(m, Splice(a, HeadPtr(m, n, q, i), s), n, q', i') ==
                if q' == q && i' == i then s else HeadRow(m, a, n, q', i')
    {
      RowIn2Bounds(m.qHeadCount, n, q', i');
      if RowIn2(n, q', i') == RowIn2(n, q, i) {
        RowIn2Injective(n, q, i, q', i');
      }
    }
  }

  /** The rows of layer l hold the projections of the first n normalised rows; the others are as before. */
  ghost predicate Projected(m: Model, weights: Vec, l: nat, n: nat, norm: Vec, after: Vec, before: Vec)
    requires l < m.layerCount && |after| == m.CacheSize() == |before| && |norm| == n * m.embeddingDim
    requires |weights| == m.layerCount * m.kvHeadCount * (m.headDim * m.embeddingDim)
  {
    forall l': nat, h: nat, p: nat :: InCache(m, l', h, p) ==>
      CacheRow(m, after, l', h, p) ==
        if l' == l && p < n then ProjectionOf(m, weights, l, h, Row(norm, n, m.embeddingDim, p))
            else CacheRow(m, before, l', h, p)
  }

  /** The first n rows of layer l are rotated by their positions; the others are as before. */
  ghost predicate Rotated(m: Model, l: nat, n: nat, after: Vec, before: Vec)
    requires m.Valid() && l < m.layerCount && n <= m.contextLen && |after| == m.CacheSize() == |before|
  {
    forall l': nat, h: nat, p: nat :: InCache(m, l', h, p) ==>
      CacheRow(m, after, l', h, p) ==
        if l' == l && p < n then RopeOf(m.ops, CacheRow(m, before, l, h, p), p) else CacheRow(m, before, l', h, p)
  }

  /** for h, for i: matvec(cache row (l, h, i), mha_norm row i, the weights of head h) */
  method ProjectToCache(m: Model, n: nat, l: nat, cache: array<Float>, mha_norm: array<Float>, weights: Vec)
    requires m.Valid() && l < m.layerCount && n <= m.contextLen && cache != mha_norm
    requires cache.Length == m.CacheSize() && mha_norm.Length == n * m.embeddingDim
    requires |weights| == m.layerCount * m.kvHeadCount * (m.headDim * m.embeddingDim)
    modifies cache
    ensures Projected(m, weights, l, n, mha_norm[..], cache[..], old(cache[..]))
  {
    hide Row, CacheRow, ProjectionOf, Splice;
    ghost var was, norm := cache[..], mha_norm[..];
    for h: nat := 0 to m.kvHeadCount
      invariant forall l': nat, h': nat, p: nat :: InCache(m, l', h', p) ==>
                  CacheRow(m, cache[..], l', h', p) ==
                    if l' == l && p < n && h' < h then ProjectionOf(m, weights, l, h', Row(norm, n, m.embeddingDim, p))
                    else CacheRow(m, was, l', h', p)
    {
      var w := HeadWeightOf(weights, m.layerCount, m.kvHeadCount, m.headDim * m.embeddingDim, l, h);
      for i: nat := 0 to n
        invariant forall l': nat, h': nat, p: nat :: InCache(m, l', h', p) ==>
                    CacheRow(m, cache[..], l', h', p) ==
                      if l' == l && p < n && (h' < h || (h' == h && p < i))
                          then ProjectionOf(m, weights, l, h', Row(norm, n, m.embeddingDim, p))
                      else CacheRow(m, was, l', h', p)
      {
        ghost var before := cache[..];
        RowAtPtr(norm, n, m.embeddingDim, i);
        ProjectionIs(m, weights, l, h, Row(norm, n, m.embeddingDim, i));
        Matvec(m.ops, m.headDim, m.embeddingDim, cache, CachePtr(m, l, h, i), mha_norm,
               MINDEX2(n, m.embeddingDim, i, 0), w);
        CacheStore(m, before, l, h, i, ProjectionOf(m, weights, l, h, Row(norm, n, m.embeddingDim, i)));
      }
    }
  }

  /** for q, for i: rope(mha_q row (q, i), i) */
  method RopeQueries(m: Model, n: nat, mha_q: array<Float>)
    requires m.Valid() && mha_q.Length == m.qHeadCount * n * m.headDim
    modifies mha_q
    ensures forall q: nat, i: nat :: q < m.qHeadCount && i < n ==>
              HeadRow(m, mha_q[..], n, q, i) == RopeOf(m.ops, HeadRow(m, old(mha_q[..]), n, q, i), i)
  {
    hide HeadRow, RopeOf, Splice;
    ghost var was := mha_q[..];
    for q: nat := 0 to m.qHeadCount
      invariant forall q': nat, i: nat :: q' < m.qHeadCount && i < n ==>
                  HeadRow(m, mha_q[..], n, q', i) ==
                    if q' < q then RopeOf(m.ops, HeadRow(m, was, n, q', i), i) else HeadRow(m, was, n, q', i)
    {
      for i: nat := 0 to n
        invariant forall q': nat, i': nat :: q' < m.qHeadCount && i' < n ==>
                    HeadRow(m, mha_q[..], n, q', i') ==
                      if q' < q || (q' == q && i' < i) then RopeOf(m.ops, HeadRow(m, was, n, q', i'), i')
                          else HeadRow(m, was, n, q', i')
      {
        ghost var before := mha_q[..];
        var o := HeadPtr(m, n, q, i);
        assert mha_q[o..o + m.headDim] == HeadRow(m, before, n, q, i)
               by { assert before[o..o + m.headDim] == mha_q[o..o + m.headDim]; }
        Rope(m.ops, m.headDim, mha_q, o, i);
        HeadStore(m, before, n, q, i, RopeOf(m.ops, HeadRow(m, was, n, q, i), i));
      }
    }
  }

  /** for h, for i: rope(k_cache row (l, h, i), i) */
  method RopeCache(m: Model, n: nat, l: nat, k_cache: array<Float>)
    requires m.Valid() && l < m.layerCount && n <= m.contextLen && k_cache.Length == m.CacheSize()
    modifies k_cache
    ensures Rotated(m, l, n, k_cache[..], old(k_cache[..]))
  {
    hide CacheRow, RopeOf, Splice;
    ghost var was := k_cache[..];
    for h: nat := 0 to m.kvHeadCount
      invariant forall l': nat, h': nat, p: nat :: InCache(m, l', h', p) ==>
                  CacheRow(m, k_cache[..], l', h', p) ==
                    if l' == l && p < n && h' < h then RopeOf(m.ops, CacheRow(m, was, l, h', p), p)
                        else CacheRow(m, was, l', h', p)
    {
      for i: nat := 0 to n
        invariant forall l': nat, h': nat, p: nat :: InCache(m, l', h', p) ==>
                    CacheRow(m, k_cache[..], l', h', p) ==
                      if l' == l && p < n && (h' < h || (h' == h && p < i))
                          then RopeOf(m.ops, CacheRow(m, was, l, h', p), p)
                      else CacheRow(m, was, l', h', p)
      {
        ghost var before := k_cache[..];
        CacheRowAtPtr(m, before, l, h, i);
        Rope(m.ops, m.headDim, k_cache, CachePtr(m, l, h, i), i);
        CacheStore(m, before, l, h, i, RopeOf(m.ops, CacheRow(m, was, l, h, i), i));
      }
    }
  }

  /** for q, for i: the attention of query head q of token i over the tokens up to i */
  method Attend(m: Model, n: nat, l: nat, mha_q: array<Float>, mha_score: array<Float>, mha_blend: array<Float>,
                k_cache: array<Float>, v_cache: array<Float>)
    requires m.Valid() && l < m.layerCount && n <= m.contextLen
    requires k_cache.Length == m.CacheSize() == v_cache.Length
    requires mha_q.Length == m.qHeadCount * n * m.headDim == mha_blend.Length
    requires mha_score.Length == m.qHeadCount * n * m.contextLen
    requires mha_score != mha_q && mha_score != k_cache && mha_score != v_cache && mha_score != mha_blend
    requires mha_blend != mha_q && mha_blend != k_cache && mha_blend != v_cache
    modifies mha_score, mha_blend
    ensures forall q: nat, i: nat :: q < m.qHeadCount && i < n ==>
              HeadRow(m, mha_blend[..], n, q, i) == AttendedHead(m, l, q, i, HeadRow(m, mha_q[..], n, q, i),
                                                                 k_cache[..], v_cache[..])
  {
    hide HeadRow, AttendedHead, Splice, Model.Valid, Model.CacheSize, CacheRows;
    ghost var qs, ks, vs := mha_q[..], k_cache[..], v_cache[..];
    for q: nat := 0 to m.qHeadCount
      invariant forall q': nat, i: nat :: q' < q && i < n ==>
                  HeadRow(m, mha_blend[..], n, q', i) == AttendedHead(m, l, q', i, HeadRow(m, qs, n, q', i), ks, vs)
    {
      for i: nat := 0 to n
        invariant forall q': nat, i': nat :: (q' < q && i' < n) || (q' == q && i' < i) ==>
                    HeadRow(m, mha_blend[..], n, q', i') ==
                      AttendedHead(m, l, q', i', HeadRow(m, qs, n, q', i'), ks, vs)
      {
        var h := KvHead(m, q);
        ghost var before := mha_blend[..];
        var o := HeadPtr(m, n, q, i);
        assert qs[o..o + m.headDim] == mha_q[o..o + m.headDim];
        var so := ScorePtr(m, n, q, i);
        AttendHead(m, l, h, i, mha_q, o, mha_score, so, mha_blend, o, k_cache, v_cache);
        AttendedIs(m, l, q, i, HeadRow(m, qs, n, q, i), ks, vs);
        HeadStore(m, before, n, q, i, AttendedHead(m, l, q, i, HeadRow(m, qs, n, q, i), ks, vs));
      }
    }
  }

  /** &mha_score[MINDEX3(q_head_count, sequence_len, context_len, q, i, 0)] */
  function ScorePtr(m: Model, n: nat, q: nat, i: nat): (o: nat)
    requires q < m.qHeadCount && i < n
    ensures o + m.contextLen <= m.qHeadCount * n * m.contextLen
  {
    RowIn2Bounds(m.qHeadCount, n, q, i);
    Mindex3IsRow(m.qHeadCount, n, m.contextLen, q, i);
    RowInside(m.qHeadCount * n, m.contextLen, RowIn2(n, q, i));
    MINDEX3(m.qHeadCount, n, m.contextLen, q, i, 0)
  }

  /** for q, for i, for e: mha_att[i][q * head_dim + e] = mha_blend[q][i][e] */
  method JoinHeads(m: Model, n: nat, mha_att: array<Float>, mha_blend: array<Float>)
    requires m.Valid() && mha_att != mha_blend
    requires mha_att.Length == n * m.embeddingDim && mha_blend.Length == m.qHeadCount * n * m.headDim
    modifies mha_att
    ensures forall i: nat :: i < n ==>
              Row(mha_att[..], n, m.embeddingDim, i) ==
                ConcatHeads(m.qHeadCount, m.headDim, HeadsOfToken(m, mha_blend[..], n, i))
  {
    hide HeadRow, Row, HeadsOfToken, ConcatHeads, Splice;
    ghost var blend := mha_blend[..];
    for q: nat := 0 to m.qHeadCount
      invariant 0 <= q * m.headDim <= m.embeddingDim
      invariant forall i: nat :: i < n ==>
                  Row(mha_att[..], n, m.embeddingDim, i)[..q * m.headDim]
                      == ConcatHeads(q, m.headDim, HeadsOfToken(m, blend, n, i))
    {
      RowInside(m.qHeadCount, m.headDim, q);
      JoinHead(m, n, mha_att, mha_blend, q);
      assert (q + 1) * m.headDim == q * m.headDim + m.headDim;
    }
  }

  /** The loop over the tokens, for one query head. */
  method JoinHead(m: Model, n: nat, mha_att: array<Float>, mha_blend: array<Float>, q: nat)
    requires m.Valid() && mha_att != mha_blend && q < m.qHeadCount && 0 <= q * m.headDim
             && q * m.headDim + m.headDim <= m.embeddingDim
    requires mha_att.Length == n * m.embeddingDim && mha_blend.Length == m.qHeadCount * n * m.headDim
    requires forall i: nat :: i < n ==>
               Row(mha_att[..], n, m.embeddingDim, i)[..q * m.headDim]
                   == ConcatHeads(q, m.headDim, HeadsOfToken(m, mha_blend[..], n, i))
    modifies mha_att
    ensures forall i: nat :: i < n ==>
              Row(mha_att[..], n, m.embeddingDim, i)[..q * m.headDim + m.headDim]
                == ConcatHeads(q + 1, m.headDim, HeadsOfToken(m, mha_blend[..], n, i))
  {
    hide HeadRow, Row, HeadsOfToken, ConcatHeads, Splice, Model.Valid;
    ghost var blend := mha_blend[..];
    var start := q * m.headDim;
    for i: nat := 0 to n
      invariant forall r: nat :: i <= r < n ==>
                  Row(mha_att[..], n, m.embeddingDim, r)[..start]
                      == ConcatHeads(q, m.headDim, HeadsOfToken(m, blend, n, r))
      invariant forall r: nat :: r < i ==>
                  Row(mha_att[..], n, m.embeddingDim, r)[..start + m.headDim]
                      == ConcatHeads(q + 1, m.headDim, HeadsOfToken(m, blend, n, r))
    {
      ghost var before := mha_att[..];
      RowAtPtr(before, n, m.embeddingDim, i);
      var o := HeadPtr(m, n, q, i);
      assert blend[o..o + m.headDim] == mha_blend[o..o + m.headDim];
      RowAfterPartialSplice(before, n, m.embeddingDim, i, start, HeadRow(m, blend, n, q, i));
      CopyCells(m.headDim, mha_att, MINDEX2(n, m.embeddingDim, i, start), mha_blend, o);
      OneMoreHead(m, blend, n, q, i, Row(before, n, m.embeddingDim, i));
    }
  }

  /** The rows of token i, one per query head. */
  function HeadsOfToken(m: Model, a: Vec, n: nat, i: nat): (rows: seq<Vec>)
    requires |a| == m.qHeadCount * n * m.headDim && i < n
    ensures |rows| == m.qHeadCount && AllOfLength(rows, m.headDim)
  {
    seq(m.qHeadCount, q requires 0 <= q < m.qHeadCount => HeadRow(m, a, n, q, i))
  }

  lemma OneMoreHead(m: Model, blend: Vec, n: nat, q: nat, i: nat, row: Vec)
    requires |blend| == m.qHeadCount * n * m.headDim && q < m.qHeadCount && i < n
    requires q * m.headDim + m.headDim <= |row|
    requires row[..q * m.headDim] == ConcatHeads(q, m.headDim, HeadsOfToken(m, blend, n, i))
    ensures Splice(row, q * m.headDim, HeadRow(m, blend, n, q, i))[..q * m.headDim + m.headDim]
         == ConcatHeads(q + 1, m.headDim, HeadsOfToken(m, blend, n, i))
  {
    hide HeadRow;
    assert HeadsOfToken(m, blend, n, i)[q] == HeadRow(m, blend, n, q, i);
  }

  // ----- one layer over all the tokens

  /** Row i holds the embedding that token i has when it enters layer l. */
  ghost predicate HoldsEmbeddings(m: Model, tokens: seq<nat>, embedding: Vec, l: nat)
    requires m.Valid() && TokensOk(m, tokens) && l <= m.layerCount && |embedding| == |tokens| * m.embeddingDim
  {
    forall i: nat :: i < |tokens| ==> Row(embedding, |tokens|, m.embeddingDim, i) == Embedding(m, tokens, l, i)
  }

  /** Projecting the normalised rows and rotating the keys fills layer l of the caches. */
  lemma LayerFilled(m: Model, tokens: seq<nat>, l: nat, norm: Vec, k: Vec, projected: Vec, k': Vec, k0: Vec, v: Vec,
                    v': Vec, v0: Vec)
    requires m.Valid() && TokensOk(m, tokens) && l < m.layerCount && |norm| == |tokens| * m.embeddingDim
    requires |k| == |projected| == |k'| == m.CacheSize() == |k0| && |v| == |v'| == m.CacheSize() == |v0|
    requires forall i: nat :: i < |tokens| ==> Row(norm, |tokens|, m.embeddingDim, i) == NormAt(m, tokens, l, i)
    requires KeysFilled(m, tokens, k, k0, l, 0, |tokens|) && ValuesFilled(m, tokens, v, v0, l, 0, |tokens|)
    requires Projected(m, m.mhaKWeight, l, |tokens|, norm, projected, k) && Rotated(m, l, |tokens|, k', projected)
    requires Projected(m, m.mhaVWeight, l, |tokens|, norm, v', v)
    ensures KeysFilled(m, tokens, k', k0, l + 1, 0, |tokens|) && ValuesFilled(m, tokens, v', v0, l + 1, 0, |tokens|)
  {
    hide Row, CacheRow, RopeOf, ProjectionOf, Key, Value, NormAt, Model.CacheSize;
    forall h: nat, p: nat | h < m.kvHeadCount && p < |tokens|
      ensures Key(m, tokens, l, h, p) == RopeOf(m.ops, ProjectionOf(m, m.mhaKWeight, l, h, NormAt(m, tokens, l, p)), p)
      ensures Value(m, tokens, l, h, p) == ProjectionOf(m, m.mhaVWeight, l, h, NormAt(m, tokens, l, p))
    {
      KeyIsRope(m, tokens, l, h, p);
    }
  }

  /** rmsnorm, the q, k and v projections, and rope on q and k */
  method ProjectLayer(m: Model, ghost tokens: seq<nat>, n: nat, l: nat, embedding: array<Float>,
                      mha_norm: array<Float>, mha_q: array<Float>,
                      k_cache: array<Float>, v_cache: array<Float>, ghost k0: Vec, ghost v0: Vec)
    requires m.Valid() && TokensOk(m, tokens) && n == |tokens| && l < m.layerCount
    requires embedding.Length == n * m.embeddingDim == mha_norm.Length && mha_q.Length == m.qHeadCount * n * m.headDim
    requires k_cache.Length == m.CacheSize() == v_cache.Length && |k0| == m.CacheSize() == |v0|
    requires mha_norm != embedding && mha_q != mha_norm && k_cache != mha_norm && v_cache != mha_norm
    requires mha_q != k_cache && mha_q != v_cache && k_cache != v_cache
    requires HoldsEmbeddings(m, tokens, embedding[..], l)
    requires KeysFilled(m, tokens, k_cache[..], k0, l, 0, n) && ValuesFilled(m, tokens, v_cache[..], v0, l, 0, n)
    modifies mha_norm, mha_q, k_cache, v_cache
    ensures forall q: nat, i: nat :: q < m.qHeadCount && i < n ==>
              HeadRow(m, mha_q[..], n, q, i) == QueryAt(m, tokens, l, q, i)
    ensures KeysFilled(m, tokens, k_cache[..], k0, l + 1, 0, n) && ValuesFilled(m, tokens, v_cache[..], v0, l + 1, 0, n)
  {
    hide Row, HeadRow, RopeOf, QProjection, RmsnormOf, Model.CacheSize, KeysFilled, ValuesFilled, Projected, Rotated,
        Embedding;
    ghost var k, v := k_cache[..], v_cache[..];
    NormRows(m, n, mha_norm, embedding, WeightOf(m.mhaNormWeight, m.layerCount, m.embeddingDim, l));
    ghost var norm := mha_norm[..];
    assert forall i: nat :: i < n ==> Row(norm, n, m.embeddingDim, i) == NormAt(m, tokens, l, i);
    QueryProjections(m, n, l, mha_q, mha_norm);
    ProjectToCache(m, n, l, k_cache, mha_norm, m.mhaKWeight);
    ghost var projected := k_cache[..];
    ProjectToCache(m, n, l, v_cache, mha_norm, m.mhaVWeight);
    RopeQueries(m, n, mha_q);
    RopeCache(m, n, l, k_cache);
    LayerFilled(m, tokens, l, norm, k, projected, k_cache[..], k0, v, v_cache[..], v0);
  }

  /** attention over the caches, and the heads joined */
  method AttendLayer(m: Model, ghost tokens: seq<nat>, n: nat, l: nat, mha_q: array<Float>, mha_score: array<Float>,
                     mha_blend: array<Float>,
                     mha_att: array<Float>, k_cache: array<Float>, v_cache: array<Float>, ghost k0: Vec, ghost v0: Vec)
    requires m.Valid() && TokensOk(m, tokens) && n == |tokens| && l < m.layerCount
    requires mha_q.Length == m.qHeadCount * n * m.headDim == mha_blend.Length
             && mha_score.Length == m.qHeadCount * n * m.contextLen
    requires mha_att.Length == n * m.embeddingDim
    requires k_cache.Length == m.CacheSize() == v_cache.Length && |k0| == m.CacheSize() == |v0|
    requires mha_score != mha_q && mha_score != k_cache && mha_score != v_cache && mha_score != mha_blend
    requires mha_blend != mha_q && mha_blend != k_cache && mha_blend != v_cache && mha_att != mha_blend
    requires forall q: nat, i: nat :: q < m.qHeadCount && i < n ==>
               HeadRow(m, mha_q[..], n, q, i) == QueryAt(m, tokens, l, q, i)
    requires KeysFilled(m, tokens, k_cache[..], k0, l + 1, 0, n)
             && ValuesFilled(m, tokens, v_cache[..], v0, l + 1, 0, n)
    modifies mha_score, mha_blend, mha_att
    ensures forall i: nat :: i < n ==> Row(mha_att[..], n, m.embeddingDim, i) == AttentionAt(m, tokens, l, i)
  {
    hide Row, HeadRow, AttendedHead, QueryAt, HeadAt, AttentionAt, Model.Valid, Model.CacheSize, KeysFilled,
        ValuesFilled, ConcatHeads;
    Attend(m, n, l, mha_q, mha_score, mha_blend, k_cache, v_cache);
    ghost var blend := mha_blend[..];
    forall q: nat, i: nat | q < m.qHeadCount && i < n
      ensures HeadRow(m, blend, n, q, i) == HeadAt(m, tokens, l, q, i)
    {
      AttendedIsHead(m, tokens, l, q, i, k_cache[..], k0, v_cache[..], v0, 0, n);
    }
    JoinHeads(m, n, mha_att, mha_blend);
    forall i: nat | i < n
      ensures ConcatHeads(m.qHeadCount, m.headDim, HeadsOfToken(m, blend, n, i)) == AttentionAt(m, tokens, l, i)
    {
      HeadsMakeAttention(m, tokens, l, i, HeadsOfToken(m, blend, n, i));
    }
  }

  /** the attention output and its residual connection */
  method AddAttention(m: Model, ghost tokens: seq<nat>, n: nat, l: nat, embedding: array<Float>,
                      mha_att: array<Float>, mha_out: array<Float>)
    requires m.Valid() && TokensOk(m, tokens) && n == |tokens| && l < m.layerCount
    requires embedding.Length == n * m.embeddingDim == mha_att.Length == mha_out.Length
    requires embedding != mha_att && embedding != mha_out && mha_att != mha_out
    requires HoldsEmbeddings(m, tokens, embedding[..], l)
    requires forall i: nat :: i < n ==> Row(mha_att[..], n, m.embeddingDim, i) == AttentionAt(m, tokens, l, i)
    modifies mha_out, embedding
    ensures forall i: nat :: i < n ==> Row(embedding[..], n, m.embeddingDim, i) == AfterAttentionAt(m, tokens, l, i)
  {
    hide Row, AttentionAt, MatvecOf, AddTo, Embedding;
    var w := WeightOf(m.mhaOutWeight, m.layerCount, m.embeddingDim * m.embeddingDim, l);
    IterMatvec(m.ops, n, m.embeddingDim, m.embeddingDim, mha_out, mha_att, w);
    AddRows(m.ops, n, m.embeddingDim, embedding, mha_out);
  }

  /** the feed-forward network and its residual connection */
  method FeedForward(m: Model, ghost tokens: seq<nat>, n: nat, l: nat, embedding: array<Float>, ffn_norm: array<Float>,
                     ffn_fc: array<Float>, ffn_up: array<Float>, ffn_out: array<Float>)
    requires m.Valid() && TokensOk(m, tokens) && n == |tokens| && l < m.layerCount
    requires embedding.Length == n * m.embeddingDim == ffn_norm.Length == ffn_out.Length
    requires ffn_fc.Length == n * m.hiddenDim == ffn_up.Length
    requires embedding != ffn_norm && embedding != ffn_out && embedding != ffn_fc && embedding != ffn_up
    requires ffn_norm != ffn_fc && ffn_norm != ffn_up && ffn_fc != ffn_up && ffn_fc != ffn_out
    requires forall i: nat :: i < n ==> Row(embedding[..], n, m.embeddingDim, i) == AfterAttentionAt(m, tokens, l, i)
    modifies embedding, ffn_norm, ffn_fc, ffn_up, ffn_out
    ensures HoldsEmbeddings(m, tokens, embedding[..], l + 1)
  {
    hide Row, AfterAttentionAt, MatvecOf, AddTo, SwigluOf, RmsnormOf, Embedding;
    NormRows(m, n, ffn_norm, embedding, WeightOf(m.ffnNormWeight, m.layerCount, m.embeddingDim, l));
    IterMatvec(m.ops, n, m.hiddenDim, m.embeddingDim, ffn_fc, ffn_norm,
               WeightOf(m.ffnFcWeight, m.layerCount, m.hiddenDim * m.embeddingDim, l));
    IterMatvec(m.ops, n, m.hiddenDim, m.embeddingDim, ffn_up, ffn_norm,
               WeightOf(m.ffnUpWeight, m.layerCount, m.hiddenDim * m.embeddingDim, l));
    SwigluRows(m.ops, n, m.hiddenDim, ffn_fc, ffn_up);
    IterMatvec(m.ops, n, m.embeddingDim, m.hiddenDim, ffn_out, ffn_fc,
               WeightOf(m.ffnOutWeight, m.layerCount, m.embeddingDim * m.hiddenDim, l));
    AddRows(m.ops, n, m.embeddingDim, embedding, ffn_out);
    forall i: nat | i < n
      ensures Row(embedding[..], n, m.embeddingDim, i) == Embedding(m, tokens, l + 1, i)
    {
      NextEmbedding(m, tokens, l, i);
    }
  }

  // ----- the whole prompt

  /** for i, for e: embedding[i][e] = embedding_weight[sequence[i]][e] */
  method LoadEmbeddings(m: Model, tokens: seq<nat>, embedding: array<Float>)
    requires m.Valid() && TokensOk(m, tokens) && embedding.Length == |tokens| * m.embeddingDim
    modifies embedding
    ensures HoldsEmbeddings(m, tokens, embedding[..], 0)
  {
    hide Row, Splice;
    var n := |tokens|;
    for i: nat := 0 to n
      invariant forall r: nat :: r < i ==> Row(embedding[..], n, m.embeddingDim, r) == Embedding(m, tokens, 0, r)
    {
      RowAtPtr(embedding[..], n, m.embeddingDim, i);
      RowAtPtr(m.embeddingWeight, m.vocabularyLen, m.embeddingDim, tokens[i]);
      ghost var before := embedding[..];
      CopyRow(m.embeddingDim, embedding, MINDEX2(n, m.embeddingDim, i, 0), m.embeddingWeight,
              MINDEX2(m.vocabularyLen, m.embeddingDim, tokens[i], 0));
      RowAfterSplice(before, n, m.embeddingDim, i, Embedding(m, tokens, 0, i));
    }
  }

  /** The body of the loop over the layers. */
  method Layer(m: Model, ghost tokens: seq<nat>, n: nat, l: nat, w: Workspace, k_cache: array<Float>,
               v_cache: array<Float>,
               ghost k0: Vec, ghost v0: Vec, ghost number: map<array<Float>, nat>)
    requires m.Valid() && TokensOk(m, tokens) && n == |tokens| && l < m.layerCount
    requires w.Sized(m, n) && w.Apart(number, k_cache, v_cache)
    requires k_cache.Length == m.CacheSize() == v_cache.Length && |k0| == m.CacheSize() == |v0|
    requires HoldsEmbeddings(m, tokens, w.embedding[..], l)
    requires KeysFilled(m, tokens, k_cache[..], k0, l, 0, n) && ValuesFilled(m, tokens, v_cache[..], v0, l, 0, n)
    modifies w.Buffers(), k_cache, v_cache
    ensures HoldsEmbeddings(m, tokens, w.embedding[..], l + 1)
    ensures KeysFilled(m, tokens, k_cache[..], k0, l + 1, 0, n) && ValuesFilled(m, tokens, v_cache[..], v0, l + 1, 0, n)
  {
    hide KeysFilled, ValuesFilled, HoldsEmbeddings, Model.CacheSize, Model.Valid, HeadRow, Row;
    ProjectLayer(m, tokens, n, l, w.embedding, w.mha_norm, w.mha_q, k_cache, v_cache, k0, v0);
    AttendLayer(m, tokens, n, l, w.mha_q, w.mha_score, w.mha_blend, w.mha_att, k_cache, v_cache, k0, v0);
    AddAttention(m, tokens, n, l, w.embedding, w.mha_att, w.mha_out);
    FeedForward(m, tokens, n, l, w.embedding, w.ffn_norm, w.ffn_fc, w.ffn_up, w.ffn_out);
  }

  /** generate_prompt_proc, layer by layer over the whole prompt */
  method GeneratePromptProc(m: Model, k_cache: array<Float>, v_cache: array<Float>, logits: array<Float>,
                            sequence: seq<nat>)
    requires m.Valid() && TokensOk(m, sequence)
    requires k_cache.Length == m.CacheSize() == v_cache.Length && logits.Length == m.vocabularyLen
    requires k_cache != v_cache && k_cache != logits && v_cache != logits
    modifies k_cache, v_cache, logits
    ensures Processed(m, sequence, k_cache[..], old(k_cache[..]), v_cache[..], old(v_cache[..]), logits[..],
                      old(logits[..]))
  {
    hide KeysFilled, ValuesFilled, HoldsEmbeddings, Model.CacheSize, Model.Valid, Workspace.Apart;
    var n := |sequence|;
    ghost var k0, v0, logits0 := k_cache[..], v_cache[..], logits[..];
    var w, number := Allocate(m, n, k_cache, v_cache);
    LoadEmbeddings(m, sequence, w.embedding);
    NothingFilled(m, sequence, k0, v0);
    for l: nat := 0 to m.layerCount
      invariant HoldsEmbeddings(m, sequence, w.embedding[..], l)
      invariant KeysFilled(m, sequence, k_cache[..], k0, l, 0, n) && ValuesFilled(m, sequence, v_cache[..], v0, l, 0, n)
      invariant logits[..] == logits0
    {
      Layer(m, sequence, n, l, w, k_cache, v_cache, k0, v0, number);
    }
    Classify(m, sequence, n, w.embedding, logits);
  }

  lemma NothingFilled(m: Model, tokens: seq<nat>, k0: Vec, v0: Vec)
    requires m.Valid() && TokensOk(m, tokens) && |k0| == m.CacheSize() == |v0|
    ensures KeysFilled(m, tokens, k0, k0, 0, 0, |tokens|) && ValuesFilled(m, tokens, v0, v0, 0, 0, |tokens|)
  {
    hide CacheRow;
  }

  /** The final rmsnorm, and the classifier: every token writes the logits, so that the last one stays. */
  method Classify(m: Model, ghost tokens: seq<nat>, n: nat, embedding: array<Float>, logits: array<Float>)
    requires m.Valid() && TokensOk(m, tokens) && n == |tokens| && embedding != logits
    requires embedding.Length == n * m.embeddingDim && logits.Length == m.vocabularyLen
    requires HoldsEmbeddings(m, tokens, embedding[..], m.layerCount)
    modifies embedding, logits
    ensures logits[..] == if n == 0 then old(logits[..]) else LogitsOf(m, Embedding(m, tokens, m.layerCount, n - 1))
  {
    hide Row, RmsnormOf, MatvecOf, Embedding, Splice;
    NormRows(m, n, embedding, embedding, m.outNormWeight);
    ghost var normed := embedding[..];
    for i: nat := 0 to n
      invariant embedding[..] == normed
      invariant logits[..] == if i == 0 then old(logits[..]) else LogitsOf(m, Embedding(m, tokens, m.layerCount, i - 1))
    {
      RowAtPtr(embedding[..], n, m.embeddingDim, i);
      ghost var before := logits[..];
      Matvec(m.ops, m.vocabularyLen, m.embeddingDim, logits, 0, embedding, MINDEX2(n, m.embeddingDim, i, 0),
             m.outWeight);
      WholeSplice(before, LogitsOf(m, Embedding(m, tokens, m.layerCount, i)));
    }
  }
}
