/** The key and value caches as flat buffers, and the attention of one query head over them. */
module Attention {
  import opened Floats
  import opened Mindex
  import opened Kernels
  import opened Transformer

  predicate InCache(m: Model, l: nat, h: nat, p: nat) {
    l < m.layerCount && h < m.kvHeadCount && p < m.contextLen
  }

  function CacheRowNumber(m: Model, l: nat, h: nat, p: nat): (r: nat)
    requires InCache(m, l, h, p)
    ensures r < m.CacheRows()
  {
    RowIn3Bounds(m.layerCount, m.kvHeadCount, m.contextLen, l, h, p);
    RowIn3(m.kvHeadCount, m.contextLen, l, h, p)
  }

  /** The row that a cache holds for head h of layer l at position p. */
  function CacheRow(m: Model, cache: Vec, l: nat, h: nat, p: nat): (row: Vec)
    requires |cache| == m.CacheSize() && InCache(m, l, h, p)
    ensures |row| == m.headDim
  {
    Row(cache, m.CacheRows(), m.headDim, CacheRowNumber(m, l, h, p))
  }

  /** &cache[MINDEX4(layer_count, kv_head_count, context_len, head_dim, l, h, p, 0)] */
  function CachePtr(m: Model, l: nat, h: nat, p: nat): (o: nat)
    requires InCache(m, l, h, p)
    ensures o + m.headDim <= m.CacheSize()
    ensures o == CacheRowNumber(m, l, h, p) * m.headDim
  {
    Mindex4IsRow(m.layerCount, m.kvHeadCount, m.contextLen, m.headDim, l, h, p);
    RowInside(m.CacheRows(), m.headDim, CacheRowNumber(m, l, h, p));
    MINDEX4(m.layerCount, m.kvHeadCount, m.contextLen, m.headDim, l, h, p, 0)
  }

  lemma CacheRowAtPtr(m: Model, cache: Vec, l: nat, h: nat, p: nat)
    requires |cache| == m.CacheSize() && InCache(m, l, h, p)
    ensures CacheRow(m, cache, l, h, p) == cache[CachePtr(m, l, h, p)..CachePtr(m, l, h, p) + m.headDim]
  {
  }

  /** Writing through the pointer of a cache row changes that row and no other. */
  lemma CacheStore(m: Model, cache: Vec, l: nat, h: nat, p: nat, s: Vec)
    requires |cache| == m.CacheSize() && InCache(m, l, h, p) && |s| == m.headDim
    ensures forall l': nat, h': nat, p': nat :: InCache(m, l', h', p') ==>
              CacheRow(m, Splice(cache, CachePtr(m, l, h, p), s), l', h', p')
                == if l' == l && h' == h && p' == p then s else CacheRow(m, cache, l', h', p')
  {
    RowAfterSplice(cache, m.CacheRows(), m.headDim, CacheRowNumber(m, l, h, p), s);
    forall l': nat, h': nat, p': nat | InCache(m, l', h', p')
      ensures CacheRow(m, Splice(cache, CachePtr(m, l, h, p), s), l', h', p')
                == if l' == l && h' == h && p' == p then s else CacheRow(m, cache, l', h', p')
    {
      if CacheRowNumber(m, l', h', p') == CacheRowNumber(m, l, h, p) {
        RowIn3Injective(m.kvHeadCount, m.contextLen, l, h, p, l', h', p');
      }
    }
  }

  /** The rows of one head of one layer, up to position pos. */
  function CacheRows(m: Model, cache: Vec, l: nat, h: nat, pos: nat): (rows: seq<Vec>)
    requires |cache| == m.CacheSize() && InCache(m, l, h, pos)
    ensures |rows| == pos + 1 && AllOfLength(rows, m.headDim)
  {
    seq(pos + 1, p requires 0 <= p < pos + 1 => CacheRow(m, cache, l, h, p))
  }

  lemma CacheRowsAt(m: Model, cache: Vec, l: nat, h: nat, pos: nat, p: nat)
    requires |cache| == m.CacheSize() && InCache(m, l, h, pos) && p <= pos
    ensures CacheRows(m, cache, l, h, pos)[p] == CacheRow(m, cache, l, h, p)
  {
  }

  /** The key/value head that query head q reads. */
  function KvHead(m: Model, q: nat): (h: nat)
    requires m.Valid() && q < m.qHeadCount
    ensures h < m.kvHeadCount && h == q / m.qHeadPerKvHeadCount
  {
    q / m.qHeadPerKvHeadCount
  }

  method ScoreAgainst(m: Model, l: nat, h: nat, p: nat, mha_q: array<Float>, qo: nat, mha_score: array<Float>,
                      sp: nat, k_cache: array<Float>)
    returns (ghost r: Float)
    requires InCache(m, l, h, p) && k_cache.Length == m.CacheSize() && qo + m.headDim <= mha_q.Length
             && sp < mha_score.Length
    requires mha_score != mha_q && mha_score != k_cache
    modifies mha_score
    ensures mha_score[..] == old(mha_score[..])[sp := r]
    ensures r == m.ops.div(Dot(m.ops, mha_q[qo..qo + m.headDim], CacheRow(m, k_cache[..], l, h, p), m.headDim),
                           m.ops.sqrt(m.ops.ofInt(m.headDim)))
  {
    ghost var q, k := mha_q[qo..qo + m.headDim], CacheRow(m, k_cache[..], l, h, p);
    CacheRowAtPtr(m, k_cache[..], l, h, p);
    mha_score[sp] := m.ops.zero;
    for e := 0 to m.headDim
      invariant mha_score[..] == old(mha_score[..])[sp := Dot(m.ops, q, k, e)]
    {
      var o := MINDEX4(m.layerCount, m.kvHeadCount, m.contextLen, m.headDim, l, h, p, e);
      assert o == CachePtr(m, l, h, p) + e;
      assert k_cache[o] == k[e];
      mha_score[sp] := m.ops.add(mha_score[sp], m.ops.mul(mha_q[qo + e], k_cache[o]));
    }
    mha_score[sp] := m.ops.div(mha_score[sp], m.ops.sqrt(m.ops.ofInt(m.headDim)));
    r := mha_score[sp];
  }

  method BlendIn(m: Model, l: nat, h: nat, p: nat, s: Float, mha_blend: array<Float>, bo: nat, v_cache: array<Float>,
                 ghost was: Vec, ghost scores: Vec, ghost vs: seq<Vec>)
    requires InCache(m, l, h, p) && v_cache.Length == m.CacheSize() && bo + m.headDim <= mha_blend.Length == |was|
             && mha_blend != v_cache
    requires AllOfLength(vs, m.headDim) && p < |vs| == |scores| && s == scores[p]
             && vs[p] == CacheRow(m, v_cache[..], l, h, p)
    requires mha_blend[..] == Splice(was, bo, BlendOf(m.ops, scores, vs, m.headDim, p))
    modifies mha_blend
    ensures mha_blend[..] == Splice(was, bo, BlendOf(m.ops, scores, vs, m.headDim, p + 1))
  {
    ghost var before, done := mha_blend[..], BlendOf(m.ops, scores, vs, m.headDim, p + 1);
    CacheRowAtPtr(m, v_cache[..], l, h, p);
    for e := 0 to m.headDim
      invariant Written(mha_blend[..], before, bo, done, e)
    {
      var o := MINDEX4(m.layerCount, m.kvHeadCount, m.contextLen, m.headDim, l, h, p, e);
      assert o == CachePtr(m, l, h, p) + e;
      assert v_cache[o] == vs[p][e];
      assert mha_blend[bo + e] == BlendOf(m.ops, scores, vs, m.headDim, p)[e];
      mha_blend[bo + e] := m.ops.add(mha_blend[bo + e], m.ops.mul(s, v_cache[o]));
      assert mha_blend[bo + e] == done[e];
    }
    WrittenIsSplice(mha_blend[..], before, bo, done);
  }

  /** The body of the attention loop for one query head at position pos. */
  method AttendHead(m: Model, l: nat, h: nat, pos: nat, mha_q: array<Float>, qo: nat, mha_score: array<Float>, so: nat,
                    mha_blend: array<Float>, bo: nat, k_cache: array<Float>, v_cache: array<Float>)
    requires InCache(m, l, h, pos) && k_cache.Length == m.CacheSize() == v_cache.Length
    requires qo + m.headDim <= mha_q.Length && so + pos + 1 <= mha_score.Length && bo + m.headDim <= mha_blend.Length
    requires mha_score != mha_q && mha_score != k_cache && mha_score != v_cache && mha_score != mha_blend
    requires mha_blend != mha_q && mha_blend != k_cache && mha_blend != v_cache
    modifies mha_score, mha_blend
    ensures mha_blend[..] == Splice(old(mha_blend[..]), bo,
              HeadOf(m.ops, mha_q[qo..qo + m.headDim], CacheRows(m, k_cache[..], l, h, pos),
                     CacheRows(m, v_cache[..], l, h, pos)))
  {
    hide ScoresOf, SoftmaxOf, BlendOf, CacheRows;
    ghost var q := mha_q[qo..qo + m.headDim];
    ghost var ks, vs := CacheRows(m, k_cache[..], l, h, pos), CacheRows(m, v_cache[..], l, h, pos);
    Scores(m, l, h, pos, mha_q, qo, mha_score, so, k_cache);
    SliceOfSplice(mha_score[..], old(mha_score[..]), so, ScoresOf(m.ops, q, ks));
    ghost var raw := mha_score[..];
    Softmax(m.ops, pos + 1, mha_score, so);
    ghost var scores := SoftmaxOf(m.ops, ScoresOf(m.ops, q, ks));
    SliceOfSplice(mha_score[..], raw, so, scores);
    ZeroBlend(m, mha_blend, bo, scores, vs);
    forall p: nat | p <= pos
      ensures vs[p] == CacheRow(m, v_cache[..], l, h, p)
    {
      CacheRowsAt(m, v_cache[..], l, h, pos, p);
    }
    forall p | 0 <= p <= pos
      ensures mha_score[so + p] == scores[p]
    {
      assert mha_score[so..so + pos + 1][p] == scores[p];
    }
    BlendAll(m, l, h, pos, mha_score, so, mha_blend, bo, v_cache, old(mha_blend[..]), scores, vs);
  }

  lemma SliceOfSplice<T>(b: seq<T>, a: seq<T>, o: nat, s: seq<T>)
    requires o + |s| <= |a| && b == Splice(a, o, s)
    ensures b[o..o + |s|] == s
  {
  }

  method ZeroBlend(m: Model, mha_blend: array<Float>, bo: nat, ghost scores: Vec, ghost vs: seq<Vec>)
    requires bo + m.headDim <= mha_blend.Length && |scores| == |vs| && AllOfLength(vs, m.headDim)
    modifies mha_blend
    ensures mha_blend[..] == Splice(old(mha_blend[..]), bo, BlendOf(m.ops, scores, vs, m.headDim, 0))
  {
    ghost var was, zeros := mha_blend[..], BlendOf(m.ops, scores, vs, m.headDim, 0);
    for e := 0 to m.headDim
      invariant Written(mha_blend[..], was, bo, zeros, e)
    {
      mha_blend[bo + e] := m.ops.zero;
    }
    WrittenIsSplice(mha_blend[..], was, bo, zeros);
  }

  method BlendAll(m: Model, l: nat, h: nat, pos: nat, mha_score: array<Float>, so: nat, mha_blend: array<Float>,
                  bo: nat,
                  v_cache: array<Float>, ghost was: Vec, ghost scores: Vec, ghost vs: seq<Vec>)
    requires InCache(m, l, h, pos) && v_cache.Length == m.CacheSize() && |was| == mha_blend.Length
    requires so + pos + 1 <= mha_score.Length && bo + m.headDim <= mha_blend.Length
    requires mha_blend != mha_score && mha_blend != v_cache
    requires |scores| == pos + 1 == |vs| && AllOfLength(vs, m.headDim)
    requires forall p :: 0 <= p <= pos ==> mha_score[so + p] == scores[p]
    requires forall p: nat :: p <= pos ==> vs[p] == CacheRow(m, v_cache[..], l, h, p)
    requires mha_blend[..] == Splice(was, bo, BlendOf(m.ops, scores, vs, m.headDim, 0))
    modifies mha_blend
    ensures mha_blend[..] == Splice(was, bo, BlendOf(m.ops, scores, vs, m.headDim, pos + 1))
  {
    hide BlendOf, Splice, CacheRow;
    for p: nat := 0 to pos + 1
      invariant mha_blend[..] == Splice(was, bo, BlendOf(m.ops, scores, vs, m.headDim, p))
    {
      BlendIn(m, l, h, p, mha_score[so + p], mha_blend, bo, v_cache, was, scores, vs);
    }
  }

  /** The loop that fills the row of scores. */
  method Scores(m: Model, l: nat, h: nat, pos: nat, mha_q: array<Float>, qo: nat, mha_score: array<Float>, so: nat,
                k_cache: array<Float>)
    requires InCache(m, l, h, pos) && k_cache.Length == m.CacheSize()
    requires qo + m.headDim <= mha_q.Length && so + pos + 1 <= mha_score.Length && mha_score != mha_q
             && mha_score != k_cache
    modifies mha_score
    ensures mha_score[..] == Splice(old(mha_score[..]), so,
              ScoresOf(m.ops, mha_q[qo..qo + m.headDim], CacheRows(m, k_cache[..], l, h, pos)))
  {
    ghost var was := mha_score[..];
    ghost var q, ks := mha_q[qo..qo + m.headDim], CacheRows(m, k_cache[..], l, h, pos);
    ghost var done := ScoresOf(m.ops, q, ks);
    for p := 0 to pos + 1
      invariant Written(mha_score[..], was, so, done, p)
    {
      var r := ScoreAgainst(m, l, h, p, mha_q, qo, mha_score, so + p, k_cache);
      assert ks[p] == CacheRow(m, k_cache[..], l, h, p);
      assert r == done[p];
    }
    WrittenIsSplice(mha_score[..], was, so, done);
  }

  /** What query head q attends to at position pos, given its query and the caches. */
  function AttendedHead(m: Model, l: nat, q: nat, pos: nat, query: Vec, k: Vec, v: Vec): (b: Vec)
    requires m.Valid() && l < m.layerCount && q < m.qHeadCount && pos < m.contextLen && |query| == m.headDim
    requires |k| == m.CacheSize() == |v|
    ensures |b| == m.headDim
  {
    var h := KvHead(m, q);
    HeadOf(m.ops, query, CacheRows(m, k, l, h, pos), CacheRows(m, v, l, h, pos))
  }

  lemma AttendedIs(m: Model, l: nat, q: nat, pos: nat, query: Vec, k: Vec, v: Vec)
    requires m.Valid() && l < m.layerCount && q < m.qHeadCount && pos < m.contextLen && |query| == m.headDim
    requires |k| == m.CacheSize() == |v|
    ensures var h := KvHead(m, q);
            AttendedHead(m, l, q, pos, query, k, v)
                == HeadOf(m.ops, query, CacheRows(m, k, l, h, pos), CacheRows(m, v, l, h, pos))
  {
  }
}
