/**
 What the buffers hold between two stages of prompt processing. The two forms of the
 program go through different intermediate states; both are described by how far the
 rows of the caches have been filled.
 */
module PromptState {
  import opened Mindex
  import opened Kernels
  import opened Transformer
  import opened Attention

  // ----- the rows of one token inside layer l

  predicate InRun(m: Model, tokens: seq<nat>, l: nat, i: nat) {
    m.Valid() && TokensOk(m, tokens) && i < |tokens| && l < m.layerCount
  }

  function NormAt(m: Model, tokens: seq<nat>, l: nat, i: nat): (n: Vec)
    requires InRun(m, tokens, l, i)
    ensures |n| == m.embeddingDim
  {
    NormOf(m, l, Embedding(m, tokens, l, i))
  }

  function QueryAt(m: Model, tokens: seq<nat>, l: nat, q: nat, i: nat): (r: Vec)
    requires InRun(m, tokens, l, i) && q < m.qHeadCount
    ensures |r| == m.headDim
  {
    RopeOf(m.ops, QProjection(m, l, q, NormAt(m, tokens, l, i)), i)
  }

  function HeadAt(m: Model, tokens: seq<nat>, l: nat, q: nat, i: nat): (r: Vec)
    requires InRun(m, tokens, l, i) && q < m.qHeadCount
    ensures |r| == m.headDim
  {
    QueryHeadOf(m, l, q, NormAt(m, tokens, l, i), i, KeysUpTo(m, tokens, l, i), ValuesUpTo(m, tokens, l, i))
  }

  function AttentionAt(m: Model, tokens: seq<nat>, l: nat, i: nat): (a: Vec)
    requires InRun(m, tokens, l, i)
    ensures |a| == m.embeddingDim
  {
    AttentionOf(m, l, NormAt(m, tokens, l, i), i, KeysUpTo(m, tokens, l, i), ValuesUpTo(m, tokens, l, i))
  }

  function AfterAttentionAt(m: Model, tokens: seq<nat>, l: nat, i: nat): (x: Vec)
    requires InRun(m, tokens, l, i)
    ensures |x| == m.embeddingDim
  {
    AfterAttention(m, l, Embedding(m, tokens, l, i), AttentionAt(m, tokens, l, i))
  }

  lemma NextEmbedding(m: Model, tokens: seq<nat>, l: nat, i: nat)
    requires InRun(m, tokens, l, i)
    ensures Embedding(m, tokens, l + 1, i) == AfterFfn(m, l, AfterAttentionAt(m, tokens, l, i))
  {
    hide AfterFfn, AfterAttention, AttentionOf, NormOf;
  }

  lemma KeyIsRope(m: Model, tokens: seq<nat>, l: nat, h: nat, p: nat)
    requires InRun(m, tokens, l, p) && h < m.kvHeadCount
    ensures Key(m, tokens, l, h, p) == RopeOf(m.ops, ProjectionOf(m, m.mhaKWeight, l, h, NormAt(m, tokens, l, p)), p)
    ensures Value(m, tokens, l, h, p) == ProjectionOf(m, m.mhaVWeight, l, h, NormAt(m, tokens, l, p))
  {
    hide RopeOf, ProjectionOf, NormOf;
  }

  /** The heads of one token side by side make its attention row. */
  lemma HeadsMakeAttention(m: Model, tokens: seq<nat>, l: nat, i: nat, rows: seq<Vec>)
    requires InRun(m, tokens, l, i) && |rows| == m.qHeadCount && AllOfLength(rows, m.headDim)
    requires forall q: nat :: q < m.qHeadCount ==> rows[q] == HeadAt(m, tokens, l, q, i)
    ensures ConcatHeads(m.qHeadCount, m.headDim, rows) == AttentionAt(m, tokens, l, i)
  {
    hide QueryHeadOf, KeysUpTo, ValuesUpTo, NormOf, ConcatHeads;
    var n, ks, vs := NormAt(m, tokens, l, i), KeysUpTo(m, tokens, l, i), ValuesUpTo(m, tokens, l, i);
    assert rows == seq(m.qHeadCount, q requires 0 <= q < m.qHeadCount => QueryHeadOf(m, l, q, n, i, ks, vs));
  }

  // ----- how far the caches are filled

  /** The tokens before `start` are done, and those before `end` are done for the first `layers` layers. */
  predicate Filled(layers: nat, start: nat, end: nat, l: nat, p: nat) {
    p < start || (p < end && l < layers)
  }

  ghost predicate KeysFilled(m: Model, tokens: seq<nat>, k: Vec, k0: Vec, layers: nat, start: nat, end: nat)
    requires m.Valid() && TokensOk(m, tokens) && start <= end <= |tokens| && |k| == m.CacheSize() == |k0|
  {
    forall l: nat, h: nat, p: nat :: InCache(m, l, h, p) ==>
      CacheRow(m, k, l, h, p) == if Filled(layers, start, end, l, p) then Key(m, tokens, l, h, p)
          else CacheRow(m, k0, l, h, p)
  }

  ghost predicate ValuesFilled(m: Model, tokens: seq<nat>, v: Vec, v0: Vec, layers: nat, start: nat, end: nat)
    requires m.Valid() && TokensOk(m, tokens) && start <= end <= |tokens| && |v| == m.CacheSize() == |v0|
  {
    forall l: nat, h: nat, p: nat :: InCache(m, l, h, p) ==>
      CacheRow(m, v, l, h, p) == if Filled(layers, start, end, l, p) then Value(m, tokens, l, h, p)
          else CacheRow(m, v0, l, h, p)
  }

  /** With layer l filled up to token i, the attention of a query head is the one of the specification. */
  lemma AttendedIsHead(m: Model, tokens: seq<nat>, l: nat, q: nat, i: nat, k: Vec, k0: Vec, v: Vec, v0: Vec,
                       start: nat, end: nat)
    requires InRun(m, tokens, l, i) && q < m.qHeadCount && start <= end <= |tokens| && i < end
    requires |k| == m.CacheSize() == |k0| && |v| == m.CacheSize() == |v0|
    requires KeysFilled(m, tokens, k, k0, l + 1, start, end) && ValuesFilled(m, tokens, v, v0, l + 1, start, end)
    ensures AttendedHead(m, l, q, i, QueryAt(m, tokens, l, q, i), k, v) == HeadAt(m, tokens, l, q, i)
  {
    hide CacheRow, Key, Value, HeadOf, RopeOf, QProjection, NormOf;
    var h := KvHead(m, q);
    assert CacheRows(m, k, l, h, i) == KeysUpTo(m, tokens, l, i)[h];
    assert CacheRows(m, v, l, h, i) == ValuesUpTo(m, tokens, l, i)[h];
  }

  /** Nothing is filled before the first token, and a token is done once all its layers are. */
  lemma FilledBounds(m: Model, tokens: seq<nat>, k: Vec, k0: Vec, v: Vec, v0: Vec, i: nat)
    requires m.Valid() && TokensOk(m, tokens) && i < |tokens|
    requires |k| == m.CacheSize() == |k0| && |v| == m.CacheSize() == |v0|
    ensures KeysFilled(m, tokens, k, k0, 0, i, i + 1) == KeysFilled(m, tokens, k, k0, 0, i, i)
    ensures ValuesFilled(m, tokens, v, v0, 0, i, i + 1) == ValuesFilled(m, tokens, v, v0, 0, i, i)
    ensures KeysFilled(m, tokens, k, k0, m.layerCount, i, i + 1) ==> KeysFilled(m, tokens, k, k0, 0, i + 1, i + 1)
    ensures ValuesFilled(m, tokens, v, v0, m.layerCount, i, i + 1) ==> ValuesFilled(m, tokens, v, v0, 0, i + 1, i + 1)
  {
    hide CacheRow, Key, Value;
  }

  // ----- the outcome of processing a prompt

  /** What the three buffers hold once the prompt is processed, in terms of what they held before. */
  ghost predicate Processed(m: Model, tokens: seq<nat>, k: Vec, k0: Vec, v: Vec, v0: Vec, logits: Vec, logits0: Vec)
    requires m.Valid() && TokensOk(m, tokens)
    requires |k| == m.CacheSize() == |k0| && |v| == m.CacheSize() == |v0|
  {
    && KeysFilled(m, tokens, k, k0, m.layerCount, 0, |tokens|)
    && ValuesFilled(m, tokens, v, v0, m.layerCount, 0, |tokens|)
    && logits == if |tokens| == 0 then logits0 else LogitsOf(m, Embedding(m, tokens, m.layerCount, |tokens| - 1))
  }

  /** A buffer is determined by its cache rows. */
  lemma RowsDetermineCache(m: Model, a: Vec, b: Vec)
    requires |a| == m.CacheSize() == |b|
    requires forall l: nat, h: nat, p: nat :: InCache(m, l, h, p) ==> CacheRow(m, a, l, h, p) == CacheRow(m, b, l, h, p)
    ensures a == b
  {
    hide CacheRow;
    forall x: nat | x < |a|
      ensures a[x] == b[x]
    {
      var l, h, p, e := CacheCell(m, x);
      CacheCellValue(m, a, x, l, h, p, e);
      CacheCellValue(m, b, x, l, h, p, e);
    }
  }

  lemma CacheCellValue(m: Model, a: Vec, x: nat, l: nat, h: nat, p: nat, e: nat)
    requires |a| == m.CacheSize() && x < |a| && InCache(m, l, h, p) && e < m.headDim
             && x == CacheRowNumber(m, l, h, p) * m.headDim + e
    ensures CacheRow(m, a, l, h, p)[e] == a[x]
  {
    hide Row, RowIn3;
    CellOfRow(a, m.CacheRows(), m.headDim, CacheRowNumber(m, l, h, p), e, x);
  }

  /** Every cell of a cache is in one of its rows. */
  lemma CacheCell(m: Model, x: nat) returns (l: nat, h: nat, p: nat, e: nat)
    requires x < m.CacheSize()
    ensures InCache(m, l, h, p) && e < m.headDim && x == CacheRowNumber(m, l, h, p) * m.headDim + e
  {
    var r, s: nat;
    r, e := Mindex2Onto(m.CacheRows(), m.headDim, x);
    s, p := Mindex2Onto(m.layerCount * m.kvHeadCount, m.contextLen, r);
    l, h := Mindex2Onto(m.layerCount, m.kvHeadCount, s);
  }

  /** The specification leaves nothing open: it determines all three buffers. */
  lemma ProcessedIsUnique(m: Model, tokens: seq<nat>, k0: Vec, v0: Vec, logits0: Vec,
                          k: Vec, v: Vec, logits: Vec, k': Vec, v': Vec, logits': Vec)
    requires m.Valid() && TokensOk(m, tokens)
    requires |k| == m.CacheSize() == |k0| && |v| == m.CacheSize() == |v0| && |k'| == m.CacheSize() == |v'|
    requires Processed(m, tokens, k, k0, v, v0, logits, logits0)
    requires Processed(m, tokens, k', k0, v', v0, logits', logits0)
    ensures k == k' && v == v' && logits == logits'
  {
    hide CacheRow, Key, Value;
    RowsDetermineCache(m, k, k');
    RowsDetermineCache(m, v, v');
  }
}
