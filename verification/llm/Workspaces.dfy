/** The scratch buffers of prompt processing. */
module Workspaces {
  import opened Floats
  import opened Mindex
  import opened Transformer

  /** The buffers for a batch of n tokens; the reference form allocates them for one token at a time. */
  datatype Workspace = Workspace(
    embedding: array<Float>, mha_norm: array<Float>, mha_q: array<Float>, mha_score: array<Float>,
    mha_blend: array<Float>, mha_att: array<Float>, mha_out: array<Float>, ffn_norm: array<Float>,
    ffn_fc: array<Float>, ffn_up: array<Float>, ffn_out: array<Float>)
  {
    predicate Sized(m: Model, n: nat) {
      && embedding.Length == mha_norm.Length == mha_att.Length == mha_out.Length == ffn_norm.Length == ffn_out.Length
         == n * m.embeddingDim
      && ffn_fc.Length == ffn_up.Length == n * m.hiddenDim
      && mha_q.Length == mha_blend.Length == m.qHeadCount * n * m.headDim
      && mha_score.Length == m.qHeadCount * n * m.contextLen
    }

    /** The buffers and the caches are pairwise distinct: a numbering tells them apart. */
    ghost predicate Apart(number: map<array<Float>, nat>, k_cache: array<Float>, v_cache: array<Float>) {
      && Is(number, embedding, 0) && Is(number, mha_norm, 1) && Is(number, mha_q, 2) && Is(number, mha_score, 3)
      && Is(number, mha_blend, 4) && Is(number, mha_att, 5) && Is(number, mha_out, 6) && Is(number, ffn_norm, 7)
      && Is(number, ffn_fc, 8) && Is(number, ffn_up, 9) && Is(number, ffn_out, 10)
      && Is(number, k_cache, 11) && Is(number, v_cache, 12)
    }

    static ghost predicate Is(number: map<array<Float>, nat>, a: array<Float>, k: nat) {
      a in number && number[a] == k
    }

    ghost function Buffers(): set<object> {
      {embedding, mha_norm, mha_q, mha_score, mha_blend, mha_att, mha_out, ffn_norm, ffn_fc, ffn_up, ffn_out}
    }
  }

  /** The numbering has grown, keeping the numbers given. */
  ghost predicate Grown(number: map<array<Float>, nat>, number': map<array<Float>, nat>) {
    forall b :: b in number ==> b in number' && number'[b] == number[b]
  }

  /** A new buffer, with the next number. */
  method NewBuffer(size: nat, ghost number: map<array<Float>, nat>, ghost k: nat)
    returns (a: array<Float>, ghost number': map<array<Float>, nat>)
    ensures fresh(a) && a.Length == size && Workspace.Is(number', a, k) && Grown(number, number')
  {
    a := new Float[size];
    number' := number[a := k];
  }

  /** Two new buffers of one size. */
  method NewBuffers(size: nat, ghost number: map<array<Float>, nat>, ghost i: nat, ghost j: nat)
    returns (a: array<Float>, b: array<Float>, ghost number': map<array<Float>, nat>)
    ensures fresh({a, b}) && a.Length == b.Length == size && Grown(number, number')
    ensures Workspace.Is(number', a, i) && Workspace.Is(number', b, j)
  {
    a, number' := NewBuffer(size, number, i);
    b, number' := NewBuffer(size, number', j);
  }

  /** The six buffers of one embedding per token. */
  method NewEmbeddings(size: nat, ghost number: map<array<Float>, nat>)
    returns (embedding: array<Float>, mha_norm: array<Float>, mha_att: array<Float>, mha_out: array<Float>,
             ffn_norm: array<Float>, ffn_out: array<Float>, ghost number': map<array<Float>, nat>)
    ensures fresh({embedding, mha_norm, mha_att, mha_out, ffn_norm, ffn_out}) && Grown(number, number')
    ensures embedding.Length == mha_norm.Length == mha_att.Length == mha_out.Length == ffn_norm.Length
            == ffn_out.Length == size
    ensures Workspace.Is(number', embedding, 0) && Workspace.Is(number', mha_norm, 1)
            && Workspace.Is(number', mha_att, 5)
    ensures Workspace.Is(number', mha_out, 6) && Workspace.Is(number', ffn_norm, 7)
            && Workspace.Is(number', ffn_out, 10)
  {
    embedding, mha_norm, number' := NewBuffers(size, number, 0, 1);
    mha_att, mha_out, number' := NewBuffers(size, number', 5, 6);
    ffn_norm, ffn_out, number' := NewBuffers(size, number', 7, 10);
  }

  method Allocate(m: Model, n: nat, ghost k_cache: array<Float>, ghost v_cache: array<Float>)
    returns (w: Workspace, ghost number: map<array<Float>, nat>)
    requires k_cache != v_cache
    ensures w.Sized(m, n) && w.Apart(number, k_cache, v_cache) && fresh(w.Buffers())
  {
    MulNonNegative(n, m.embeddingDim);
    MulNonNegative(n, m.hiddenDim);
    var heads := RowCount(m.qHeadCount, n, m.headDim);
    var embedding, mha_norm, mha_att, mha_out, ffn_norm, ffn_out;
    ghost var cached := map[k_cache := 11, v_cache := 12];
    assert Workspace.Is(cached, k_cache, 11) && Workspace.Is(cached, v_cache, 12);
    embedding, mha_norm, mha_att, mha_out, ffn_norm, ffn_out, number := NewEmbeddings(n * m.embeddingDim, cached);
    var mha_q, mha_score, mha_blend, ffn_fc, ffn_up;
    mha_q, mha_blend, number := NewBuffers(heads, number, 2, 4);
    mha_score, number := NewBuffer(RowCount(m.qHeadCount, n, m.contextLen), number, 3);
    ffn_fc, ffn_up, number := NewBuffers(n * m.hiddenDim, number, 8, 9);
    w := Workspace(embedding, mha_norm, mha_q, mha_score, mha_blend, mha_att, mha_out, ffn_norm, ffn_fc, ffn_up,
                   ffn_out);
  }
}
