/** Layer by layer over the whole prompt does what token by token does. */
module LoopInterchange {
  import opened Floats
  import opened Transformer
  import opened PromptState
  import LayerMajor
  import TokenMajor

  /** From equal caches and logits, the two forms of generate_prompt_proc leave equal caches and logits. */
  method BothForms(m: Model, sequence: seq<nat>, k1: array<Float>, v1: array<Float>, logits1: array<Float>,
                   k2: array<Float>, v2: array<Float>, logits2: array<Float>)
    requires m.Valid() && TokensOk(m, sequence)
    requires k1.Length == k2.Length == m.CacheSize() == v1.Length == v2.Length
             && logits1.Length == logits2.Length == m.vocabularyLen
    requires k1 != v1 && k1 != logits1 && v1 != logits1 && k2 != v2 && k2 != logits2 && v2 != logits2
    requires {k1, v1, logits1} !! {k2, v2, logits2}
    requires k1[..] == k2[..] && v1[..] == v2[..] && logits1[..] == logits2[..]
    modifies k1, v1, logits1, k2, v2, logits2
    ensures k1[..] == k2[..] && v1[..] == v2[..] && logits1[..] == logits2[..]
  {
    hide Processed, Model.Valid, Model.CacheSize, TokensOk;
    ghost var k0, v0, logits0 := k1[..], v1[..], logits1[..];
    TokenMajor.GeneratePromptProc(m, k1, v1, logits1, sequence);
    LayerMajor.GeneratePromptProc(m, k2, v2, logits2, sequence);
    ProcessedIsUnique(m, sequence, k0, v0, logits0, k1[..], v1[..], logits1[..], k2[..], v2[..], logits2[..]);
  }
}
