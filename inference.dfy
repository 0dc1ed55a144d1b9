/** The inference input: one tokenized prompt, truncated, repeated into a batch. */
module Inference {
  import opened Tokens

  /** The longest prompt kept, in tokens. */
  const MaxPromptTokens: nat := 1024

  /**
    The batch for one prompt: batchSize identical rows, each the first
    min(|tokens|, 1024) tokens of the encoded prompt.
  */
  function PredInput(tokens: seq<int>, batchSize: nat): (t: seq<seq<int>>)
    ensures |t| == batchSize
    ensures forall i :: 0 <= i < |t| ==> |t[i]| == Min(|tokens|, MaxPromptTokens) && t[i] == tokens[..|t[i]|]
    ensures forall i, j :: 0 <= i < |t| && 0 <= j < |t| ==> t[i] == t[j]
  {
    var truncated := if |tokens| > MaxPromptTokens then tokens[..MaxPromptTokens] else tokens;
    seq(batchSize, _ => truncated)
  }
}
