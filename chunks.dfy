/** The chunk record both chunkers of `DocumentProcessor` emit, and the
    token counter they attach to it. */
module Chunks {
  import opened Text

  /** `{'content': ..., 'metadata': {...}, 'tokens': ...}`; every metadata value
      the chunkers write is a string. */
  datatype Chunk = Chunk(content: string, metadata: map<string, string>, tokens: int)

  /** The tokenizer is an oracle: `Some(f)` when tiktoken's encoder is
      available, `None` when loading or running it raises. */
  type Tokenizer = Option<string -> nat>

  /** `count_tokens`: the encoder's count, or a quarter of the length (rounded
      down) when the encoder is unavailable. */
  function CountTokens(tok: Tokenizer, text: string): (n: nat)
    ensures tok.None? ==> 4 * n <= |text| < 4 * n + 4
    ensures tok.Some? ==> n == tok.value(text)
  {
    match tok
    case Some(f) => f(text)
    case None => |text| / 4
  }

  /** Example: the fallback on a four-character text counts one token. */
  lemma CountTokensFallbackExample()
    ensures CountTokens(None, "abcd") == 1
  {
  }
}
