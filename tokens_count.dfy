/** The embedding API that reports token usage: `decode_request` counts the tokens of
    the documents into the request context, and `encode_response` returns the
    embeddings together with every context entry. */
module TokensCount {
  import opened LitContext
  import opened Seqs
  import opened EmbeddingInputs

  /** A token id of the tokenizer's encoding. */
  type Token = int

  /** `sum(map(len, encoded_docs))`: the number of tokens over all the documents, which
      is the length of their encodings laid end to end. */
  function TokenCount(encoded: seq<seq<Token>>): (n: nat)
    ensures n == |Flatten(encoded)|
    ensures encoded == [] ==> n == 0
  {
    FlattenLength(encoded);
    Sum(Lengths(encoded))
  }

  /** Counting is additive over a split of the documents. */
  lemma TokenCountAppend(a: seq<seq<Token>>, b: seq<seq<Token>>)
    ensures TokenCount(a + b) == TokenCount(a) + TokenCount(b)
  {
    FlattenAppend(a, b);
  }

  /** The usage entries `decode_request` writes. */
  function Usage(n: nat): map<string, Value> {
    map["prompt_tokens" := Int(n), "total_tokens" := Int(n)]
  }

  /** `decode_request`, with `encodeBatch` standing for the tokenizer: the usage entries
      are set to the token count, every other entry is kept, and the documents come
      back as the request gave them. */
  method DecodeRequest(input: DocumentInput, encodeBatch: seq<string> -> seq<seq<Token>>, context: Context)
    returns (documents: seq<string>)
    modifies context
    ensures documents == EnsureList(input)
    ensures context.entries == old(context.entries) + Usage(TokenCount(encodeBatch(documents)))
    ensures "prompt_tokens" in context.entries && "total_tokens" in context.entries
    ensures context.entries["prompt_tokens"] == context.entries["total_tokens"] == Int(TokenCount(encodeBatch(documents)))
  {
    documents := EnsureList(input);
    var encodedDocs := encodeBatch(documents);
    var numTokens := TokenCount(encodedDocs);
    context.Update(Usage(numTokens));
  }

  /** `{"embeddings": output, **context}`: every context entry is kept, a context entry
      named "embeddings" included, and the output fills "embeddings" otherwise. */
  function EncodeResponse(output: seq<Vector>, context: map<string, Value>): (r: map<string, Value>)
    ensures r.Keys == context.Keys + {"embeddings"}
    ensures forall k :: k in context ==> r[k] == context[k]
    ensures "embeddings" !in context ==> r["embeddings"] == Vectors(output)
  {
    map["embeddings" := Vectors(output)] + context
  }

  /** After `decode_request`, the response carries the embeddings and reports the same
      count as the prompt and the total tokens. */
  lemma ResponseReportsUsage(output: seq<Vector>, before: map<string, Value>, n: nat)
    requires "embeddings" !in before
    ensures var r := EncodeResponse(output, before + Usage(n));
      && r["embeddings"] == Vectors(output)
      && r["prompt_tokens"] == Int(n) && r["total_tokens"] == Int(n)
  {
  }
}
