/** The `input` field of the OpenAI-style embedding requests: one document or a list of
    them. */
module EmbeddingInputs {

  datatype DocumentInput = OneDocument(s: string) | Documents(docs: seq<string>)

  /** `[input] if isinstance(input, str) else input`, the normalisation that the
      serving library's `EmbeddingRequest.ensure_list` also performs. */
  function EnsureList(input: DocumentInput): (docs: seq<string>)
    ensures input.OneDocument? ==> docs == [input.s]
    ensures input.Documents? ==> docs == input.docs
  {
    match input
    case OneDocument(s) => [s]
    case Documents(docs) => docs
  }
}
