/** The stand-alone FastAPI embedding server used as a baseline: `get_embeddings`
    numbers the embeddings of the request's documents. */
module FastapiEmbeddings {
  import opened LitContext
  import opened EmbeddingInputs

  datatype EmbeddingRequest = EmbeddingRequest(input: DocumentInput, model: string, encodingFormat: string)

  /** `Embedding`; `object` keeps its default "embedding". */
  datatype Embedding = Embedding(index: int, embedding: Vector, objectType: string)

  datatype EmbeddingResponse = EmbeddingResponse(data: seq<Embedding>, model: string, objectType: string)

  /** `get_embeddings`, with `embed` standing for the model's `embed`. */
  function GetEmbeddings(request: EmbeddingRequest, embed: seq<string> -> seq<Vector>): (r: EmbeddingResponse)
    ensures r.model == request.model && r.objectType == "list"
    ensures |r.data| == |embed(EnsureList(request.input))|
    ensures forall i :: 0 <= i < |r.data| ==> r.data[i].index == i && r.data[i].objectType == "embedding"
  {
    var embeddings := embed(EnsureList(request.input));
    var data := seq(|embeddings|, i requires 0 <= i < |embeddings| => Embedding(i, embeddings[i], "embedding"));
    EmbeddingResponse(data, request.model, "list")
  }

  /** The vectors of a response's items, in item order. */
  function VectorsOf(data: seq<Embedding>): (r: seq<Vector>)
    ensures |r| == |data|
  {
    seq(|data|, i requires 0 <= i < |data| => data[i].embedding)
  }

  /** The response holds the model's embeddings in the order the model gave them. */
  lemma ResponseKeepsEmbeddings(request: EmbeddingRequest, embed: seq<string> -> seq<Vector>)
    ensures VectorsOf(GetEmbeddings(request, embed).data) == embed(EnsureList(request.input))
  {
    var r := GetEmbeddings(request, embed);
    var embeddings := embed(EnsureList(request.input));
    assert forall i :: 0 <= i < |embeddings| ==> VectorsOf(r.data)[i] == embeddings[i];
  }

  /** The indices are increasing, so no two items share one. */
  lemma IndicesIncrease(request: EmbeddingRequest, embed: seq<string> -> seq<Vector>)
    ensures var data := GetEmbeddings(request, embed).data;
      forall i, j :: 0 <= i < j < |data| ==> data[i].index < data[j].index
  {
  }

  /** A single string is embedded as a one-document list. */
  lemma SingleDocument(s: string, model: string, format: string, embed: seq<string> -> seq<Vector>)
    ensures GetEmbeddings(EmbeddingRequest(OneDocument(s), model, format), embed) ==
      GetEmbeddings(EmbeddingRequest(Documents([s]), model, format), embed)
  {
  }
}
