/** The jina-clip-v2 embedding API: texts and images are embedded separately, and the
    two embedding streams are merged back into input order by the list of input types. */
module ClipServer {
  import opened Outcomes
  import opened ClipInputs
  import opened LitContext
  import opened Seqs

  /** `EmbeddingRequest` of the server's schema. */
  datatype EmbeddingRequest = EmbeddingRequest(
    input: EmbeddingInput, model: string, encodingFormat: string, dimensions: int, normalized: bool)

  /** `Embedding`: one vector with its position in the response. */
  datatype Embedding = Embedding(embedding: Vector, index: nat, objectType: string)

  datatype Usage = Usage(promptTokens: int, totalTokens: int)

  datatype EmbeddingResponse = EmbeddingResponse(data: seq<Embedding>, model: string, objectType: string, usage: Usage)

  /** The literal values the request schema admits for `model` and `encoding_format`. */
  predicate ValidRequest(request: EmbeddingRequest) {
    request.model == "jina-clip-v2" && request.encodingFormat == "float"
  }

  /** The context entries `decode_request` writes. */
  function RequestMetadata(request: EmbeddingRequest): map<string, Value> {
    map["model" := Str(request.model), "normalized" := Bool(request.normalized)]
  }

  /** `decode_request`: store the model and the normalisation flag, then parse the inputs. */
  method DecodeRequest(request: EmbeddingRequest, context: Context)
    returns (texts: seq<string>, images: seq<string>, inputTypes: seq<InputType>)
    modifies context
    ensures context.entries == old(context.entries) + RequestMetadata(request)
    ensures texts == OfKind(Normalized(request.input), TextType)
    ensures images == OfKind(Normalized(request.input), ImageType)
    ensures inputTypes == Types(Normalized(request.input))
  {
    context.Update(RequestMetadata(request));
    texts, images, inputTypes := ParseInputs(request.input);
  }

  function Prepend<E>(acc: seq<E>, o: Option<seq<E>>): Option<seq<E>> {
    match o
    case None => None
    case Some(v) => Some(acc + v)
  }

  lemma PrependEmpty<E>(o: Option<seq<E>>)
    ensures Prepend([], o) == o
  {
    if o.Some? { assert [] + o.value == o.value; }
  }

  lemma PrependPrepend<E>(acc: seq<E>, x: E, o: Option<seq<E>>)
    ensures Prepend(acc, Prepend([x], o)) == Prepend(acc + [x], o)
  {
    if o.Some? { assert acc + ([x] + o.value) == (acc + [x]) + o.value; }
  }

  /** The merge with two iterators: each "text" tag takes the next text embedding and each
      "image" tag the next image embedding; None when a tag finds its iterator exhausted. */
  function Interleave<E>(types: seq<InputType>, ts: seq<E>, ims: seq<E>): (r: Option<seq<E>>)
    ensures r.Some? ==> |r.value| == |types|
    ensures r.Some? ==> forall x :: x in r.value ==> x in ts || x in ims
    decreases |types|
  {
    if types == [] then Some([])
    else if types[0] == TextType then
      if ts == [] then None else Prepend([ts[0]], Interleave(types[1..], ts[1..], ims))
    else
      if ims == [] then None else Prepend([ims[0]], Interleave(types[1..], ts, ims[1..]))
  }

  /** The comprehension of `predict` that calls `next()` on the two iterators; an exhausted
      iterator raises StopIteration. */
  method Merge<E>(types: seq<InputType>, ts: seq<E>, ims: seq<E>) returns (r: Result<seq<E>>)
    ensures Interleave(types, ts, ims).None? ==> r == Err(StopIteration)
    ensures Interleave(types, ts, ims).Some? ==> r == Ok(Interleave(types, ts, ims).value)
  {
    var ti, ii := 0, 0;
    var combined: seq<E> := [];
    assert types[0..] == types && ts[0..] == ts && ims[0..] == ims;
    PrependEmpty(Interleave(types, ts, ims));
    for i := 0 to |types|
      invariant ti <= |ts| && ii <= |ims|
      invariant Interleave(types, ts, ims) == Prepend(combined, Interleave(types[i..], ts[ti..], ims[ii..]))
    {
      assert types[i..][1..] == types[i + 1..];
      if types[i] == TextType {
        if ti == |ts| {
          assert ts[ti..] == [];
          return Err(StopIteration);
        }
        assert ts[ti..][1..] == ts[ti + 1..];
        PrependPrepend(combined, ts[ti], Interleave(types[i + 1..], ts[ti + 1..], ims[ii..]));
        combined := combined + [ts[ti]];
        ti := ti + 1;
      } else {
        if ii == |ims| {
          assert ims[ii..] == [];
          return Err(StopIteration);
        }
        assert ims[ii..][1..] == ims[ii + 1..];
        PrependPrepend(combined, ims[ii], Interleave(types[i + 1..], ts[ti..], ims[ii + 1..]));
        combined := combined + [ims[ii]];
        ii := ii + 1;
      }
    }
    assert types[|types|..] == [];
    assert combined + [] == combined;
    r := Ok(combined);
  }

  /** The merge succeeds exactly when each iterator has at least as many embeddings as
      there are tags of its kind, and then it yields one embedding per tag. */
  lemma {:induction false} InterleaveDefined<E>(types: seq<InputType>, ts: seq<E>, ims: seq<E>)
    ensures Interleave(types, ts, ims).Some? <==>
      Count(types, TextType) <= |ts| && Count(types, ImageType) <= |ims|
    decreases |types|
  {
    if types != [] {
      if types[0] == TextType {
        if ts != [] { InterleaveDefined(types[1..], ts[1..], ims); }
      } else {
        if ims != [] { InterleaveDefined(types[1..], ts, ims[1..]); }
      }
    }
  }

  /** Order preservation: the k-th "text" position gets the k-th text embedding and the
      k-th "image" position the k-th image embedding. */
  lemma {:induction false} InterleaveAt<E>(types: seq<InputType>, ts: seq<E>, ims: seq<E>, k: nat)
    requires Interleave(types, ts, ims).Some? && k < |types|
    ensures |Interleave(types, ts, ims).value| == |types|
    ensures types[k] == TextType ==>
      Count(types[..k], TextType) < |ts| && Interleave(types, ts, ims).value[k] == ts[Count(types[..k], TextType)]
    ensures types[k] == ImageType ==>
      Count(types[..k], ImageType) < |ims| && Interleave(types, ts, ims).value[k] == ims[Count(types[..k], ImageType)]
    decreases |types|
  {
    InterleaveDefined(types, ts, ims);
    if k == 0 {
      assert types[..0] == [];
    } else {
      assert types[..k] == [types[0]] + types[1..][..k - 1];
      if types[0] == TextType {
        InterleaveAt(types[1..], ts[1..], ims, k - 1);
      } else {
        InterleaveAt(types[1..], ts, ims[1..], k - 1);
      }
    }
  }

  /** Each input's own embedding, by its kind. */
  function EmbedEach<E>(items: seq<InputItem>, ft: string -> E, fi: string -> E): (r: seq<E>)
    ensures |r| == |items|
    ensures forall k :: 0 <= k < |items| ==>
      r[k] == if Kind(items[k]) == TextType then ft(Payload(items[k])) else fi(Payload(items[k]))
    decreases |items|
  {
    if items == [] then []
    else [if Kind(items[0]) == TextType then ft(Payload(items[0])) else fi(Payload(items[0]))]
         + EmbedEach(items[1..], ft, fi)
  }

  /** Split and merge round trip: embedding the texts with `ft` and the images with `fi`
      and merging by the tags gives, at every input position, that input's embedding. */
  lemma {:induction false} SplitMergeRoundTrip<E>(items: seq<InputItem>, ft: string -> E, fi: string -> E)
    ensures Interleave(Types(items), MapAll(ft, OfKind(items, TextType)), MapAll(fi, OfKind(items, ImageType)))
      == Some(EmbedEach(items, ft, fi))
    decreases |items|
  {
    var a := MapAll(ft, OfKind(items, TextType));
    var b := MapAll(fi, OfKind(items, ImageType));
    if items == [] {
      assert Types(items) == [];
    } else {
      var rest := items[1..];
      SplitMergeRoundTrip(rest, ft, fi);
      assert Types(items)[1..] == Types(rest);
      if Kind(items[0]) == TextType {
        assert OfKind(items, TextType) == [Payload(items[0])] + OfKind(rest, TextType);
        assert a[1..] == MapAll(ft, OfKind(rest, TextType));
        assert OfKind(items, ImageType) == OfKind(rest, ImageType);
        assert Interleave(Types(items), a, b) == Prepend([a[0]], Interleave(Types(rest), a[1..], b));
      } else {
        assert OfKind(items, ImageType) == [Payload(items[0])] + OfKind(rest, ImageType);
        assert b[1..] == MapAll(fi, OfKind(rest, ImageType));
        assert OfKind(items, TextType) == OfKind(rest, TextType);
        assert Interleave(Types(items), a, b) == Prepend([b[0]], Interleave(Types(rest), a, b[1..]));
      }
    }
  }

  /** `predict`: encode the sentences, encode the image URLs only if there are any, then
      merge. `encoded` lists the inputs of the encoder calls made, in order. */
  method Predict(texts: seq<string>, images: seq<string>, inputTypes: seq<InputType>,
                 context: map<string, Value>, encode: (seq<string>, Value) -> seq<Vector>)
    returns (r: Result<seq<Vector>>, encoded: seq<seq<string>>)
    ensures "normalized" !in context ==> r == Err(KeyError("normalized")) && encoded == []
    ensures "normalized" in context ==>
      var textEmbeddings := encode(texts, context["normalized"]);
      var imageEmbeddings := if images == [] then [] else encode(images, context["normalized"]);
      && (Interleave(inputTypes, textEmbeddings, imageEmbeddings).None? ==> r == Err(StopIteration))
      && (Interleave(inputTypes, textEmbeddings, imageEmbeddings).Some? ==>
            r == Ok(Interleave(inputTypes, textEmbeddings, imageEmbeddings).value))
      && encoded == (if images == [] then [texts] else [texts, images])
  {
    if "normalized" !in context {
      return Err(KeyError("normalized")), [];
    }
    var normalized := context["normalized"];
    var textEmbeddings := encode(texts, normalized);
    encoded := [texts];
    var imageEmbeddings := [];
    if images != [] {
      imageEmbeddings := encode(images, normalized);
      encoded := encoded + [images];
    }
    r := Merge(inputTypes, textEmbeddings, imageEmbeddings);
  }

  /** `encode_response`: item i gets index i; the model name comes from the context and
      must be the schema's literal. */
  function EncodeResponse(output: seq<Vector>, context: map<string, Value>): (r: Result<EmbeddingResponse>)
    ensures "model" !in context ==> r == Err(KeyError("model"))
    ensures "model" in context && context["model"] != Str("jina-clip-v2") ==> r == Err(ValidationError("model"))
    ensures "model" in context && context["model"] == Str("jina-clip-v2") ==>
      && r.Ok?
      && |r.value.data| == |output|
      && (forall i :: 0 <= i < |output| ==>
            r.value.data[i].index == i && r.value.data[i].embedding == output[i] && r.value.data[i].objectType == "embedding")
      && r.value.model == "jina-clip-v2" && r.value.objectType == "list"
      && r.value.usage == Usage(-1, -1)
  {
    if "model" !in context then Err(KeyError("model"))
    else if context["model"] != Str("jina-clip-v2") then Err(ValidationError("model"))
    else
      var data := seq(|output|, i requires 0 <= i < |output| => Embedding(output[i], i, "embedding"));
      Ok(EmbeddingResponse(data, "jina-clip-v2", "list", Usage(-1, -1)))
  }

  /** The response names the model the request gave, because `decode_request` saved it. */
  lemma ResponseModelFromRequest(request: EmbeddingRequest, before: map<string, Value>, output: seq<Vector>)
    requires ValidRequest(request)
    ensures EncodeResponse(output, before + RequestMetadata(request)).Ok?
    ensures EncodeResponse(output, before + RequestMetadata(request)).value.model == request.model
  {
  }
}
