/** The ModernBERT embedding API's `decode_request`: every document gets the query
    prefix the model expects. */
module ModernBertEmbed {
  import opened Strings
  import opened EmbeddingInputs

  /** `self.prefix`, set in `setup`. */
  const QueryPrefix: string := "search_query: "

  /** `[self.prefix + doc for doc in documents]` */
  function Prefixed(docs: seq<string>): (r: seq<string>)
    ensures |r| == |docs|
    ensures forall i :: 0 <= i < |r| ==> StartsWith(r[i], QueryPrefix) && r[i][|QueryPrefix|..] == docs[i]
  {
    seq(|docs|, i requires 0 <= i < |docs| => QueryPrefix + docs[i])
  }

  /** `decode_request` */
  function DecodeRequest(input: DocumentInput): (r: seq<string>)
    ensures |r| == |EnsureList(input)|
    ensures forall i :: 0 <= i < |r| ==> r[i] == QueryPrefix + EnsureList(input)[i]
  {
    Prefixed(EnsureList(input))
  }

  /** Every entry with the prefix's 14 characters dropped. */
  function Unprefixed(outs: seq<string>): (r: seq<string>)
    requires forall i :: 0 <= i < |outs| ==> StartsWith(outs[i], QueryPrefix)
    ensures |r| == |outs|
  {
    seq(|outs|, i requires 0 <= i < |outs| && StartsWith(outs[i], QueryPrefix) => outs[i][|QueryPrefix|..])
  }

  /** Dropping the prefix gives back the documents, in order. */
  lemma UnprefixPrefixed(docs: seq<string>)
    ensures Unprefixed(Prefixed(docs)) == docs
  {
    var outs := Prefixed(docs);
    assert forall i :: 0 <= i < |docs| ==> Unprefixed(outs)[i] == outs[i][|QueryPrefix|..];
  }

  /** Conversely, a list whose every entry carries the prefix is the prefixed list of
      its unprefixed entries: nothing but the prefix is added. */
  lemma PrefixedUnprefixed(outs: seq<string>)
    requires forall i :: 0 <= i < |outs| ==> StartsWith(outs[i], QueryPrefix)
    ensures Prefixed(Unprefixed(outs)) == outs
  {
    var docs := Unprefixed(outs);
    forall i | 0 <= i < |outs|
      ensures Prefixed(docs)[i] == outs[i]
    {
      assert outs[i] == outs[i][..|QueryPrefix|] + outs[i][|QueryPrefix|..];
    }
  }
}
