/** The batched embedding API: the documents of every request in a batch are embedded
    in one model call, and the embeddings are cut back into one group per request. */
module EmbeddingBatching {
  import opened Seqs

  /** Python's `s[a:b]` for 0 <= a <= b: the bounds are clipped to the end of `s`. */
  function Slice<E>(s: seq<E>, a: nat, b: nat): (r: seq<E>)
    requires a <= b
    ensures |r| == (if b <= |s| then b - a else if a <= |s| then |s| - a else 0)
    ensures forall k :: 0 <= k < |r| ==> r[k] == s[a + k]
  {
    if b <= |s| then s[a..b] else if a <= |s| then s[a..] else []
  }

  /** Where group i starts in the flattened list: the sizes of the groups before it. */
  function Offset(sizes: seq<nat>, i: nat): nat
    requires i <= |sizes|
  {
    Sum(sizes[..i])
  }

  /** The groups the regrouping loop cuts from `embeddings`, one per entry of `sizes`. */
  function Regrouped<E>(embeddings: seq<E>, sizes: seq<nat>): (r: seq<seq<E>>)
    ensures |r| == |sizes|
  {
    seq(|sizes|, i requires 0 <= i < |sizes| =>
      Slice(embeddings, Offset(sizes, i), Offset(sizes, i) + sizes[i]))
  }

  /** The regrouping loop: a running offset `start` is advanced by each request's size. */
  method Regroup<E>(embeddings: seq<E>, sizes: seq<nat>) returns (result: seq<seq<E>>)
    ensures result == Regrouped(embeddings, sizes)
  {
    var start := 0;
    result := [];
    for i := 0 to |sizes|
      invariant start == Offset(sizes, i)
      invariant |result| == i
      invariant forall k :: 0 <= k < i ==> result[k] == Regrouped(embeddings, sizes)[k]
    {
      var size := sizes[i];
      result := result + [Slice(embeddings, start, start + size)];
      OffsetStep(sizes, i);
      start := start + size;
    }
  }

  /** `predict`: flatten the batch, embed it with one call, regroup by request sizes. */
  method Predict<D, E>(batch: seq<seq<D>>, embed: seq<D> -> seq<E>) returns (result: seq<seq<E>>)
    ensures result == Regrouped(embed(Flatten(batch)), Lengths(batch))
  {
    var documents := Flatten(batch);
    var embeddings := embed(documents);
    result := Regroup(embeddings, Lengths(batch));
  }

  lemma OffsetStep(sizes: seq<nat>, i: nat)
    requires i < |sizes|
    ensures Offset(sizes, i + 1) == Offset(sizes, i) + sizes[i]
  {
    assert sizes[..i + 1] == sizes[..i] + [sizes[i]];
    SumAppend(sizes[..i], [sizes[i]]);
  }

  /** Every group fits inside the flattened list. */
  lemma OffsetBound(sizes: seq<nat>, i: nat)
    requires i < |sizes|
    ensures Offset(sizes, i) + sizes[i] <= Sum(sizes)
  {
    OffsetStep(sizes, i);
    assert sizes == sizes[..i + 1] + sizes[i + 1..];
    SumAppend(sizes[..i + 1], sizes[i + 1..]);
  }

  /** After the loop the offset has passed every document of the batch. */
  lemma OffsetCoversBatch<D>(batch: seq<seq<D>>)
    ensures Offset(Lengths(batch), |batch|) == |Flatten(batch)|
  {
    assert Lengths(batch)[..|batch|] == Lengths(batch);
    FlattenLength(batch);
  }

  /** With one embedding per document, group i has `sizes[i]` elements, and element j
      of it is the embedding at flattened index Offset(sizes, i) + j; an empty request
      gets an empty group. */
  lemma RegroupedAt<E>(embeddings: seq<E>, sizes: seq<nat>, i: nat, j: nat)
    requires |embeddings| == Sum(sizes) && i < |sizes|
    ensures |Regrouped(embeddings, sizes)[i]| == sizes[i]
    ensures j < sizes[i] ==>
      Offset(sizes, i) + j < |embeddings| &&
      Regrouped(embeddings, sizes)[i][j] == embeddings[Offset(sizes, i) + j]
  {
    OffsetBound(sizes, i);
  }

  /** Regrouping undoes flattening: cutting a batch's flattened documents by the
      request sizes gives the batch back. */
  lemma RegroupFlatten<D>(batch: seq<seq<D>>)
    ensures Regrouped(Flatten(batch), Lengths(batch)) == batch
  {
    var sizes := Lengths(batch);
    var r := Regrouped(Flatten(batch), sizes);
    FlattenLength(batch);
    forall i | 0 <= i < |batch|
      ensures r[i] == batch[i]
    {
      RegroupedAt(Flatten(batch), sizes, i, 0);
      assert |r[i]| == |batch[i]|;
      forall j | 0 <= j < |batch[i]|
        ensures r[i][j] == batch[i][j]
      {
        RegroupedAt(Flatten(batch), sizes, i, j);
        assert sizes[..i] == Lengths(batch[..i]);
        FlattenAt(batch, i, j);
      }
    }
  }

  lemma RegroupedCons<E>(embeddings: seq<E>, sizes: seq<nat>)
    requires sizes != [] && sizes[0] <= |embeddings|
    ensures Regrouped(embeddings, sizes) ==
      [embeddings[..sizes[0]]] + Regrouped(embeddings[sizes[0]..], sizes[1..])
  {
    var s0 := sizes[0];
    var rest := embeddings[s0..];
    var lhs := Regrouped(embeddings, sizes);
    var rhs := [embeddings[..s0]] + Regrouped(rest, sizes[1..]);
    assert sizes[..0] == [];
    forall i | 0 <= i < |sizes|
      ensures lhs[i] == rhs[i]
    {
      if i > 0 {
        assert sizes[..i] == [s0] + sizes[1..][..i - 1];
        assert Offset(sizes, i) == s0 + Offset(sizes[1..], i - 1);
      }
    }
  }

  /** Concatenating the groups gives back the embeddings: nothing is lost or repeated. */
  lemma {:induction false} FlattenRegrouped<E>(embeddings: seq<E>, sizes: seq<nat>)
    requires |embeddings| == Sum(sizes)
    ensures Flatten(Regrouped(embeddings, sizes)) == embeddings
    decreases |sizes|
  {
    if sizes != [] {
      RegroupedCons(embeddings, sizes);
      FlattenRegrouped(embeddings[sizes[0]..], sizes[1..]);
      var r := Regrouped(embeddings, sizes);
      assert r[1..] == Regrouped(embeddings[sizes[0]..], sizes[1..]);
      assert embeddings[..sizes[0]] + embeddings[sizes[0]..] == embeddings;
    }
  }

  lemma {:induction false} MapAllFlatten<D, E>(f: D -> E, batch: seq<seq<D>>)
    ensures MapAll(f, Flatten(batch)) == Flatten(seq(|batch|, i requires 0 <= i < |batch| => MapAll(f, batch[i])))
    decreases |batch|
  {
    var mapped := seq(|batch|, i requires 0 <= i < |batch| => MapAll(f, batch[i]));
    if batch != [] {
      MapAllFlatten(f, batch[1..]);
      assert mapped[1..] == seq(|batch[1..]|, i requires 0 <= i < |batch[1..]| => MapAll(f, batch[1..][i]));
      assert MapAll(f, batch[0] + Flatten(batch[1..])) == MapAll(f, batch[0]) + MapAll(f, Flatten(batch[1..]));
    }
  }

  /** Batch-size invariance: when the embedder maps documents independently, a request's
      group is its own documents' embeddings, whatever other requests share the batch. */
  lemma BatchInvariance<D, E>(f: D -> E, batch: seq<seq<D>>, i: nat)
    requires i < |batch|
    ensures Regrouped(MapAll(f, Flatten(batch)), Lengths(batch))[i] == MapAll(f, batch[i])
  {
    var mapped := seq(|batch|, k requires 0 <= k < |batch| => MapAll(f, batch[k]));
    MapAllFlatten(f, batch);
    assert Lengths(mapped) == Lengths(batch);
    RegroupFlatten(mapped);
  }
}
