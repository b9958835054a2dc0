/** Sequence helpers shared by the modules: flattening and sums of sizes. */
module Seqs {

  /** `[x for xs in ss for x in xs]`: the concatenation of the pieces, in order. */
  function Flatten<T>(ss: seq<seq<T>>): seq<T>
    decreases |ss|
  {
    if ss == [] then [] else ss[0] + Flatten(ss[1..])
  }

  function Sum(xs: seq<nat>): nat
    decreases |xs|
  {
    if xs == [] then 0 else xs[0] + Sum(xs[1..])
  }

  /** `list(map(len, ss))` */
  function Lengths<T>(ss: seq<seq<T>>): (r: seq<nat>)
    ensures |r| == |ss| && forall i :: 0 <= i < |ss| ==> r[i] == |ss[i]|
  {
    seq(|ss|, i requires 0 <= i < |ss| => |ss[i]|)
  }

  /** `list(map(f, xs))` */
  function MapAll<D, E>(f: D -> E, xs: seq<D>): (r: seq<E>)
    ensures |r| == |xs| && forall k :: 0 <= k < |xs| ==> r[k] == f(xs[k])
  {
    seq(|xs|, k requires 0 <= k < |xs| => f(xs[k]))
  }

  /** The pieces `f` gives the elements of `xs`, laid end to end in order. */
  function FlatMap<T, U>(f: T -> seq<U>, xs: seq<T>): seq<U>
    decreases |xs|
  {
    if xs == [] then [] else FlatMap(f, xs[..|xs| - 1]) + f(xs[|xs| - 1])
  }

  lemma FlatMapLast<T, U>(f: T -> seq<U>, xs: seq<T>)
    requires xs != []
    ensures FlatMap(f, xs) == FlatMap(f, xs[..|xs| - 1]) + f(xs[|xs| - 1])
  {
  }

  lemma {:induction false} FlatMapAppend<T, U>(f: T -> seq<U>, a: seq<T>, b: seq<T>)
    ensures FlatMap(f, a + b) == FlatMap(f, a) + FlatMap(f, b)
    decreases |b|
  {
    if b == [] {
      assert a + b == a;
    } else {
      var ab := a + b;
      var b' := b[..|b| - 1];
      FlatMapLast(f, ab);
      FlatMapLast(f, b);
      assert ab[..|ab| - 1] == a + b' && ab[|ab| - 1] == b[|b| - 1];
      FlatMapAppend(f, a, b');
      AppendAssoc(FlatMap(f, a), FlatMap(f, b'), f(b[|b| - 1]));
    }
  }

  lemma AppendAssoc<T>(a: seq<T>, b: seq<T>, c: seq<T>)
    ensures (a + b) + c == a + (b + c)
  {
  }

  lemma {:induction false} FlattenAppend<T>(a: seq<seq<T>>, b: seq<seq<T>>)
    ensures Flatten(a + b) == Flatten(a) + Flatten(b)
    decreases |a|
  {
    if a == [] {
      assert a + b == b;
    } else {
      assert (a + b)[1..] == a[1..] + b;
      FlattenAppend(a[1..], b);
    }
  }

  lemma {:induction false} SumAppend(a: seq<nat>, b: seq<nat>)
    ensures Sum(a + b) == Sum(a) + Sum(b)
    decreases |a|
  {
    if a == [] {
      assert a + b == b;
    } else {
      assert (a + b)[1..] == a[1..] + b;
      SumAppend(a[1..], b);
    }
  }

  /** The flattened sequence is as long as all the pieces together. */
  lemma {:induction false} FlattenLength<T>(ss: seq<seq<T>>)
    ensures |Flatten(ss)| == Sum(Lengths(ss))
    decreases |ss|
  {
    if ss != [] {
      assert Lengths(ss)[1..] == Lengths(ss[1..]);
      FlattenLength(ss[1..]);
    }
  }

  /** The part of `Flatten(ss)` that comes from piece i starts after the earlier pieces. */
  lemma {:induction false} FlattenAt<T>(ss: seq<seq<T>>, i: nat, j: nat)
    requires i < |ss| && j < |ss[i]|
    ensures Sum(Lengths(ss[..i])) + j < |Flatten(ss)|
    ensures Flatten(ss)[Sum(Lengths(ss[..i])) + j] == ss[i][j]
    decreases i
  {
    if i == 0 {
      assert ss[..0] == [];
    } else {
      var tail := ss[1..];
      FlattenAt(tail, i - 1, j);
      var ls := Lengths(ss[..i]);
      assert ls[0] == |ss[0]|;
      assert ls[1..] == Lengths(tail[..i - 1]);
      assert Sum(ls) == |ss[0]| + Sum(Lengths(tail[..i - 1]));
      assert tail[i - 1] == ss[i];
    }
  }
}
