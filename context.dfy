/** The per-request `context` dictionary that the serving library hands to
    `decode_request`, `predict` and `encode_response`; the APIs update it in place. */
module LitContext {

  /** An embedding vector; its entries are never computed on here. */
  type Vector = seq<real>

  /** The values stored in a context or response dictionary. */
  datatype Value = Str(s: string) | Bool(b: bool) | Int(i: int) | Vectors(vs: seq<Vector>)

  class Context {
    var entries: map<string, Value>

    constructor ()
      ensures entries == map[]
    {
      entries := map[];
    }

    /** `context.update(m)`: the keys of `m` are set, every other key is kept. */
    method Update(m: map<string, Value>)
      modifies this
      ensures entries == old(entries) + m
      ensures forall k :: k in m ==> k in entries && entries[k] == m[k]
      ensures forall k :: k in old(entries) && k !in m ==> k in entries && entries[k] == old(entries)[k]
    {
      entries := entries + m;
    }
  }
}
