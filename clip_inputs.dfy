/** `parse_inputs` of the jina-clip-v2 server: mixed text and image inputs are split
    into a list of texts, a list of image URLs, and the list of their types in input order. */
module ClipInputs {
  import opened Strings

  /** One element of the request's `input` list: a plain string, a `TextInput`,
      or an `ImageInput` (whose URL is taken as the string `str(image)`). */
  datatype InputItem = Plain(s: string) | TextInput(text: string) | ImageInput(image: string)

  /** `input`: either a lone string or a list of items. */
  datatype EmbeddingInput = One(s: string) | Many(items: seq<InputItem>)

  datatype InputType = TextType | ImageType

  /** A lone string is treated as a one-element list. */
  function Normalized(inputs: EmbeddingInput): (items: seq<InputItem>)
    ensures inputs.One? ==> items == [Plain(inputs.s)]
    ensures inputs.Many? ==> items == inputs.items
  {
    match inputs
    case One(s) => [Plain(s)]
    case Many(items) => items
  }

  /** A plain string that starts with "http" is an image URL; any other is a text. */
  function Kind(item: InputItem): InputType {
    match item
    case Plain(s) => if StartsWith(s, "http") then ImageType else TextType
    case TextInput(_) => TextType
    case ImageInput(_) => ImageType
  }

  /** The string an item contributes to its list. */
  function Payload(item: InputItem): string {
    match item
    case Plain(s) => s
    case TextInput(t) => t
    case ImageInput(u) => u
  }

  /** The payloads of the items of kind `t`, in input order. */
  function OfKind(items: seq<InputItem>, t: InputType): seq<string>
    decreases |items|
  {
    if items == [] then []
    else (if Kind(items[0]) == t then [Payload(items[0])] else []) + OfKind(items[1..], t)
  }

  function Types(items: seq<InputItem>): (r: seq<InputType>)
    ensures |r| == |items| && forall k :: 0 <= k < |items| ==> r[k] == Kind(items[k])
  {
    seq(|items|, k requires 0 <= k < |items| => Kind(items[k]))
  }

  /** How many entries of `ts` are `t`. */
  function Count(ts: seq<InputType>, t: InputType): nat
    decreases |ts|
  {
    if ts == [] then 0 else (if ts[0] == t then 1 else 0) + Count(ts[1..], t)
  }

  lemma {:induction false} OfKindAppend(a: seq<InputItem>, b: seq<InputItem>, t: InputType)
    ensures OfKind(a + b, t) == OfKind(a, t) + OfKind(b, t)
    decreases |a|
  {
    if a == [] {
      assert a + b == b;
    } else {
      assert (a + b)[1..] == a[1..] + b;
      OfKindAppend(a[1..], b, t);
    }
  }

  /** The loop of `parse_inputs`: each item appends its payload to the list of its kind
      and its kind to `inputTypes`. */
  method ParseInputs(inputs: EmbeddingInput) returns (texts: seq<string>, images: seq<string>, inputTypes: seq<InputType>)
    ensures texts == OfKind(Normalized(inputs), TextType)
    ensures images == OfKind(Normalized(inputs), ImageType)
    ensures inputTypes == Types(Normalized(inputs))
  {
    var items := if inputs.Many? then inputs.items else [Plain(inputs.s)];
    texts, images, inputTypes := [], [], [];
    for i := 0 to |items|
      invariant texts == OfKind(items[..i], TextType)
      invariant images == OfKind(items[..i], ImageType)
      invariant inputTypes == Types(items[..i])
    {
      var item := items[i];
      ParseStep(items, i);
      match item {
        case Plain(s) =>
          if StartsWith(s, "http") {
            images := images + [s];
            inputTypes := inputTypes + [ImageType];
          } else {
            texts := texts + [s];
            inputTypes := inputTypes + [TextType];
          }
        case TextInput(t) =>
          texts := texts + [t];
          inputTypes := inputTypes + [TextType];
        case ImageInput(u) =>
          images := images + [u];
          inputTypes := inputTypes + [ImageType];
      }
    }
    assert items[..|items|] == items;
  }

  /** One iteration of the loop: the lists over `items[..i + 1]` are those over
      `items[..i]` with the contribution of `items[i]` added. */
  lemma ParseStep(items: seq<InputItem>, i: nat)
    requires i < |items|
    ensures OfKind(items[..i + 1], TextType) ==
      OfKind(items[..i], TextType) + (if Kind(items[i]) == TextType then [Payload(items[i])] else [])
    ensures OfKind(items[..i + 1], ImageType) ==
      OfKind(items[..i], ImageType) + (if Kind(items[i]) == ImageType then [Payload(items[i])] else [])
    ensures Types(items[..i + 1]) == Types(items[..i]) + [Kind(items[i])]
  {
    var item := items[i];
    assert items[..i + 1] == items[..i] + [item];
    OfKindAppend(items[..i], [item], TextType);
    OfKindAppend(items[..i], [item], ImageType);
    assert [item][1..] == [];
  }

  /** There is one "text" tag per text and one "image" tag per image, so the two lists
      together are as long as the tag list. */
  lemma {:induction false} TagCounts(items: seq<InputItem>)
    ensures Count(Types(items), TextType) == |OfKind(items, TextType)|
    ensures Count(Types(items), ImageType) == |OfKind(items, ImageType)|
    ensures |OfKind(items, TextType)| + |OfKind(items, ImageType)| == |Types(items)|
    decreases |items|
  {
    if items != [] {
      assert Types(items)[1..] == Types(items[1..]);
      TagCounts(items[1..]);
    }
  }

  /** Within each list the input order is kept: the k-th text (image) comes from the
      k-th item of that kind. */
  lemma {:induction false} OfKindAt(items: seq<InputItem>, k: nat)
    requires k < |items|
    ensures Count(Types(items)[..k], Kind(items[k])) < |OfKind(items, Kind(items[k]))|
    ensures OfKind(items, Kind(items[k]))[Count(Types(items)[..k], Kind(items[k]))] == Payload(items[k])
    decreases k
  {
    var t := Kind(items[k]);
    if k == 0 {
      assert Types(items)[..0] == [];
    } else {
      OfKindAt(items[1..], k - 1);
      assert items[1..][k - 1] == items[k];
      assert Types(items)[..k] == [Kind(items[0])] + Types(items[1..])[..k - 1];
    }
  }
}
