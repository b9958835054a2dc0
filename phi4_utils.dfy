/** The chat-message preparation of the phi-4-multimodal server: file-type detection for
    client uploads, and `parse_messages`, which turns OpenAI-style messages into prompt
    messages with numbered `<|image_k|>` / `<|audio_k|>` placeholders and collects the
    image URLs and audio payloads in placeholder order. */
module Phi4Utils {
  import opened Outcomes
  import opened Strings
  import opened Seqs
  import opened MediaFiles

  datatype FileType = ImageFile | AudioFile | VideoFile

  /** `determine_file_type_and_absolute_path`: image, then audio, then video. Because
      the extension lists are disjoint the order does not matter and each type is
      reported exactly when its predicate holds. */
  function DetermineFileType(filePath: string, absPath: string -> string): (r: Result<(FileType, string)>)
    ensures var p := AbsolutePath(filePath, absPath);
      && (r.Ok? <==> IsImage(p) || IsAudio(p) || IsVideo(p))
      && (r.Ok? ==> r.value.1 == p)
      && (r.Ok? ==> (r.value.0 == ImageFile <==> IsImage(p)))
      && (r.Ok? ==> (r.value.0 == AudioFile <==> IsAudio(p)))
      && (r.Ok? ==> (r.value.0 == VideoFile <==> IsVideo(p)))
      && (r.Err? ==> r.error == ValueError("Unsupported file type: " + filePath))
  {
    var p := AbsolutePath(filePath, absPath);
    ExtensionListsDisjoint(p);
    if IsImage(p) then Ok((ImageFile, p))
    else if IsAudio(p) then Ok((AudioFile, p))
    else if IsVideo(p) then Ok((VideoFile, p))
    else Err(ValueError("Unsupported file type: " + filePath))
  }

  /** A URL is never rewritten, and its type is decided by its own extension. */
  lemma UrlPathKept(filePath: string, absPath: string -> string)
    requires StartsWith(filePath, "http")
    ensures DetermineFileType(filePath, absPath).Ok? <==>
      IsImage(filePath) || IsAudio(filePath) || IsVideo(filePath)
    ensures DetermineFileType(filePath, absPath).Ok? ==>
      DetermineFileType(filePath, absPath).value.1 == filePath
  {
  }

  /** The content part `get_file_object` builds for an upload. */
  datatype FileObject =
    | ImageUrlObject(url: Option<string>)
    | InputAudioObject(data: string, format: string)

  /** `get_file_object`: an image becomes an `image_url` part holding `encode_image`'s
      data URL, audio an `input_audio` part with the base64 file bytes and format "wav";
      a video, though detected, is rejected with the same error as an unknown type.
      Encoding the image and reading the file are parameters. */
  function GetFileObject(filePath: string, absPath: string -> string,
                         encodeImage: string -> Option<string>, readBase64: string -> string): (r: Result<FileObject>)
    ensures var t := DetermineFileType(filePath, absPath);
      && (r.Ok? <==> t.Ok? && t.value.0 != VideoFile)
      && (r.Ok? && t.Ok? && t.value.0 == ImageFile ==> r.value == ImageUrlObject(encodeImage(t.value.1)))
      && (r.Ok? && t.Ok? && t.value.0 == AudioFile ==> r.value == InputAudioObject(readBase64(t.value.1), "wav"))
      && (r.Err? ==> r.error == ValueError("Unsupported file type: " + filePath))
  {
    var (fileType, absolutePath) :- DetermineFileType(filePath, absPath);
    if fileType == ImageFile then Ok(ImageUrlObject(encodeImage(absolutePath)))
    else if fileType == AudioFile then Ok(InputAudioObject(readBase64(absolutePath), "wav"))
    else Err(ValueError("Unsupported file type: " + filePath))
  }

  /** `process_image`'s size rule: an image taller than `maxHeight` gets that height
      and the proportional width, rounded down. */
  function ProcessedSize(w: nat, h: nat, maxHeight: nat): (r: (nat, nat))
    ensures r.0 <= w && r.1 <= h
    ensures h > maxHeight ==> r.1 == maxHeight
    ensures h <= maxHeight ==> r == (w, h)
  {
    if h > maxHeight then
      ScaledAtMost(w, maxHeight, h);
      (ScaledFloor(w, maxHeight, h), maxHeight)
    else (w, h)
  }

  lemma ProcessedSizeCapsHeight(w: nat, h: nat, maxHeight: nat)
    ensures h <= maxHeight ==> ProcessedSize(w, h, maxHeight) == (w, h)
    ensures h > maxHeight ==>
      var w' := ProcessedSize(w, h, maxHeight).0;
      && ProcessedSize(w, h, maxHeight).1 == maxHeight
      && w' <= w
      && w' * h <= w * maxHeight < (w' + 1) * h
  {
    if h > maxHeight {
      var p := w * maxHeight;
      var q := ScaledFloor(w, maxHeight, h);
      FloorBounds(p, h);
      assert (q + 1) * h == q * h + h;
      MulMonotone(maxHeight, h, w);
      assert (w + 1) * h == w * h + h;
      FloorAtMost(p, w, h);
    }
  }

  // ---- parse_messages ----

  /** One part of a list content; `data` is absent when the audio object has no `data`
      attribute. Parts of other types are ignored. */
  datatype ContentItem =
    | TextItem(text: string)
    | ImageUrlItem(imageUrl: ImageUrl)
    | InputAudioItem(data: Option<string>)
    | OtherItem

  datatype Content = Plain(s: string) | Parts(items: seq<ContentItem>)

  datatype ChatMessage = ChatMessage(role: string, content: Content)

  /** `{"role": ..., "content": ...}` as sent to the processor. */
  datatype PromptMessage = PromptMessage(role: string, content: string)

  datatype Placeholder = ImageTag(n: nat) | AudioTag(n: nat)

  function Render(p: Placeholder): string {
    match p
    case ImageTag(n) => "<|image_" + NatToString(n) + "|>"
    case AudioTag(n) => "<|audio_" + NatToString(n) + "|>"
  }

  function RenderAll(ps: seq<Placeholder>): string
    decreases |ps|
  {
    if ps == [] then "" else Render(ps[0]) + RenderAll(ps[1..])
  }

  predicate HasImage(item: ContentItem) { item.ImageUrlItem? }
  predicate HasAudio(item: ContentItem) { item.InputAudioItem? && item.data.Some? }

  function ImageStep(item: ContentItem): nat { if HasImage(item) then 1 else 0 }
  function AudioStep(item: ContentItem): nat { if HasAudio(item) then 1 else 0 }

  /** How many placeholders of each kind `items` produces. */
  function ItemImages(items: seq<ContentItem>): nat
    decreases |items|
  {
    if items == [] then 0 else ImageStep(items[0]) + ItemImages(items[1..])
  }

  function ItemAudios(items: seq<ContentItem>): nat
    decreases |items|
  {
    if items == [] then 0 else AudioStep(items[0]) + ItemAudios(items[1..])
  }

  /** The placeholder one item produces, given the next free numbers. */
  function TagOf(item: ContentItem, img: nat, aud: nat): seq<Placeholder> {
    if HasImage(item) then [ImageTag(img)] else if HasAudio(item) then [AudioTag(aud)] else []
  }

  /** The placeholders of `items`, in item order, numbered from `img` and `aud`. */
  function Tags(items: seq<ContentItem>, img: nat, aud: nat): seq<Placeholder>
    decreases |items|
  {
    if items == [] then []
    else TagOf(items[0], img, aud) + Tags(items[1..], img + ImageStep(items[0]), aud + AudioStep(items[0]))
  }

  /** The text of the last text item of `items`, or `current` when there is none. */
  function LastText(items: seq<ContentItem>, current: string): string
    decreases |items|
  {
    if items == [] then current
    else LastText(items[1..], if items[0].TextItem? then items[0].text else current)
  }

  function ItemImageUrls(items: seq<ContentItem>): seq<string>
    decreases |items|
  {
    if items == [] then []
    else (if HasImage(items[0]) then [UrlOf(items[0].imageUrl)] else []) + ItemImageUrls(items[1..])
  }

  function ItemAudioData(items: seq<ContentItem>): seq<string>
    decreases |items|
  {
    if items == [] then []
    else (if HasAudio(items[0]) then [items[0].data.value] else []) + ItemAudioData(items[1..])
  }

  function MessageItems(m: ChatMessage): seq<ContentItem> {
    if m.content.Parts? then m.content.items else []
  }

  /** A string content passes through; a list becomes all its placeholders followed by
      its last text. */
  function PromptOf(m: ChatMessage, img: nat, aud: nat): string {
    match m.content
    case Plain(s) => s
    case Parts(items) => RenderAll(Tags(items, img, aud)) + LastText(items, "")
  }

  /** The prompt message for `req[i]`: its role, and its content with placeholders
      numbered after those of the messages before it, starting at 1. */
  function PromptFor(req: seq<ChatMessage>, i: nat): PromptMessage
    requires i < |req|
  {
    PromptMessage(req[i].role, PromptOf(req[i], 1 + SumImages(req[..i]), 1 + SumAudios(req[..i])))
  }

  /** How many image (audio) placeholders the messages produce together. */
  function SumImages(ms: seq<ChatMessage>): nat
    decreases |ms|
  {
    if ms == [] then 0 else SumImages(ms[..|ms| - 1]) + ItemImages(MessageItems(ms[|ms| - 1]))
  }

  function SumAudios(ms: seq<ChatMessage>): nat
    decreases |ms|
  {
    if ms == [] then 0 else SumAudios(ms[..|ms| - 1]) + ItemAudios(MessageItems(ms[|ms| - 1]))
  }

  /** The image URLs (audio payloads) the messages contribute, in order. */
  function ImageUrls(ms: seq<ChatMessage>): seq<string>
    decreases |ms|
  {
    if ms == [] then [] else ImageUrls(ms[..|ms| - 1]) + ItemImageUrls(MessageItems(ms[|ms| - 1]))
  }

  function AudioData(ms: seq<ChatMessage>): seq<string>
    decreases |ms|
  {
    if ms == [] then [] else AudioData(ms[..|ms| - 1]) + ItemAudioData(MessageItems(ms[|ms| - 1]))
  }

  /** `x if x else None` */
  function NoneIfEmpty<T>(xs: seq<T>): (r: Option<seq<T>>)
    ensures r.None? <==> xs == []
    ensures r.Some? ==> r.value == xs
  {
    if xs == [] then None else Some(xs)
  }

  /** The variables of the inner loop of `parse_messages`. */
  datatype ParseState = ParseState(
    prompt: string, placeholder: string, img: nat, aud: nat, images: seq<string>, audios: seq<string>)

  /** One iteration of the inner loop: a text item sets the prompt, an image item adds an
      image placeholder and its URL, an audio item with `data` adds an audio placeholder
      and its data; anything else changes nothing. */
  function Step(st: ParseState, item: ContentItem): ParseState {
    match item
    case TextItem(t) => st.(prompt := t)
    case ImageUrlItem(u) =>
      st.(placeholder := st.placeholder + Render(ImageTag(st.img)), img := st.img + 1,
          images := st.images + [UrlOf(u)])
    case InputAudioItem(d) =>
      if d.Some? then
        st.(placeholder := st.placeholder + Render(AudioTag(st.aud)), aud := st.aud + 1,
            audios := st.audios + [d.value])
      else st
    case OtherItem => st
  }

  /** The inner loop run over `items` from state `st`. */
  function Run(st: ParseState, items: seq<ContentItem>): ParseState
    decreases |items|
  {
    if items == [] then st else Run(Step(st, items[0]), items[1..])
  }

  /** One step in closed form, the same for every kind of item. */
  lemma StepFields(st: ParseState, item: ContentItem)
    ensures Step(st, item).prompt == if item.TextItem? then item.text else st.prompt
    ensures Step(st, item).placeholder == st.placeholder + RenderAll(TagOf(item, st.img, st.aud))
    ensures Step(st, item).img == st.img + ImageStep(item)
    ensures Step(st, item).aud == st.aud + AudioStep(item)
    ensures Step(st, item).images == st.images + if HasImage(item) then [UrlOf(item.imageUrl)] else []
    ensures Step(st, item).audios == st.audios + if HasAudio(item) then [item.data.value] else []
  {
    var t := TagOf(item, st.img, st.aud);
    if HasImage(item) {
      assert t == [ImageTag(st.img)] && t[1..] == [];
      assert RenderAll(t) == Render(ImageTag(st.img)) + "";
      assert st.audios + [] == st.audios;
    } else if HasAudio(item) {
      assert t == [AudioTag(st.aud)] && t[1..] == [];
      assert RenderAll(t) == Render(AudioTag(st.aud)) + "";
      assert st.images + [] == st.images;
    } else {
      assert st.placeholder + "" == st.placeholder;
      assert st.images + [] == st.images && st.audios + [] == st.audios;
    }
  }

  lemma {:induction false} RunPrompt(st: ParseState, items: seq<ContentItem>)
    ensures Run(st, items).prompt == LastText(items, st.prompt)
    decreases |items|
  {
    if items != [] {
      StepFields(st, items[0]);
      RunPrompt(Step(st, items[0]), items[1..]);
    }
  }

  lemma {:induction false} RunCounts(st: ParseState, items: seq<ContentItem>)
    ensures Run(st, items).img == st.img + ItemImages(items)
    ensures Run(st, items).aud == st.aud + ItemAudios(items)
    decreases |items|
  {
    if items != [] {
      StepFields(st, items[0]);
      RunCounts(Step(st, items[0]), items[1..]);
    }
  }

  lemma {:induction false} RunPlaceholder(st: ParseState, items: seq<ContentItem>)
    ensures Run(st, items).placeholder == st.placeholder + RenderAll(Tags(items, st.img, st.aud))
    decreases |items|
  {
    if items == [] {
      assert st.placeholder + "" == st.placeholder;
    } else {
      var item, next := items[0], Step(st, items[0]);
      StepFields(st, item);
      RunPlaceholder(next, items[1..]);
      var t := TagOf(item, st.img, st.aud);
      var rest := Tags(items[1..], next.img, next.aud);
      assert Tags(items, st.img, st.aud) == t + rest;
      RenderAllAppend(t, rest);
      AppendAssoc(st.placeholder, RenderAll(t), RenderAll(rest));
    }
  }

  lemma {:induction false} RunSources(st: ParseState, items: seq<ContentItem>)
    ensures Run(st, items).images == st.images + ItemImageUrls(items)
    ensures Run(st, items).audios == st.audios + ItemAudioData(items)
    decreases |items|
  {
    if items == [] {
      assert st.images + [] == st.images && st.audios + [] == st.audios;
    } else {
      var item, next := items[0], Step(st, items[0]);
      StepFields(st, item);
      RunSources(next, items[1..]);
      AppendAssoc(st.images, if HasImage(item) then [UrlOf(item.imageUrl)] else [], ItemImageUrls(items[1..]));
      AppendAssoc(st.audios, if HasAudio(item) then [item.data.value] else [], ItemAudioData(items[1..]));
    }
  }

  /** What the inner loop computes: the placeholders of all items appended in item
      order, numbered on from the counters, the last text (or the old prompt), the
      counters advanced by the numbers of placeholders, and the sources appended in the
      same order. */
  lemma RunClosed(st: ParseState, items: seq<ContentItem>)
    ensures Run(st, items) == ParseState(
      LastText(items, st.prompt),
      st.placeholder + RenderAll(Tags(items, st.img, st.aud)),
      st.img + ItemImages(items), st.aud + ItemAudios(items),
      st.images + ItemImageUrls(items), st.audios + ItemAudioData(items))
  {
    RunPrompt(st, items);
    RunCounts(st, items);
    RunPlaceholder(st, items);
    RunSources(st, items);
  }

  /** The inner loop of `parse_messages` over one list content, from the running
      counters and source lists: the content is all placeholders followed by the last
      text, and the counters and lists advance by this content's placeholders. */
  method ParseContent(items: seq<ContentItem>, img0: nat, aud0: nat, images0: seq<string>, audios0: seq<string>)
    returns (content: string, imgCount: nat, audioCount: nat, imageList: seq<string>, audioList: seq<string>)
    ensures content == RenderAll(Tags(items, img0, aud0)) + LastText(items, "")
    ensures imgCount == img0 + ItemImages(items) && audioCount == aud0 + ItemAudios(items)
    ensures imageList == images0 + ItemImageUrls(items) && audioList == audios0 + ItemAudioData(items)
  {
    var prompt := "";
    var placeholder := "";
    imgCount, audioCount, imageList, audioList := img0, aud0, images0, audios0;
    ghost var start := ParseState(prompt, placeholder, imgCount, audioCount, imageList, audioList);
    assert items[0..] == items;
    for j := 0 to |items|
      invariant Run(ParseState(prompt, placeholder, imgCount, audioCount, imageList, audioList), items[j..])
        == Run(start, items)
    {
      ghost var before := ParseState(prompt, placeholder, imgCount, audioCount, imageList, audioList);
      assert items[j..][0] == items[j] && items[j..][1..] == items[j + 1..];
      match items[j] {
        case TextItem(t) =>
          prompt := t;
        case ImageUrlItem(u) =>
          imageList := imageList + [UrlOf(u)];
          placeholder := placeholder + Render(ImageTag(imgCount));
          imgCount := imgCount + 1;
        case InputAudioItem(d) =>
          if d.Some? {
            audioList := audioList + [d.value];
            placeholder := placeholder + Render(AudioTag(audioCount));
            audioCount := audioCount + 1;
          }
        case OtherItem =>
      }
      assert ParseState(prompt, placeholder, imgCount, audioCount, imageList, audioList) == Step(before, items[j]);
    }
    assert items[|items|..] == [];
    RunClosed(start, items);
    assert "" + RenderAll(Tags(items, img0, aud0)) == RenderAll(Tags(items, img0, aud0));
    content := placeholder + prompt;
  }

  /** `parse_messages`, with `process_image` and `process_audio` as parameters; the
      thread pool's `map` keeps the order. There is one prompt message per input
      message, with its role kept, and message i's placeholders are numbered after
      those of the messages before it, starting at 1. */
  method ParseMessages<I, A>(req: seq<ChatMessage>, processImage: string -> I, processAudio: string -> A)
    returns (messages: seq<PromptMessage>, images: Option<seq<I>>, audios: Option<seq<A>>)
    ensures |messages| == |req|
    ensures forall i :: 0 <= i < |req| ==> messages[i] == PromptFor(req, i)
    ensures images == NoneIfEmpty(MapAll(processImage, ImageUrls(req)))
    ensures audios == NoneIfEmpty(MapAll(processAudio, AudioData(req)))
  {
    messages := [];
    var imageList: seq<string> := [];
    var audioList: seq<string> := [];
    var imgCount: nat := 1;
    var audioCount: nat := 1;
    for i := 0 to |req|
      invariant |messages| == i
      invariant forall k :: 0 <= k < i ==> messages[k] == PromptFor(req, k)
      invariant imgCount == 1 + SumImages(req[..i]) && audioCount == 1 + SumAudios(req[..i])
      invariant imageList == ImageUrls(req[..i]) && audioList == AudioData(req[..i])
    {
      PrefixStep(req, i);
      PromptForIs(req, i, imgCount, audioCount);
      var prompt;
      prompt, imgCount, audioCount, imageList, audioList :=
        ParseMessage(req[i], imgCount, audioCount, imageList, audioList);
      messages := messages + [prompt];
    }
    assert req[..|req|] == req;
    images := NoneIfEmpty(MapAll(processImage, imageList));
    audios := NoneIfEmpty(MapAll(processAudio, audioList));
  }

  /** The body of the outer loop for one message: a string content passes through, a
      list of parts is parsed by `ParseContent`. */
  method ParseMessage(message: ChatMessage, img0: nat, aud0: nat, images0: seq<string>, audios0: seq<string>)
    returns (prompt: PromptMessage, imgCount: nat, audioCount: nat, imageList: seq<string>, audioList: seq<string>)
    ensures prompt == PromptMessage(message.role, PromptOf(message, img0, aud0))
    ensures imgCount == img0 + ItemImages(MessageItems(message))
    ensures audioCount == aud0 + ItemAudios(MessageItems(message))
    ensures imageList == images0 + ItemImageUrls(MessageItems(message))
    ensures audioList == audios0 + ItemAudioData(MessageItems(message))
  {
    match message.content {
      case Plain(s) =>
        assert MessageItems(message) == [];
        assert images0 + [] == images0 && audios0 + [] == audios0;
        prompt, imgCount, audioCount, imageList, audioList :=
          PromptMessage(message.role, s), img0, aud0, images0, audios0;
      case Parts(items) =>
        var content;
        content, imgCount, audioCount, imageList, audioList :=
          ParseContent(items, img0, aud0, images0, audios0);
        prompt := PromptMessage(message.role, content);
    }
  }

  lemma PromptForIs(req: seq<ChatMessage>, i: nat, img: nat, aud: nat)
    requires i < |req| && img == 1 + SumImages(req[..i]) && aud == 1 + SumAudios(req[..i])
    ensures PromptFor(req, i) == PromptMessage(req[i].role, PromptOf(req[i], img, aud))
  {
    var m := req[i];
    assert PromptFor(req, i) == PromptMessage(m.role, PromptOf(m, 1 + SumImages(req[..i]), 1 + SumAudios(req[..i])));
  }

  /** One step of the outer loop: the running totals over `req[..i + 1]`. */
  lemma PrefixStep(req: seq<ChatMessage>, i: nat)
    requires i < |req|
    ensures SumImages(req[..i + 1]) == SumImages(req[..i]) + ItemImages(MessageItems(req[i]))
    ensures SumAudios(req[..i + 1]) == SumAudios(req[..i]) + ItemAudios(MessageItems(req[i]))
    ensures ImageUrls(req[..i + 1]) == ImageUrls(req[..i]) + ItemImageUrls(MessageItems(req[i]))
    ensures AudioData(req[..i + 1]) == AudioData(req[..i]) + ItemAudioData(MessageItems(req[i]))
  {
    var pre := req[..i + 1];
    assert pre[..i] == req[..i] && pre[i] == req[i];
  }

  lemma {:induction false} RenderAllAppend(a: seq<Placeholder>, b: seq<Placeholder>)
    ensures RenderAll(a + b) == RenderAll(a) + RenderAll(b)
    decreases |a|
  {
    if a == [] {
      assert a + b == b;
    } else {
      assert (a + b)[1..] == a[1..] + b;
      RenderAllAppend(a[1..], b);
    }
  }

  function ImageNumbers(ps: seq<Placeholder>): seq<nat>
    decreases |ps|
  {
    if ps == [] then [] else (if ps[0].ImageTag? then [ps[0].n] else []) + ImageNumbers(ps[1..])
  }

  function AudioNumbers(ps: seq<Placeholder>): seq<nat>
    decreases |ps|
  {
    if ps == [] then [] else (if ps[0].AudioTag? then [ps[0].n] else []) + AudioNumbers(ps[1..])
  }

  /** `list(range(lo, hi))` */
  function Range(lo: nat, hi: nat): seq<nat>
    decreases hi - lo
  {
    if hi <= lo then [] else [lo] + Range(lo + 1, hi)
  }

  lemma {:induction false} RangeAppend(a: nat, b: nat, c: nat)
    requires a <= b <= c
    ensures Range(a, b) + Range(b, c) == Range(a, c)
    decreases b - a
  {
    if a == b {
      assert Range(a, b) + Range(b, c) == [] + Range(b, c);
      assert [] + Range(b, c) == Range(b, c);
    } else {
      RangeAppend(a + 1, b, c);
      assert Range(a, b) == [a] + Range(a + 1, b);
      assert Range(a, c) == [a] + Range(a + 1, c);
      AppendAssoc([a], Range(a + 1, b), Range(b, c));
    }
  }

  lemma {:induction false} NumbersAppend(p: seq<Placeholder>, q: seq<Placeholder>)
    ensures ImageNumbers(p + q) == ImageNumbers(p) + ImageNumbers(q)
    ensures AudioNumbers(p + q) == AudioNumbers(p) + AudioNumbers(q)
    decreases |p|
  {
    if p == [] {
      assert p + q == q;
      assert ImageNumbers(p) + ImageNumbers(q) == [] + ImageNumbers(q);
      assert [] + ImageNumbers(q) == ImageNumbers(q);
      assert AudioNumbers(p) + AudioNumbers(q) == [] + AudioNumbers(q);
      assert [] + AudioNumbers(q) == AudioNumbers(q);
    } else {
      assert (p + q)[0] == p[0] && (p + q)[1..] == p[1..] + q;
      NumbersAppend(p[1..], q);
      var hi := if p[0].ImageTag? then [p[0].n] else [];
      var ha := if p[0].AudioTag? then [p[0].n] else [];
      AppendAssoc(hi, ImageNumbers(p[1..]), ImageNumbers(q));
      AppendAssoc(ha, AudioNumbers(p[1..]), AudioNumbers(q));
    }
  }

  lemma SingleNumbers(item: ContentItem, img: nat, aud: nat)
    ensures HasImage(item) ==> ImageNumbers(TagOf(item, img, aud)) == [img] && AudioNumbers(TagOf(item, img, aud)) == []
    ensures HasAudio(item) ==> ImageNumbers(TagOf(item, img, aud)) == [] && AudioNumbers(TagOf(item, img, aud)) == [aud]
    ensures !HasImage(item) && !HasAudio(item) ==> TagOf(item, img, aud) == []
  {
    var t := TagOf(item, img, aud);
    if t != [] {
      assert t[1..] == [];
      assert ImageNumbers(t) == (if t[0].ImageTag? then [t[0].n] else []) + [];
      assert AudioNumbers(t) == (if t[0].AudioTag? then [t[0].n] else []) + [];
    }
  }

  /** Within one message the image placeholders are img, img + 1, ... (one per
      `image_url` item) and the audio ones aud, aud + 1, ... (one per audio item that
      has data). */
  lemma {:induction false} TagNumbering(items: seq<ContentItem>, img: nat, aud: nat)
    ensures ImageNumbers(Tags(items, img, aud)) == Range(img, img + ItemImages(items))
    ensures AudioNumbers(Tags(items, img, aud)) == Range(aud, aud + ItemAudios(items))
    decreases |items|
  {
    if items == [] {
      assert Tags(items, img, aud) == [];
    } else {
      var item, rest := items[0], items[1..];
      var img', aud' := img + ImageStep(item), aud + AudioStep(item);
      var t := TagOf(item, img, aud);
      assert Tags(items, img, aud) == t + Tags(rest, img', aud');
      NumbersAppend(t, Tags(rest, img', aud'));
      TagNumbering(rest, img', aud');
      SingleNumbers(item, img, aud);
      if HasImage(item) {
        assert Range(img, img + ItemImages(items)) == [img] + Range(img', img' + ItemImages(rest));
        assert ImageNumbers(Tags(items, img, aud)) == [img] + Range(img', img' + ItemImages(rest));
        assert AudioNumbers(Tags(items, img, aud)) == [] + Range(aud, aud + ItemAudios(rest));
        assert [] + Range(aud, aud + ItemAudios(rest)) == Range(aud, aud + ItemAudios(rest));
      } else if HasAudio(item) {
        assert Range(aud, aud + ItemAudios(items)) == [aud] + Range(aud', aud' + ItemAudios(rest));
        assert AudioNumbers(Tags(items, img, aud)) == [aud] + Range(aud', aud' + ItemAudios(rest));
        assert ImageNumbers(Tags(items, img, aud)) == [] + Range(img, img + ItemImages(rest));
        assert [] + Range(img, img + ItemImages(rest)) == Range(img, img + ItemImages(rest));
      } else {
        assert t + Tags(rest, img', aud') == Tags(rest, img', aud');
      }
    }
  }

  lemma {:induction false} ItemSourcesCount(items: seq<ContentItem>)
    ensures |ItemImageUrls(items)| == ItemImages(items)
    ensures |ItemAudioData(items)| == ItemAudios(items)
    decreases |items|
  {
    if items != [] {
      ItemSourcesCount(items[1..]);
    }
  }

  /** Numbering across messages: the image placeholders of message i are numbered
      from one past those of the messages before it up to the running total after it,
      so over the conversation they run 1, 2, 3, ... with no gap or repeat; likewise
      for audio. */
  lemma MessageNumbering(req: seq<ChatMessage>, i: nat)
    requires i < |req|
    ensures ImageNumbers(Tags(MessageItems(req[i]), 1 + SumImages(req[..i]), 1 + SumAudios(req[..i]))) ==
      Range(1 + SumImages(req[..i]), 1 + SumImages(req[..i + 1]))
    ensures AudioNumbers(Tags(MessageItems(req[i]), 1 + SumImages(req[..i]), 1 + SumAudios(req[..i]))) ==
      Range(1 + SumAudios(req[..i]), 1 + SumAudios(req[..i + 1]))
  {
    assert req[..i + 1][..i] == req[..i];
    TagNumbering(MessageItems(req[i]), 1 + SumImages(req[..i]), 1 + SumAudios(req[..i]));
  }

  /** As many collected image URLs as image placeholders, and as many audio payloads
      as audio placeholders. */
  lemma {:induction false} SourcesMatchPlaceholders(ms: seq<ChatMessage>)
    ensures |ImageUrls(ms)| == SumImages(ms)
    ensures |AudioData(ms)| == SumAudios(ms)
    decreases |ms|
  {
    if ms != [] {
      SourcesMatchPlaceholders(ms[..|ms| - 1]);
      ItemSourcesCount(MessageItems(ms[|ms| - 1]));
    }
  }
}
