/** The chat-message preparation of the SmolVLM2 server: file-type detection for client
    uploads (images and videos only), `all_images`, and `format_messages`, which turns
    chat messages into the processor's list-of-parts form. */
module SmolUtils {
  import opened Outcomes
  import opened Strings
  import opened MediaFiles

  datatype FileType = ImageFile | VideoFile

  /** `determine_file_type_and_absolute_path`: image, then video; anything else, audio
      included, is rejected. */
  function DetermineFileType(filePath: string, absPath: string -> string): (r: Result<(FileType, string)>)
    ensures var p := AbsolutePath(filePath, absPath);
      && (r.Ok? <==> IsImage(p) || IsVideo(p))
      && (r.Ok? ==> r.value.1 == p)
      && (r.Ok? ==> (r.value.0 == ImageFile <==> IsImage(p)))
      && (r.Ok? ==> (r.value.0 == VideoFile <==> IsVideo(p)))
      && (r.Err? ==> r.error == ValueError("Unsupported file type: " + filePath))
  {
    var p := AbsolutePath(filePath, absPath);
    ExtensionListsDisjoint(p);
    if IsImage(p) then Ok((ImageFile, p))
    else if IsVideo(p) then Ok((VideoFile, p))
    else Err(ValueError("Unsupported file type: " + filePath))
  }

  /** An audio file is never accepted, whatever the case of its extension. */
  lemma AudioRejected(filePath: string, absPath: string -> string)
    requires IsAudio(AbsolutePath(filePath, absPath))
    ensures DetermineFileType(filePath, absPath) ==
      Err(ValueError("Unsupported file type: " + filePath))
  {
    ExtensionListsDisjoint(AbsolutePath(filePath, absPath));
  }

  /** `all_images`, over the uploaded files' names. */
  function AllImages(names: seq<string>): (r: bool)
    ensures r <==> forall k :: 0 <= k < |names| ==> IsImage(names[k])
    decreases |names|
  {
    if names == [] then true
    else IsImage(names[0]) && AllImages(names[1..])
  }

  /** A content item as `format_messages` sees it: its `type` and which of the attributes
      `url`, `image_url` and `text` it has. Reading an attribute it lacks raises
      AttributeError. */
  datatype Item = Item(kind: string, url: Option<string>, imageUrl: Option<ImageUrl>, text: Option<string>)

  /** The three item classes a message may hold. */
  function TextContent(text: string): Item { Item("text", None, None, Some(text)) }
  function ImageContent(imageUrl: ImageUrl): Item { Item("image_url", None, Some(imageUrl), None) }
  function MediaContent(kind: string, url: string): Item { Item(kind, Some(url), None, None) }

  datatype Content = Plain(s: string) | Items(items: seq<Item>)

  datatype ChatMessage = ChatMessage(role: string, content: Content)

  /** `{"type": "text", "text": ...}` or `{"type": ..., "path": ...}`. */
  datatype Part = TextPart(text: string) | PathPart(kind: string, path: string)

  datatype FormattedMessage = FormattedMessage(role: string, content: seq<Part>)

  predicate IsMedia(item: Item) { item.kind == "image" || item.kind == "video" }

  /** One item: an image or video gets its `url`, or its `image_url` when `url` is
      empty; any other item gets its `text`. */
  function FormatItem(item: Item): (r: Result<Part>)
    ensures r.Ok? ==> (r.value.PathPart? <==> IsMedia(item))
    ensures r.Ok? && r.value.PathPart? ==> r.value.kind == item.kind
    ensures r.Ok? && r.value.TextPart? ==> item.text == Some(r.value.text)
    ensures r.Err? ==> r.error.AttributeError?
  {
    if IsMedia(item) then
      if item.url.None? then Err(AttributeError("url"))
      else if item.url.value != "" then Ok(PathPart(item.kind, item.url.value))
      else if item.imageUrl.None? then Err(AttributeError("image_url"))
      else Ok(PathPart(item.kind, UrlOf(item.imageUrl.value)))
    else if item.text.None? then Err(AttributeError("text"))
    else Ok(TextPart(item.text.value))
  }

  /** What each item class becomes: a text part, a path part for an image or video with
      a non-empty URL, and an AttributeError otherwise (a media item with an empty URL
      has no `image_url`; an image-URL item and an audio item have no `text`). */
  lemma FormatItemClasses(text: string, u: ImageUrl, kind: string, url: string)
    ensures FormatItem(TextContent(text)) == Ok(TextPart(text))
    ensures FormatItem(ImageContent(u)) == Err(AttributeError("text"))
    ensures (kind == "image" || kind == "video") && url != "" ==>
      FormatItem(MediaContent(kind, url)) == Ok(PathPart(kind, url))
    ensures (kind == "image" || kind == "video") && url == "" ==>
      FormatItem(MediaContent(kind, url)) == Err(AttributeError("image_url"))
    ensures kind == "audio" ==> FormatItem(MediaContent(kind, url)) == Err(AttributeError("text"))
  {
  }

  /** One message: a string becomes a single text part; a list is formatted item by
      item. */
  function FormatMessage(m: ChatMessage): (r: Result<FormattedMessage>)
    ensures r.Ok? ==> r.value.role == m.role
    ensures r.Err? ==> m.content.Items? && r.error.AttributeError?
  {
    match m.content
    case Plain(s) => Ok(FormattedMessage(m.role, [TextPart(s)]))
    case Items(items) =>
      var parts := MapResult(FormatItem, items);
      if parts.Err? then
        MapResultErr(FormatItem, items);
        Err(parts.error)
      else Ok(FormattedMessage(m.role, parts.value))
  }

  /** The inner loop of `format_messages`: the parts of one list content. */
  method FormatContent(items: seq<Item>) returns (r: Result<seq<Part>>)
    ensures r == MapResult(FormatItem, items)
  {
    var content: seq<Part> := [];
    for j := 0 to |items|
      invariant MapResult(FormatItem, items[..j]) == Ok(content)
    {
      MapResultStep(FormatItem, items, j);
      var part := FormatItem(items[j]);
      if part.Err? {
        MapResultPrefixErr(FormatItem, items, j + 1);
        return Err(part.error);
      }
      content := content + [part.value];
    }
    assert items[..|items|] == items;
    r := Ok(content);
  }

  /** `format_messages`. */
  method FormatMessages(messages: seq<ChatMessage>) returns (r: Result<seq<FormattedMessage>>)
    ensures r == MapResult(FormatMessage, messages)
  {
    var result: seq<FormattedMessage> := [];
    for i := 0 to |messages|
      invariant MapResult(FormatMessage, messages[..i]) == Ok(result)
    {
      MapResultStep(FormatMessage, messages, i);
      var message := messages[i];
      var formatted: FormattedMessage;
      match message.content {
        case Plain(s) =>
          formatted := FormattedMessage(message.role, [TextPart(s)]);
        case Items(items) =>
          var content := FormatContent(items);
          if content.Err? {
            MapResultPrefixErr(FormatMessage, messages, i + 1);
            return Err(content.error);
          }
          formatted := FormattedMessage(message.role, content.value);
      }
      result := result + [formatted];
    }
    assert messages[..|messages|] == messages;
    r := Ok(result);
  }

  /** A formatted message keeps its role; a string content becomes one text part, and a
      list content keeps its item count and order, each item formatted on its own. */
  lemma FormatMessageShape(m: ChatMessage)
    ensures m.content.Plain? ==> FormatMessage(m) == Ok(FormattedMessage(m.role, [TextPart(m.content.s)]))
    ensures m.content.Items? ==>
      var items := m.content.items;
      && (FormatMessage(m).Ok? <==> forall k :: 0 <= k < |items| ==> FormatItem(items[k]).Ok?)
      && (FormatMessage(m).Ok? ==>
            |FormatMessage(m).value.content| == |items| &&
            forall k :: 0 <= k < |items| ==> FormatMessage(m).value.content[k] == FormatItem(items[k]).value)
  {
    if m.content.Items? {
      MapResultOk(FormatItem, m.content.items);
    }
  }

  /** There is one formatted message per input message, in order, when none of them
      fails; otherwise the error is that of the first failing message. */
  lemma FormatMessagesShape(messages: seq<ChatMessage>)
    ensures MapResult(FormatMessage, messages).Ok? <==>
      forall i :: 0 <= i < |messages| ==> FormatMessage(messages[i]).Ok?
    ensures MapResult(FormatMessage, messages).Ok? ==>
      var out := MapResult(FormatMessage, messages).value;
      |out| == |messages| &&
      forall i :: 0 <= i < |messages| ==> out[i] == FormatMessage(messages[i]).value && out[i].role == messages[i].role
  {
    MapResultOk(FormatMessage, messages);
    forall i | 0 <= i < |messages|
      ensures FormatMessage(messages[i]).Ok? ==> FormatMessage(messages[i]).value.role == messages[i].role
    {
      FormatMessageShape(messages[i]);
    }
  }
}
