/** The SmolVLM2 client's `chat`: argument checks; the reading of a reply asked for
    with `stream` as server-sent events, where each `data: ` line carries one JSON chunk
    and `data: [DONE]` closes the stream; and the content lookup of a reply that is
    not streamed. */
module SmolClient {
  import opened Outcomes
  import opened Strings
  import opened Seqs

  const DataPrefix: string := "data: "
  const DoneMarker: string := "[DONE]"
  const DoneLine: string := DataPrefix + DoneMarker
  const MissingEndpointError: string := "Base URL and API key are required."
  const MissingMessagesError: string := "Messages are required."

  /** The JSON text one line of the stream carries: the stripped line must start with
      "data: " and not be the closing sentinel; the rest of it, stripped, is the payload. */
  function LinePayload(line: string): (r: Option<string>)
    ensures r.Some? <==> StartsWith(Strip(line), DataPrefix) && Strip(line) != DoneLine
    ensures r.Some? ==> r.value == Strip(Strip(line)[|DataPrefix|..])
  {
    var stripped := Strip(line);
    if StartsWith(stripped, DataPrefix) && Strip(stripped) != DoneLine then
      Some(Strip(stripped[|DataPrefix|..]))
    else None
  }

  /** What one line contributes: its payload, if any. */
  function LineOut(line: string): seq<string> {
    var p := LinePayload(line);
    if p.Some? then [p.value] else []
  }

  /** The payloads of a chunk's lines, in line order. */
  function LinesPayloads(lines: seq<string>): seq<string> {
    FlatMap(LineOut, lines)
  }

  /** An empty chunk is skipped; any other is split into lines on its own. (Were a
      line to straddle two chunks, it would be read as two lines; `BodyChunks` shows
      that `chat` never gets more than one chunk.) */
  function ChunkPayloads(chunk: string): seq<string> {
    if chunk == "" then [] else LinesPayloads(SplitLines(chunk))
  }

  /** Everything the stream yields, in chunk order. */
  function Payloads(chunks: seq<string>): seq<string> {
    FlatMap(ChunkPayloads, chunks)
  }

  /** The inner loop over one chunk's lines. */
  method ReadLines(lines: seq<string>) returns (out: seq<string>)
    ensures out == LinesPayloads(lines)
  {
    out := [];
    for j := 0 to |lines|
      invariant out == LinesPayloads(lines[..j])
    {
      LinesStep(lines, j);
      var line := Strip(lines[j]);
      if StartsWith(line, DataPrefix) && Strip(line) != DoneLine {
        out := out + [Strip(line[|DataPrefix|..])];
      } else {
        assert out + [] == out;
      }
    }
    assert lines[..|lines|] == lines;
  }

  /** `if chunk:` skips an empty chunk; any other must decode as UTF-8. */
  predicate Decodes(chunk: Bytes) {
    chunk == [] || DecodeUtf8(chunk).Some?
  }

  /** The index of the first chunk whose decoding raises, or the number of chunks. */
  function FirstUndecodable(chunks: seq<Bytes>): (n: nat)
    ensures n <= |chunks|
    ensures n < |chunks| ==> !Decodes(chunks[n])
    decreases |chunks|
  {
    if chunks == [] || !Decodes(chunks[0]) then 0 else 1 + FirstUndecodable(chunks[1..])
  }

  /** The decoded text of a chunk that decodes. */
  function Text(chunk: Bytes): string {
    DecodeUtf8(chunk).GetOr("")
  }

  function Texts(chunks: seq<Bytes>): seq<string> {
    MapAll(Text, chunks)
  }

  /** What the stream yields before it ends: the payloads of the chunks before the
      first one that does not decode. */
  function StreamPayloads(chunks: seq<Bytes>): seq<string> {
    Payloads(Texts(chunks[..FirstUndecodable(chunks)]))
  }

  /** The streaming branch of `chat`: the loop over chunks and, inside it, over lines.
      A chunk that is not UTF-8 stops the loop with a UnicodeDecodeError, which none of
      the except clauses catches; `failed` says whether that happened. */
  method ReadStream(chunks: seq<Bytes>) returns (out: seq<string>, failed: bool)
    ensures out == StreamPayloads(chunks)
    ensures failed <==> FirstUndecodable(chunks) < |chunks|
  {
    out := [];
    for i := 0 to |chunks|
      invariant AllDecode(chunks, i)
      invariant out == Payloads(Texts(chunks[..i]))
    {
      var chunk := chunks[i];
      if chunk != [] {
        var decoded := DecodeUtf8(chunk);
        if decoded.None? {
          FirstUndecodableIs(chunks, i);
          return out, true;
        }
        var more := ReadLines(SplitLines(decoded.value));
        DecodedStep(chunks, i, decoded.value);
        out := out + more;
      } else {
        EmptyStep(chunks, i);
      }
      AllDecodeStep(chunks, i);
    }
    FirstUndecodableIs(chunks, |chunks|);
    assert chunks[..|chunks|] == chunks;
    failed := false;
  }

  /** Every chunk before the `i`-th decodes. */
  predicate AllDecode(chunks: seq<Bytes>, i: nat) {
    forall k :: 0 <= k < i && k < |chunks| ==> Decodes(chunks[k])
  }

  lemma AllDecodeStep(chunks: seq<Bytes>, i: nat)
    requires i < |chunks| && AllDecode(chunks, i) && Decodes(chunks[i])
    ensures AllDecode(chunks, i + 1)
  {
  }

  /** The first undecodable chunk is the one before which every chunk decodes. */
  lemma {:induction false} FirstUndecodableIs(chunks: seq<Bytes>, i: nat)
    requires i <= |chunks| && AllDecode(chunks, i)
    requires i < |chunks| ==> !Decodes(chunks[i])
    ensures FirstUndecodable(chunks) == i
    decreases i
  {
    if i > 0 {
      assert Decodes(chunks[0]);
      var rest := chunks[1..];
      assert AllDecode(rest, i - 1) by {
        forall k | 0 <= k < i - 1
          ensures Decodes(rest[k])
        {
          assert rest[k] == chunks[k + 1];
        }
      }
      FirstUndecodableIs(rest, i - 1);
    }
  }

  /** Every chunk before the first undecodable one decodes. */
  lemma {:induction false} BeforeFirstUndecodable(chunks: seq<Bytes>)
    ensures AllDecode(chunks, FirstUndecodable(chunks))
    decreases |chunks|
  {
    if chunks != [] && Decodes(chunks[0]) {
      var rest := chunks[1..];
      BeforeFirstUndecodable(rest);
      forall k | 0 <= k < FirstUndecodable(chunks)
        ensures Decodes(chunks[k])
      {
        if k > 0 {
          assert chunks[k] == rest[k - 1];
        }
      }
    }
  }

  lemma TextsStep(chunks: seq<Bytes>, i: nat)
    requires i < |chunks|
    ensures Payloads(Texts(chunks[..i + 1])) == Payloads(Texts(chunks[..i])) + ChunkPayloads(Text(chunks[i]))
  {
    var pre := Texts(chunks[..i + 1]);
    assert pre[..i] == Texts(chunks[..i]) && pre[i] == Text(chunks[i]);
    PayloadsLast(pre);
  }

  /** A chunk that decodes adds the payloads of its text's lines. */
  lemma DecodedStep(chunks: seq<Bytes>, i: nat, text: string)
    requires i < |chunks| && chunks[i] != [] && DecodeUtf8(chunks[i]) == Some(text)
    ensures Payloads(Texts(chunks[..i + 1])) == Payloads(Texts(chunks[..i])) + LinesPayloads(SplitLines(text))
    ensures Decodes(chunks[i])
  {
    TextsStep(chunks, i);
  }

  /** An empty chunk adds nothing. */
  lemma EmptyStep(chunks: seq<Bytes>, i: nat)
    requires i < |chunks| && chunks[i] == []
    ensures Payloads(Texts(chunks[..i + 1])) == Payloads(Texts(chunks[..i]))
    ensures Decodes(chunks[i])
  {
    TextsStep(chunks, i);
    assert Text(chunks[i]) == "";
    assert Payloads(Texts(chunks[..i])) + [] == Payloads(Texts(chunks[..i]));
  }

  lemma LinesPayloadsLast(lines: seq<string>)
    requires lines != []
    ensures LinesPayloads(lines) == LinesPayloads(lines[..|lines| - 1]) + LineOut(lines[|lines| - 1])
  {
    FlatMapLast(LineOut, lines);
  }

  /** One step of the line loop, with what the line adds spelled out. */
  lemma LinesStep(lines: seq<string>, j: nat)
    requires j < |lines|
    ensures LinesPayloads(lines[..j + 1]) == LinesPayloads(lines[..j]) + LineOut(lines[j])
    ensures var line := Strip(lines[j]);
      LineOut(lines[j]) == if StartsWith(line, DataPrefix) && Strip(line) != DoneLine then [Strip(line[|DataPrefix|..])] else []
  {
    var pre := lines[..j + 1];
    assert pre[..j] == lines[..j] && pre[j] == lines[j];
    LinesPayloadsLast(pre);
  }

  lemma LinesPayloadsAppend(a: seq<string>, b: seq<string>)
    ensures LinesPayloads(a + b) == LinesPayloads(a) + LinesPayloads(b)
  {
    FlatMapAppend(LineOut, a, b);
  }

  /** Output order follows chunk order: the payloads of two chunk sequences read one
      after the other are those of the first, then those of the second. */
  lemma PayloadsAppend(a: seq<string>, b: seq<string>)
    ensures Payloads(a + b) == Payloads(a) + Payloads(b)
  {
    FlatMapAppend(ChunkPayloads, a, b);
  }

  /** Each line yields at most one payload and each payload comes from a data line, so
      a chunk never yields more payloads than it has lines. */
  lemma {:induction false} AtMostOnePerLine(lines: seq<string>)
    ensures |LinesPayloads(lines)| <= |lines|
    decreases |lines|
  {
    if lines != [] {
      LinesPayloadsLast(lines);
      AtMostOnePerLine(lines[..|lines| - 1]);
    }
  }

  /** The sentinel yields nothing, whatever whitespace surrounds it. */
  lemma DoneYieldsNothing(line: string)
    requires Strip(line) == DoneLine
    ensures LinePayload(line) == None
  {
    assert DoneLine[0] == 'd' && DoneLine[|DoneLine| - 1] == ']';
    StripNoop(DoneLine);
  }

  /** A printable chunk without surrounding blanks is one line, read as it is. */
  lemma PrintableLine(line: string)
    requires line != [] && Printable(line) && line[0] != ' ' && line[|line| - 1] != ' '
    ensures ChunkPayloads(line) == LineOut(line)
    ensures Strip(line) == line
  {
    PrintableNoBreak(line);
    SplitLinesSingle(line);
    StripNoop(line);
    var one := [line];
    assert one[..0] == [];
    LinesPayloadsLast(one);
  }

  /** A clean data line yields exactly the text after "data: ". */
  lemma DataLine(payload: string)
    requires payload != [] && Printable(payload) && payload[0] != ' ' && payload[|payload| - 1] != ' '
    requires payload != DoneMarker
    ensures LinePayload(DataPrefix + payload) == Some(payload)
    ensures ChunkPayloads(DataPrefix + payload) == [payload]
  {
    var line := DataPrefix + payload;
    DataLineParts(payload);
    PrintableLine(line);
    PrintableNoBreak(payload);
    StripNoop(payload);
  }

  lemma DataLineParts(payload: string)
    requires payload != [] && Printable(payload) && payload[|payload| - 1] != ' '
    requires payload != DoneMarker
    ensures var line := DataPrefix + payload;
      StartsWith(line, DataPrefix) && line[|DataPrefix|..] == payload && line != DoneLine &&
      Printable(line) && line[0] == 'd' && line[|line| - 1] == payload[|payload| - 1]
  {
    var line := DataPrefix + payload;
    assert line[..|DataPrefix|] == DataPrefix && line[|DataPrefix|..] == payload;
    assert DoneLine[|DataPrefix|..] == DoneMarker;
  }

  lemma PayloadsLast(chunks: seq<string>)
    requires chunks != []
    ensures Payloads(chunks) == Payloads(chunks[..|chunks| - 1]) + ChunkPayloads(chunks[|chunks| - 1])
  {
    FlatMapLast(ChunkPayloads, chunks);
  }

  lemma OneChunk(chunk: string)
    ensures Payloads([chunk]) == ChunkPayloads(chunk)
  {
    var one := [chunk];
    PayloadsLast(one);
    assert one[..0] == [];
  }

  lemma TwoChunks(first: string, second: string)
    ensures Payloads([first, second]) == ChunkPayloads(first) + ChunkPayloads(second)
  {
    var two := [first, second];
    PayloadsLast(two);
    assert two[..1] == [first];
    OneChunk(first);
  }

  /** A data line split across two chunks is not reassembled: whole, it yields its
      payload; split inside its prefix, it yields nothing. */
  lemma StraddlingLineLost()
    ensures Payloads([DataPrefix + "x"]) == ["x"]
    ensures Payloads(["da", "ta: x"]) == []
  {
    DataLine("x");
    OneChunk(DataPrefix + "x");
    SplitPrefixLost();
  }

  lemma SplitPrefixLost()
    ensures Payloads(["da", "ta: x"]) == []
  {
    HeadYieldsNothing();
    TailYieldsNothing();
    TwoChunks("da", "ta: x");
  }

  lemma HeadYieldsNothing()
    ensures ChunkPayloads("da") == []
  {
    NotDataLine("da");
  }

  lemma TailYieldsNothing()
    ensures ChunkPayloads("ta: x") == []
  {
    NotDataLine("ta: x");
  }

  /** A printable chunk too short to hold the prefix yields nothing. */
  lemma NotDataLine(line: string)
    requires line != [] && Printable(line) && line[0] != ' ' && line[|line| - 1] != ' '
    requires |line| < |DataPrefix|
    ensures ChunkPayloads(line) == []
  {
    PrintableLine(line);
  }

  /** The request of `chat` as far as the checks see it. */
  datatype ChatRequest<M> = ChatRequest(baseUrl: string, apiKey: string, messages: seq<M>, stream: bool)

  /** A JSON value as `response.json()` gives it: `null`, a boolean, a number, a
      string, a list or a dict. Which number it is never matters here. */
  datatype Json = Null | Bool(b: bool) | Number(n: real) | Str(s: string) | Array(items: seq<Json>) | Object(fields: map<string, Json>)

  /** A subscript: a string key or an integer index. */
  datatype Key = Name(name: string) | Index(i: int)

  /** Python's `v[k]` on what `json` builds. A dict looks the key up: a missing key is a
      KeyError, and an integer is always missing, JSON keys being strings. A list or a
      string takes an index, counting from the end when it is negative: out of range it
      is an IndexError, and a string key is a TypeError. `null`, booleans and numbers
      are not subscriptable: a TypeError. */
  function Subscript(v: Json, k: Key): (r: Result<Json>)
    ensures r.Ok? ==> (v.Object? && r.value in v.fields.Values) || (v.Array? && r.value in v.items)
                      || (v.Str? && r.value.Str? && |r.value.s| == 1)
    ensures r.Ok? && v.Object? ==> k.Name? && k.name in v.fields && r.value == v.fields[k.name]
    ensures r.Err? <==> match v {
      case Object(fields) => k.Index? || k.name !in fields
      case Array(items) => k.Name? || !(-|items| <= k.i < |items|)
      case Str(s) => k.Name? || !(-|s| <= k.i < |s|)
      case _ => true
    }
    ensures r.Err? ==> (Caught(r.error) <==> v.Object?)
    ensures r.Err? ==> || (r.error.KeyError? && k.Name? && r.error.key == k.name)
                       || (r.error.IntKeyError? && k.Index? && r.error.intKey == k.i)
                       || r.error.IndexError? || r.error.TypeError?
  {
    match v
    case Object(fields) =>
      (match k
       case Name(n) => if n in fields then Ok(fields[n]) else Err(KeyError(n))
       case Index(i) => Err(IntKeyError(i)))
    case Array(items) =>
      (match k
       case Name(_) => Err(TypeError)
       case Index(i) =>
         if 0 <= i < |items| then Ok(items[i])
         else if -|items| <= i < 0 then Ok(items[|items| + i])
         else Err(IndexError))
    case Str(s) =>
      (match k
       case Name(_) => Err(TypeError)
       case Index(i) =>
         if 0 <= i < |s| then Ok(Str([s[i]]))
         else if -|s| <= i < 0 then Ok(Str([s[|s| + i]]))
         else Err(IndexError))
    case _ => Err(TypeError)
  }

  /** `response.json()["choices"][0]["message"]["content"]`: the subscripts in turn,
      stopping at the first that raises. */
  function ContentOf(body: Json): (r: Result<Json>)
    ensures r.Err? ==> r.error.KeyError? || r.error.IntKeyError? || r.error.IndexError? || r.error.TypeError?
  {
    var choices :- Subscript(body, Name("choices"));
    var first :- Subscript(choices, Index(0));
    var message :- Subscript(first, Name("message"));
    Subscript(message, Name("content"))
  }

  /** The reply of a chat completion: the content of its first choice's message is
      what `chat` returns. */
  lemma ContentOfCompletion(content: Json, message: map<string, Json>, choice: map<string, Json>,
                            more: seq<Json>, body: map<string, Json>)
    requires message["content" := content] == message
    requires choice["message" := Object(message)] == choice
    requires body["choices" := Array([Object(choice)] + more)] == body
    ensures ContentOf(Object(body)) == Ok(content)
  {
    assert "choices" in body && body["choices"] == Array([Object(choice)] + more);
    assert "message" in choice && choice["message"] == Object(message);
    assert "content" in message && message["content"] == content;
  }

  /** `except KeyError` handles a missing key, whichever its type. */
  predicate Caught(e: Error) {
    e.KeyError? || e.IntKeyError?
  }

  /** What the HTTP exchange gives back: a request error (`raise_for_status` included),
      or the body and what `response.json()` makes of it, None when it is not JSON. */
  datatype HttpReply = RequestFailed | Reply(body: Bytes, json: Option<Json>)

  /** `response.iter_content(chunk_size=None)` on a response requested without
      `stream=True`, as `requests.post` is here: requests has already read the whole
      body, and yields it as one chunk, or nothing when it is empty. */
  function BodyChunks(body: Bytes): (r: seq<Bytes>)
    ensures |r| <= 1 && (r == [] <==> body == [])
    ensures Flatten(r) == body
  {
    if body == [] then [] else [body]
  }

  /** How a consumer of the generator sees `chat` end: an exception, or an ordinary end
      whose StopIteration carries the return value, `Null` standing for None. */
  datatype Ending = Raised(error: Error) | Returned(value: Json)

  datatype ChatOutcome = ChatOutcome(yielded: seq<string>, ending: Ending)

  /** The value the non-streaming branch returns, or the exception that escapes it. A
      body that is not JSON makes `response.json()` raise requests' JSONDecodeError, a
      RequestException; a missing key is a KeyError; both end with None. */
  function NonStreamEnding(json: Option<Json>): (r: Ending)
    ensures r.Raised? <==> json.Some? && ContentOf(json.value).Err? && !Caught(ContentOf(json.value).error)
    ensures r.Raised? ==> r.error.IndexError? || r.error.TypeError?
    ensures r.Returned? && json.Some? && ContentOf(json.value).Ok? ==> r.value == ContentOf(json.value).value
    ensures r.Returned? && (json.None? || ContentOf(json.value).Err?) ==> r.value == Null
  {
    match json
    case None => Returned(Null)
    case Some(j) =>
      match ContentOf(j)
      case Ok(c) => Returned(c)
      case Err(e) => if Caught(e) then Returned(Null) else Raised(e)
  }

  /** `chat`. The ValueErrors of the checks are not among the handled exceptions and
      reach the caller before any request; a request error ends the generator with
      None. Streaming reads the body's one chunk: if it is not UTF-8 the
      UnicodeDecodeError escapes. Otherwise the content of the reply's first choice
      ends the generator, None when a key is missing, while an IndexError or a
      TypeError of the lookup escapes. */
  function Chat<M>(request: ChatRequest<M>, reply: HttpReply): (r: ChatOutcome)
    ensures (request.baseUrl == "" || request.apiKey == "") ==>
      r == ChatOutcome([], Raised(ValueError(MissingEndpointError)))
    ensures request.baseUrl != "" && request.apiKey != "" && request.messages == [] ==>
      r == ChatOutcome([], Raised(ValueError(MissingMessagesError)))
    ensures r.ending.Raised? <==>
      || request.baseUrl == "" || request.apiKey == "" || request.messages == []
      || (reply.Reply? && request.stream && FirstUndecodable(BodyChunks(reply.body)) < |BodyChunks(reply.body)|)
      || (reply.Reply? && !request.stream && NonStreamEnding(reply.json).Raised?)
    ensures r.ending.Raised? && r.ending.error == UnicodeDecodeError ==>
      reply.Reply? && request.stream && r.yielded == StreamPayloads(BodyChunks(reply.body))
    ensures r.ending.Returned? && reply.RequestFailed? ==> r == ChatOutcome([], Returned(Null))
    ensures r.ending.Returned? && reply.Reply? && request.stream ==>
      r == ChatOutcome(Payloads(Texts(BodyChunks(reply.body))), Returned(Null))
    ensures reply.Reply? && !request.stream && request.baseUrl != "" && request.apiKey != "" && request.messages != [] ==>
      r == ChatOutcome([], NonStreamEnding(reply.json))
  {
    if request.baseUrl == "" || request.apiKey == "" then ChatOutcome([], Raised(ValueError(MissingEndpointError)))
    else if request.messages == [] then ChatOutcome([], Raised(ValueError(MissingMessagesError)))
    else match reply
      case RequestFailed => ChatOutcome([], Returned(Null))
      case Reply(body, json) =>
        if !request.stream then ChatOutcome([], NonStreamEnding(json))
        else
          var chunks := BodyChunks(body);
          assert chunks[..|chunks|] == chunks;
          StreamOutcome(chunks)
  }

  /** How the streaming loop ends: with the payloads read before the first chunk
      that does not decode, and that chunk's UnicodeDecodeError if there is one. */
  function StreamOutcome(chunks: seq<Bytes>): ChatOutcome {
    ChatOutcome(StreamPayloads(chunks),
                if FirstUndecodable(chunks) < |chunks| then Raised(UnicodeDecodeError) else Returned(Null))
  }

  /** The checks of `chat` pass. */
  predicate Accepted<M>(request: ChatRequest<M>) {
    request.baseUrl != "" && request.apiKey != "" && request.messages != []
  }

  /** A streamed reply is one chunk: a body that is not UTF-8 raises before anything is
      yielded; any other yields the payloads of its decoded text's lines. */
  lemma StreamedBody<M>(request: ChatRequest<M>, body: Bytes, json: Option<Json>)
    requires Accepted(request) && request.stream
    ensures Chat(request, Reply(body, json)).ending.Raised? <==> !Decodes(body)
    ensures !Decodes(body) ==> Chat(request, Reply(body, json)) == ChatOutcome([], Raised(UnicodeDecodeError))
    ensures Decodes(body) ==> Chat(request, Reply(body, json)) == ChatOutcome(ChunkPayloads(Text(body)), Returned(Null))
  {
    var chunks := BodyChunks(body);
    if body == [] {
      FirstUndecodableIs(chunks, 0);
      assert Texts(chunks[..0]) == [];
    } else if Decodes(body) {
      FirstUndecodableIs(chunks, 1);
      assert chunks[..1] == chunks && Texts(chunks) == [Text(body)];
      OneChunk(Text(body));
    } else {
      FirstUndecodableIs(chunks, 0);
      assert Texts(chunks[..0]) == [];
    }
  }

  /** A body cut inside a character raises: "é" whole ends normally, its first byte
      alone raises before anything is yielded. */
  lemma TruncatedBodyRaises<M>(request: ChatRequest<M>)
    requires Accepted(request) && request.stream
    ensures Chat(request, Reply([0xC3, 0xA9], None)).ending == Returned(Null)
    ensures Chat(request, Reply([0xC3], None)) == ChatOutcome([], Raised(UnicodeDecodeError))
  {
    SplitCharacter();
    StreamedBody(request, [0xC3, 0xA9], None);
    StreamedBody(request, [0xC3], None);
  }

  /** `{"choices": []}` raises IndexError, which escapes `chat`. */
  lemma NoChoicesRaises<M>(request: ChatRequest<M>, body: Bytes)
    requires Accepted(request) && !request.stream
    ensures Chat(request, Reply(body, Some(Object(map["choices" := Array([])])))) == ChatOutcome([], Raised(IndexError))
  {
  }

  /** `{"choices": null}` and a list body raise TypeError, which escapes `chat`. */
  lemma NotSubscriptableRaises<M>(request: ChatRequest<M>, body: Bytes, items: seq<Json>)
    requires Accepted(request) && !request.stream
    ensures Chat(request, Reply(body, Some(Object(map["choices" := Null])))) == ChatOutcome([], Raised(TypeError))
    ensures Chat(request, Reply(body, Some(Array(items)))) == ChatOutcome([], Raised(TypeError))
  {
  }

  /** A body without "choices", or one that is not JSON, ends with None. */
  lemma UnexpectedFormatReturnsNone<M>(request: ChatRequest<M>, body: Bytes, fields: map<string, Json>)
    requires Accepted(request) && !request.stream && "choices" !in fields
    ensures Chat(request, Reply(body, Some(Object(fields)))) == ChatOutcome([], Returned(Null))
    ensures Chat(request, Reply(body, None)) == ChatOutcome([], Returned(Null))
  {
  }

  /** The chunks before the first undecodable one all decode. */
  lemma DecodablePrefix(chunks: seq<Bytes>)
    ensures FirstUndecodable(chunks[..FirstUndecodable(chunks)]) == FirstUndecodable(chunks)
  {
    var n := FirstUndecodable(chunks);
    var pre := chunks[..n];
    BeforeFirstUndecodable(chunks);
    assert AllDecode(pre, n) by {
      forall k | 0 <= k < n
        ensures Decodes(pre[k])
      {
        assert pre[k] == chunks[k];
      }
    }
    FirstUndecodableIs(pre, n);
  }

  /** A bad chunk ends the stream but keeps what came before: the payloads yielded are
      those of the chunks before it, as if the stream had ended there. */
  lemma DecodeErrorKeepsEarlierPayloads(chunks: seq<Bytes>)
    requires FirstUndecodable(chunks) < |chunks|
    ensures var n := FirstUndecodable(chunks);
      StreamOutcome(chunks) == ChatOutcome(StreamOutcome(chunks[..n]).yielded, Raised(UnicodeDecodeError)) &&
      StreamOutcome(chunks[..n]).ending == Returned(Null)
  {
    DecodablePrefix(chunks);
    PrefixPayloads(chunks);
  }

  /** Cutting the stream at its first undecodable chunk yields what it yielded. */
  lemma PrefixPayloads(chunks: seq<Bytes>)
    ensures StreamPayloads(chunks[..FirstUndecodable(chunks)]) == StreamPayloads(chunks)
  {
    var n := FirstUndecodable(chunks);
    var pre := chunks[..n];
    DecodablePrefix(chunks);
    assert pre[..n] == pre;
  }

  /** The chunk loop decodes each chunk on its own: given a two-byte character split
      across two chunks it would raise, where the same bytes in one chunk decode. */
  lemma SplitCharacterRaises()
    ensures StreamOutcome([[0xC3, 0xA9]]).ending == Returned(Null)
    ensures StreamOutcome([[0xC3], [0xA9]]) == ChatOutcome([], Raised(UnicodeDecodeError))
  {
    SplitCharacter();
    var whole: seq<Bytes> := [[0xC3, 0xA9]];
    FirstUndecodableIs(whole, 1);
    var split: seq<Bytes> := [[0xC3], [0xA9]];
    FirstUndecodableIs(split, 0);
    assert split[..0] == [];
  }
}
