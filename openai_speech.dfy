/** The OpenAI-compatible speech spec: request validation for `/v1/audio/speech`, the
    generator checks of `setup`, and the handler that registers a response buffer and
    hands the request to the serving library's request queue. */
module OpenAISpeech {
  import opened Outcomes

  const SpeechPath: string := "/v1/audio/speech"
  const MaxInputLength: nat := 4096
  const ResponseFormats: seq<string> := ["mp3", "opus", "aac", "flac", "wav", "pcm"]

  /** A field of the request body: missing, an explicit `null`, or a value. */
  datatype Field<T> = Absent | Null | Present(v: T)

  /** The body of a request before validation. `model` and `voice` accept any string. */
  datatype RawSpeechRequest = RawSpeechRequest(
    model: string, input: string, voice: string,
    responseFormat: Field<string>, speed: Field<real>, stream: Field<bool>)

  /** `SpeechGenerationRequest`. */
  datatype SpeechRequest = SpeechRequest(
    model: string, input: string, voice: string,
    responseFormat: Option<string>, speed: Option<real>, stream: Option<bool>)

  /** The fields that fail their constraint, in declaration order: `input` longer than
      4096 characters, a `response_format` that is missing or not one of the listed
      formats, and a `speed` outside [0.25, 4.0]. `null` is allowed wherever the field
      is optional. */
  function Violations(raw: RawSpeechRequest): (errs: seq<string>)
    ensures "input" in errs <==> |raw.input| > MaxInputLength
    ensures "response_format" in errs <==>
      raw.responseFormat.Absent? || (raw.responseFormat.Present? && raw.responseFormat.v !in ResponseFormats)
    ensures "speed" in errs <==> raw.speed.Present? && !(0.25 <= raw.speed.v <= 4.0)
    ensures forall e :: e in errs ==> e in ["input", "response_format", "speed"]
  {
    (if |raw.input| > MaxInputLength then ["input"] else [])
    + (match raw.responseFormat
       case Absent => ["response_format"]
       case Null => []
       case Present(f) => if f in ResponseFormats then [] else ["response_format"])
    + (if raw.speed.Present? && !(0.25 <= raw.speed.v <= 4.0) then ["speed"] else [])
  }

  /** Validation: the request is built when no field fails; `speed` defaults to 1.0 and
      `stream` to false when missing. The error names the first failing field. */
  function ValidateSpeechRequest(raw: RawSpeechRequest): (r: Result<SpeechRequest>)
    ensures r.Ok? <==> Violations(raw) == []
    ensures r.Err? ==> r.error == ValidationError(Violations(raw)[0])
    ensures r.Ok? ==>
      && r.value.model == raw.model && r.value.input == raw.input && r.value.voice == raw.voice
      && |r.value.input| <= MaxInputLength
      && (raw.responseFormat.Present? ==> r.value.responseFormat == Some(raw.responseFormat.v))
      && (raw.responseFormat.Null? ==> r.value.responseFormat == None)
      && (r.value.responseFormat.Some? ==> r.value.responseFormat.value in ResponseFormats)
      && r.value.speed == (match raw.speed case Absent => Some(1.0) case Null => None case Present(s) => Some(s))
      && r.value.stream == (match raw.stream case Absent => Some(false) case Null => None case Present(b) => Some(b))
  {
    var errs := Violations(raw);
    if errs != [] then Err(ValidationError(errs[0]))
    else
      var format := if raw.responseFormat.Present? then Some(raw.responseFormat.v) else None;
      var speed := match raw.speed case Absent => Some(1.0) case Null => None case Present(s) => Some(s);
      var stream := match raw.stream case Absent => Some(false) case Null => None case Present(b) => Some(b);
      Ok(SpeechRequest(raw.model, raw.input, raw.voice, format, speed, stream))
  }

  /** What `setup` inspects of the served API: whether `predict` and `encode_response`
      are generator functions, and whether `encode_response` is the inherited one. */
  datatype ApiShape = ApiShape(predictIsGenerator: bool, encodeResponseIsOriginal: bool, encodeResponseIsGenerator: bool)

  /** The head of the validation message, with the failing check filled in; the usage
      examples that follow it are not reproduced. */
  function ValidationMessage(detail: string): string {
    ValidationHead + detail
  }

  const ValidationHead: string :=
    "LitAPI.predict and LitAPI.encode_response must be a generator (use yield instead or return)\nwhile using the OpenAISpec.\n\nError: "
  const PredictNotGenerator: string := "predict is not a generator"
  const EncodeResponseNotGenerator: string := "encode_response is not a generator"

  /** `setup`'s checks: `predict` must be a generator; `encode_response` must be one too
      unless it is the inherited default. */
  function Setup(api: ApiShape): (r: Result<()>)
    ensures r.Ok? <==> api.predictIsGenerator && (api.encodeResponseIsOriginal || api.encodeResponseIsGenerator)
    ensures !api.predictIsGenerator ==> r == Err(ValueError(ValidationMessage(PredictNotGenerator)))
    ensures api.predictIsGenerator && r.Err? ==>
      r == Err(ValueError(ValidationMessage(EncodeResponseNotGenerator)))
  {
    if !api.predictIsGenerator then Err(ValueError(ValidationMessage(PredictNotGenerator)))
    else if !api.encodeResponseIsOriginal && !api.encodeResponseIsGenerator then
      Err(ValueError(ValidationMessage(EncodeResponseNotGenerator)))
    else Ok(())
  }

  /** A response buffer entry: the deque of outputs still to send and whether its event
      is set. */
  datatype ResponseEntry = ResponseEntry(pending: seq<string>, eventSet: bool)

  const EmptyEntry: ResponseEntry := ResponseEntry([], false)

  /** `(response_queue_id, uid, time.monotonic(), request)` */
  datatype QueueItem = QueueItem(responseQueueId: int, uid: string, timestamp: real, request: SpeechRequest)

  /** The parts of the serving library's state the handler touches: the response buffer,
      keyed by request id, and the request queue. */
  class LitServerState {
    var responseBuffer: map<string, ResponseEntry>
    var requestQueue: seq<QueueItem>

    constructor ()
      ensures responseBuffer == map[] && requestQueue == []
    {
      responseBuffer := map[];
      requestQueue := [];
    }

    /** `request_queue.put(item)` */
    method Put(item: QueueItem)
      modifies this
      ensures requestQueue == old(requestQueue) + [item]
      ensures responseBuffer == old(responseBuffer)
    {
      requestQueue := requestQueue + [item];
    }
  }

  datatype HttpMethod = Post | Options

  datatype Handler = SpeechGenerationHandler | OptionsHandler

  datatype Endpoint = Endpoint(path: string, httpMethod: HttpMethod, handler: Handler)

  class OpenAISpeechSpec {
    var server: LitServerState
    var responseQueueId: int
    var endpoints: seq<Endpoint>

    /** `__init__`: the POST and OPTIONS routes of `/v1/audio/speech`. */
    constructor (server: LitServerState, responseQueueId: int)
      ensures this.server == server && this.responseQueueId == responseQueueId
      ensures endpoints == [Endpoint(SpeechPath, Post, SpeechGenerationHandler), Endpoint(SpeechPath, Options, OptionsHandler)]
    {
      this.server := server;
      this.responseQueueId := responseQueueId;
      endpoints := [Endpoint(SpeechPath, Post, SpeechGenerationHandler), Endpoint(SpeechPath, Options, OptionsHandler)];
    }

    /** `speech_generation`, with the new uid and the clock reading as parameters: an
        empty entry is registered under the uid, exactly one item naming that uid is
        queued, nothing else in the buffer or the queue changes, and the status is 200. */
    method SpeechGeneration(request: SpeechRequest, uid: string, now: real) returns (status: int)
      modifies server
      ensures server.responseBuffer == old(server.responseBuffer)[uid := EmptyEntry]
      ensures server.requestQueue == old(server.requestQueue) + [QueueItem(responseQueueId, uid, now, request)]
      ensures forall k :: k in old(server.responseBuffer) && k != uid ==>
        k in server.responseBuffer && server.responseBuffer[k] == old(server.responseBuffer)[k]
      ensures uid in server.responseBuffer && server.responseBuffer[uid] == EmptyEntry
      ensures |server.requestQueue| == |old(server.requestQueue)| + 1
      ensures server.requestQueue[|server.requestQueue| - 1].uid == uid
      ensures status == 200
    {
      var responseQueueId := this.responseQueueId;
      server.responseBuffer := server.responseBuffer[uid := EmptyEntry];
      server.Put(QueueItem(responseQueueId, uid, now, request));
      status := 200;
    }

    /** `options_speech_generation` */
    method OptionsSpeechGeneration() returns (status: int)
      ensures status == 200
    {
      status := 200;
    }
  }
}
