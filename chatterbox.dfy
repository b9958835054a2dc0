/** The Chatterbox text-to-speech API: validation of the request's audio prompt, the
    temporary file a prompt is turned into, and the bookkeeping that deletes those
    files after every prediction. */
module ChatterboxServer {
  import opened Outcomes
  import opened Strings
  import opened Binascii

  /** `re.match(r"^https?://", v)` */
  predicate IsUrl(v: string) {
    StartsWith(v, "http://") || StartsWith(v, "https://")
  }

  /** The characters of `[A-Za-z0-9+/=]`: the base64 alphabet of section 4 of RFC 4648
      and its pad character. */
  predicate IsBase64Char(c: char) {
    ('A' <= c <= 'Z') || ('a' <= c <= 'z') || ('0' <= c <= '9') || c == '+' || c == '/' || c == '='
  }

  /** `re.match(r"^[A-Za-z0-9+/=]+\Z", v)`, scanned character by character. */
  function MatchesBase64(v: string): (r: bool)
    ensures r <==> |v| > 0 && forall k :: 0 <= k < |v| ==> IsBase64Char(v[k])
    decreases |v|
  {
    if |v| == 0 then false
    else if |v| == 1 then IsBase64Char(v[0])
    else IsBase64Char(v[0]) && MatchesBase64(v[1..])
  }

  /** The basic base64 check: the alphabet and more than 100 characters. */
  predicate IsBase64(v: string) {
    MatchesBase64(v) && |v| > 100
  }

  const AudioPromptError: string := "audio_prompt must be a base64 string or valid http/https URL"

  /** `TTSRequest.validate_audio_prompt`: no prompt, a URL, or a base64 string is kept
      as it is; anything else is rejected. */
  function ValidateAudioPrompt(v: Option<string>): (r: Result<Option<string>>)
    ensures r.Ok? <==> v.None? || IsUrl(v.value) || IsBase64(v.value)
    ensures r.Ok? ==> r.value == v
    ensures r.Err? ==> r.error == ValueError(AudioPromptError)
  {
    match v
    case None => Ok(None)
    case Some(s) => if IsUrl(s) || IsBase64(s) then Ok(v) else Err(ValueError(AudioPromptError))
  }

  /** `-len % 4` with Python's floored remainder, which is Dafny's for a positive divisor. */
  function PadCount(n: nat): (k: nat)
    ensures k < 4
  {
    var negated: int := -(n as int);
    negated % 4
  }

  /** Base64 text comes in groups of four characters. */
  predicate Aligned(m: int) {
    m % 4 == 0
  }

  /** The pad count is the least number of characters that brings the length to a
      multiple of 4. */
  lemma PadCountLeast(n: nat)
    ensures Aligned(n + PadCount(n))
    ensures forall m :: n <= m < n + PadCount(n) ==> !Aligned(m)
    ensures PadCount(n) == 0 <==> Aligned(n)
  {
    var q := n / 4;
    var r := n % 4;
    assert n == 4 * q + r;
    if r == 0 {
      assert -(n as int) == 4 * (-q);
      assert PadCount(n) == 0;
    } else {
      assert -(n as int) == 4 * (-q - 1) + (4 - r);
      assert PadCount(n) == 4 - r;
      assert n + PadCount(n) == 4 * (q + 1);
      forall m | n <= m < n + PadCount(n)
        ensures !Aligned(m)
      {
        assert m == 4 * q + (r + (m - n));
      }
    }
  }

  /** `audio_prompt + "=" * (-len(audio_prompt) % 4)`: the prompt followed by up to
      three pad characters, as long as a multiple of 4. */
  function Padded(s: string): (r: string)
    ensures |r| % 4 == 0 && |s| <= |r| < |s| + 4
    ensures r[..|s|] == s && forall k :: |s| <= k < |r| ==> r[k] == '='
  {
    PadCountLeast(|s|);
    s + Repeat('=', PadCount(|s|))
  }

  /** What `get_audio_tempfile` does with a prompt: nothing; download a URL into a new
      temporary file; decode a padded base64 string into one; or use the prompt as a
      local path. */
  datatype AudioSource = NoPrompt | Download(url: string) | DecodeBase64(padded: string) | LocalPath(path: string)

  function AudioSourceOf(prompt: Option<string>): (r: AudioSource)
    ensures prompt.None? <==> r == NoPrompt
    ensures prompt.Some? && IsUrl(prompt.value) ==> r == Download(prompt.value)
    ensures prompt.Some? && !IsUrl(prompt.value) && IsBase64(prompt.value) ==> r == DecodeBase64(Padded(prompt.value))
    ensures prompt.Some? && !IsUrl(prompt.value) && !IsBase64(prompt.value) ==> r == LocalPath(prompt.value)
  {
    match prompt
    case None => NoPrompt
    case Some(s) =>
      if IsUrl(s) then Download(s)
      else if IsBase64(s) then DecodeBase64(Padded(s))
      else LocalPath(s)
  }

  /** A base64 prompt and its pads are ASCII, so `b64decode` can only fail on it with
      a `binascii.Error`. */
  lemma PaddedBase64Ascii(s: string)
    requires IsBase64(s)
    ensures IsAscii(Padded(s))
  {
    var p := Padded(s);
    forall k | 0 <= k < |p|
      ensures p[k] as int < 128
    {
      if k < |s| {
        assert p[k] == p[..|s|][k] == s[k];
        assert IsBase64Char(s[k]);
      }
    }
  }

  /** `get_audio_tempfile`, with `tempName` the name the new temporary file gets and
      `download` standing for `requests.get` followed by `raise_for_status`. A URL whose
      download fails raises before any file exists; a base64 prompt whose padded text
      does not decode raises after its file was created. */
  function GetAudioTempfile(prompt: Option<string>, tempName: string, download: string -> Result<Bytes>)
    : (r: Result<Option<string>>)
    ensures prompt.None? ==> r == Ok(None)
    ensures r.Ok? && prompt.Some? ==> r.value.Some?
    ensures r.Ok? && r.value != prompt ==> r.value == Some(tempName)
    ensures AudioSourceOf(prompt).LocalPath? ==> r == Ok(prompt)
    ensures AudioSourceOf(prompt).Download? ==> (r.Err? <==> download(prompt.value).Err?)
    ensures AudioSourceOf(prompt).DecodeBase64? ==> (r.Err? <==> B64Decode(Padded(prompt.value)).Err?)
    ensures r.Err? && IsUrl(prompt.value) ==> download(prompt.value).Err? && r.error == download(prompt.value).error
    ensures r.Err? && !IsUrl(prompt.value) ==> r.error.BinasciiError?
  {
    match AudioSourceOf(prompt)
    case NoPrompt => Ok(None)
    case Download(url) =>
      (match download(url)
       case Ok(_) => Ok(Some(tempName))
       case Err(e) => Err(e))
    case DecodeBase64(padded) =>
      PaddedBase64Ascii(prompt.value);
      (match B64Decode(padded)
       case Ok(_) => Ok(Some(tempName))
       case Err(e) => Err(e))
    case LocalPath(p) => Ok(Some(p))
  }

  /** The temporary file `get_audio_tempfile` leaves on disk, whether it returns or
      raises: the one a successful download is written to, or the one created for any
      base64 prompt before it is decoded. */
  function CreatedFile(prompt: Option<string>, tempName: string, download: string -> Result<Bytes>)
    : (r: Option<string>)
    ensures r.Some? ==> r.value == tempName
    ensures GetAudioTempfile(prompt, tempName, download).Ok? && r.Some? ==> GetAudioTempfile(prompt, tempName, download).value == r
    ensures GetAudioTempfile(prompt, tempName, download).Err? ==> (r.Some? <==> !IsUrl(prompt.value))
  {
    match AudioSourceOf(prompt)
    case Download(url) => if download(url).Ok? then Some(tempName) else None
    case DecodeBase64(_) => Some(tempName)
    case _ => None
  }

  /** A prompt that passed validation always goes into a new temporary file, if
      `get_audio_tempfile` returns at all: the local-path fallback is reached only by
      prompts the validator rejects. */
  lemma ValidatedPromptUsesTempfile(prompt: Option<string>, tempName: string, download: string -> Result<Bytes>)
    requires ValidateAudioPrompt(prompt).Ok? && prompt.Some?
    ensures !AudioSourceOf(prompt).LocalPath?
    ensures GetAudioTempfile(prompt, tempName, download).Ok? ==> GetAudioTempfile(prompt, tempName, download).value == Some(tempName)
    ensures GetAudioTempfile(prompt, tempName, download).Ok? ==> CreatedFile(prompt, tempName, download) == Some(tempName)
  {
  }

  /** A prompt of more than 100 base64 digits, without pads, is a validated base64
      prompt whose padded text is the digits followed by pads up to a multiple of 4. */
  lemma DigitPrompt(s: string)
    requires |s| > 100 && DigitsIn(s, 0, |s|)
    ensures ValidateAudioPrompt(Some(s)).Ok? && !IsUrl(s) && IsBase64(s)
    ensures AudioSourceOf(Some(s)) == DecodeBase64(Padded(s))
    ensures DigitsThenPads(Padded(s), |s|)
  {
    assert Sextet(s[4]).Some? && Sextet(s[5]).Some?;
    assert s[..7][4] == s[4] && s[..8][5] == s[5];
    forall k | 0 <= k < |s|
      ensures IsBase64Char(s[k])
    {
      assert Sextet(s[k]).Some?;
    }
    var p := Padded(s);
    forall k | 0 <= k < |s|
      ensures Sextet(p[k]).Some?
    {
      assert p[k] == p[..|s|][k] == s[k];
      assert Sextet(s[k]).Some?;
    }
  }

  /** A validated prompt of base64 digits decodes exactly when its length is not one
      more than a multiple of 4; then it is written to the new temporary file. */
  lemma DigitPromptDecodes(s: string, tempName: string, download: string -> Result<Bytes>)
    requires |s| > 100 && DigitsIn(s, 0, |s|)
    ensures GetAudioTempfile(Some(s), tempName, download).Err? <==> |s| % 4 == 1
    ensures |s| % 4 == 1 ==> GetAudioTempfile(Some(s), tempName, download) == Err(BinasciiError(OddDigitCount(|s|)))
    ensures |s| % 4 != 1 ==> GetAudioTempfile(Some(s), tempName, download) == Ok(Some(tempName))
  {
    DigitPrompt(s);
    PaddedDigitsDecode(Padded(s), |s|);
  }

  /** `decode_request` as written: it tracks the path only once `get_audio_tempfile`
      has returned it. */
  function DecodeTracked(prompt: Option<string>, tempName: string, download: string -> Result<Bytes>)
    : (r: seq<string>)
    ensures GetAudioTempfile(prompt, tempName, download).Err? ==> r == []
    ensures GetAudioTempfile(prompt, tempName, download).Ok? ==> r == Tracked(GetAudioTempfile(prompt, tempName, download).value, prompt)
  {
    match GetAudioTempfile(prompt, tempName, download)
    case Ok(path) => Tracked(path, prompt)
    case Err(_) => []
  }

  /** What should be tracked: the file `get_audio_tempfile` created, whether or not it
      then raised. */
  function CreatedTracked(prompt: Option<string>, tempName: string, download: string -> Result<Bytes>)
    : (r: seq<string>)
    ensures tempName != "" && Some(tempName) != prompt ==> (r == [tempName] <==> CreatedFile(prompt, tempName, download).Some?)
    ensures CreatedFile(prompt, tempName, download).None? ==> r == []
  {
    Tracked(CreatedFile(prompt, tempName, download), prompt)
  }

  /** When `get_audio_tempfile` returns, tracking the file it created is tracking what
      it returned: the correction changes nothing on that path. */
  lemma CorrectedAgrees(prompt: Option<string>, tempName: string, download: string -> Result<Bytes>)
    requires GetAudioTempfile(prompt, tempName, download).Ok?
    ensures CreatedTracked(prompt, tempName, download) == DecodeTracked(prompt, tempName, download)
  {
  }

  /** A validated base64 prompt of digits whose length is one more than a multiple of 4
      makes `get_audio_tempfile` create its file and then raise, so `decode_request` as
      written never tracks it, while the file is on disk. */
  lemma AsWrittenLeaks(s: string, tempName: string, download: string -> Result<Bytes>)
    requires |s| > 100 && DigitsIn(s, 0, |s|) && |s| % 4 == 1
    requires tempName != "" && tempName != s
    ensures ValidateAudioPrompt(Some(s)).Ok?
    ensures GetAudioTempfile(Some(s), tempName, download) == Err(BinasciiError(OddDigitCount(|s|)))
    ensures CreatedFile(Some(s), tempName, download) == Some(tempName)
    ensures DecodeTracked(Some(s), tempName, download) == []
    ensures CreatedTracked(Some(s), tempName, download) == [tempName]
  {
    DigitPrompt(s);
    DigitPromptDecodes(s, tempName, download);
  }

  /** The shortest such prompt: 101 copies of `A`. */
  lemma LeakExample(download: string -> Result<Bytes>)
    ensures ValidateAudioPrompt(Some(Repeat('A', 101))).Ok?
    ensures GetAudioTempfile(Some(Repeat('A', 101)), "/tmp/prompt.wav", download).Err?
    ensures DecodeTracked(Some(Repeat('A', 101)), "/tmp/prompt.wav", download) == []
    ensures CreatedFile(Some(Repeat('A', 101)), "/tmp/prompt.wav", download) == Some("/tmp/prompt.wav")
  {
    var s := Repeat('A', 101);
    assert forall k :: 0 <= k < |s| ==> s[k] == 'A';
    assert Sextet('A').Some?;
    assert s[0] == 'A';
    AsWrittenLeaks(s, "/tmp/prompt.wav", download);
  }

  /** `TTSRequest`, after validation. Text length and the float ranges are not checked
      here. */
  datatype TtsRequest = TtsRequest(text: string, audioPrompt: Option<string>, exaggeration: real, cfg: real, temperature: real)

  /** The tuple `decode_request` returns. */
  datatype TtsInputs = TtsInputs(text: string, audioPromptPath: Option<string>, exaggeration: real, cfg: real, temperature: real)

  /** The path `decode_request` records for cleanup: a non-empty path that differs from
      the prompt itself. */
  function Tracked(path: Option<string>, prompt: Option<string>): (r: seq<string>)
    ensures |r| <= 1
    ensures r == [] <==> path.None? || path.value == "" || path == prompt
  {
    if path.Some? && path.value != "" && path != prompt then [path.value] else []
  }

  /** The elements of `xs` for which `keep` holds, in order. */
  function Filter(keep: string -> bool, xs: seq<string>): (r: seq<string>)
    ensures |r| <= |xs|
    ensures forall k :: 0 <= k < |r| ==> keep(r[k]) && r[k] in xs
    decreases |xs|
  {
    if xs == [] then []
    else (if keep(xs[0]) then [xs[0]] else []) + Filter(keep, xs[1..])
  }

  lemma {:induction false} FilterAppend(keep: string -> bool, a: seq<string>, b: seq<string>)
    ensures Filter(keep, a + b) == Filter(keep, a) + Filter(keep, b)
    decreases |a|
  {
    if a == [] {
      assert a + b == b;
    } else {
      assert (a + b)[1..] == a[1..] + b;
      FilterAppend(keep, a[1..], b);
    }
  }

  class ChatterboxTtsApi {
    /** `temp_files`: the temporary files still to be deleted. */
    var tempFiles: seq<string>

    /** `setup`, without the model: no file is tracked. */
    constructor ()
      ensures tempFiles == []
    {
      tempFiles := [];
    }

    /** `decode_request` as written, with `tempName` the name a new temporary file
      would get: an exception from `get_audio_tempfile` propagates and nothing is
      tracked, even when that file was already created. */
    method DecodeRequest(request: TtsRequest, tempName: string, download: string -> Result<Bytes>)
      returns (r: Result<TtsInputs>)
      modifies this
      ensures r.Err? <==> GetAudioTempfile(request.audioPrompt, tempName, download).Err?
      ensures r.Err? ==> r.error == GetAudioTempfile(request.audioPrompt, tempName, download).error
      ensures r.Ok? ==> r.value == TtsInputs(request.text, GetAudioTempfile(request.audioPrompt, tempName, download).value,
                                             request.exaggeration, request.cfg, request.temperature)
      ensures tempFiles == old(tempFiles) + DecodeTracked(request.audioPrompt, tempName, download)
    {
      var path := GetAudioTempfile(request.audioPrompt, tempName, download);
      if path.Err? {
        return Err(path.error);
      }
      if path.value.Some? && path.value.value != "" && path.value != request.audioPrompt {
        tempFiles := tempFiles + [path.value.value];
      }
      r := Ok(TtsInputs(request.text, path.value, request.exaggeration, request.cfg, request.temperature));
    }

    /** `decode_request` tracking the file `get_audio_tempfile` creates as soon as it
      exists, so that a prompt that fails to decode leaves it to the next cleanup. */
    method DecodeRequestTracked(request: TtsRequest, tempName: string, download: string -> Result<Bytes>)
      returns (r: Result<TtsInputs>)
      modifies this
      ensures r.Err? <==> GetAudioTempfile(request.audioPrompt, tempName, download).Err?
      ensures r.Err? ==> r.error == GetAudioTempfile(request.audioPrompt, tempName, download).error
      ensures r.Ok? ==> r.value == TtsInputs(request.text, GetAudioTempfile(request.audioPrompt, tempName, download).value,
                                             request.exaggeration, request.cfg, request.temperature)
      ensures tempFiles == old(tempFiles) + CreatedTracked(request.audioPrompt, tempName, download)
    {
      var created := CreatedFile(request.audioPrompt, tempName, download);
      if created.Some? && created.value != "" && created != request.audioPrompt {
        tempFiles := tempFiles + [created.value];
      }
      var path := GetAudioTempfile(request.audioPrompt, tempName, download);
      if path.Err? {
        return Err(path.error);
      }
      r := Ok(TtsInputs(request.text, path.value, request.exaggeration, request.cfg, request.temperature));
    }

    /** `_cleanup_temp_files`: every tracked file that `fileExists` (`os.path.exists`) still finds is unlinked,
      in order, and the list is emptied. A failing unlink is ignored. `fileExists` is
      fixed for the whole loop, while the source asks again after each unlink; the two
      differ only for a path tracked twice, and the temporary names are fresh. */
    method CleanupTempFiles(fileExists: string -> bool) returns (unlinked: seq<string>)
      modifies this
      ensures unlinked == Filter(fileExists, old(tempFiles))
      ensures tempFiles == []
    {
      unlinked := [];
      var files := tempFiles;
      for i := 0 to |files|
        invariant unlinked == Filter(fileExists, files[..i])
      {
        assert files[..i + 1] == files[..i] + [files[i]];
        FilterAppend(fileExists, files[..i], [files[i]]);
        if fileExists(files[i]) {
          unlinked := unlinked + [files[i]];
        }
      }
      assert files[..|files|] == files;
      tempFiles := [];
    }

    /** `predict`: `generate` stands for the model call and the WAV encoding and may
      raise; the cleanup in `finally` runs either way. */
    method Predict(inputs: TtsInputs, generate: TtsInputs -> Result<Bytes>, fileExists: string -> bool)
      returns (r: Result<Bytes>, unlinked: seq<string>)
      modifies this
      ensures r == generate(inputs)
      ensures unlinked == Filter(fileExists, old(tempFiles))
      ensures tempFiles == []
    {
      r := generate(inputs);
      unlinked := CleanupTempFiles(fileExists);
    }
  }

  /** With the corrected decoding, a request whose prompt is validated either fails to
  decode, leaving the file it created tracked for the next cleanup and predicting
  nothing; or it predicts on the new temporary file, and the prediction empties the
  list. */
  method DecodeThenPredict(api: ChatterboxTtsApi, request: TtsRequest, tempName: string,
                           download: string -> Result<Bytes>,
                           generate: TtsInputs -> Result<Bytes>, fileExists: string -> bool)
      returns (r: Result<Bytes>)
    requires ValidateAudioPrompt(request.audioPrompt).Ok? && request.audioPrompt.Some?
    requires tempName != "" && Some(tempName) != request.audioPrompt
    modifies api
    ensures GetAudioTempfile(request.audioPrompt, tempName, download).Err? ==>
              && r == Err(GetAudioTempfile(request.audioPrompt, tempName, download).error)
              && api.tempFiles == old(api.tempFiles) + CreatedTracked(request.audioPrompt, tempName, download)
    ensures GetAudioTempfile(request.audioPrompt, tempName, download).Ok? ==>
              && r == generate(TtsInputs(request.text, Some(tempName), request.exaggeration, request.cfg, request.temperature))
              && api.tempFiles == []
  {
    ValidatedPromptUsesTempfile(request.audioPrompt, tempName, download);
    var inputs := api.DecodeRequestTracked(request, tempName, download);
    if inputs.Err? {
      return Err(inputs.error);
    }
    var unlinked;
    r, unlinked := api.Predict(inputs.value, generate, fileExists);
  }
}
