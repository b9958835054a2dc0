# litserve-examples: the request and response transforms

The litserve-examples repository is a set of model servers built on the LitServe
library, with their clients. The batching, queueing and worker machinery lives in
LitServe, which is not part of this model. What the example code itself does is a set
of small sequential transforms around that machinery:

- The batched embedding server flattens a batch of document lists into one model call.
  It then cuts the embeddings back into one group per request.
- The jina-clip-v2 server splits mixed text and image inputs and embeds each kind on
  its own. It then merges the two embedding streams back into input order.
- The phi-4-multimodal and SmolVLM2 servers normalise chat messages: they classify
  files by extension, number the `<|image_k|>` / `<|audio_k|>` placeholders, reshape
  message contents, and cap an image's longest side.
- The custom OpenAI speech spec validates a speech request. It registers a response
  buffer entry and puts one item on the request queue.
- The Chatterbox TTS server validates its audio prompt, pads a base64 prompt and
  decodes it as `base64.b64decode` does. It tracks the temporary files that
  `get_audio_tempfile` returns and deletes them after every prediction. A base64
  prompt that does not decode leaves its file on disk untracked (see "Findings").
- The SmolVLM2 client reads a reply it asked to be streamed as server-sent events:
  `data: ` lines, closed by `data: [DONE]`. requests has read the whole body first, so
  the loop sees it as one chunk. Without streaming it looks up the content of the
  reply's first choice, where a missing key ends with None and a wrongly shaped reply
  raises.
- The DeepSeek-R1 chat front end strips think tags and cuts the thinking span out of a
  stored reply. It also splits a streamed reply into a thinking part and a response
  part.
- Several small mapping helpers: token counts in the request context, the ModernBERT
  query prefix, embedding indices, and RF-DETR detection records.

Model calls, the tokenizer, `os.path.abspath` and `os.path.exists`, the clock, fresh
ids and temporary-file names all become parameters of the Dafny members. Each core
file is one module; `Outcomes` (Python's exceptions as `Result`), `Strings` (the `str`
methods used), `Seqs`, `LitContext` (the mutable `context` dictionary),
`EmbeddingInputs` and `MediaFiles` are shared, and `Binascii` models the
`base64.b64decode` call of the Chatterbox server. `MediaFiles` holds the extension
helpers and the `encode_image` size rule, which phi-4-multimodal/utils.py and
smol-vlm-2/utils.py define identically.

Where a Python library decides the behaviour, the model also follows the library:
- `str.replace` replaces every non-overlapping occurrence, left to right.
- `str.lower` is modelled for ASCII letters only (see "Left out").
- `bytes.decode("utf-8")` follows the strict UTF-8 rules of RFC 3629, section 4:
  an overlong form, a surrogate, a stray continuation byte or a character cut short
  by the end of the bytes raises UnicodeDecodeError.
- `splitlines` and `strip` use Python's line-break and whitespace sets.
- `os.path.splitext` follows its POSIX rules, leading dots included.
- `-n % 4` is a floored remainder.
- `base64.b64decode` on a `str` follows CPython: a non-ASCII text raises ValueError,
  and then `binascii.a2b_base64` in its non-strict mode skips characters outside the
  alphabet, ends at the pad that completes a group, and raises `binascii.Error` for a
  group left unfinished.
- `zip` stops at the shortest array.
- `{**a, **b}` and `dict.update` let the later keys win.
- A missing dictionary key raises `KeyError`.
- `next` on an exhausted iterator raises `StopIteration`.
- A subscript on parsed JSON raises KeyError for a missing dict key, IndexError for a
  list index out of range, and TypeError for `null`, a number, a boolean, or a string
  key on a list.
- `iter_content(chunk_size=None)` on a response requested without `stream=True`
  yields the whole body as one chunk.

## Model

| member | source | states |
|---|---|---|
| EmbeddingBatching.Slice | embeddings-api/server_with_batching.py:26 | Python's clipped slice `s[a:b]`: its length and that element k is `s[a + k]` |
| EmbeddingBatching.Regroup | embeddings-api/server_with_batching.py:23-28 | the loop with the running `start` produces exactly the groups of `Regrouped`, one per size |
| EmbeddingBatching.Predict | embeddings-api/server_with_batching.py:15-29 | predict = regroup, by the request sizes, of one embed call on the flattened batch |
| EmbeddingBatching.OffsetStep | embeddings-api/server_with_batching.py:27 | `start += size`: the next offset is the current one plus the group's size |
| EmbeddingBatching.OffsetBound | embeddings-api/server_with_batching.py:26 | every group's slice ends within the flattened list |
| EmbeddingBatching.OffsetCoversBatch | embeddings-api/server_with_batching.py:25-27 | after the loop `start` equals the total number of documents |
| EmbeddingBatching.RegroupedAt | embeddings-api/server_with_batching.py:24-28 | group i has `len(batch[i])` elements; element j of it is the embedding at flattened index (earlier sizes) + j; an empty request gets an empty group |
| EmbeddingBatching.RegroupFlatten | embeddings-api/server_with_batching.py:17-28 | regrouping the flattened batch by its sizes gives the batch back |
| EmbeddingBatching.FlattenRegrouped | embeddings-api/server_with_batching.py:24-28 | concatenating the groups gives back the embeddings: nothing lost or repeated |
| EmbeddingBatching.BatchInvariance | embeddings-api/server_with_batching.py:17-28 | with a per-document embedder, request i's group is the embedding of its own documents, whatever else is in the batch |
| ClipInputs.Normalized | jina-clip-v2/utils.py:24 | a lone string is a one-element list; a list is kept |
| ClipInputs.ParseInputs | jina-clip-v2/utils.py:20-41 | the loop yields the texts and the images, in input order, and one tag per input ("http" strings and `ImageInput` go to images, the rest to texts) |
| ClipInputs.ParseStep | jina-clip-v2/utils.py:26-39 | one iteration appends the item's payload to the list of its kind and its kind to the tags |
| ClipInputs.Types | jina-clip-v2/utils.py:26-39 | tag k is the kind of input k |
| ClipInputs.OfKindAppend | jina-clip-v2/utils.py:26-39 | the texts (images) of two input runs are those of the first, then those of the second |
| ClipInputs.TagCounts | jina-clip-v2/utils.py:26-41 | the "text" tags count the texts, the "image" tags the images, and together the two lists are as long as the tags |
| ClipInputs.OfKindAt | jina-clip-v2/utils.py:26-39 | input k is the n-th of its kind, where n counts the earlier inputs of that kind, and the list of that kind holds its payload at n |
| ClipServer.DecodeRequest | jina-clip-v2/server.py:20-32 | the context gets `model` and `normalized` with every other key kept, and the inputs are parsed |
| ClipServer.Merge | jina-clip-v2/server.py:52-60 | the comprehension with two `next()` iterators yields `Interleave`, or StopIteration when an iterator runs out |
| ClipServer.Interleave | jina-clip-v2/server.py:57-60 | a merge that succeeds yields one embedding per tag, each drawn from the text or the image embeddings |
| ClipServer.InterleaveDefined | jina-clip-v2/server.py:57-60 | the merge succeeds iff each embedding list is at least as long as its tag count |
| ClipServer.InterleaveAt | jina-clip-v2/server.py:53-60 | the k-th "text" position gets the k-th text embedding, the k-th "image" position the k-th image embedding |
| ClipServer.EmbedEach | jina-clip-v2/server.py:44-60 | the reference: each input's own embedding by its kind |
| ClipServer.SplitMergeRoundTrip | jina-clip-v2/server.py:40-60 | split, embed each list, merge by the tags: this equals embedding each input on its own, in input order |
| ClipServer.Predict | jina-clip-v2/server.py:34-61 | a missing `normalized` raises KeyError; the images are encoded only when there are some; the result is the merge |
| ClipServer.EncodeResponse | jina-clip-v2/server.py:63-75 | item i has index i and output i; the model comes from the context (KeyError when absent, a validation error when not the schema's literal); object "list", usage -1 |
| ClipServer.ResponseModelFromRequest | jina-clip-v2/server.py:25-30 | after `decode_request` the response names the request's model |
| LitContext.Context.Update | jina-clip-v2/server.py:25-30 | `context.update(m)`: the keys of m are set, the others kept |
| MediaFiles.LastIndex | phi-4-multimodal/utils.py:21 | the last index holding the character, or -1 |
| MediaFiles.SplitExt | phi-4-multimodal/utils.py:21 | `splitext(p)[1]` is empty or a suffix of p starting with its one dot, with no `/` in it |
| MediaFiles.ExtensionListsDisjoint | phi-4-multimodal/utils.py:15-17 | no name is of two media types |
| MediaFiles.GetFileExtension | phi-4-multimodal/utils.py:20-21 | the extension is empty or starts with a dot, is the lower-cased end of the name, and is already lower case |
| MediaFiles.IsImage | phi-4-multimodal/utils.py:24-25 | a name classed as an image has one of the listed extensions, four or five characters long |
| MediaFiles.IsAudio | phi-4-multimodal/utils.py:28-29 | a name classed as audio has one of the listed extensions, four or five characters long |
| MediaFiles.IsVideo | phi-4-multimodal/utils.py:32-33 | a name classed as a video has one of the listed extensions, four or five characters long |
| MediaFiles.SplitExtOf | phi-4-multimodal/utils.py:21 | a last component with a stem that is not only dots, then a dot and a suffix, has that dot and suffix as its extension, whatever directories come before |
| MediaFiles.NoExtension | phi-4-multimodal/utils.py:21 | a last component without a dot, or with only leading dots, has the empty extension |
| MediaFiles.GetFileExtensionOf | phi-4-multimodal/utils.py:20-21 | such a name's extension is the dot and the lower-cased suffix |
| MediaFiles.PhotoIsImage | phi-4-multimodal/utils.py:15-25 | "photo.JPG" has the extension ".jpg" and is an image |
| MediaFiles.DotFileIsNotVideo | phi-4-multimodal/utils.py:17-33 | "clips/.mp4" has no extension and is not a video |
| MediaFiles.SplitExtLower | phi-4-multimodal/utils.py:21 | splitting off the extension commutes with lower-casing |
| MediaFiles.ExtensionIgnoresCase | phi-4-multimodal/utils.py:20-33 | a name and its lower-cased form have the same extension and the same type |
| MediaFiles.FloorScale | phi-4-multimodal/utils.py:218 | `int(a * m / d)` is the floor of the proportional length, at most m and at most a |
| MediaFiles.ResizedSize | phi-4-multimodal/utils.py:214-221 | the `encode_image` rule, which smol-vlm-2/utils.py repeats: neither side grows, and an image whose longest side exceeds `max_size` gets exactly `max_size` as its longest side |
| MediaFiles.ResizeKeepsAspect | phi-4-multimodal/utils.py:214-221 | small images keep their size; otherwise the side that is not `max_size` is the floor of the proportional length |
| Phi4Utils.DetermineFileType | phi-4-multimodal/utils.py:36-64 | URLs are kept and other paths made absolute; image, audio or video exactly when that predicate holds; any other type raises ValueError naming the path |
| Phi4Utils.UrlPathKept | phi-4-multimodal/utils.py:50-52 | a path starting with "http" is returned unchanged and typed by its own extension |
| Phi4Utils.GetFileObject | phi-4-multimodal/utils.py:67-87 | an image becomes an `image_url` part, audio an `input_audio` part with format "wav"; a video or an unknown type raises ValueError |
| Phi4Utils.ProcessedSize | phi-4-multimodal/utils.py:122-125 | neither side grows; an image taller than `max_height` gets that height; a lower one is unchanged |
| Phi4Utils.ProcessedSizeCapsHeight | phi-4-multimodal/utils.py:122-125 | an image taller than `max_height` gets that height and a width w' with w' * height <= width * max_height < (w' + 1) * height, the proportional width rounded down from the exact ratio; a lower one is unchanged |
| Phi4Utils.NoneIfEmpty | phi-4-multimodal/utils.py:195-196 | `x if x else None` |
| Phi4Utils.StepFields | phi-4-multimodal/utils.py:164-184 | one inner iteration: text sets the prompt; an image appends its URL and the next image placeholder; audio with data appends its data and the next audio placeholder; anything else changes nothing |
| Phi4Utils.RunPrompt | phi-4-multimodal/utils.py:165-166 | the prompt is the text of the last text item |
| Phi4Utils.RunCounts | phi-4-multimodal/utils.py:174-182 | the counters advance by the number of images and of audios with data |
| Phi4Utils.RunPlaceholder | phi-4-multimodal/utils.py:175-181 | the placeholder string is all the items' placeholders in item order |
| Phi4Utils.RunSources | phi-4-multimodal/utils.py:174-180 | the URLs and audio payloads are collected in item order |
| Phi4Utils.RunClosed | phi-4-multimodal/utils.py:163-184 | the whole inner loop in closed form |
| Phi4Utils.ParseContent | phi-4-multimodal/utils.py:163-187 | the inner loop: content = placeholders + last text; counters and lists advanced accordingly |
| Phi4Utils.ParseMessage | phi-4-multimodal/utils.py:159-189 | a string content passes through, a list becomes placeholders + last text; the role is kept |
| Phi4Utils.ParseMessages | phi-4-multimodal/utils.py:149-198 | one prompt message per input message, in order, numbered from 1 across messages; the processed images and audios, or None when there are none |
| Phi4Utils.PromptForIs | phi-4-multimodal/utils.py:156-189 | message i's prompt uses the numbers that follow the earlier messages' placeholders |
| Phi4Utils.PrefixStep | phi-4-multimodal/utils.py:158-189 | one outer iteration adds the message's counts, URLs and payloads to the running totals |
| Phi4Utils.RenderAllAppend | phi-4-multimodal/utils.py:175-181 | the rendering of two placeholder runs is the concatenation of their renderings |
| Phi4Utils.RangeAppend | phi-4-multimodal/utils.py:174-182 | consecutive number ranges join |
| Phi4Utils.NumbersAppend | phi-4-multimodal/utils.py:175-181 | the numbers of two placeholder runs are those of the first, then those of the second |
| Phi4Utils.SingleNumbers | phi-4-multimodal/utils.py:167-184 | an image item uses number img, an audio item with data number aud, other items none |
| Phi4Utils.TagNumbering | phi-4-multimodal/utils.py:156-184 | within a message the image placeholders are img, img + 1, … consecutively, and the same for audio |
| Phi4Utils.ItemSourcesCount | phi-4-multimodal/utils.py:174-182 | one URL per image placeholder and one payload per audio placeholder in a message |
| Phi4Utils.MessageNumbering | phi-4-multimodal/utils.py:156-184 | across messages, message i's placeholders continue the numbering just after the earlier messages' |
| Phi4Utils.SourcesMatchPlaceholders | phi-4-multimodal/utils.py:153-189 | the collected images (audios) are exactly as many as the image (audio) placeholders |
| SmolUtils.DetermineFileType | smol-vlm-2/utils.py:29-55 | image, then video; anything else raises ValueError naming the path; URLs are kept |
| SmolUtils.AudioRejected | smol-vlm-2/utils.py:47-53 | an audio file is rejected with that ValueError |
| SmolUtils.AllImages | smol-vlm-2/utils.py:21-22 | true iff every name has an image extension; true for no files |
| SmolUtils.FormatItem | smol-vlm-2/utils.py:110-119 | a formatted item is a path part exactly when it is an image or a video, and keeps its kind; a text part carries the item's text; every failure is an AttributeError |
| SmolUtils.FormatItemClasses | smol-vlm-2/utils.py:110-119 | a text item becomes a text part; an image or video with a URL becomes a path part; the other item classes raise AttributeError |
| SmolUtils.FormatContent | smol-vlm-2/utils.py:109-119 | the inner loop formats every item in order, stopping at the first error |
| SmolUtils.FormatMessages | smol-vlm-2/utils.py:94-127 | the outer loop formats every message in order, stopping at the first error |
| SmolUtils.FormatMessage | smol-vlm-2/utils.py:102-123 | the role is kept; only a list content can fail, and then with an item's AttributeError |
| SmolUtils.FormatMessageShape | smol-vlm-2/utils.py:102-123 | a string becomes one text part; a list succeeds iff each item does and keeps its item count and order |
| SmolUtils.FormatMessagesShape | smol-vlm-2/utils.py:100-127 | one formatted message per message with its role, iff no message fails |
| ChatterboxServer.MatchesBase64 | chatterbox-tts/server.py:33 | `^[A-Za-z0-9+/=]+\Z` holds iff the string is non-empty and every character is in the alphabet |
| ChatterboxServer.ValidateAudioPrompt | chatterbox-tts/server.py:26-39 | None, a URL or a base64 string over 100 characters is kept; anything else raises ValueError with its message |
| ChatterboxServer.PadCount | chatterbox-tts/server.py:60 | `-len % 4` is between 0 and 3 |
| ChatterboxServer.PadCountLeast | chatterbox-tts/server.py:60 | the pad count is the least that makes the length a multiple of 4, and 0 for an aligned length |
| ChatterboxServer.Padded | chatterbox-tts/server.py:60 | the padded prompt is the prompt followed by only `=`, less than 4 of them, up to a multiple of 4 |
| Binascii.Sextet | chatterbox-tts/server.py:61 | a character has a digit value, below 64, exactly when it is in the base64 alphabet; the pad has none |
| Binascii.Feed | chatterbox-tts/server.py:61 | a digit moves the place in the group on by one modulo 4, clears the pad count, and appends a byte unless it starts a group, keeping the bytes written before |
| Binascii.A2b | chatterbox-tts/server.py:61 | the scan only appends to the bytes already written, and every error it raises is a `binascii.Error` |
| Binascii.B64Decode | chatterbox-tts/server.py:61 | raises iff the text is not ASCII (a ValueError with its message) or the scan raises (a `binascii.Error`) |
| Binascii.A2bDigits | chatterbox-tts/server.py:61 | a run of digits takes the scan to the place modulo 4 and the byte count those digits give, with the pads cleared |
| Binascii.PadsAtGroupStart | chatterbox-tts/server.py:61 | pads at the start of a group, up to the end, are skipped and the bytes so far are the result |
| Binascii.PadsAfterOneDigit | chatterbox-tts/server.py:61 | pads after one digit of a group, up to the end, are skipped and the scan raises, citing the digit count |
| Binascii.PadsCompleteGroup | chatterbox-tts/server.py:61 | after two or three digits, pads enough to fill the group end the scan with the bytes so far |
| Binascii.PaddedScanOdd | chatterbox-tts/server.py:60-61 | digits one more than a multiple of 4, padded, make the scan raise citing their number |
| Binascii.PaddedScanWhole | chatterbox-tts/server.py:60-61 | whole groups of digits, padded, give three bytes per group |
| Binascii.PaddedScanPartial | chatterbox-tts/server.py:60-61 | two or three digits past whole groups, padded, give one byte fewer than those digits past the whole groups' bytes |
| Binascii.PaddedDigitsDecode | chatterbox-tts/server.py:60-61 | digits padded to a multiple of 4 decode iff their number is not one more than a multiple of 4, then to `3m/4` bytes; otherwise the error cites that number |
| ChatterboxServer.AudioSourceOf | chatterbox-tts/server.py:41-67 | no prompt; a URL is downloaded; a base64 string is padded and decoded; anything else is a local path |
| ChatterboxServer.PaddedBase64Ascii | chatterbox-tts/server.py:54-61 | a base64 prompt with its pads is ASCII, so decoding it can fail only with `binascii.Error` |
| ChatterboxServer.GetAudioTempfile | chatterbox-tts/server.py:41-67 | None only without a prompt; a local path is returned as it is; a URL raises iff its download fails, with that error; a base64 prompt raises iff its padded text does not decode, with a `binascii.Error`; otherwise the new temporary file |
| ChatterboxServer.CreatedFile | chatterbox-tts/server.py:47-59 | the file left on disk is the new temporary file; when the call returns it is the returned path; when it raises there is one exactly for a base64 prompt |
| ChatterboxServer.ValidatedPromptUsesTempfile | chatterbox-tts/server.py:26-67 | a validated prompt never falls back to a local path; when the call returns, the result is the new temporary file it created |
| ChatterboxServer.DigitPrompt | chatterbox-tts/server.py:26-60 | a prompt of more than 100 base64 digits is validated, is not a URL, and pads to its digits followed by pads up to a multiple of 4 |
| ChatterboxServer.DigitPromptDecodes | chatterbox-tts/server.py:54-64 | such a prompt raises iff its length is one more than a multiple of 4, with the error citing that length; otherwise it is written to the new temporary file |
| ChatterboxServer.DecodeTracked | chatterbox-tts/server.py:83-87 | as written, nothing is tracked when `get_audio_tempfile` raises; otherwise the returned path is tracked as `Tracked` says |
| ChatterboxServer.CreatedTracked | chatterbox-tts/server.py:47-59 | the corrected tracking records the new temporary file exactly when one was created |
| ChatterboxServer.CorrectedAgrees | chatterbox-tts/server.py:83-87 | when `get_audio_tempfile` returns, the corrected tracking equals the source's |
| ChatterboxServer.AsWrittenLeaks | chatterbox-tts/server.py:59-61 | a validated prompt of base64 digits one more than a multiple of 4 long creates its file and raises, and the source tracks nothing while the corrected tracking holds the file |
| ChatterboxServer.LeakExample | chatterbox-tts/server.py:26-61 | 101 copies of "A": validated, its file created, the decode raises, nothing tracked |
| ChatterboxServer.Tracked | chatterbox-tts/server.py:86-87 | a path is tracked iff it is non-empty and differs from the prompt |
| ChatterboxServer.Filter | chatterbox-tts/server.py:122-125 | the kept files, in order, each one satisfying the test |
| ChatterboxServer.FilterAppend | chatterbox-tts/server.py:122-125 | filtering distributes over concatenation |
| ChatterboxServer.ChatterboxTtsApi.DecodeRequest | chatterbox-tts/server.py:81-95 | raises what `get_audio_tempfile` raises, tracking nothing; otherwise returns `(text, path, exaggeration, cfg, temperature)` and appends the path when it is tracked |
| ChatterboxServer.ChatterboxTtsApi.DecodeRequestTracked | chatterbox-tts/server.py:81-95 | the corrected `decode_request`: the same result, and the created file appended whether or not the call raises |
| ChatterboxServer.ChatterboxTtsApi.CleanupTempFiles | chatterbox-tts/server.py:118-128 | every tracked file that still exists is unlinked, in order, and the list is emptied |
| ChatterboxServer.ChatterboxTtsApi.Predict | chatterbox-tts/server.py:97-116 | the result is the generation's, success or error, and the cleanup empties the list either way |
| ChatterboxServer.DecodeThenPredict | chatterbox-tts/server.py:81-128 | with the corrected decoding, a validated prompt either fails to decode, predicts nothing and leaves its created file tracked, or predicts on the new temporary file and leaves nothing tracked |
| OpenAISpeech.Violations | custom-openai-speech-spec/specs/openai_speech.py:21-27 | the failing fields: input over 4096 characters, a response format missing or not listed, a speed outside [0.25, 4.0] |
| OpenAISpeech.ValidateSpeechRequest | custom-openai-speech-spec/specs/openai_speech.py:21-27 | accepted iff nothing fails; speed defaults to 1.0 and stream to false; the fields are kept |
| OpenAISpeech.Setup | custom-openai-speech-spec/specs/openai_speech.py:92-110 | ValueError when predict is no generator, or when an overridden encode_response is no generator; accepted otherwise |
| OpenAISpeech.LitServerState.Put | custom-openai-speech-spec/specs/openai_speech.py:121-123 | the item is appended to the queue and nothing else changes |
| OpenAISpeech.OpenAISpeechSpec.constructor | custom-openai-speech-spec/specs/openai_speech.py:84-90 | the POST and OPTIONS routes of `/v1/audio/speech` |
| OpenAISpeech.OpenAISpeechSpec.SpeechGeneration | custom-openai-speech-spec/specs/openai_speech.py:112-125 | registers the uid with an empty entry (replacing any entry already under that uid; `uuid4` makes it fresh in practice), queues exactly one item naming it, leaves other entries and items unchanged, status 200 |
| OpenAISpeech.OpenAISpeechSpec.OptionsSpeechGeneration | custom-openai-speech-spec/specs/openai_speech.py:127-128 | status 200 |
| SmolClient.LinePayload | smol-vlm-2/client.py:74-76 | a line yields iff, stripped, it starts with "data: " and is not "data: [DONE]"; the payload is the rest, stripped |
| SmolClient.ReadLines | smol-vlm-2/client.py:72-78 | the line loop yields the payloads of the data lines, in line order |
| SmolClient.LinesStep | smol-vlm-2/client.py:73-78 | one line iteration adds that line's payload, if any |
| SmolClient.ReadStream | smol-vlm-2/client.py:68-78 | the chunk loop: empty chunks skipped, each other chunk decoded as UTF-8 and split into lines on its own; it yields the payloads of the chunks before the first one that does not decode, and says whether there was one |
| SmolClient.FirstUndecodableIs | smol-vlm-2/client.py:68-70 | the first undecodable chunk is the one before which every chunk decodes and which does not |
| SmolClient.BeforeFirstUndecodable | smol-vlm-2/client.py:68-70 | every chunk before the first undecodable one decodes |
| SmolClient.DecodeErrorKeepsEarlierPayloads | smol-vlm-2/client.py:68-84 | a chunk that does not decode raises UnicodeDecodeError after exactly what the stream cut before it yields, and that cut stream ends normally |
| SmolClient.SplitCharacterRaises | smol-vlm-2/client.py:68-72 | the chunk loop, given a two-byte character split across two chunks (which only a `stream=True` request delivers), raises UnicodeDecodeError before anything is yielded, while the same bytes in one chunk decode |
| SmolClient.BodyChunks | smol-vlm-2/client.py:49-68 | the body read by a request without `stream=True` comes as at most one chunk, none exactly for an empty body, and the chunks join to the body |
| SmolClient.StreamedBody | smol-vlm-2/client.py:67-78 | a streamed reply raises UnicodeDecodeError, before yielding anything, iff its non-empty body is not UTF-8; otherwise it yields the payloads of the decoded body's lines and ends with None |
| SmolClient.TruncatedBodyRaises | smol-vlm-2/client.py:68-70 | a body that is "é" whole ends normally; a body of its first byte alone raises before anything is yielded |
| SmolClient.Subscript | smol-vlm-2/client.py:80 | the subscript's value is an element of the dict, list or string; it raises iff the key is missing, the index out of range, or the value not subscriptable by that key; only a dict raises the KeyError that `except KeyError` catches, naming the key |
| SmolClient.ContentOf | smol-vlm-2/client.py:80 | the four subscripts raise only KeyError, IndexError or TypeError |
| SmolClient.ContentOfCompletion | smol-vlm-2/client.py:80 | a chat completion's first choice gives its message's content |
| SmolClient.NonStreamEnding | smol-vlm-2/client.py:79-85 | a body that is not JSON, or a missing key, ends with None; an IndexError or TypeError escapes; otherwise the content is returned |
| SmolClient.NoChoicesRaises | smol-vlm-2/client.py:80-84 | `{"choices": []}` raises IndexError out of `chat` |
| SmolClient.NotSubscriptableRaises | smol-vlm-2/client.py:80-84 | `{"choices": null}` and a list body raise TypeError out of `chat` |
| SmolClient.UnexpectedFormatReturnsNone | smol-vlm-2/client.py:80-85 | a body without "choices", or one that is not JSON, ends with None |
| Strings.DecodeEncoded | smol-vlm-2/client.py:70 | decoding the UTF-8 encoding of any text gives the text back |
| Strings.EncodeDecoded | smol-vlm-2/client.py:70 | bytes that decode are the UTF-8 encoding of what they decode to |
| Strings.Utf8Inverse | smol-vlm-2/client.py:70 | bytes decode to a text exactly when they are that text's UTF-8 encoding |
| Strings.MalformedRefused | smol-vlm-2/client.py:70 | an overlong NUL, a surrogate and a code point above U+10FFFF raise UnicodeDecodeError |
| Strings.AsciiDecodes | smol-vlm-2/client.py:70 | ASCII bytes decode to one character each, with the same code |
| Strings.SplitCharacter | smol-vlm-2/client.py:70 | "é" decodes from its two bytes, and neither byte decodes on its own |
| SmolClient.PayloadsAppend | smol-vlm-2/client.py:68-78 | output order follows chunk order |
| SmolClient.LinesPayloadsAppend | smol-vlm-2/client.py:73-78 | output order follows line order |
| SmolClient.AtMostOnePerLine | smol-vlm-2/client.py:73-78 | a chunk yields at most one payload per line |
| SmolClient.DoneYieldsNothing | smol-vlm-2/client.py:75 | the sentinel yields nothing, whatever whitespace surrounds it |
| SmolClient.DataLine | smol-vlm-2/client.py:75-76 | a clean data line yields exactly the text after "data: " |
| SmolClient.NotDataLine | smol-vlm-2/client.py:75 | a line shorter than the prefix yields nothing |
| SmolClient.StraddlingLineLost | smol-vlm-2/client.py:70-72 | the chunk loop yields a data line's payload when the line is one chunk, but nothing when it is split across two (which only a `stream=True` request delivers) |
| SmolClient.Chat | smol-vlm-2/client.py:9-85 | a missing URL or key, then missing messages, raise ValueError before any request; a request error ends with None; streaming reads the body as its chunks and yields their payloads, ending with None, unless a chunk does not decode as UTF-8: then the payloads before it are yielded and the UnicodeDecodeError, which no except clause catches, reaches the caller; without streaming it ends as `NonStreamEnding` says: raising iff the content lookup raises an IndexError or a TypeError |
| DeepseekApp.EmptyThoughtVanishes | deepseek-r1/app.py:43 | `format_assistant_content("<think>\n\n</think>")` is empty |
| DeepseekApp.FormatAssistantContent | deepseek-r1/app.py:40-46 | the result is never longer than the input, and text without tags is returned unchanged |
| DeepseekApp.ThinkSearch | deepseek-r1/app.py:57-58 | the search finds a span from an opening tag to a closing tag, or reports that none exists |
| DeepseekApp.ThinkSearchLeftmostShortest | deepseek-r1/app.py:57-58 | the lazy match: no span starts earlier, and none with the same start ends earlier |
| DeepseekApp.ShowMessageAsWritten | deepseek-r1/app.py:51-60 | as written: non-assistant messages unchanged; an assistant message without a span raises AttributeError |
| DeepseekApp.UntaggedReplyFails | deepseek-r1/app.py:57-58 | an assistant reply without `<think>` makes the display raise |
| DeepseekApp.PlainReplyFails | deepseek-r1/app.py:58 | the assistant reply "hello" makes the display raise |
| DeepseekApp.ShowMessage | deepseek-r1/app.py:51-60 | the corrected display: the same as written wherever that succeeds, the message unchanged without a span, never more text than the message |
| DeepseekApp.Texts | deepseek-r1/app.py:110-127 | `delta.content or ""` per chunk |
| DeepseekApp.ThinkingEnd | deepseek-r1/app.py:109-120 | the thinking phase ends at the first chunk that holds "</think>" but not "<think>", inclusive, or after all chunks |
| DeepseekApp.ThinkingStep | deepseek-r1/app.py:109-120 | one thinking iteration |
| DeepseekApp.ThinkingPhase | deepseek-r1/app.py:106-121 | the thinking loop accumulates the chunks up to that one and stops after it |
| DeepseekApp.ResponsePhase | deepseek-r1/app.py:123-129 | the response loop accumulates every later chunk |
| DeepseekApp.SplitStream | deepseek-r1/app.py:106-129 | both loops over one stream: the thinking part and the response part |
| DeepseekApp.SplitKeepsEverything | deepseek-r1/app.py:131-133 | thinking + response is every chunk's text, in stream order |
| DeepseekApp.SplitAtClosingChunk | deepseek-r1/app.py:113-120 | the closing chunk ends the thinking part, and every later chunk is in the response |
| DeepseekApp.ChatSession.constructor | deepseek-r1/app.py:34-37 | the history starts empty |
| DeepseekApp.ChatSession.Clear | deepseek-r1/app.py:67-75 | the clear button's callback empties the history; the button is never shown, since `display_chat_history` defaults to `show_clear_button=False` (line 49) and its only call passes False (line 86) |
| DeepseekApp.ChatSession.Submit | deepseek-r1/app.py:88-133 | a non-empty prompt appends the user message, then the assistant message holding the whole stream; an empty one changes nothing |
| DeepseekApp.ShowsStoredThought | deepseek-r1/app.py:57-60 | a stored reply that opens and closes a thought shows the formatted thought as its thinking; the content is the answer with every copy of the span removed, so an answer without the span is shown unchanged |
| DeepseekApp.StoredSpan | deepseek-r1/app.py:57-58 | the span of such a reply is the thought with its tags |
| TokensCount.TokenCount | embeddings-api/server_with_tokens_count.py:20 | `sum(map(len, …))` is the number of tokens of all documents together |
| TokensCount.TokenCountAppend | embeddings-api/server_with_tokens_count.py:20 | the count is additive over a split of the documents |
| TokensCount.DecodeRequest | embeddings-api/server_with_tokens_count.py:16-23 | `prompt_tokens == total_tokens ==` the count, other keys kept, the documents returned unchanged |
| TokensCount.EncodeResponse | embeddings-api/server_with_tokens_count.py:28-29 | every context key is kept, and "embeddings" holds the output unless the context has that key |
| TokensCount.ResponseReportsUsage | embeddings-api/server_with_tokens_count.py:21-29 | the response reports the counted tokens beside the embeddings |
| EmbeddingInputs.EnsureList | embeddings-api/tests/fastapi_server.py:36 | a string becomes a one-element list; a list is kept |
| ModernBertEmbed.Prefixed | modernbert-embed/server.py:14 | same length; every entry starts with the prefix, and the rest of it is the document |
| ModernBertEmbed.DecodeRequest | modernbert-embed/server.py:12-15 | entry i is "search_query: " + document i |
| ModernBertEmbed.UnprefixPrefixed | modernbert-embed/server.py:14 | dropping 14 characters of each entry gives back the documents |
| ModernBertEmbed.PrefixedUnprefixed | modernbert-embed/server.py:14 | a list with the prefix on every entry is the prefixed list of its unprefixed entries |
| FastapiEmbeddings.GetEmbeddings | embeddings-api/tests/fastapi_server.py:34-44 | one item per embedding with index i and object "embedding"; the model is echoed; object "list" |
| FastapiEmbeddings.ResponseKeepsEmbeddings | embeddings-api/tests/fastapi_server.py:39-42 | the items hold the model's embeddings in its order |
| FastapiEmbeddings.IndicesIncrease | embeddings-api/tests/fastapi_server.py:39-42 | the indices strictly increase |
| FastapiEmbeddings.SingleDocument | embeddings-api/tests/fastapi_server.py:36 | a string is embedded as a one-document list |
| RfDetrServer.Zip3 | rfdetr-object-detection/server.py:40-44 | `zip` gives as many triples as the shortest array, in array order |
| RfDetrServer.ToDetection | rfdetr-object-detection/server.py:34-39 | a record with the class name from the table, or KeyError for an unknown id |
| RfDetrServer.EncodeResponse | rfdetr-object-detection/server.py:31-46 | the result has the single key "detections" |
| RfDetrServer.EncodeResponseOk | rfdetr-object-detection/server.py:31-46 | succeeds iff every aligned id is known, and then gives one record per triple, in order |
| RfDetrServer.EncodeResponseUnknownClass | rfdetr-object-detection/server.py:36 | a failure is the KeyError of the first unknown aligned id |

## Left out

- The LitServe library: batching, timeouts, workers, response routing and `ensure_list`
  are not part of this model. The `EmbeddingRequest` of litserve.specs.openai_embedding
  is modelled by the normalisation in embeddings-api/tests/fastapi_server.py:36.
- Model calls (fastembed, sentence_transformers, transformers, chatterbox, rfdetr,
  torch) and the tokenizer: they are function parameters with no properties assumed.
- I/O is left out, and so are these calls:
  - `read_image`, `process_image`, `process_audio` and `process_in_parallel`: the
    processors are parameters of `Phi4Utils.ParseMessages`, applied in order.
  - Image decoding and the PIL encode and save.
  - The download and the file writes of `get_audio_tempfile`: `download` stands for
    `requests.get` with `raise_for_status`, and the model says which file exists, not
    what is written to it.
  - The base64 module itself is not part of this model: `Binascii` follows CPython's
    `binascii.a2b_base64` (non-strict mode) and `base64._bytes_from_decode_data`, and
    its error messages are the `BinasciiReason` they carry, not the formatted text.
  - `os.unlink`: its errors are ignored by the source, so the model only lists the
    unlinked files.
  - `open` and `b64encode` in `get_file_object`.
  - `os.path.abspath`.
  - The HTTP request of the SmolVLM2 client.
- Floating point: the two `encode_image` rules compute `int(h * max_size / w)`, one
  rounded division of an exact integer product. The model's integer floor division is
  exact there while the products stay below 2^53. Vector entries are `real` and never
  computed on.
- `Phi4Utils.ProcessedSizeCapsHeight`: the source computes `int((max_height / height)
  * width)` in floating point, dividing first. The model's width is the exact floor of
  width * max_height / height, and it can be one more than the source's: for width
  1133, height 824 and max height 720 the model gives 990 and the source 989.
- `Phi4Utils.ProcessedSize`: the same rounding difference as the line above; its
  bounds (neither side grows, the height becomes `max_height`) hold for both.
- `Strings.Lower`: it lower-cases the ASCII letters A to Z only. Python's `str.lower`
  is Unicode-aware: it maps the Kelvin sign U+212A to "k", and it changes the length
  of "İ" (U+0130). The model keeps every other character and the length.
- `MediaFiles.GetFileExtension`: lower-cases ASCII letters only, as `Strings.Lower`
  does, so an extension with a non-ASCII capital keeps it.
- `MediaFiles.ExtensionIgnoresCase`: holds for ASCII case only; a name that Python
  lower-cases to a listed extension through a non-ASCII capital is not covered.
- `Phi4Utils.DetermineFileType`: because of `Strings.Lower`, a name such as
  "clip.M" + U+212A + "V", whose extension holds the Kelvin sign U+212A, is rejected with ValueError, where
  Python lower-cases it to ".mkv" and types it as a video.
- `SmolUtils.DetermineFileType`: the same ASCII-only lower-casing; "clip.M" + U+212A + "V" is
  rejected where Python types it as a video.
- `Binascii.Feed`: no contract states the values of the decoded bytes. Its bit layout
  is not proved against an encoder; the lemmas fix only how many bytes come out.
- `SmolClient.ReadStream`: `requests.post` in client.py:49-65 is not given
  `stream=True`, so requests reads the whole body before `iter_content(chunk_size=None)`
  yields it as one chunk, or nothing for an empty body (`SmolClient.BodyChunks`). The
  loop is modelled over any chunk sequence. `SmolClient.SplitCharacterRaises` and
  `SmolClient.StraddlingLineLost` describe two-chunk inputs that only a `stream=True`
  request would deliver; `SmolClient.StreamedBody` is what `chat` itself does.
- The float bounds of TTS request fields (chatterbox-tts/server.py:16-24) and the
  1 to 500 character bounds of `text` are not checked; `TtsRequest` is the validated request.
- `OpenAISpeech.ValidateSpeechRequest`: it reports only the first failing field,
  where pydantic reports them all; `model` and `voice` accept any string, as
  `Union[str, Literal]` does.
- `OpenAISpeech.ValidationMessage`: it keeps only the head of
  `LITAPI_VALIDATION_MSG` with the detail filled in, not the usage examples after it.
- `OpenAISpeech.OpenAISpeechSpec.constructor`: the server and the response queue id,
  which LitServe sets on the spec, are constructor parameters here.
- `SmolClient.Chat`: the payloads are the JSON texts; `json.loads` is not modelled.
  In the source a malformed payload raises `json.JSONDecodeError`, a ValueError that
  neither except clause catches, so it reaches the caller after the earlier payloads;
  the model yields the text instead. `response.json()` itself is the `json` field of
  the reply. A body that is not JSON ends with None, as in requests 2.27 and later,
  whose JSONDecodeError is a RequestException; older requests raise json's
  ValueError instead.
- Thread-based token streaming in the servers (concurrency), the Streamlit rendering
  calls in deepseek-r1/app.py (`header`, `st.*`), and the clients and benchmarks other
  than smol-vlm-2/client.py.
- deepseek-r1/app.py:116 replaces the closing tag in a local that is never read again.
  This has no effect, so the model omits it.
- `ChatterboxTtsApi.encode_response` (a WAV `Response`), `read_root` of
  embeddings-api/tests/fastapi_server.py, and jina-embeddings-v3/server.py, whose
  `decode_request` returns nothing.
- `ChatterboxServer.ChatterboxTtsApi.constructor`: `setup` also loads the model,
  which is not modelled.

## Findings

| source | as written | input that shows it | evidently intended | confidence | as-written member | corrected member |
|---|---|---|---|---|---|---|
| chatterbox-tts/server.py:59-61 | the temporary file is created with `delete=False` before `b64decode` runs, and `decode_request` tracks it only after `get_audio_tempfile` returns | a validated prompt of 101 copies of "A": padded to 104 characters it holds 101 digits, `b64decode` raises `binascii.Error`, and the created file is never deleted | track the file as soon as it exists, so that the next cleanup deletes it | not executed | ChatterboxServer.AsWrittenLeaks (with ChatterboxServer.LeakExample and ChatterboxServer.ChatterboxTtsApi.DecodeRequest) | ChatterboxServer.ChatterboxTtsApi.DecodeRequestTracked (with ChatterboxServer.CorrectedAgrees and ChatterboxServer.DecodeThenPredict) |
| deepseek-r1/app.py:58 | `re.search(pattern, content, re.DOTALL).group(0)` is called without checking for a match | an assistant message whose content is "hello" (no `<think>` span) raises AttributeError, so the whole history display fails | show such a message unchanged, with no thinking section | not executed | DeepseekApp.ShowMessageAsWritten (with DeepseekApp.PlainReplyFails and DeepseekApp.UntaggedReplyFails) | DeepseekApp.ShowMessage |
