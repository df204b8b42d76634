# interpreter-verify-ru core, modelled in Dafny

This project models the sequential bookkeeping of a live Russian/English
interpreter. The interpreter captures system audio through WASAPI loopback,
transcribes it with Whisper and translates it with a local Ollama model. It
runs as three worker threads joined by two bounded queues.

- `pipeline.dfy` (module `Pipeline`) models the `Pipeline` class. It has two
  drop-oldest queues of capacity 20, the `running` flag, the thread list and
  the statistics counters. Each worker-loop iteration is one step method:
  `ProducerStep`, `WhisperStep` and `OllamaStep`. The module also holds
  `start`, `stop`, `_drain_queue`, and the coverage and average arithmetic.
  The class invariant `Valid` holds in every reachable state. It says that
  every captured chunk is transcribed, dropped, still queued or lost, and
  that a stopped pipeline has no threads and empty queues.
- `translation.dfy` (module `Translation`) models the direction choice and
  guards of `OllamaEngine.translate`, the shape of the `TranslationResult`
  it returns and its `direction` label, and `_clean_output`.
- `transcription.dfy` (module `Transcription`) models the `TranscriptSegment`
  record and its language predicates and label. It also models the filtering
  loop and guards of `WhisperEngine.transcribe`, and the 30-second window of
  `detect_language`.
- `capture.dfy` (module `Capture`) models the loopback-device listing and the
  default-device choice. It models how `start` resolves a device, the
  start/stop guards, the stream callback that fills the chunk buffer, and
  `get_audio_chunk` and `get_audio_data`.
- `text.dfy` (module `Text`) holds the Python `str` operations the engines
  use: `strip`, `startswith`, `endswith`, and character-wise `lower`/`upper`.
  `wrappers.dfy` holds `Option` and `Result`, and `samples.dfy` (module
  `Audio`) holds the `Samples` type that the other modules share.

External engines and I/O are parameters of the model:

- The Whisper model is a function from samples to its segments plus one
  `info` record.
- The Ollama chat endpoint is a function from a request to either a reply
  with its elapsed time or a failure (timeout, lost connection, other error).
- The RMS silence test, together with the peak normalisation before it, is an
  abstract predicate `silent`.
- The host audio API is a value listing the device table and the default
  output device.
- Whether the PyAudio stream opens is a flag.
- Clock readings are reals passed in.
- Python's `str.lower` is an abstract character mapping `lower`.

Samples are `seq<real>`. The captured chunk list is a `seq<seq<real>>`. Mono
down-mixing and resampling are taken as the identity.

The model follows the code as written:

- Only evictions from the audio queue increment `chunks_dropped`. An eviction
  from the transcript queue changes no counter.
- The Whisper worker does not catch exceptions from `transcribe`. The model
  represents a raise as the Whisper thread's loop ending (`whisperExited`).
  The chunk it had taken is lost.
- `chunks_transcribed` and `chunks_translated` rise once per item taken off
  a queue, whether or not the engine produced anything.
- `start` does not reset the statistics. `stop` drains the audio queue
  without counting what it removes.

The ghost counter `lost` records chunks that left the audio queue without
being transcribed or dropped: those drained by `stop` and those taken by a
raising `transcribe`. Construction sets it to 0. Only `Stop` and a raising
`WhisperStep` increase it, and their contracts say by how much. From
construction up to the first `stop` or raise, it stays 0. Over that span the
invariant is exactly captured = transcribed + dropped + audio-queue length,
so coverage never exceeds 100%.

## Model

| member | source | states |
|---|---|---|
| `Pipeline.Offer` | interpreter-verify-ru/src/pipeline.py:193-203 | a drop-oldest push evicts exactly when the queue is full, then holds `q + [x]` minus its oldest entry; the new item is last and the length never exceeds the capacity |
| `Pipeline.OfferAllKeepsNewest` | interpreter-verify-ru/src/pipeline.py:223-231 | pushing `xs` in order onto `q` keeps exactly the newest `size` entries of `q + xs` in order, and evicts max(0, len(q) + len(xs) - size) entries |
| `Pipeline.KeepsLastPushes` | interpreter-verify-ru/src/pipeline.py:75-76 | from an empty queue of capacity `size`, N pushes with no pops leave the last min(N, size) items in push order |
| `Pipeline.BoundedQueue.PutNowait` | interpreter-verify-ru/src/pipeline.py:195 | `put_nowait` appends the item, or reports `queue.Full` and changes nothing when the queue is at capacity |
| `Pipeline.BoundedQueue.GetNowait` | interpreter-verify-ru/src/pipeline.py:198 | `get_nowait` removes and returns the oldest entry, or reports `queue.Empty` and changes nothing |
| `Pipeline.PushDroppingOldest` | interpreter-verify-ru/src/pipeline.py:194-203 | put, and on `Full` get then put again: the queue ends as `Offer` says and `evicted` holds iff the queue was full |
| `Pipeline.PushAllDroppingOldest` | interpreter-verify-ru/src/pipeline.py:223-231 | the Whisper worker's per-segment loop leaves the transcript queue as the drop-oldest pushes of all segments in order |
| `Pipeline.Drain` | interpreter-verify-ru/src/pipeline.py:271-277 | `_drain_queue` leaves the queue empty |
| `Pipeline.Coverage` | interpreter-verify-ru/src/pipeline.py:298-299 | coverage is 0 when nothing was captured, else transcribed/captured × 100 |
| `Pipeline.CoverageAtMost100` | interpreter-verify-ru/src/pipeline.py:298-299 | coverage lies in [0, 100] whenever transcribed ≤ captured |
| `Pipeline.AverageWhisperTime` | interpreter-verify-ru/src/pipeline.py:291-293 | the Whisper average exists iff some chunk was transcribed, and it times that count gives the total Whisper time |
| `Pipeline.AverageTranslateTime` | interpreter-verify-ru/src/pipeline.py:294-296 | the translation average exists iff some segment was translated, and it times that count gives the total translation time |
| `Pipeline.Pipeline.constructor` | interpreter-verify-ru/src/pipeline.py:56-96 | a new pipeline is stopped, with no threads, no capture, zeroed statistics and two new, distinct, empty queues of capacity 20 |
| `Pipeline.Pipeline.Start` | interpreter-verify-ru/src/pipeline.py:98-145 | a no-op while running; otherwise a fresh capture starts on the configured device with no index override; the pipeline runs with the three workers, its stream on the resolved device, iff the device resolves and the stream opens; statistics are kept |
| `Pipeline.Pipeline.Stop` | interpreter-verify-ru/src/pipeline.py:147-168 | a no-op while stopped; otherwise `running` is cleared, the capture is stopped with its buffer and source format kept, both queues are empty, the thread list is empty and statistics are unchanged |
| `Pipeline.Pipeline.ProducerStep` | interpreter-verify-ru/src/pipeline.py:175-203 | takes and clears the capture buffer, leaving its stream and source format alone; a missing, empty or silent chunk leaves stats and queue unchanged; otherwise `chunks_captured` rises by 1 and the chunk is pushed drop-oldest, with `chunks_dropped` rising iff the audio queue was full |
| `Pipeline.Pipeline.WhisperStep` | interpreter-verify-ru/src/pipeline.py:210-231 | pops the oldest chunk; a raising `transcribe` ends the Whisper loop and loses the chunk; otherwise `chunks_transcribed` rises by 1 even with no segments, the first segment's time is added only if there is one, and every segment is pushed in order with silent eviction |
| `Pipeline.Pipeline.TranscribeChunk` | interpreter-verify-ru/src/pipeline.py:216-231 | the counting and pushing of one chunk that transcribed without raising |
| `Pipeline.Pipeline.OllamaStep` | interpreter-verify-ru/src/pipeline.py:238-257 | pops the oldest segment and delivers exactly one item carrying it and the engine's result, which may be absent; `chunks_translated` rises by 1 regardless; time is added only on success |
| `Pipeline.Pipeline.TranslateSegment` | interpreter-verify-ru/src/pipeline.py:245-257 | translate, count and build the item for one popped segment |
| `Pipeline.CoverageOfValidPipeline` | interpreter-verify-ru/src/pipeline.py:190-221 | in every reachable pipeline state transcribed ≤ captured, so coverage lies in [0, 100] |
| `Translation.TargetLanguage` | interpreter-verify-ru/src/translation/ollama_engine.py:144-153 | `ru` gives `en`, `en` gives `ru`, and any other tag gives none (all three as iffs) |
| `Translation.TargetLanguageSwaps` | interpreter-verify-ru/src/translation/ollama_engine.py:144-153 | a known tag's target is the other known tag, whose target is the tag again |
| `Translation.Prepare` | interpreter-verify-ru/src/translation/ollama_engine.py:139-168 | a request is built iff the text is not all whitespace and the tag is known; it carries the stripped text and the prompt for the tag's direction |
| `Translation.Translate` | interpreter-verify-ru/src/translation/ollama_engine.py:124-209 | none for blank text, an unknown tag or any failed chat call; on success the source text is the stripped input, the source tag is the given one, the target is the other tag, and the translation is the cleaned, stripped reply with its elapsed time |
| `Translation.RejectedWithoutRequest` | interpreter-verify-ru/src/translation/ollama_engine.py:139-153 | when the guards reject, the result is none whatever the chat endpoint would answer: no request is made |
| `Translation.FailingChatNeverTranslates` | interpreter-verify-ru/src/translation/ollama_engine.py:199-209 | an endpoint that always fails yields none for every input; `translate` never raises |
| `Translation.TranslatesGreeting` | interpreter-verify-ru/src/translation/ollama_engine.py:139-197 | Russian "Привет" with reply "Hello" gives exactly the result ("Привет", "Hello", ru, en) |
| `Translation.TranslationResult.Direction` | interpreter-verify-ru/src/translation/ollama_engine.py:26-28 | the label is the upper-cased source tag, " -> ", then the upper-cased target tag |
| `Translation.TranslationResult.Display` | interpreter-verify-ru/src/translation/ollama_engine.py:30-31 | the string form is the bracketed direction followed by the translated text |
| `Translation.DirectionsOfKnownTags` | interpreter-verify-ru/src/translation/ollama_engine.py:26-28 | the two known tag pairs label as "RU -> EN" and "EN -> RU" |
| `Translation.DirectionOfTranslation` | interpreter-verify-ru/src/translation/ollama_engine.py:186-197 | every successful translation is labelled "RU -> EN" for Russian input and "EN -> RU" for English input |
| `Translation.Unquote` | interpreter-verify-ru/src/translation/ollama_engine.py:214-217 | removing one pair of wrapping quotes yields a slice of the text |
| `Translation.UnquoteQuoted` | interpreter-verify-ru/src/translation/ollama_engine.py:214-217 | unquoting a text wrapped in a pair of quotes gives the text back |
| `Translation.UnquoteUnwrapped` | interpreter-verify-ru/src/translation/ollama_engine.py:214-217 | text that does not both start and end with the quote is left unchanged |
| `Translation.DropPreamble` | interpreter-verify-ru/src/translation/ollama_engine.py:228-229 | dropping one preamble yields a slice of the text |
| `Translation.DropPreambles` | interpreter-verify-ru/src/translation/ollama_engine.py:220-229 | the preamble loop yields a slice of the text |
| `Translation.DropPreamblesNone` | interpreter-verify-ru/src/translation/ollama_engine.py:227-229 | when the text starts with none of the preambles, the loop leaves it unchanged |
| `Translation.ShortTextHasNoPreamble` | interpreter-verify-ru/src/translation/ollama_engine.py:220-226 | text shorter than eight characters starts with none of the preambles, under any case mapping |
| `Translation.Cleaned` | interpreter-verify-ru/src/translation/ollama_engine.py:211-231 | the cleaned reply has no leading or trailing whitespace, is a slice of the input and is no longer than it |
| `Translation.CleanOutput` | interpreter-verify-ru/src/translation/ollama_engine.py:211-231 | the step-by-step `_clean_output` (double quotes, then single quotes, then each preamble in order, then strip) computes `Cleaned` |
| `Translation.KeepsPlainText` | interpreter-verify-ru/src/translation/ollama_engine.py:211-231 | a stripped reply that opens with no quote and no preamble is returned unchanged |
| `Translation.KeepsShortPlainText` | interpreter-verify-ru/src/translation/ollama_engine.py:211-231 | a stripped reply under eight characters that opens with no quote is returned unchanged |
| `Translation.DropsTranslationPreamble` | interpreter-verify-ru/src/translation/ollama_engine.py:220-229 | a 12–22 character text opening with "Translation:", whose rest strips to under 8 characters, loses exactly that preamble and the whitespace after it |
| `Translation.DropPreamblesFirstMatch` | interpreter-verify-ru/src/translation/ollama_engine.py:227-229 | when no earlier preamble opens the text and preamble k does, the turn for k leaves the stripped rest after preamble k |
| `Translation.DropPreamblesShortRest` | interpreter-verify-ru/src/translation/ollama_engine.py:227-229 | once the text left is shorter than every remaining preamble, the remaining turns leave it unchanged |
| `Translation.DropsOnlyMatch` | interpreter-verify-ru/src/translation/ollama_engine.py:227-229 | when preamble k is the first to open the text and the rest it leaves is shorter than every later preamble, the whole loop leaves that stripped rest |
| `Translation.CleansTranslationPreamble` | interpreter-verify-ru/src/translation/ollama_engine.py:211-231 | such a text (rest under 8 characters after stripping) cleans to what follows the preamble, with or without wrapping double quotes |
| `Translation.CleansLowerCasePreamble` | interpreter-verify-ru/src/translation/ollama_engine.py:228 | the preamble match ignores case: "translation: Hello" in double quotes cleans to "Hello" when `lower` folds 't' and 'T' together |
| `Text.Strip` | interpreter-verify-ru/src/transcription/whisper_engine.py:149 | `str.strip` gives a slice with no whitespace at either end, empty exactly when the input is all whitespace |
| `Text.StripCutsOnlyEnds` | interpreter-verify-ru/src/transcription/whisper_engine.py:149 | `str.strip` removes only whitespace, and only from the two ends: the result is a slice `s[i..j]` with all-whitespace `s[..i]` and `s[j..]` |
| `Text.StripIdempotent` | interpreter-verify-ru/src/translation/ollama_engine.py:229-231 | stripping twice is stripping once, so the final `strip` after a preamble changes nothing |
| `Transcription.TranscriptSegment.Display` | interpreter-verify-ru/src/transcription/whisper_engine.py:41-43 | the label is "[RU] " exactly for Russian and "[EN] " for every other tag, unknown ones included, followed by the text |
| `Transcription.LanguageFlags` | interpreter-verify-ru/src/transcription/whisper_engine.py:33-39 | `is_russian` iff the tag is "ru", `is_english` iff it is "en", and never both |
| `Transcription.Spoken` | interpreter-verify-ru/src/transcription/whisper_engine.py:146-161 | the kept segments are at most as many as the raw ones, each has non-empty stripped text, and all carry the info record's language and probability |
| `Transcription.SpokenPositions` | interpreter-verify-ru/src/transcription/whisper_engine.py:148-151 | the positions of exactly the raw segments with non-blank text, strictly increasing |
| `Transcription.SpokenIsFilter` | interpreter-verify-ru/src/transcription/whisper_engine.py:148-161 | the k-th kept segment is built from the k-th raw segment with speech: text stripped, start and end copied, language and confidence from `info` |
| `Transcription.Transcribed` | interpreter-verify-ru/src/transcription/whisper_engine.py:113-161 | no segments for missing, empty or silent audio; any segment returned comes from non-empty, non-silent audio and carries the model's language |
| `Transcription.Transcribe` | interpreter-verify-ru/src/transcription/whisper_engine.py:94-173 | the guards and the appending loop compute `Transcribed` |
| `Transcription.DetectionWindow` | interpreter-verify-ru/src/transcription/whisper_engine.py:192-195 | the model sees a prefix of the audio of length min(len(audio), 30 × 16000) |
| `Transcription.DetectLanguage` | interpreter-verify-ru/src/transcription/whisper_engine.py:186-203 | missing or empty audio gives ("unknown", 0.0) |
| `Transcription.DetectionIgnoresTail` | interpreter-verify-ru/src/transcription/whisper_engine.py:192-197 | two recordings that agree on their first 30 seconds get the same detected language |
| `Capture.Listed` | interpreter-verify-ru/src/audio/capture.py:85-104 | the listed devices are exactly the listable loopback entries, in table order, each marked loopback and default iff its parent is the default output |
| `Capture.ListDevices` | interpreter-verify-ru/src/audio/capture.py:69-106 | the enumeration loop returns `Listed` over the whole device table; a failed default lookup gives -1 |
| `Capture.FirstDefault` | interpreter-verify-ru/src/audio/capture.py:111-114 | finds the first device marked default, and none exists before it |
| `Capture.DefaultLoopbackDevice` | interpreter-verify-ru/src/audio/capture.py:108-116 | gives none iff there are no devices; the first default device when one exists; otherwise the first device |
| `Capture.FindIndex` | interpreter-verify-ru/src/audio/capture.py:142-146 | finds a listed device with the index, or reports that none has it |
| `Capture.ResolveIndex` | interpreter-verify-ru/src/audio/capture.py:131 | `device_index or self._device_index`: None and 0 fall through to the constructor value; any other index wins |
| `Capture.ResolveDevice` | interpreter-verify-ru/src/audio/capture.py:130-149 | auto-selection fails iff there are no devices; an explicit index fails iff no listed device has it; a success is a listed device with that index; with no index requested or configured (or index 0) it is the device `DefaultLoopbackDevice` picks |
| `Capture.ZeroIndexFallsThrough` | interpreter-verify-ru/src/audio/capture.py:131 | passing index 0 resolves exactly as passing no index |
| `Capture.Flatten` | interpreter-verify-ru/src/audio/capture.py:250 | no chunks concatenate to no samples |
| `Capture.FlattenAppend` | interpreter-verify-ru/src/audio/capture.py:194 | the concatenation of chunks appended later is the old concatenation followed by the new samples |
| `Capture.AudioCapture.constructor` | interpreter-verify-ru/src/audio/capture.py:51-67 | a new capture is idle, with no stream, an empty buffer and no source format |
| `Capture.AudioCapture.Start` | interpreter-verify-ru/src/audio/capture.py:118-172 | a no-op while capturing; a resolution failure changes nothing; otherwise the source format is recorded and the buffer emptied, then capturing starts on the resolved device iff the stream opens |
| `Capture.AudioCapture.Stop` | interpreter-verify-ru/src/audio/capture.py:174-187 | a no-op unless capturing; otherwise capturing stops and the stream is dropped; the buffer and the source format are kept |
| `Capture.AudioCapture.AudioCallback` | interpreter-verify-ru/src/audio/capture.py:189-195 | a chunk is appended only while capturing, so the audio `get_audio_chunk` would then return grows by exactly that chunk; otherwise the buffer is unchanged |
| `Capture.AudioCapture.GetAudioData` | interpreter-verify-ru/src/audio/capture.py:197-209 | none iff the buffer is empty, else the concatenation of all chunks; the buffer is never modified |
| `Capture.AudioCapture.GetAudioChunk` | interpreter-verify-ru/src/audio/capture.py:235-252 | none iff the buffer is empty, else the concatenation of all chunks in arrival order; the buffer is emptied iff `clear` is set |

## Left out

- Threads, locks, daemon flags, `time.sleep`, the one-second blocking `get` and `join(timeout=5)` are not modelled. Each worker iteration is a sequential step. A blocking `get` that times out is a step that finds the queue empty and does nothing.
- The `except queue.Empty` branches after a `queue.Full` (pipeline.py:202-203, 230-231) cannot be reached when steps run one at a time, so they are not modelled.
- The RMS silence test and the peak normalisation are floating-point maths. Both are replaced by the abstract predicate `silent`.
- Mono down-mixing, soxr and linear resampling, and float32 conversion are taken as the identity. `buffer_duration`, the duration prints and the int16 scaling in `save_wav` are not modelled.
- Wall-clock readings (`transcription_time`, `translation_time`, `PipelineItem.timestamp`) are reals passed in.
- The HTTP calls are not modelled: `_verify_connection`, `warm_up` and the chat request are replaced by the `chat` parameter. `warm_up` cannot fail in a way `start` sees, because `translate` never raises.
- Loading Whisper models, the PyAudio stream's own behaviour, `close`, `save_wav` and `pyaudio.PyAudio()` construction are foreign calls and are left out.
- The model does not cover a raise from engine construction, or a raise in `start_stream` after `is_capturing` is set.
- The `on_result` callback is not modelled. `OllamaStep` returns the item it delivers, and a raise from the sink is not modelled.
- Console output is left out: every `print`, `_default_display` and the formatting in `_print_stats`. `is_running` and `stats` are plain accessors of modelled fields.
- `config.py`, `main.py` and the test scripts contain no core behaviour and are not part of this model.
- `Translation.Cleaned`: Python's `str.lower` is an abstract character-to-character mapping. This does not cover the few characters whose lower-case form has a different length.
- `Translation.TranslationResult.Direction`: upper-cases ASCII letters only. Python's `str.upper` covers all of Unicode, but only the tags "ru" and "en" reach it.
- `Transcription.DetectLanguage`: its contract states only the empty-audio answer. The 30-second window is stated by `DetectionWindow` and `DetectionIgnoresTail`.
- `Capture.ListDevices`: a failure of `get_device_count` itself is not modelled. A raise from one entry's lookup is the `LookupFailed` entry.
- `Pipeline.PipelineItem` has no `pharma_flags` field (pipeline.py:32). The field is always the empty list in the modelled code, and no core operation reads it.
- `Capture.ListDevices`: a device's `defaultSampleRate` is taken as an integer from the host. The source gets a float and truncates it with `int(...)` (capture.py:99), and floating point is not modelled.
