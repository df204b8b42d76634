/**
 * The Whisper engine's post-processing: the transcript segment record, the
 * filtering loop of `transcribe` over the model's raw segments, and the
 * sample window `detect_language` hands to the model.  The model itself
 * (`silent`, `model`) and the wall clock (`elapsed`) are parameters.
 */
module Transcription {
  import opened Wrappers
  import opened Text
  import opened Audio

  const SampleRate: nat := 16000

  /** `detect_language` looks at no more than the first 30 seconds. */
  const MaxDetectSamples: nat := 30 * SampleRate

  /** One transcribed span with its detected language and timings. */
  datatype TranscriptSegment = TranscriptSegment(
    text: string,
    language: string,
    languageConfidence: real,
    startTime: real,
    endTime: real,
    transcriptionTime: real)
  {
    predicate IsRussian()
    {
      language == "ru"
    }

    predicate IsEnglish()
    {
      language == "en"
    }

    /** The `__str__` form: "[RU] " for Russian, "[EN] " for every other tag, then the text. */
    function Display(): (s: string)
      ensures |s| == |text| + 5 && s[5..] == text
      ensures s[..5] == "[RU] " <==> IsRussian()
      ensures s[..5] == "[EN] " <==> !IsRussian()
    {
      (if IsRussian() then "[RU] " else "[EN] ") + text
    }
  }

  /** A segment is never both Russian and English; each flag is exactly its tag. */
  lemma LanguageFlags(seg: TranscriptSegment)
    ensures seg.IsRussian() <==> seg.language == "ru"
    ensures seg.IsEnglish() <==> seg.language == "en"
    ensures !(seg.IsRussian() && seg.IsEnglish())
  {
  }

  /** A segment as the speech model yields it, before filtering. */
  datatype RawSegment = RawSegment(text: string, start: real, end: real)

  /** The model's verdict on the language of the whole chunk. */
  datatype DecodeInfo = DecodeInfo(language: string, languageProbability: real)

  /** What one model run returns: its segments in order, and the one info record. */
  datatype Decoding = Decoding(segments: seq<RawSegment>, info: DecodeInfo)

  /** The record `transcribe` appends for a raw segment whose stripped text is `text`. */
  function MakeSegment(seg: RawSegment, text: string, info: DecodeInfo, time: real): TranscriptSegment
  {
    TranscriptSegment(text, info.language, info.languageProbability, seg.start, seg.end, time)
  }

  /**
   * The segments `transcribe` keeps: every raw segment whose stripped text is
   * non-empty, stripped, tagged with the info record's language and
   * probability; `elapsed(i)` is the clock reading when raw segment `i` is kept.
   */
  function Spoken(raw: seq<RawSegment>, info: DecodeInfo, elapsed: nat -> real): (out: seq<TranscriptSegment>)
    ensures |out| <= |raw|
    ensures forall k :: 0 <= k < |out| ==>
      out[k].language == info.language && out[k].languageConfidence == info.languageProbability
    ensures forall k :: 0 <= k < |out| ==> out[k].text != [] && IsStripped(out[k].text)
  {
    if raw == [] then []
    else
      var before := Spoken(raw[..|raw| - 1], info, elapsed);
      var seg := raw[|raw| - 1];
      var text := Strip(seg.text);
      if text == [] then before
      else before + [MakeSegment(seg, text, info, elapsed(|raw| - 1))]
  }

  /** The positions of the raw segments with speech in them, in model order. */
  function SpokenPositions(raw: seq<RawSegment>): (ix: seq<nat>)
    ensures forall k :: 0 <= k < |ix| ==> ix[k] < |raw| && !AllSpace(raw[ix[k]].text)
    ensures forall k, l :: 0 <= k < l < |ix| ==> ix[k] < ix[l]
    ensures forall i :: 0 <= i < |raw| && !AllSpace(raw[i].text) ==> i in ix
  {
    if raw == [] then []
    else
      var before := SpokenPositions(raw[..|raw| - 1]);
      if AllSpace(raw[|raw| - 1].text) then before
      else before + [|raw| - 1]
  }

  /**
   * The kept segments are exactly the raw segments with speech, in model
   * order: the k-th kept segment is built from the k-th such raw segment,
   * with its text stripped and its start and end copied.
   */
  lemma {:induction false} SpokenIsFilter(raw: seq<RawSegment>, info: DecodeInfo, elapsed: nat -> real)
    ensures var out, ix := Spoken(raw, info, elapsed), SpokenPositions(raw);
      && |out| == |ix|
      && forall k :: 0 <= k < |out| ==>
           out[k] == MakeSegment(raw[ix[k]], Strip(raw[ix[k]].text), info, elapsed(ix[k]))
  {
    if raw != [] {
      var n := |raw| - 1;
      var init := raw[..n];
      SpokenIsFilter(init, info, elapsed);
      var out0, ix0 := Spoken(init, info, elapsed), SpokenPositions(init);
      var out, ix := Spoken(raw, info, elapsed), SpokenPositions(raw);
      var text := Strip(raw[n].text);
      if text == [] {
        assert out == out0 && ix == ix0;
      } else {
        assert out == out0 + [MakeSegment(raw[n], text, info, elapsed(n))];
        assert ix == ix0 + [n];
      }
      forall k | 0 <= k < |out|
        ensures out[k] == MakeSegment(raw[ix[k]], Strip(raw[ix[k]].text), info, elapsed(ix[k]))
      {
        if k < |out0| {
          assert out[k] == out0[k] && ix[k] == ix0[k];
          assert raw[ix0[k]] == init[ix0[k]];
        }
      }
    }
  }

  /**
   * What `transcribe` returns: nothing for a missing or empty chunk or a
   * silent one; otherwise the model's segments that carry speech.
   */
  function Transcribed(audio: Option<Samples>, silent: Samples -> bool, model: Samples -> Decoding,
                       elapsed: nat -> real): (out: seq<TranscriptSegment>)
    ensures audio.None? || audio.value == [] ==> out == []
    ensures audio.Some? && audio.value != [] && silent(audio.value) ==> out == []
    ensures out != [] ==> audio.Some? && audio.value != [] && !silent(audio.value)
    ensures out != [] ==> forall k :: 0 <= k < |out| ==>
      out[k].language == model(audio.value).info.language && out[k].text != []
  {
    if audio.None? || audio.value == [] || silent(audio.value) then []
    else Spoken(model(audio.value).segments, model(audio.value).info, elapsed)
  }

  /** `WhisperEngine.transcribe`: the guards, then the filtering loop over the model's segments. */
  method Transcribe(audio: Option<Samples>, silent: Samples -> bool, model: Samples -> Decoding,
                    elapsed: nat -> real)
    returns (results: seq<TranscriptSegment>)
    ensures results == Transcribed(audio, silent, model, elapsed)
  {
    if audio.None? || |audio.value| == 0 {
      return [];
    }
    var samples := audio.value;
    if silent(samples) {
      return [];
    }
    var decoding := model(samples);
    var raw, info := decoding.segments, decoding.info;
    results := [];
    var i := 0;
    while i < |raw|
      invariant 0 <= i <= |raw|
      invariant results == Spoken(raw[..i], info, elapsed)
    {
      var seg := raw[i];
      var text := Strip(seg.text);
      if text != [] {
        results := results + [TranscriptSegment(text, info.language, info.languageProbability,
                                                seg.start, seg.end, elapsed(i))];
      }
      assert raw[..i + 1][..i] == raw[..i];
      i := i + 1;
    }
    assert raw[..i] == raw;
  }

  /** The samples `detect_language` passes to the model: at most the first 30 seconds. */
  function DetectionWindow(audio: Samples): (w: Samples)
    ensures |w| <= |audio| && w == audio[..|w|]
    ensures |w| == if |audio| <= MaxDetectSamples then |audio| else MaxDetectSamples
  {
    if |audio| > MaxDetectSamples then audio[..MaxDetectSamples] else audio
  }

  /** `WhisperEngine.detect_language`: ("unknown", 0.0) on no audio, else the model's verdict on the window. */
  function DetectLanguage(audio: Option<Samples>, model: Samples -> DecodeInfo): (r: (string, real))
    ensures audio.None? || audio.value == [] ==> r == ("unknown", 0.0)
  {
    if audio.None? || |audio.value| == 0 then ("unknown", 0.0)
    else
      var info := model(DetectionWindow(audio.value));
      (info.language, info.languageProbability)
  }

  /** Samples past the first 30 seconds never influence the detected language. */
  lemma DetectionIgnoresTail(a: Samples, b: Samples, model: Samples -> DecodeInfo)
    requires a != [] && b != []
    requires |a| >= MaxDetectSamples && |b| >= MaxDetectSamples
    requires a[..MaxDetectSamples] == b[..MaxDetectSamples]
    ensures DetectLanguage(Some(a), model) == DetectLanguage(Some(b), model)
  {
    assert DetectionWindow(a) == a[..MaxDetectSamples];
    assert DetectionWindow(b) == b[..MaxDetectSamples];
  }
}
