/**
 * The threaded pipeline, one worker-loop iteration at a time: the audio
 * producer moves captured chunks onto a bounded queue, the Whisper worker
 * turns chunks into transcript segments on a second bounded queue, and the
 * Ollama worker turns segments into delivered items.  Both queues drop their
 * oldest entry when full.  Threads, sleeps and blocking timeouts are not
 * modelled; each step runs to completion before the next begins.
 */
module Pipeline {
  import opened Wrappers
  import opened Audio
  import Capture
  import Transcription
  import Translation

  /** Both queues are created with `maxsize=20`. */
  const QueueSize: nat := 20

  /** The target sample rate the pipeline asks the capture for. */
  const TargetSampleRate: int := 16000

  /** The queue after a drop-oldest push of `x` onto `q`, and whether an entry was evicted. */
  function Offer<T>(q: seq<T>, x: T, size: nat): (r: (seq<T>, bool))
    requires 0 < size && |q| <= size
    ensures |r.0| <= size && r.0 != [] && r.0[|r.0| - 1] == x
    ensures r.1 <==> |q| == size
    ensures r.0 == (q + [x])[if r.1 then 1 else 0..]
  {
    if |q| < size then (q + [x], false) else (q[1..] + [x], true)
  }

  /** Drop-oldest pushes of every element of `xs` in order, with the number of evictions. */
  function OfferAll<T>(q: seq<T>, xs: seq<T>, size: nat): (r: (seq<T>, nat))
    requires 0 < size && |q| <= size
    ensures |r.0| <= size
    decreases |xs|
  {
    if xs == [] then (q, 0)
    else
      var before := OfferAll(q, xs[..|xs| - 1], size);
      var after := Offer(before.0, xs[|xs| - 1], size);
      (after.0, before.1 + if after.1 then 1 else 0)
  }

  function Max(a: int, b: int): int
  {
    if a < b then b else a
  }

  /**
   * Pushing `xs` onto `q` with drop-oldest keeps exactly the newest `size`
   * elements of `q + xs`, in order, and evicts the rest.
   */
  lemma {:induction false} OfferAllKeepsNewest<T>(q: seq<T>, xs: seq<T>, size: nat)
    requires 0 < size && |q| <= size
    ensures OfferAll(q, xs, size).0 == (q + xs)[Max(0, |q| + |xs| - size)..]
    ensures OfferAll(q, xs, size).1 == Max(0, |q| + |xs| - size)
  {
    if xs == [] {
      assert q + xs == q;
    } else {
      var init, x := xs[..|xs| - 1], xs[|xs| - 1];
      var s := q + init;
      var d := Max(0, |s| - size);
      OfferAllKeepsNewest(q, init, size);
      assert OfferAll(q, init, size) == (s[d..], d);
      OfferOntoWindow(s, d, x, size);
      var after := Offer(s[d..], x, size);
      assert OfferAll(q, xs, size) == (after.0, d + if after.1 then 1 else 0);
      AppendLast(q, xs);
    }
  }

  lemma AppendLast<T>(q: seq<T>, xs: seq<T>)
    requires xs != []
    ensures (q + xs[..|xs| - 1]) + [xs[|xs| - 1]] == q + xs
  {
    assert xs == xs[..|xs| - 1] + [xs[|xs| - 1]];
  }

  /** One push onto the newest-`size` window of `s` gives the newest-`size` window of `s + [x]`. */
  lemma OfferOntoWindow<T>(s: seq<T>, d: nat, x: T, size: nat)
    requires 0 < size && d == Max(0, |s| - size)
    ensures var r := Offer(s[d..], x, size);
      && r.0 == (s + [x])[Max(0, |s| + 1 - size)..]
      && r.1 == (|s| >= size)
  {
    var w := s[d..];
    if |w| < size {
      assert w + [x] == (s + [x])[d..];
    } else {
      assert w[1..] + [x] == (s + [x])[d + 1..];
    }
  }

  /** From an empty queue, N pushes leave the last min(N, size) of them, in push order. */
  lemma {:induction false} KeepsLastPushes<T>(xs: seq<T>, size: nat)
    requires 0 < size
    ensures |xs| <= size ==> OfferAll([], xs, size).0 == xs
    ensures |xs| > size ==> OfferAll([], xs, size).0 == xs[|xs| - size..]
  {
    var empty: seq<T> := [];
    OfferAllKeepsNewest(empty, xs, size);
    var d := Max(0, |xs| - size);
    assert empty + xs == xs;
    assert OfferAll(empty, xs, size).0 == xs[d..];
    if |xs| <= size {
      assert xs[d..] == xs;
    }
  }

  /** A `queue.Queue` with a positive `maxsize`, used only through its non-blocking calls. */
  class BoundedQueue<T> {
    const maxsize: nat
    var items: seq<T>

    ghost predicate Valid()
      reads this
    {
      0 < maxsize && |items| <= maxsize
    }

    constructor(maxsize: nat)
      requires 0 < maxsize
      ensures Valid() && this.maxsize == maxsize && items == []
    {
      this.maxsize := maxsize;
      items := [];
    }

    /** `put_nowait`: append unless full; `full` reports the `queue.Full` raised instead. */
    method PutNowait(x: T) returns (full: bool)
      requires Valid()
      modifies this
      ensures Valid()
      ensures full <==> |old(items)| == maxsize
      ensures items == if full then old(items) else old(items) + [x]
    {
      if |items| == maxsize {
        return true;
      }
      items := items + [x];
      full := false;
    }

    /** `get_nowait`: remove the oldest entry, or report the `queue.Empty` raised with `None`. */
    method GetNowait() returns (x: Option<T>)
      requires Valid()
      modifies this
      ensures Valid()
      ensures x.None? <==> old(items) == []
      ensures x.Some? ==> x.value == old(items)[0] && items == old(items)[1..]
      ensures x.None? ==> unchanged(this)
    {
      if items == [] {
        return None;
      }
      x := Some(items[0]);
      items := items[1..];
    }
  }

  /**
   * The producer's and the Whisper worker's push: `put_nowait`, and on
   * `queue.Full` one `get_nowait` followed by a second `put_nowait`.
   */
  method PushDroppingOldest<T>(q: BoundedQueue<T>, x: T) returns (evicted: bool)
    requires q.Valid()
    modifies q
    ensures q.Valid()
    ensures (q.items, evicted) == Offer(old(q.items), x, q.maxsize)
  {
    var full := q.PutNowait(x);
    evicted := false;
    if full {
      var _ := q.GetNowait();
      full := q.PutNowait(x);
      evicted := true;
    }
  }

  /** The Whisper worker's loop over its segments: a drop-oldest push of each, in order. */
  method PushAllDroppingOldest<T>(q: BoundedQueue<T>, xs: seq<T>)
    requires q.Valid()
    modifies q
    ensures q.Valid()
    ensures q.items == OfferAll(old(q.items), xs, q.maxsize).0
  {
    for i := 0 to |xs|
      invariant q.Valid()
      invariant q.items == OfferAll(old(q.items), xs[..i], q.maxsize).0
    {
      var _ := PushDroppingOldest(q, xs[i]);
      assert xs[..i + 1][..i] == xs[..i];
    }
    assert xs[..|xs|] == xs;
  }

  /** `_drain_queue`: take entries until the queue reports empty. */
  method Drain<T>(q: BoundedQueue<T>)
    requires q.Valid()
    modifies q
    ensures q.Valid() && q.items == []
  {
    while true
      invariant q.Valid()
      decreases |q.items|
    {
      var x := q.GetNowait();
      if x.None? {
        break;
      }
    }
  }

  /** The `_stats` dictionary. */
  datatype Stats = Stats(
    captured: nat,
    transcribed: nat,
    translated: nat,
    dropped: nat,
    whisperTime: real,
    translateTime: real)

  const ZeroStats := Stats(0, 0, 0, 0, 0.0, 0.0)

  /** Percentage of captured chunks that were transcribed; 0 before anything is captured. */
  function Coverage(s: Stats): (c: real)
    ensures s.captured == 0 ==> c == 0.0
    ensures s.captured > 0 ==> c * (s.captured as real) == (s.transcribed as real) * 100.0
  {
    if s.captured > 0 then (s.transcribed as real) / (s.captured as real) * 100.0 else 0.0
  }

  /** Coverage lies in [0, 100] whenever no more chunks were transcribed than captured. */
  lemma CoverageAtMost100(s: Stats)
    requires s.transcribed <= s.captured
    ensures 0.0 <= Coverage(s) <= 100.0
  {
    if s.captured > 0 {
      var t, c := s.transcribed as real, s.captured as real;
      assert Coverage(s) * c == t * 100.0;
      assert t * 100.0 <= c * 100.0;
    }
  }

  /** Mean Whisper time per transcribed chunk, reported only when some chunk was transcribed. */
  function AverageWhisperTime(s: Stats): (avg: Option<real>)
    ensures avg.Some? <==> s.transcribed > 0
    ensures avg.Some? ==> avg.value * (s.transcribed as real) == s.whisperTime
  {
    if s.transcribed > 0 then Some(s.whisperTime / (s.transcribed as real)) else None
  }

  /** Mean translation time per translated segment, reported only when some segment was translated. */
  function AverageTranslateTime(s: Stats): (avg: Option<real>)
    ensures avg.Some? <==> s.translated > 0
    ensures avg.Some? ==> avg.value * (s.translated as real) == s.translateTime
  {
    if s.translated > 0 then Some(s.translateTime / (s.translated as real)) else None
  }

  /** One delivered result: the segment, the translation if any, and when it was built. */
  datatype PipelineItem = PipelineItem(
    transcript: Transcription.TranscriptSegment,
    translation: Option<Translation.TranslationResult>,
    timestamp: real)

  datatype Worker = AudioProducer | WhisperWorker | OllamaWorker

  const Workers: seq<Worker> := [AudioProducer, WhisperWorker, OllamaWorker]

  datatype StartOutcome = AlreadyRunning | Launched | CaptureFailed(error: Capture.StartError)

  class Pipeline {
    const deviceIndex: Option<int>
    const audioQueue: BoundedQueue<Samples>
    const transcriptQueue: BoundedQueue<Transcription.TranscriptSegment>
    var running: bool
    var threads: seq<Worker>
    var capture: Capture.AudioCapture?
    var stats: Stats
    /** Set once a transcription raised: the Whisper thread's loop has ended. */
    var whisperExited: bool
    /** Chunks taken off the audio queue without being transcribed: drained on stop, or lost to a raise. */
    ghost var lost: nat

    /**
     * Both queues hold at most 20 entries; every captured chunk is
     * transcribed, dropped, still queued or lost; a stopped pipeline has no
     * threads and empty queues.
     */
    ghost predicate Valid()
      reads this, audioQueue, transcriptQueue, capture
    {
      && audioQueue.Valid() && audioQueue.maxsize == QueueSize
      && transcriptQueue.Valid() && transcriptQueue.maxsize == QueueSize
      && audioQueue as object != transcriptQueue as object
      && stats.captured == stats.transcribed + stats.dropped + |audioQueue.items| + lost
      && (running ==> capture != null && capture.Valid() && threads == Workers)
      && (!running ==> threads == [] && audioQueue.items == [] && transcriptQueue.items == [])
    }

    constructor(deviceIndex: Option<int>)
      ensures Valid()
      ensures this.deviceIndex == deviceIndex
      ensures !running && threads == [] && capture == null && stats == ZeroStats && !whisperExited
      ensures fresh(audioQueue) && fresh(transcriptQueue)
    {
      this.deviceIndex := deviceIndex;
      audioQueue := new BoundedQueue(QueueSize);
      transcriptQueue := new BoundedQueue(QueueSize);
      running := false;
      threads := [];
      capture := null;
      stats := ZeroStats;
      whisperExited := false;
      lost := 0;
    }

    /**
     * `Pipeline.start`: a no-op while running.  Otherwise a fresh capture is
     * started on the configured device; when that raises, the pipeline
     * stays stopped, and when it succeeds the three workers are launched.
     * The statistics are kept from any earlier run.
     */
    method Start(host: Capture.Host, streamOpens: bool) returns (outcome: StartOutcome)
      requires Valid()
      modifies this
      ensures Valid()
      ensures old(running) ==> outcome == AlreadyRunning && unchanged(this)
      ensures !old(running) ==>
        var resolved := Capture.ResolveDevice(None, deviceIndex, Capture.LoopbackDevices(host));
        && capture != null && fresh(capture)
        && capture.deviceIndex == deviceIndex && capture.targetSampleRate == TargetSampleRate
        && stats == old(stats) && lost == old(lost)
        && (running <==> resolved.Success? && streamOpens)
        && (running ==> outcome == Launched && threads == Workers && !whisperExited
                        && capture.isCapturing && capture.buffer == []
                        && capture.stream == Some(Capture.StreamConfig(resolved.value.index,
                                                                       resolved.value.channels,
                                                                       resolved.value.sampleRate)))
        && (!running ==> threads == [] && !capture.isCapturing && whisperExited == old(whisperExited)
                         && outcome == CaptureFailed(if resolved.Failure? then resolved.error
                                                     else Capture.StreamOpenFailed))
    {
      if running {
        return AlreadyRunning;
      }
      var c := new Capture.AudioCapture(deviceIndex, TargetSampleRate);
      capture := c;
      var started := c.Start(None, host, streamOpens);
      if started.Failed? {
        return CaptureFailed(started.error);
      }
      running := true;
      threads := Workers;
      whisperExited := false;
      outcome := Launched;
    }

    /**
     * `Pipeline.stop`: a no-op while stopped.  Otherwise clear the flag,
     * stop the capture, drain both queues and forget the threads.
     */
    method Stop()
      requires Valid()
      modifies this, audioQueue, transcriptQueue, capture
      ensures Valid()
      ensures !old(running) ==> unchanged(this, audioQueue, transcriptQueue)
      ensures !old(running) && capture != null ==> unchanged(capture)
      ensures old(running) ==>
        && !running && threads == [] && audioQueue.items == [] && transcriptQueue.items == []
        && stats == old(stats) && capture == old(capture) && whisperExited == old(whisperExited)
        && !capture.isCapturing && capture.stream.None? && capture.buffer == old(capture.buffer)
        && capture.sourceSampleRate == old(capture.sourceSampleRate)
        && capture.sourceChannels == old(capture.sourceChannels)
        && lost == old(lost) + |old(audioQueue.items)|
    {
      if !running {
        return;
      }
      running := false;
      capture.Stop();
      lost := lost + |audioQueue.items|;
      Drain(audioQueue);
      Drain(transcriptQueue);
      threads := [];
    }

    /**
     * One `_audio_producer` iteration: take the capture's whole buffer
     * (`get_audio_chunk(clear=True)`); skip it when missing, empty or
     * silent; otherwise count it and push it, counting a drop when the
     * audio queue was full.
     */
    method ProducerStep(silent: Samples -> bool)
      requires Valid()
      modifies this, audioQueue, capture
      ensures Valid()
      ensures !old(running) ==> unchanged(this, audioQueue)
      ensures !old(running) && capture != null ==> unchanged(capture)
      ensures old(running) ==>
        var chunk := Capture.Flatten(old(capture.buffer));
        && capture == old(capture) && capture.buffer == []
        && capture.isCapturing == old(capture.isCapturing) && capture.stream == old(capture.stream)
        && capture.sourceSampleRate == old(capture.sourceSampleRate)
        && capture.sourceChannels == old(capture.sourceChannels)
        && running && threads == old(threads) && whisperExited == old(whisperExited)
        && lost == old(lost)
        && (chunk == [] || silent(chunk) ==>
              stats == old(stats) && audioQueue.items == old(audioQueue.items))
        && (chunk != [] && !silent(chunk) ==>
              var (queued, evicted) := Offer(old(audioQueue.items), chunk, QueueSize);
              && audioQueue.items == queued
              && stats == old(stats).(captured := old(stats.captured) + 1,
                                      dropped := old(stats.dropped) + if evicted then 1 else 0))
    {
      if !running {
        return;
      }
      var audio := capture.GetAudioChunk(true);
      if audio.None? || |audio.value| == 0 {
        return;
      }
      if silent(audio.value) {
        return;
      }
      stats := stats.(captured := stats.captured + 1);
      var evicted := PushDroppingOldest(audioQueue, audio.value);
      if evicted {
        stats := stats.(dropped := stats.dropped + 1);
      }
    }

    /**
     * One `_whisper_worker` iteration: take the oldest chunk, if any, and
     * transcribe it.  A raise ends the Whisper thread and loses the chunk.
     * Otherwise count the chunk, add the first segment's time when there is
     * one, and push every segment in order, dropping the oldest silently.
     */
    method WhisperStep(silent: Samples -> bool, model: Samples -> Transcription.Decoding,
                       elapsed: nat -> real, raises: bool)
      requires Valid()
      modifies this, audioQueue, transcriptQueue
      ensures Valid()
      ensures !old(running) || old(whisperExited) || old(audioQueue.items) == [] ==>
        unchanged(this, audioQueue, transcriptQueue)
      ensures old(running) && !old(whisperExited) && old(audioQueue.items) != [] ==>
        var chunk := old(audioQueue.items)[0];
        var segments := Transcription.Transcribed(Some(chunk), silent, model, elapsed);
        && audioQueue.items == old(audioQueue.items)[1..]
        && running && threads == old(threads) && capture == old(capture)
        && (raises ==>
              whisperExited && lost == old(lost) + 1 && stats == old(stats) && transcriptQueue.items == old(transcriptQueue.items))
        && (!raises ==>
              && !whisperExited && lost == old(lost)
              && transcriptQueue.items == OfferAll(old(transcriptQueue.items), segments, QueueSize).0
              && stats == old(stats).(transcribed := old(stats.transcribed) + 1,
                                      whisperTime := old(stats.whisperTime) +
                                        if segments == [] then 0.0 else segments[0].transcriptionTime))
    {
      if !running || whisperExited {
        return;
      }
      var popped := audioQueue.GetNowait();
      if popped.None? {
        return;
      }
      var audio := popped.value;
      if raises {
        whisperExited := true;
        lost := lost + 1;
        return;
      }
      TranscribeChunk(audio, silent, model, elapsed);
    }

    /** The part of a Whisper iteration after a chunk was taken and transcribed without raising. */
    method TranscribeChunk(audio: Samples, silent: Samples -> bool, model: Samples -> Transcription.Decoding,
                           elapsed: nat -> real)
      requires transcriptQueue.Valid()
      modifies this`stats, transcriptQueue
      ensures transcriptQueue.Valid()
      ensures var segments := Transcription.Transcribed(Some(audio), silent, model, elapsed);
        && transcriptQueue.items == OfferAll(old(transcriptQueue.items), segments, transcriptQueue.maxsize).0
        && stats == old(stats).(transcribed := old(stats.transcribed) + 1,
                                whisperTime := old(stats.whisperTime) +
                                  if segments == [] then 0.0 else segments[0].transcriptionTime)
    {
      var segments := Transcription.Transcribe(Some(audio), silent, model, elapsed);
      stats := stats.(transcribed := stats.transcribed + 1);
      if segments != [] {
        stats := stats.(whisperTime := stats.whisperTime + segments[0].transcriptionTime);
      }
      PushAllDroppingOldest(transcriptQueue, segments);
    }

    /**
     * One `_ollama_worker` iteration: take the oldest segment, if any,
     * translate it, count it, add the translation time on success, and
     * deliver one item carrying the segment and the result.
     */
    method OllamaStep(chat: Translation.ChatRequest -> Translation.ChatReply, lower: char -> char, now: real)
      returns (delivered: Option<PipelineItem>)
      requires Valid()
      modifies this, transcriptQueue
      ensures Valid()
      ensures !old(running) || old(transcriptQueue.items) == [] ==>
        delivered.None? && unchanged(this, transcriptQueue)
      ensures old(running) && old(transcriptQueue.items) != [] ==>
        var seg := old(transcriptQueue.items)[0];
        var result := Translation.Translate(seg.text, seg.language, Translation.DefaultModel, chat, lower);
        && transcriptQueue.items == old(transcriptQueue.items)[1..]
        && delivered == Some(PipelineItem(seg, result, now))
        && running && threads == old(threads) && capture == old(capture) && whisperExited == old(whisperExited)
        && lost == old(lost)
        && stats == old(stats).(translated := old(stats.translated) + 1,
                                translateTime := old(stats.translateTime) +
                                  if result.Some? then result.value.translationTime else 0.0)
    {
      if !running {
        return None;
      }
      var popped := transcriptQueue.GetNowait();
      if popped.None? {
        return None;
      }
      var item := TranslateSegment(popped.value, chat, lower, now);
      delivered := Some(item);
    }

    /** The part of an Ollama iteration after a segment was taken: translate, count, build the item. */
    method TranslateSegment(seg: Transcription.TranscriptSegment, chat: Translation.ChatRequest -> Translation.ChatReply,
                            lower: char -> char, now: real)
      returns (item: PipelineItem)
      modifies this`stats
      ensures var result := Translation.Translate(seg.text, seg.language, Translation.DefaultModel, chat, lower);
        && item == PipelineItem(seg, result, now)
        && stats == old(stats).(translated := old(stats.translated) + 1,
                                translateTime := old(stats.translateTime) +
                                  if result.Some? then result.value.translationTime else 0.0)
    {
      var result := Translation.Translate(seg.text, seg.language, Translation.DefaultModel, chat, lower);
      stats := stats.(translated := stats.translated + 1);
      if result.Some? {
        stats := stats.(translateTime := stats.translateTime + result.value.translationTime);
      }
      item := PipelineItem(seg, result, now);
    }
  }

  /** In any reachable state no more chunks have been transcribed than captured, so coverage is at most 100. */
  lemma CoverageOfValidPipeline(p: Pipeline)
    requires p.Valid()
    ensures p.stats.transcribed <= p.stats.captured
    ensures 0.0 <= Coverage(p.stats) <= 100.0
  {
    CoverageAtMost100(p.stats);
  }
}
