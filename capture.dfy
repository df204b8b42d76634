/**
 * WASAPI loopback capture: which host devices are listed, which one `start`
 * picks, and the chunk buffer the stream callback fills and the pipeline
 * drains.  The host audio API is the value `host`; opening the stream is the
 * flag `streamOpens`.
 */
module Capture {
  import opened Wrappers
  import opened Audio

  /** An output device that supports loopback capture. */
  datatype AudioDevice = AudioDevice(
    index: int,
    name: string,
    channels: int,
    sampleRate: int,
    isLoopback: bool,
    isDefault: bool)

  /**
   * One entry of the host's device table: the lookup failed, or the info
   * dictionary, with a missing key as `None`.
   */
  datatype DeviceLookup =
    | LookupFailed
    | DeviceInfo(
        name: Option<string>,
        maxInputChannels: Option<int>,
        defaultSampleRate: Option<int>,
        isLoopbackDevice: Option<bool>,
        loopbackParentIndex: Option<int>)

  /** The host audio API as `list_devices` queries it. */
  datatype Host = Host(defaultOutputDevice: Option<int>, devices: seq<DeviceLookup>)

  /** The parameters the loopback stream is opened with. */
  datatype StreamConfig = StreamConfig(deviceIndex: int, channels: int, rate: int)

  datatype StartError = NoLoopbackDevices | DeviceNotFound(index: int) | StreamOpenFailed

  datatype StartOutcome = AlreadyCapturing | Started(device: AudioDevice) | Failed(error: StartError)

  /** The default output device's index, or -1 when its lookup fails. */
  function DefaultOutputIndex(host: Host): int
  {
    match host.defaultOutputDevice
    case Some(i) => i
    case None => -1
  }

  /** A table entry `list_devices` turns into a device: a loopback entry with every key it reads. */
  predicate Listable(entry: DeviceLookup)
  {
    && entry.DeviceInfo?
    && entry.isLoopbackDevice == Some(true)
    && entry.name.Some? && entry.maxInputChannels.Some? && entry.defaultSampleRate.Some?
  }

  /** The device listed for entry `i`: default exactly when its parent is the default output. */
  function DeviceAt(host: Host, i: nat): AudioDevice
    requires i < |host.devices| && Listable(host.devices[i])
  {
    var e := host.devices[i];
    var parent := match e.loopbackParentIndex case Some(p) => p case None => -1;
    AudioDevice(i, e.name.value, e.maxInputChannels.value, e.defaultSampleRate.value, true,
                parent == DefaultOutputIndex(host))
  }

  /**
   * The devices listed from the first `n` entries: exactly the listable
   * ones, in table order, each loopback.
   */
  function Listed(host: Host, n: nat): (ds: seq<AudioDevice>)
    requires n <= |host.devices|
    ensures forall k :: 0 <= k < |ds| ==>
      && 0 <= ds[k].index < n && ds[k].isLoopback
      && Listable(host.devices[ds[k].index]) && ds[k] == DeviceAt(host, ds[k].index)
    ensures forall k, l :: 0 <= k < l < |ds| ==> ds[k].index < ds[l].index
    ensures forall i :: 0 <= i < n && Listable(host.devices[i]) ==> DeviceAt(host, i) in ds
  {
    if n == 0 then []
    else
      var before := Listed(host, n - 1);
      if Listable(host.devices[n - 1]) then before + [DeviceAt(host, n - 1)] else before
  }

  /** Every loopback device the host reports, as `list_devices` returns them. */
  function LoopbackDevices(host: Host): seq<AudioDevice>
  {
    Listed(host, |host.devices|)
  }

  /**
   * `AudioCapture.list_devices`: walk the device table, skip entries whose
   * lookup fails, that are not loopback or that lack a key, and list the rest.
   */
  method ListDevices(host: Host) returns (devices: seq<AudioDevice>)
    ensures devices == LoopbackDevices(host)
  {
    var defaultOutput := match host.defaultOutputDevice case Some(i) => i case None => -1;
    devices := [];
    for i := 0 to |host.devices|
      invariant devices == Listed(host, i)
    {
      var info := host.devices[i];
      if info.LookupFailed? {
        continue;
      }
      var isLoopback := match info.isLoopbackDevice case Some(b) => b case None => false;
      if !isLoopback {
        continue;
      }
      if info.name.None? || info.maxInputChannels.None? || info.defaultSampleRate.None? {
        continue;
      }
      var parent := match info.loopbackParentIndex case Some(p) => p case None => -1;
      devices := devices + [AudioDevice(i, info.name.value, info.maxInputChannels.value,
                                        info.defaultSampleRate.value, true, parent == defaultOutput)];
    }
  }

  /** Position of the first device marked default, if any. */
  function FirstDefault(devices: seq<AudioDevice>): (k: Option<nat>)
    ensures k.Some? ==> k.value < |devices| && devices[k.value].isDefault
    ensures k.Some? ==> forall j :: 0 <= j < k.value ==> !devices[j].isDefault
    ensures k.None? ==> forall j :: 0 <= j < |devices| ==> !devices[j].isDefault
  {
    if devices == [] then None
    else if devices[0].isDefault then Some(0)
    else
      match FirstDefault(devices[1..])
      case None => None
      case Some(j) => Some(j + 1)
  }

  /**
   * `AudioCapture.get_default_loopback_device`: the first device marked
   * default, else the first device, else none.
   */
  function DefaultLoopbackDevice(devices: seq<AudioDevice>): (d: Option<AudioDevice>)
    ensures d.None? <==> devices == []
    ensures d.Some? ==> d.value in devices
    ensures (exists k :: 0 <= k < |devices| && devices[k].isDefault) ==>
      d.Some? && d.value.isDefault
    ensures (forall k :: 0 <= k < |devices| ==> !devices[k].isDefault) && devices != [] ==>
      d == Some(devices[0])
    ensures FirstDefault(devices).Some? ==> d == Some(devices[FirstDefault(devices).value])
  {
    match FirstDefault(devices)
    case Some(k) => Some(devices[k])
    case None => if devices == [] then None else Some(devices[0])
  }

  /** Position of the first device with the given index, if any. */
  function FindIndex(devices: seq<AudioDevice>, index: int): (k: Option<nat>)
    ensures k.Some? ==> k.value < |devices| && devices[k.value].index == index
    ensures k.None? ==> forall j :: 0 <= j < |devices| ==> devices[j].index != index
  {
    if devices == [] then None
    else if devices[0].index == index then Some(0)
    else
      match FindIndex(devices[1..], index)
      case None => None
      case Some(j) => Some(j + 1)
  }

  /**
   * Python's `device_index or self._device_index`: an argument of `None`
   * or `0` (both falsy) falls through to the constructor's value.
   */
  function ResolveIndex(requested: Option<int>, configured: Option<int>): (idx: Option<int>)
    ensures requested.None? || requested == Some(0) ==> idx == configured
    ensures requested.Some? && requested.value != 0 ==> idx == requested
  {
    if requested.Some? && requested.value != 0 then requested else configured
  }

  /**
   * The device `start` settles on, or the `RuntimeError` it raises: with no
   * index it auto-selects and fails only when no loopback device exists;
   * with an index it fails exactly when no listed device has that index.
   */
  function ResolveDevice(requested: Option<int>, configured: Option<int>, devices: seq<AudioDevice>)
    : (r: Result<AudioDevice, StartError>)
    ensures r.Success? ==> r.value in devices
    ensures ResolveIndex(requested, configured).None? ==>
      (r.Failure? <==> devices == []) && (r.Failure? ==> r.error == NoLoopbackDevices)
    ensures ResolveIndex(requested, configured).None? && devices != [] ==>
      r == Success(DefaultLoopbackDevice(devices).value)
    ensures ResolveIndex(requested, configured).Some? ==>
      var idx := ResolveIndex(requested, configured).value;
      && (r.Success? ==> r.value.index == idx)
      && (r.Failure? <==> forall j :: 0 <= j < |devices| ==> devices[j].index != idx)
      && (r.Failure? ==> r.error == DeviceNotFound(idx))
  {
    match ResolveIndex(requested, configured)
    case None =>
      (match DefaultLoopbackDevice(devices)
       case None => Failure(NoLoopbackDevices)
       case Some(d) => Success(d))
    case Some(idx) =>
      (match FindIndex(devices, idx)
       case None => Failure(DeviceNotFound(idx))
       case Some(k) => Success(devices[k]))
  }

  /** Passing index 0 to `start` behaves exactly like passing no index. */
  lemma ZeroIndexFallsThrough(configured: Option<int>, devices: seq<AudioDevice>)
    ensures ResolveDevice(Some(0), configured, devices) == ResolveDevice(None, configured, devices)
  {
  }

  /** All chunks joined in arrival order (`np.concatenate`). */
  function Flatten(chunks: seq<Samples>): (s: Samples)
    ensures chunks == [] ==> s == []
  {
    if chunks == [] then [] else chunks[0] + Flatten(chunks[1..])
  }

  /** Joining two runs of chunks is joining their joins. */
  lemma {:induction false} FlattenAppend(a: seq<Samples>, b: seq<Samples>)
    ensures Flatten(a + b) == Flatten(a) + Flatten(b)
  {
    if a == [] {
      assert a + b == b;
    } else {
      assert (a + b)[0] == a[0] && (a + b)[1..] == a[1..] + b;
      FlattenAppend(a[1..], b);
    }
  }

  /** The capture object: its stream, its flag and the buffer of received chunks. */
  class AudioCapture {
    const deviceIndex: Option<int>
    const targetSampleRate: int
    var isCapturing: bool
    var stream: Option<StreamConfig>
    var buffer: seq<Samples>
    var sourceSampleRate: Option<int>
    var sourceChannels: Option<int>

    /** A stream is open exactly while capturing. */
    ghost predicate Valid()
      reads this
    {
      isCapturing <==> stream.Some?
    }

    constructor(deviceIndex: Option<int>, targetSampleRate: int)
      ensures Valid()
      ensures this.deviceIndex == deviceIndex && this.targetSampleRate == targetSampleRate
      ensures !isCapturing && stream.None? && buffer == []
      ensures sourceSampleRate.None? && sourceChannels.None?
    {
      this.deviceIndex := deviceIndex;
      this.targetSampleRate := targetSampleRate;
      isCapturing := false;
      stream := None;
      buffer := [];
      sourceSampleRate := None;
      sourceChannels := None;
    }

    /**
     * `AudioCapture.start`: a no-op while capturing; otherwise resolve the
     * device (raising when that fails), record its format, empty the
     * buffer, open the stream and start capturing.
     */
    method Start(requested: Option<int>, host: Host, streamOpens: bool) returns (outcome: StartOutcome)
      requires Valid()
      modifies this
      ensures Valid()
      ensures old(isCapturing) ==> outcome == AlreadyCapturing && unchanged(this)
      ensures !old(isCapturing) ==>
        var resolved := ResolveDevice(requested, deviceIndex, LoopbackDevices(host));
        && (resolved.Failure? ==> outcome == Failed(resolved.error) && unchanged(this))
        && (resolved.Success? ==>
              var d := resolved.value;
              && sourceSampleRate == Some(d.sampleRate) && sourceChannels == Some(d.channels)
              && buffer == []
              && (streamOpens ==>
                    outcome == Started(d) && isCapturing
                    && stream == Some(StreamConfig(d.index, d.channels, d.sampleRate)))
              && (!streamOpens ==>
                    outcome == Failed(StreamOpenFailed) && !isCapturing && stream == old(stream)))
    {
      if isCapturing {
        return AlreadyCapturing;
      }
      var idx := ResolveIndex(requested, deviceIndex);
      var devices := ListDevices(host);
      var resolved := ResolveDevice(requested, deviceIndex, devices);
      if resolved.Failure? {
        return Failed(resolved.error);
      }
      var device := resolved.value;
      sourceSampleRate := Some(device.sampleRate);
      sourceChannels := Some(device.channels);
      buffer := [];
      if !streamOpens {
        return Failed(StreamOpenFailed);
      }
      var openIndex := if idx.Some? then idx.value else device.index;
      stream := Some(StreamConfig(openIndex, device.channels, device.sampleRate));
      isCapturing := true;
      outcome := Started(device);
    }

    /** `AudioCapture.stop`: a no-op unless capturing; otherwise close the stream. The buffer is kept. */
    method Stop()
      requires Valid()
      modifies this
      ensures Valid()
      ensures !old(isCapturing) ==> unchanged(this)
      ensures old(isCapturing) ==> !isCapturing && stream.None?
      ensures buffer == old(buffer)
      ensures sourceSampleRate == old(sourceSampleRate) && sourceChannels == old(sourceChannels)
    {
      if !isCapturing {
        return;
      }
      isCapturing := false;
      stream := None;
    }

    /** `_audio_callback`: keep the delivered chunk only while capturing. */
    method AudioCallback(data: Samples)
      modifies this
      ensures buffer == if old(isCapturing) then old(buffer) + [data] else old(buffer)
      ensures isCapturing == old(isCapturing) && stream == old(stream)
      ensures sourceSampleRate == old(sourceSampleRate) && sourceChannels == old(sourceChannels)
      ensures old(isCapturing) ==> Flatten(buffer) == Flatten(old(buffer)) + data
    {
      if isCapturing {
        FlattenAppend(buffer, [data]);
        assert Flatten([data]) == data + Flatten([]);
        buffer := buffer + [data];
      }
    }

    /** `get_audio_data`: everything captured so far, or `None`; the buffer is left as it is. */
    method GetAudioData() returns (audio: Option<Samples>)
      ensures audio.None? <==> buffer == []
      ensures audio.Some? ==> audio.value == Flatten(buffer)
    {
      if buffer == [] {
        return None;
      }
      audio := Some(Flatten(buffer));
    }

    /**
     * `get_audio_chunk`: everything captured so far, or `None` on an empty
     * buffer; the buffer is emptied exactly when `clear` is set.
     */
    method GetAudioChunk(clear: bool) returns (audio: Option<Samples>)
      modifies this
      ensures audio.None? <==> old(buffer) == []
      ensures audio.Some? ==> audio.value == Flatten(old(buffer))
      ensures buffer == if clear then [] else old(buffer)
      ensures isCapturing == old(isCapturing) && stream == old(stream)
      ensures sourceSampleRate == old(sourceSampleRate) && sourceChannels == old(sourceChannels)
    {
      if buffer == [] {
        return None;
      }
      audio := Some(Flatten(buffer));
      if clear {
        buffer := [];
      }
    }
  }
}
