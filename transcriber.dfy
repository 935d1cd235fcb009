/** The live transcriber for the Zoom H6: device resolution with a
    CHANNELS-input requirement, the stream callback that queues captured
    blocks, the accumulator that cuts the captured audio into chunks of
    about CHUNK_DURATION seconds, and the rule that skips silent chunks.
    Wall-clock readings are parameters; the worker threads that transcribe
    the chunks and the speech model are not modelled. */
module LiveTranscriber {
  import opened Results
  import opened Signal
  import opened Recorder

  const SAMPLE_RATE: nat := 44100
  const CHANNELS: nat := 1
  const CHUNK_DURATION: real := 5.0
  /** Chunks whose peak magnitude stays below this are not transcribed. */
  const SILENCE_LEVEL: real := 0.01

  /** `list_input_devices()`: the devices with at least CHANNELS inputs,
      each with its index, in enumeration order. */
  function ListDevices(devices: seq<Device>): (r: seq<(nat, string)>)
    ensures forall k :: 0 <= k < |r| ==>
      r[k].0 < |devices| && r[k].1 == devices[r[k].0].name && Capable(devices[r[k].0], CHANNELS)
    ensures forall k, l :: 0 <= k < l < |r| ==> r[k].0 < r[l].0
    ensures forall i :: 0 <= i < |devices| && Capable(devices[i], CHANNELS) ==>
      exists k :: 0 <= k < |r| && r[k].0 == i
  {
    ListInputDevices(devices, CHANNELS)
  }

  /** `find_input_device(name)`: a name that matches no device with enough
      inputs is ignored, exactly as if none had been given. */
  function FindDevice(devices: seq<Device>, name: Option<string>, default: Option<int>): (r: Result<int, DeviceError>)
    ensures r.Ok? ==> 0 <= r.value < |devices| && Capable(devices[r.value], CHANNELS)
    ensures Given(name) && AnyMatch(devices, name.value, CHANNELS) ==>
      r.Ok? && IsFirstMatch(devices, name.value, CHANNELS, r.value)
    ensures Given(name) && !AnyMatch(devices, name.value, CHANNELS) ==>
      r == FindWithFallback(devices, None, default, CHANNELS)
    ensures (!Given(name) || !AnyMatch(devices, name.value, CHANNELS)) ==>
      && (default.Some? && default.value >= |devices| ==> r == Err(IndexOutOfRange(default.value)))
      && ((default.Some? && 0 <= default.value < |devices| &&
           Capable(devices[default.value], CHANNELS)) ==> r == Ok(default.value))
      && ((default.None? || default.value < 0 ||
           (default.value < |devices| && !Capable(devices[default.value], CHANNELS))) ==>
            && (r.Ok? ==> IsFirstCapable(devices, CHANNELS, r.value))
            && (r.Err? <==> !AnyCapable(devices, CHANNELS)))
    ensures r.Err? ==> r.error == NoInputDevice || r.error.IndexOutOfRange?
  {
    FindWithFallback(devices, name, default, CHANNELS)
  }

  /** `select_input_device()` over the CHANNELS-capable devices. */
  function SelectDevice(devices: seq<Device>, choice: Option<int>): (r: Result<int, DeviceError>)
    ensures !AnyCapable(devices, CHANNELS) ==> r == Err(NoDevicesAvailable)
    ensures r.Ok? ==> 0 <= r.value < |devices| && Capable(devices[r.value], CHANNELS)
    ensures AnyCapable(devices, CHANNELS) ==>
      var menu := ListDevices(devices);
      && (r.Ok? <==> choice.Some? && PyIndex(|menu|, choice.value).Some?)
      && (r.Ok? ==> r.value == menu[PyIndex(|menu|, choice.value).value].0)
      && (r.Err? ==> r.error == InvalidSelection)
  {
    SelectInputDevice(devices, CHANNELS, choice)
  }

  /** The device choice of the script's entry point: `--choose-device`
      first, then `--device-index` as given, then the name search. Any
      device it picks itself (not handed over by index) has enough inputs. */
  function ResolveDevice(devices: seq<Device>, chooseDevice: bool, deviceIndex: Option<int>,
                         deviceName: Option<string>, default: Option<int>, choice: Option<int>)
    : (r: Result<int, DeviceError>)
    ensures chooseDevice ==> r == SelectDevice(devices, choice)
    ensures !chooseDevice && deviceIndex.Some? ==> r == Ok(deviceIndex.value)
    ensures !chooseDevice && deviceIndex.None? ==> r == FindDevice(devices, deviceName, default)
    ensures r.Ok? && (chooseDevice || deviceIndex.None?) ==>
      0 <= r.value < |devices| && Capable(devices[r.value], CHANNELS)
  {
    if chooseDevice then SelectDevice(devices, choice)
    else if deviceIndex.Some? then Ok(deviceIndex.value)
    else FindDevice(devices, deviceName, default)
  }

  /** What `transcribe_audio` does with a chunk. */
  datatype ChunkOutcome =
    | Failed      // `np.max` of an empty chunk raises; the error is logged
    | Skipped     // "Skipped silent audio chunk"
    | Transcribe  // handed to the speech model

  /** The silence rule: a chunk is skipped exactly when every sample's
      magnitude is strictly below SILENCE_LEVEL. */
  function SilenceDecision(chunk: seq<real>): (r: ChunkOutcome)
    ensures r == Failed <==> |chunk| == 0
    ensures r == Skipped <==> (|chunk| > 0 && forall i :: 0 <= i < |chunk| ==> Abs(chunk[i]) < SILENCE_LEVEL)
    ensures r == Transcribe <==> exists i :: 0 <= i < |chunk| && Abs(chunk[i]) >= SILENCE_LEVEL
  {
    if |chunk| == 0 then Failed
    else if MaxAbs(chunk) < SILENCE_LEVEL then Skipped
    else Transcribe
  }

  /** One frame of `indata`: one sample per channel. */
  type Frame = seq<real>

  /** Every frame has CHANNELS samples, as the stream delivers them. */
  predicate WellShaped(frames: seq<Frame>)
  {
    forall k :: 0 <= k < |frames| ==> |frames[k]| == CHANNELS
  }

  /** `buffer[:, 0]`: the first channel of each frame. */
  function Column0(frames: seq<Frame>): (c: seq<real>)
    requires WellShaped(frames)
    ensures |c| == |frames|
    ensures forall k :: 0 <= k < |frames| ==> c[k] == frames[k][0]
  {
    seq(|frames|, k requires 0 <= k < |frames| => frames[k][0])
  }

  lemma {:induction false} FlattenWellShaped(blocks: seq<seq<Frame>>)
    requires forall b :: b in blocks ==> WellShaped(b)
    ensures WellShaped(Flatten(blocks))
    decreases |blocks|
  {
    if blocks != [] {
      assert forall b :: b in blocks[1..] ==> b in blocks;
      FlattenWellShaped(blocks[1..]);
      assert blocks[0] in blocks;
      ShapedAppend(blocks[0], Flatten(blocks[1..]));
    }
  }

  /** The first channel of a sequence of blocks, in order. */
  ghost function Captured(blocks: seq<seq<Frame>>): seq<real>
    requires forall b :: b in blocks ==> WellShaped(b)
  {
    FlattenWellShaped(blocks);
    Column0(Flatten(blocks))
  }

  lemma ShapedAppend(a: seq<Frame>, b: seq<Frame>)
    requires WellShaped(a) && WellShaped(b)
    ensures WellShaped(a + b) && Column0(a + b) == Column0(a) + Column0(b)
  {
    assert forall k :: 0 <= k < |a + b| ==> (a + b)[k] == if k < |a| then a[k] else b[k - |a|];
  }

  /** Appending a taken block to the buffer keeps the accumulator's
      account of the captured audio. */
  lemma {:induction false} AppendKeeps(chunks: seq<seq<real>>, buffer: seq<Frame>, taken: seq<seq<Frame>>, data: seq<Frame>)
    requires WellShaped(buffer) && WellShaped(data) && forall b :: b in taken ==> WellShaped(b)
    requires Flatten(chunks) + Column0(buffer) == Captured(taken)
    ensures WellShaped(buffer + data)
    ensures forall b :: b in taken + [data] ==> WellShaped(b)
    ensures Flatten(chunks) + Column0(buffer + data) == Captured(taken + [data])
  {
    FlattenWellShaped(taken);
    FlattenAppend(taken, [data]);
    assert Flatten([data]) == data;
    ShapedAppend(Flatten(taken), data);
    ShapedAppend(buffer, data);
  }

  /** Cutting the whole buffer as a chunk keeps the account too. */
  lemma CutKeeps(chunks: seq<seq<real>>, buffer: seq<Frame>)
    requires WellShaped(buffer)
    ensures Flatten(chunks + [Column0(buffer)]) + Column0([]) == Flatten(chunks) + Column0(buffer)
  {
    FlattenAppend(chunks, [Column0(buffer)]);
    assert Flatten([Column0(buffer)]) == Column0(buffer);
  }

  class Transcriber {
    /** `audio_queue`, oldest block first. */
    var queue: seq<seq<Frame>>
    /** The frames gathered since the last chunk was cut. */
    var buffer: seq<Frame>
    /** `last_time`: when the current chunk was started. */
    var lastTime: real
    /** The chunks handed to `transcribe_audio`, in order. */
    var chunks: seq<seq<real>>
    /** Every block taken from the queue so far, in order. */
    ghost var taken: seq<seq<Frame>>

    /** Queued blocks are non-empty and well shaped, and the chunks cut so
        far followed by the buffer's first channel are exactly the first
        channel of everything taken from the queue: nothing is dropped,
        duplicated or reordered. */
    ghost predicate Valid()
      reads this
    {
      && (forall b :: b in queue ==> |b| > 0 && WellShaped(b))
      && (forall b :: b in taken ==> WellShaped(b))
      && WellShaped(buffer)
      && (forall c :: c in chunks ==> |c| > 0)
      && Flatten(chunks) + Column0(buffer) == Captured(taken)
    }

    /** The state when `capture_audio` starts listening. */
    constructor (startTime: real)
      ensures Valid()
      ensures queue == [] && buffer == [] && chunks == [] && taken == [] && lastTime == startTime
    {
      queue := [];
      buffer := [];
      chunks := [];
      taken := [];
      lastTime := startTime;
    }

    /** `audio_callback`: an empty block is dropped, any other is queued;
        the status flag is only reported and never changes what is queued. */
    method AudioCallback(indata: seq<Frame>, status: bool)
      requires Valid() && WellShaped(indata)
      modifies this
      ensures Valid()
      ensures queue == if |indata| == 0 then old(queue) else old(queue) + [indata]
      ensures buffer == old(buffer) && chunks == old(chunks) && taken == old(taken) && lastTime == old(lastTime)
    {
      if |indata| > 0 {
        queue := queue + [indata];
      }
    }

    /** One turn of the `capture_audio` loop: take the oldest block, append
        it to the buffer and, when `checkTime` is at least CHUNK_DURATION
        after the chunk started, cut the buffer's first channel as a chunk,
        empty the buffer and restart the timer at `resetTime`. */
    method CaptureStep(checkTime: real, resetTime: real)
      requires Valid() && |queue| > 0
      modifies this
      ensures Valid()
      ensures taken == old(taken) + [old(queue)[0]] && queue == old(queue)[1..]
      ensures checkTime - old(lastTime) >= CHUNK_DURATION ==>
        (WellShaped(old(buffer) + old(queue)[0]) &&
         chunks == old(chunks) + [Column0(old(buffer) + old(queue)[0])] &&
         buffer == [] && lastTime == resetTime)
      ensures checkTime - old(lastTime) < CHUNK_DURATION ==>
        chunks == old(chunks) && buffer == old(buffer) + old(queue)[0] && lastTime == old(lastTime)
    {
      var data := queue[0];
      assert data in queue;
      AppendKeeps(chunks, buffer, taken, data);
      queue := queue[1..];
      taken := taken + [data];
      buffer := buffer + data;
      if checkTime - lastTime >= CHUNK_DURATION {
        var chunk := Column0(buffer);
        CutKeeps(chunks, buffer);
        chunks := chunks + [chunk];
        buffer := [];
        lastTime := resetTime;
      }
    }

    /** `n` turns of the capture loop, the i-th reading the clock as
        `clock[i]` (check, reset): the blocks are taken in queue order. */
    method Capture(clock: seq<(real, real)>)
      requires Valid() && |queue| >= |clock|
      modifies this
      ensures Valid()
      ensures taken == old(taken) + old(queue)[..|clock|] && queue == old(queue)[|clock|..]
    {
      var i := 0;
      while i < |clock|
        invariant 0 <= i <= |clock|
        invariant Valid()
        invariant taken == old(taken) + old(queue)[..i] && queue == old(queue)[i..]
      {
        assert old(queue)[..i + 1] == old(queue)[..i] + [queue[0]];
        CaptureStep(clock[i].0, clock[i].1);
        assert queue == old(queue)[i + 1..];
        i := i + 1;
      }
    }
  }

  /** No chunk the accumulator cuts makes `transcribe_audio` fail on an
      empty array. */
  lemma ChunksNeverFail(t: Transcriber, k: nat)
    requires t.Valid() && k < |t.chunks|
    ensures SilenceDecision(t.chunks[k]) != Failed
  {
    assert t.chunks[k] in t.chunks;
  }
}
