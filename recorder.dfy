/** Input-device resolution of the recorder scripts: listing the devices
    that can record, resolving one by name substring, by the host's default
    or by the first capable device, and choosing one from a numbered menu.
    The host enumeration (`sd.query_devices()`) is the sequence `devices`;
    its position is the device index. */
module Recorder {
  import opened Results
  import opened Text

  /** One entry of the host's device enumeration. */
  datatype Device = Device(name: string, maxInputChannels: int)

  datatype DeviceError =
    | NotFound(query: string)   // "Input device containing '...' not found."
    | NoInputDevice             // no device with recording channels at all
    | QueryFailed(index: int)   // `sd.query_devices(i)` for an index the host does not have
    | IndexOutOfRange(index: int) // `devices[i]` past the end of the enumeration
    | NoDevicesAvailable        // the menu would be empty
    | InvalidSelection          // a menu choice that is not an integer or not a position

  /** Python's truth test `if name:`: `None` and "" are false. */
  predicate Given(name: Option<string>)
  {
    name.Some? && |name.value| > 0
  }

  predicate Capable(d: Device, minChannels: int)
  {
    d.maxInputChannels >= minChannels
  }

  /** `query.lower() in d['name'].lower()` and enough input channels. */
  predicate Matches(d: Device, query: string, minChannels: int)
  {
    Contains(Lower(d.name), Lower(query)) && Capable(d, minChannels)
  }

  /** `i` is the lowest index of a device satisfying the search. */
  ghost predicate IsFirstMatch(devices: seq<Device>, query: string, minChannels: int, i: int)
  {
    0 <= i < |devices| && Matches(devices[i], query, minChannels) &&
    forall j :: 0 <= j < i ==> !Matches(devices[j], query, minChannels)
  }

  ghost predicate AnyMatch(devices: seq<Device>, query: string, minChannels: int)
  {
    exists i :: 0 <= i < |devices| && Matches(devices[i], query, minChannels)
  }

  /** `i` is the lowest index of a device with enough input channels. */
  ghost predicate IsFirstCapable(devices: seq<Device>, minChannels: int, i: int)
  {
    0 <= i < |devices| && Capable(devices[i], minChannels) &&
    forall j :: 0 <= j < i ==> !Capable(devices[j], minChannels)
  }

  ghost predicate AnyCapable(devices: seq<Device>, minChannels: int)
  {
    exists i :: 0 <= i < |devices| && Capable(devices[i], minChannels)
  }

  /** `for idx, d in enumerate(devices): if p(d): return idx`, starting at `from`. */
  function FirstWhere(devices: seq<Device>, p: Device -> bool, from: nat): (r: Option<nat>)
    requires from <= |devices|
    ensures r.Some? ==> from <= r.value < |devices| && p(devices[r.value]) &&
                        forall j :: from <= j < r.value ==> !p(devices[j])
    ensures r.None? ==> forall j :: from <= j < |devices| ==> !p(devices[j])
    decreases |devices| - from
  {
    if from == |devices| then None
    else if p(devices[from]) then Some(from)
    else FirstWhere(devices, p, from + 1)
  }

  /** The name search shared by every variant. */
  function FindByName(devices: seq<Device>, query: string, minChannels: int): (r: Option<nat>)
    ensures r.Some? ==> IsFirstMatch(devices, query, minChannels, r.value)
    ensures r.None? <==> !AnyMatch(devices, query, minChannels)
  {
    FirstWhere(devices, d => Matches(d, query, minChannels), 0)
  }

  /** The last fallback shared by every variant: the first capable device,
      or "no input device". */
  function FirstCapable(devices: seq<Device>, minChannels: int): (r: Result<int, DeviceError>)
    ensures r.Ok? ==> IsFirstCapable(devices, minChannels, r.value)
    ensures r.Err? ==> r.error == NoInputDevice && !AnyCapable(devices, minChannels)
    ensures r.Err? <== !AnyCapable(devices, minChannels)
  {
    match FirstWhere(devices, d => Capable(d, minChannels), 0)
    case Some(i) => Ok(i)
    case None => Err(NoInputDevice)
  }

  /** The devices listed by `list_input_devices`: those of the first `n`
      entries with at least `minChannels` input channels, each paired with
      its own index. */
  function ListPrefix(devices: seq<Device>, minChannels: int, n: nat): (r: seq<(nat, string)>)
    requires n <= |devices|
    ensures forall k :: 0 <= k < |r| ==>
      r[k].0 < n && r[k].1 == devices[r[k].0].name && Capable(devices[r[k].0], minChannels)
    ensures forall k, l :: 0 <= k < l < |r| ==> r[k].0 < r[l].0
    decreases n
  {
    if n == 0 then []
    else
      var prev := ListPrefix(devices, minChannels, n - 1);
      if Capable(devices[n - 1], minChannels) then
        var r := prev + [(n - 1, devices[n - 1].name)];
        assert forall k :: 0 <= k < |prev| ==> r[k] == prev[k];
        assert r[|prev|] == (n - 1, devices[n - 1].name);
        r
      else prev
  }

  /** No capable device among the first `n` is left off the list. */
  lemma {:induction false} ListPrefixComplete(devices: seq<Device>, minChannels: int, n: nat, i: nat)
    requires n <= |devices| && i < n && Capable(devices[i], minChannels)
    ensures exists k :: 0 <= k < |ListPrefix(devices, minChannels, n)| && ListPrefix(devices, minChannels, n)[k].0 == i
    decreases n
  {
    var prev := ListPrefix(devices, minChannels, n - 1);
    var r := ListPrefix(devices, minChannels, n);
    if i < n - 1 {
      ListPrefixComplete(devices, minChannels, n - 1, i);
      var k :| 0 <= k < |prev| && prev[k].0 == i;
      assert r[k] == prev[k];
    } else {
      assert r[|prev|].0 == i;
    }
  }

  /** `list_input_devices()`: every device that can record, in enumeration
      order, paired with its index. */
  function ListInputDevices(devices: seq<Device>, minChannels: int): (r: seq<(nat, string)>)
    ensures forall k :: 0 <= k < |r| ==>
      r[k].0 < |devices| && r[k].1 == devices[r[k].0].name && Capable(devices[r[k].0], minChannels)
    ensures forall k, l :: 0 <= k < l < |r| ==> r[k].0 < r[l].0
    ensures forall i :: 0 <= i < |devices| && Capable(devices[i], minChannels) ==>
      exists k :: 0 <= k < |r| && r[k].0 == i
    ensures |r| == 0 <==> !AnyCapable(devices, minChannels)
  {
    var r := ListPrefix(devices, minChannels, |devices|);
    forall i | 0 <= i < |devices| && Capable(devices[i], minChannels)
      ensures exists k :: 0 <= k < |r| && r[k].0 == i
    {
      ListPrefixComplete(devices, minChannels, |devices|, i);
    }
    assert |r| > 0 ==> Capable(devices[r[0].0], minChannels);
    r
  }

  /** The strict `find_input_device(name_substr)`: a given name that no
      capable device matches raises; without a name the default device is
      used when the host knows it and it has input channels, otherwise the
      first capable device. */
  function FindInputDevice(devices: seq<Device>, nameSubstr: Option<string>, default: Option<int>)
    : (r: Result<int, DeviceError>)
    ensures r.Ok? ==> 0 <= r.value < |devices| && Capable(devices[r.value], 1)
    ensures Given(nameSubstr) ==>
      && (r.Ok? <==> AnyMatch(devices, nameSubstr.value, 1))
      && (r.Ok? ==> IsFirstMatch(devices, nameSubstr.value, 1, r.value))
      && (r.Err? ==> r.error == NotFound(nameSubstr.value))
    ensures (!Given(nameSubstr) && default.Some? && !(0 <= default.value < |devices|)) ==>
      r == Err(QueryFailed(default.value))
    ensures (!Given(nameSubstr) && default.Some? && 0 <= default.value < |devices| &&
      devices[default.value].maxInputChannels > 0) ==> r == Ok(default.value)
    ensures (!Given(nameSubstr) && (default.None? || (0 <= default.value < |devices| &&
      devices[default.value].maxInputChannels <= 0))) ==>
      && (r.Ok? ==> IsFirstCapable(devices, 1, r.value))
      && (r.Err? <==> !AnyCapable(devices, 1))
      && (r.Err? ==> r.error == NoInputDevice)
  {
    if Given(nameSubstr) then
      match FindByName(devices, nameSubstr.value, 1)
      case Some(i) => Ok(i)
      case None => Err(NotFound(nameSubstr.value))
    else if default.Some? && !(0 <= default.value < |devices|) then
      Err(QueryFailed(default.value))
    else if default.Some? && devices[default.value].maxInputChannels > 0 then
      Ok(default.value)
    else
      FirstCapable(devices, 1)
  }

  /** The fallback `find_input_device(preferred_name)`: a name that matches
      no capable device falls through to the default device (when it is
      known, not negative and capable), then to the first capable device. */
  function FindWithFallback(devices: seq<Device>, preferredName: Option<string>,
                            defaultIdx: Option<int>, minChannels: int)
    : (r: Result<int, DeviceError>)
    ensures r.Ok? ==> 0 <= r.value < |devices| && Capable(devices[r.value], minChannels)
    ensures Given(preferredName) && AnyMatch(devices, preferredName.value, minChannels) ==>
      r.Ok? && IsFirstMatch(devices, preferredName.value, minChannels, r.value)
    ensures (!Given(preferredName) || !AnyMatch(devices, preferredName.value, minChannels)) ==>
      && (defaultIdx.Some? && defaultIdx.value >= |devices| ==> r == Err(IndexOutOfRange(defaultIdx.value)))
      && ((defaultIdx.Some? && 0 <= defaultIdx.value < |devices| &&
           Capable(devices[defaultIdx.value], minChannels)) ==> r == Ok(defaultIdx.value))
      && ((defaultIdx.None? || defaultIdx.value < 0 ||
           (defaultIdx.value < |devices| && !Capable(devices[defaultIdx.value], minChannels))) ==>
            && (r.Ok? ==> IsFirstCapable(devices, minChannels, r.value))
            && (r.Err? <==> !AnyCapable(devices, minChannels))
            && (r.Err? ==> r.error == NoInputDevice))
    ensures r.Err? ==> r.error == NoInputDevice || r.error.IndexOutOfRange?
  {
    var named := if Given(preferredName) then FindByName(devices, preferredName.value, minChannels) else None;
    if named.Some? then Ok(named.value)
    else if defaultIdx.Some? && defaultIdx.value >= 0 && defaultIdx.value >= |devices| then
      Err(IndexOutOfRange(defaultIdx.value))
    else if defaultIdx.Some? && defaultIdx.value >= 0 && Capable(devices[defaultIdx.value], minChannels) then
      Ok(defaultIdx.value)
    else
      FirstCapable(devices, minChannels)
  }

  /** Python's `xs[c]` on a list of length `n`: negative positions count
      from the end; anything else outside the list raises IndexError. */
  function PyIndex(n: nat, c: int): (r: Option<nat>)
    ensures r.Some? <==> -(n as int) <= c < n
    ensures r.Some? ==> r.value < n && (r.value == c || r.value == n + c)
  {
    if 0 <= c < n then Some(c)
    else if -(n as int) <= c < 0 then Some(n + c)
    else None
  }

  /** `select_input_device()`: the menu lists the capable devices; `choice`
      is `int(input(...))`, `None` when that raises ValueError. The result
      is the device index stored at the chosen menu position. */
  function SelectInputDevice(devices: seq<Device>, minChannels: int, choice: Option<int>)
    : (r: Result<int, DeviceError>)
    ensures !AnyCapable(devices, minChannels) ==> r == Err(NoDevicesAvailable)
    ensures r.Ok? ==> 0 <= r.value < |devices| && Capable(devices[r.value], minChannels)
    ensures AnyCapable(devices, minChannels) ==>
      var menu := ListInputDevices(devices, minChannels);
      && (r.Ok? <==> choice.Some? && -|menu| <= choice.value < |menu|)
      && (r.Ok? ==> && (0 <= choice.value ==> r.value == menu[choice.value].0)
                    && (choice.value < 0 ==> r.value == menu[|menu| + choice.value].0))
      && (r.Err? ==> r.error == InvalidSelection)
  {
    var menu := ListInputDevices(devices, minChannels);
    if |menu| == 0 then Err(NoDevicesAvailable)
    else if choice.None? then Err(InvalidSelection)
    else match PyIndex(|menu|, choice.value)
      case Some(p) => Ok(menu[p].0)
      case None => Err(InvalidSelection)
  }

  /** `find_zoom_input()`: the strict search for "Zoom" (the last
      `find_input_device` defined in its module is the one called). */
  function FindZoomInput(devices: seq<Device>, default: Option<int>): (r: Result<int, DeviceError>)
    ensures r.Ok? ==> IsFirstMatch(devices, "zoom", 1, r.value)
    ensures r.Err? <==> !AnyMatch(devices, "zoom", 1)
    ensures r.Err? ==> r.error == NotFound("Zoom")
  {
    assert Lower("Zoom") == "zoom" == Lower("zoom");
    FindInputDevice(devices, Some("Zoom"), default)
  }

  /** The device defaulting of `record_audio(device_index=None)`: an explicit
      index is used as given, unchecked; otherwise `find_input_device()`
      without a name. */
  function RecordDevice(devices: seq<Device>, deviceIndex: Option<int>, default: Option<int>)
    : (r: Result<int, DeviceError>)
    ensures deviceIndex.Some? ==> r == Ok(deviceIndex.value)
    ensures deviceIndex.None? && r.Ok? ==> 0 <= r.value < |devices| && Capable(devices[r.value], 1)
    ensures deviceIndex.None? && r.Err? ==> r.error == NoInputDevice || r.error.QueryFailed?
    ensures deviceIndex.None? && default.Some? && !(0 <= default.value < |devices|) ==>
      r == Err(QueryFailed(default.value))
    ensures (deviceIndex.None? && default.Some? && 0 <= default.value < |devices| &&
      devices[default.value].maxInputChannels > 0) ==> r == Ok(default.value)
    ensures (deviceIndex.None? && (default.None? || (0 <= default.value < |devices| &&
      devices[default.value].maxInputChannels <= 0))) ==>
      && (r.Ok? ==> IsFirstCapable(devices, 1, r.value))
      && (r.Err? <==> !AnyCapable(devices, 1))
  {
    if deviceIndex.None? then FindInputDevice(devices, None, default)
    else Ok(deviceIndex.value)
  }
}
