/** The kernel's block-device events, and the insertions and removals they amount to. */
module Monitor {
  import opened Wrappers
  import opened Events

  /** The size attribute of a device: absent, not a number, or a number of sectors. */
  datatype SizeAttribute = NoSize | BadSize | Size(sectors: nat)

  datatype KernelEvent = KernelEvent(action: Option<string>, sysname: Option<string>, size: SizeAttribute)

  datatype Edge = Edge(device: Device, change: StateChange)

  type Devices = map<Device, StateChange>

  const DEVICE_NAMES: seq<string> :=
    ["nbd0", "nbd1", "nbd2", "nbd3", "nbd4", "nbd5", "nbd6", "nbd7", "nbd8", "nbd9", "nbd10"]

  /** The index of `name` among the known names from `i` on. */
  function DeviceFrom(name: string, i: nat): Device
    requires i <= |DEVICE_NAMES|
    decreases |DEVICE_NAMES| - i
  {
    if i == |DEVICE_NAMES| then Unknown
    else if DEVICE_NAMES[i] == name then Nbd(i)
    else DeviceFrom(name, i + 1)
  }

  function DeviceNamed(name: string): Device {
    DeviceFrom(name, 0)
  }

  lemma NamesFrom(names: seq<string>, i: nat)
    requires i < |names|
    ensures names[i..] == [names[i]] + names[i + 1..]
  {
  }

  /** Every known name is a device of its own, and no other name is any. */
  lemma DeviceFromIff(name: string, i: nat, k: nat)
    requires i <= |DEVICE_NAMES|
    ensures DeviceFrom(name, i) == Nbd(k) ==> i <= k < |DEVICE_NAMES| && DEVICE_NAMES[k] == name
    ensures DeviceFrom(name, i) == Unknown <==> name !in DEVICE_NAMES[i..]
    decreases |DEVICE_NAMES| - i
  {
    if i < |DEVICE_NAMES| {
      DeviceFromIff(name, i + 1, k);
      NamesFrom(DEVICE_NAMES, i);
    }
  }

  lemma NamesDiffer(i: nat, j: nat)
    requires i < |DEVICE_NAMES| && j < |DEVICE_NAMES| && DEVICE_NAMES[i] == DEVICE_NAMES[j]
    ensures i == j
  {
  }

  lemma DeviceNamedIff(name: string, k: nat)
    ensures DeviceNamed(name) == Nbd(k) <==> k < |DEVICE_NAMES| && DEVICE_NAMES[k] == name
    ensures DeviceNamed(name) == Unknown <==> name !in DEVICE_NAMES
  {
    DeviceFromIff(name, 0, k);
    assert DEVICE_NAMES[0..] == DEVICE_NAMES;
    if k < |DEVICE_NAMES| && DEVICE_NAMES[k] == name {
      var d := DeviceNamed(name);
      DeviceFromIff(name, 0, d.number);
      NamesDiffer(k, d.number);
    }
  }

  /** The device and size an event reports, unless the event is one the monitor skips. */
  function Reported(devices: Devices, e: KernelEvent): Option<(Device, nat)> {
    if e.action == Some("change") && e.sysname.Some? then
      var device := DeviceNamed(e.sysname.value);
      if device != Unknown && device in devices && e.size.Size? then Some((device, e.size.sectors)) else None
    else None
  }

  function Present(sectors: nat): StateChange {
    if sectors > 0 then Inserted else Removed
  }

  function Observe(devices: Devices, e: KernelEvent): Devices {
    var r := Reported(devices, e);
    if r.None? then devices else devices[r.value.0 := Present(r.value.1)]
  }

  /** The callback an event causes: only a change of what is recorded counts. */
  function EdgeOf(devices: Devices, e: KernelEvent): Option<Edge> {
    var r := Reported(devices, e);
    if r.Some? && devices[r.value.0] != Present(r.value.1) then Some(Edge(r.value.0, Present(r.value.1))) else None
  }

  function ObserveAll(devices: Devices, stream: seq<KernelEvent>): Devices {
    if stream == [] then devices else Observe(ObserveAll(devices, stream[..|stream| - 1]), stream[|stream| - 1])
  }

  /** The event is one the monitor takes for a size of device `k`, in terms of what the kernel reports. */
  predicate Accepts(e: KernelEvent, k: nat) {
    e.action == Some("change") && k < |DEVICE_NAMES| && e.sysname == Some(DEVICE_NAMES[k]) && e.size.Size?
  }

  lemma ReportedIff(devices: Devices, e: KernelEvent, k: nat)
    ensures var r := Reported(devices, e);
            && (r.Some? && r.value.0 == Nbd(k) <==> Accepts(e, k) && Nbd(k) in devices)
            && (r.Some? ==> r.value.0.Nbd? && e.size == Size(r.value.1))
  {
    if e.sysname.Some? {
      DeviceNamedIff(e.sysname.value, k);
    }
  }

  /**
   One event, device by device: it changes the record of the device it names and of no other, to what its size says,
   and it is called back for that device alone, if that is news.
   */
  lemma EventTouchesOne(devices: Devices, e: KernelEvent, k: nat)
    requires Nbd(k) in devices
    ensures var after := if !Accepts(e, k) then devices[Nbd(k)] else if e.size.sectors > 0 then Inserted else Removed;
            var edge := EdgeOf(devices, e);
            && Nbd(k) in Observe(devices, e) && Observe(devices, e)[Nbd(k)] == after
            && (edge.Some? && edge.value.device == Nbd(k) <==> after != devices[Nbd(k)])
            && (edge.Some? && edge.value.device == Nbd(k) ==> edge.value.change == after)
  {
    hide DeviceNamed;
    ReportedIff(devices, e, k);
  }

  /** What has no known name is never called back for. */
  lemma KnownOnly(devices: Devices, e: KernelEvent)
    ensures EdgeOf(devices, e).Some? ==> EdgeOf(devices, e).value.device.Nbd?
  {
    hide DeviceNamed;
  }

  /** The callbacks of a whole stream that concern `device`, in order. */
  function EdgesFor(devices: Devices, stream: seq<KernelEvent>, device: Device): seq<StateChange> {
    if stream == [] then []
    else
      var before := stream[..|stream| - 1];
      var edge := EdgeOf(ObserveAll(devices, before), stream[|stream| - 1]);
      EdgesFor(devices, before, device)
      + if edge.Some? && edge.value.device == device then [edge.value.change] else []
  }

  /** Whether the last size accepted for `device` was positive. */
  function LastPositive(devices: Devices, stream: seq<KernelEvent>, device: Device): bool {
    if stream == [] then false
    else
      var r := Reported(devices, stream[|stream| - 1]);
      if r.Some? && r.value.0 == device then r.value.1 > 0
      else LastPositive(devices, stream[..|stream| - 1], device)
  }

  /** A monitor just built watches its devices as removed. */
  predicate AllRemoved(devices: Devices) {
    forall d :: d in devices ==> devices[d] == Removed
  }

  predicate Alternates(edges: seq<StateChange>) {
    forall i :: 0 <= i < |edges| ==> edges[i] == if i % 2 == 0 then Inserted else Removed
  }

  lemma {:induction false} DevicesStay(devices: Devices, stream: seq<KernelEvent>)
    ensures ObserveAll(devices, stream).Keys == devices.Keys
  {
    if stream != [] {
      DevicesStay(devices, stream[..|stream| - 1]);
    }
  }

  /** What is recorded is always what the last accepted size said. */
  lemma {:induction false} RecordedIsLastAccepted(devices: Devices, stream: seq<KernelEvent>, device: Device)
    requires AllRemoved(devices) && device in devices
    ensures device in ObserveAll(devices, stream)
    ensures ObserveAll(devices, stream)[device] == if LastPositive(devices, stream, device) then Inserted else Removed
  {
    if stream != [] {
      DevicesStay(devices, stream[..|stream| - 1]);
      RecordedIsLastAccepted(devices, stream[..|stream| - 1], device);
    }
  }

  lemma ReportedAlike(a: Devices, b: Devices, e: KernelEvent)
    requires a.Keys == b.Keys
    ensures Reported(a, e) == Reported(b, e)
  {
  }

  /** Callbacks of one device are insertions and removals in turn, whatever the kernel repeats or garbles. */
  lemma {:induction false} EdgesAlternate(devices: Devices, stream: seq<KernelEvent>, device: Device)
    requires AllRemoved(devices) && device in devices
    ensures Alternates(EdgesFor(devices, stream, device))
    ensures LastPositive(devices, stream, device) <==> |EdgesFor(devices, stream, device)| % 2 == 1
  {
    hide Reported, ObserveAll;
    if stream != [] {
      var before := stream[..|stream| - 1];
      DevicesStay(devices, before);
      ReportedAlike(devices, ObserveAll(devices, before), stream[|stream| - 1]);
      EdgesAlternate(devices, before, device);
      RecordedIsLastAccepted(devices, before, device);
    }
  }

  /** Among the events of the stream that are sizes of device `k`, the last is positive. */
  ghost predicate EndsPositive(stream: seq<KernelEvent>, k: nat) {
    exists i :: 0 <= i < |stream| && Accepts(stream[i], k) && stream[i].size.sectors > 0
                && forall j :: i < j < |stream| ==> !Accepts(stream[j], k)
  }

  lemma {:induction false} LastPositiveIff(devices: Devices, stream: seq<KernelEvent>, k: nat)
    requires Nbd(k) in devices
    ensures LastPositive(devices, stream, Nbd(k)) <==> EndsPositive(stream, k)
  {
    hide DeviceNamed, Reported;
    if stream != [] {
      var before := stream[..|stream| - 1];
      LastPositiveIff(devices, before, k);
      ReportedIff(devices, stream[|stream| - 1], k);
      assert forall j :: 0 <= j < |before| ==> before[j] == stream[j];
      if EndsPositive(before, k) && !Accepts(stream[|stream| - 1], k) {
        var i :| 0 <= i < |before| && Accepts(before[i], k) && before[i].size.sectors > 0
                 && forall j :: i < j < |before| ==> !Accepts(before[j], k);
        assert Accepts(stream[i], k);
      }
    }
  }

  class DeviceMonitor {
    var devices: Devices

    constructor ()
      ensures devices == map[]
    {
      devices := map[];
    }

    /** A device already watched keeps what is recorded for it. */
    method AddDevice(device: Device)
      modifies this
      ensures devices == if device in old(devices) then old(devices) else old(devices)[device := Removed]
    {
      if device !in devices {
        devices := devices[device := Removed];
      }
    }

    method GetState(device: Device) returns (state: StateChange)
      ensures device in devices ==> state == devices[device]
      ensures device !in devices ==> state == NotMonitored
    {
      if device in devices {
        return devices[device];
      }
      return NotMonitored;
    }

    method FindDevice(name: string) returns (device: Device)
      ensures device == DeviceNamed(name)
    {
      var i := 0;
      while i < |DEVICE_NAMES|
        invariant 0 <= i <= |DEVICE_NAMES|
        invariant DeviceNamed(name) == DeviceFrom(name, i)
      {
        if DEVICE_NAMES[i] == name {
          return Nbd(i);
        }
        i := i + 1;
      }
      return Unknown;
    }

    method Process(e: KernelEvent) returns (edge: Option<Edge>)
      modifies this
      ensures devices == Observe(old(devices), e) && edge == EdgeOf(old(devices), e)
    {
      if e.action.None? || e.action.value != "change" || e.sysname.None? {
        return None;
      }
      var device := FindDevice(e.sysname.value);
      if device == Unknown || device !in devices || !e.size.Size? {
        return None;
      }
      if e.size.sectors > 0 && devices[device] != Inserted {
        devices := devices[device := Inserted];
        return Some(Edge(device, Inserted));
      } else if e.size.sectors == 0 && devices[device] != Removed {
        devices := devices[device := Removed];
        return Some(Edge(device, Removed));
      }
      assert devices[device := devices[device]] == devices;
      return None;
    }

    /** The receiving loop, over the events of one stream, with the callbacks made for `device`. */
    method Run(stream: seq<KernelEvent>, device: Device) returns (callbacks: seq<StateChange>)
      modifies this
      ensures devices == ObserveAll(old(devices), stream)
      ensures callbacks == EdgesFor(old(devices), stream, device)
    {
      callbacks := [];
      for i := 0 to |stream|
        invariant devices == ObserveAll(old(devices), stream[..i])
        invariant callbacks == EdgesFor(old(devices), stream[..i], device)
      {
        assert stream[..i + 1][..i] == stream[..i];
        var edge := Process(stream[i]);
        if edge.Some? && edge.value.device == device {
          callbacks := callbacks + [edge.value.change];
        }
      }
      assert stream[..|stream|] == stream;
    }
  }
}
