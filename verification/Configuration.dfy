/** Which mount points a configuration file yields, and what the system built from them can rely on. */
module Configuration {
  import opened Wrappers
  import opened Events
  import Monitor
  import Systems
  import SystemRuns

  /** A member of a JSON object: left out, of another type than asked for, or as asked for. */
  datatype Field<T> = Missing | WrongType | Given(value: T)

  datatype Item = Item(
    name: string, nbdDevice: Field<string>, unixSocket: Field<string>, endpointId: Field<string>, mode: Field<nat>)

  /** Everything but the mode may be left out; nothing may be of the wrong type. */
  predicate Acceptable(item: Item) {
    && (item.nbdDevice.Given? ==> Monitor.DeviceNamed(item.nbdDevice.value) != Unknown)
    && !item.nbdDevice.WrongType? && !item.unixSocket.WrongType? && !item.endpointId.WrongType?
    && (item.mode == Given(0) || item.mode == Given(1))
  }

  /** The last acceptable item of that name. */
  function LastItem(items: seq<Item>, name: string): Option<Item> {
    if items == [] then None
    else
      var item := items[|items| - 1];
      if item.name == name && Acceptable(item) then Some(item) else LastItem(items[..|items| - 1], name)
  }

  /** `slotNumber` is what the digits of a name come to. */
  function MountPointOf(item: Item, slotNumber: string -> int): MountPoint {
    MountPoint(
      if item.nbdDevice.Given? then Monitor.DeviceNamed(item.nbdDevice.value) else Unknown,
      if item.mode == Given(0) then Proxy else Legacy,
      slotNumber(item.name))
  }

  /** A mount point is as its item says: mode 0 or 1, the device of that name if one is given, and none otherwise. */
  predicate IsAsGiven(mountPoint: MountPoint, item: Item, slotNumber: int) {
    && (mountPoint.mode.Proxy? <==> item.mode == Given(0))
    && (mountPoint.mode.Legacy? <==> item.mode == Given(1))
    && (item.nbdDevice.Missing? <==> mountPoint.device == Unknown)
    && (item.nbdDevice.Given? ==> item.nbdDevice.value in Monitor.DEVICE_NAMES)
    && (forall k | 0 <= k < |Monitor.DEVICE_NAMES| ::
          mountPoint.device == Nbd(k) <==> item.nbdDevice == Given(Monitor.DEVICE_NAMES[k]))
    && mountPoint.slotNumber == slotNumber
  }

  lemma LoadedIsAsGiven(item: Item, slotNumber: string -> int)
    requires Acceptable(item)
    ensures IsAsGiven(MountPointOf(item, slotNumber), item, slotNumber(item.name))
  {
    forall k: nat | k < |Monitor.DEVICE_NAMES| && item.nbdDevice.Given? {
      Monitor.DeviceNamedIff(item.nbdDevice.value, k);
    }
    if item.nbdDevice.Given? {
      Monitor.DeviceNamedIff(item.nbdDevice.value, 0);
    }
  }

  /** What an item is skipped for. */
  lemma SkippedIff(item: Item)
    ensures !Acceptable(item) <==>
              || item.nbdDevice.WrongType? || item.unixSocket.WrongType? || item.endpointId.WrongType?
              || (item.nbdDevice.Given? && item.nbdDevice.value !in Monitor.DEVICE_NAMES)
              || (item.mode != Given(0) && item.mode != Given(1))
  {
    if item.nbdDevice.Given? {
      Monitor.DeviceNamedIff(item.nbdDevice.value, 0);
    }
  }

  /** The item a mount point of that name is loaded from: the last acceptable one, by its place in the file. */
  lemma {:induction false} LastItemIsLast(items: seq<Item>, name: string)
    ensures var last := LastItem(items, name);
            && (last.None? <==> forall i :: 0 <= i < |items| ==> !(items[i].name == name && Acceptable(items[i])))
            && (last.Some? ==> last.value.name == name && Acceptable(last.value))
            && (last.Some? ==>
                  exists i :: 0 <= i < |items| && items[i] == last.value
                              && forall j :: i < j < |items| ==> !(items[j].name == name && Acceptable(items[j])))
  {
    if items != [] {
      var before := items[..|items| - 1];
      LastItemIsLast(before, name);
      assert forall j :: 0 <= j < |before| ==> before[j] == items[j];
      if LastItem(items, name).Some? && !(items[|items| - 1].name == name && Acceptable(items[|items| - 1])) {
        var i :| 0 <= i < |before| && before[i] == LastItem(before, name).value
                 && forall j :: i < j < |before| ==> !(before[j].name == name && Acceptable(before[j]));
        assert items[i] == LastItem(items, name).value;
      }
    }
  }

  /** The loading loop: a malformed item is skipped, a repeated name overwritten. */
  method SetupVariables(items: seq<Item>, slotNumber: string -> int) returns (mountPoints: map<string, MountPoint>)
    ensures forall name :: name in mountPoints <==> LastItem(items, name).Some?
    ensures forall name :: name in mountPoints ==>
                             mountPoints[name] == MountPointOf(LastItem(items, name).value, slotNumber)
    ensures forall name :: name in mountPoints ==>
                             IsAsGiven(mountPoints[name], LastItem(items, name).value, slotNumber(name))
    ensures forall name :: name in mountPoints ==> !mountPoints[name].mode.Local?
    ensures Systems.Coupled(SystemRuns.Boot(mountPoints))
  {
    mountPoints := map[];
    for i := 0 to |items|
      invariant forall name :: name in mountPoints <==> LastItem(items[..i], name).Some?
      invariant forall name :: name in mountPoints ==>
                                 mountPoints[name] == MountPointOf(LastItem(items[..i], name).value, slotNumber)
    {
      assert items[..i + 1][..i] == items[..i];
      var item := items[i];
      var device := Unknown;
      if item.nbdDevice.Given? {
        device := Monitor.DeviceNamed(item.nbdDevice.value);
        if device == Unknown {
          continue;
        }
      } else if item.nbdDevice.WrongType? {
        continue;
      }
      if item.unixSocket.WrongType? || item.endpointId.WrongType? {
        continue;
      }
      if !item.mode.Given? {
        continue;
      }
      var mode := Proxy;
      if item.mode.value == 1 {
        mode := Legacy;
      } else if item.mode.value != 0 {
        continue;
      }
      mountPoints := mountPoints[item.name := MountPoint(device, mode, slotNumber(item.name))];
    }
    assert items[..|items|] == items;
    forall name | name in mountPoints
      ensures IsAsGiven(mountPoints[name], LastItem(items, name).value, slotNumber(name))
    {
      LastItemIsLast(items, name);
      LoadedIsAsGiven(LastItem(items, name).value, slotNumber);
    }
    SystemRuns.BootIsCoupled(mountPoints);
  }
}
