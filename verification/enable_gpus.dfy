/** enable_gpus.py: switch Cycles to GPU rendering and choose which of the
    devices of one compute type take part, by type and by a name filter. */
module EnableGpus {
  import opened Wrappers

  datatype DeviceKind = CPU | CUDA | OPTIX | OtherKind(code: string)

  /** A Cycles compute device as listed by get_devices_for_type. */
  datatype Device = Device(name: string, kind: DeviceKind, use: bool)

  /** sub occurs in s at position i. */
  predicate OccursAt(sub: string, s: string, i: int)
  {
    0 <= i && i + |sub| <= |s| && s[i..i + |sub|] == sub
  }

  /** Python's `sub in s` on strings. */
  function Contains(sub: string, s: string): (r: bool)
    ensures r <==> exists i :: OccursAt(sub, s, i)
    decreases |s|
  {
    if |sub| > |s| then
      assert forall i :: !OccursAt(sub, s, i);
      false
    else if s[..|sub|] == sub then
      assert OccursAt(sub, s, 0);
      true
    else
      var r := Contains(sub, s[1..]);
      assert forall i :: OccursAt(sub, s, i) && i > 0 ==> OccursAt(sub, s[1..], i - 1) by {
        forall i | OccursAt(sub, s, i) && i > 0
          ensures OccursAt(sub, s[1..], i - 1)
        {
          assert s[1..][i - 1..i - 1 + |sub|] == s[i..i + |sub|];
        }
      }
      assert forall i :: OccursAt(sub, s[1..], i) ==> OccursAt(sub, s, i + 1) by {
        forall i | OccursAt(sub, s[1..], i)
          ensures OccursAt(sub, s, i + 1)
        {
          assert s[1..][i..i + |sub|] == s[i + 1..i + 1 + |sub|];
        }
      }
      r
  }

  /** The empty string occurs in every name, and every name contains itself. */
  lemma ContainsTrivial(name: string)
    ensures Contains("", name) && Contains(name, name)
  {
    assert OccursAt("", name, 0);
    assert OccursAt(name, name, 0);
  }

  /** Whether a device ends up in use: a CPU exactly when CPUs are wanted,
      whatever its name; any other device when there is no filter (None or
      the empty string) or the filter occurs in its name. */
  predicate Selected(d: Device, useCpus: bool, filterByName: Option<string>)
  {
    if d.kind == CPU then useCpus
    else filterByName.None? || filterByName.value == "" || Contains(filterByName.value, d.name)
  }

  /** activated_devices: the names of the devices in use, in device order. */
  function UsedNames(devices: seq<Device>): (r: seq<string>)
    ensures |r| <= |devices|
    ensures forall n :: n in r <==> exists i :: 0 <= i < |devices| && devices[i].use && devices[i].name == n
  {
    if devices == [] then []
    else
      var init := devices[..|devices| - 1];
      var last := devices[|devices| - 1];
      assert forall i :: 0 <= i < |init| ==> init[i] == devices[i];
      UsedNames(init) + (if last.use then [last.name] else [])
  }

  /** The name list keeps device order: the names from a concatenation are
      the names from each part, one after the other. */
  lemma {:induction false} UsedNamesAppend(a: seq<Device>, b: seq<Device>)
    ensures UsedNames(a + b) == UsedNames(a) + UsedNames(b)
    decreases |b|
  {
    if b != [] {
      var init := b[..|b| - 1];
      UsedNamesAppend(a, init);
      assert (a + b)[..|a + b| - 1] == a + init;
    } else {
      assert a + b == a;
    }
  }

  /** The devices after selection: only use changes. */
  function Configured(devices: seq<Device>, useCpus: bool, filterByName: Option<string>): (r: seq<Device>)
    ensures |r| == |devices|
    ensures forall i :: 0 <= i < |devices| ==>
      r[i].name == devices[i].name && r[i].kind == devices[i].kind &&
      (r[i].use <==> Selected(devices[i], useCpus, filterByName))
  {
    seq(|devices|, i requires 0 <= i < |devices| => devices[i].(use := Selected(devices[i], useCpus, filterByName)))
  }

  /** With no filter and CPUs wanted, every device is used and every name is
      returned in order. */
  lemma NoFilterUsesAll(devices: seq<Device>)
    ensures UsedNames(Configured(devices, true, None)) == seq(|devices|, i requires 0 <= i < |devices| => devices[i].name)
  {
    var c := Configured(devices, true, None);
    AllUsedNames(c);
  }

  lemma {:induction false} AllUsedNames(devices: seq<Device>)
    requires forall i :: 0 <= i < |devices| ==> devices[i].use
    ensures UsedNames(devices) == seq(|devices|, i requires 0 <= i < |devices| => devices[i].name)
  {
    if devices != [] {
      AllUsedNames(devices[..|devices| - 1]);
    }
  }

  /** The device loop of enable_gpus: each device is put in use, taken out
      again when a non-empty filter does not occur in its name, and a CPU is
      then used exactly when CPUs are wanted. */
  method SelectDevices(devices: seq<Device>, useCpus: bool, filterByName: Option<string>) returns (r: seq<Device>)
    ensures r == Configured(devices, useCpus, filterByName)
  {
    r := devices;
    var k := 0;
    while k < |r|
      invariant 0 <= k <= |r| == |devices|
      invariant forall i :: 0 <= i < k ==> r[i] == devices[i].(use := Selected(devices[i], useCpus, filterByName))
      invariant forall i :: k <= i < |r| ==> r[i] == devices[i]
    {
      var device := r[k];
      device := device.(use := true);
      if filterByName.Some? && filterByName.value != "" && !Contains(filterByName.value, device.name) {
        device := device.(use := false);
      }
      if device.kind == CPU {
        device := device.(use := useCpus);
      }
      r := r[k := device];
      k := k + 1;
    }
  }

  /** The Cycles preferences and the scene's render device. */
  class CyclesSetup {
    var devices: seq<Device>
    var sceneDevice: string
    var computeDeviceType: DeviceKind

    constructor(devices: seq<Device>, sceneDevice: string, computeDeviceType: DeviceKind)
      ensures this.devices == devices && this.sceneDevice == sceneDevice
      ensures this.computeDeviceType == computeDeviceType
    {
      this.devices := devices;
      this.sceneDevice := sceneDevice;
      this.computeDeviceType := computeDeviceType;
    }

    /** enable_gpus(device_type, use_cpus, filter_by_name); devices holds
        what get_devices_for_type returns for device_type. */
    method Enable(deviceType: DeviceKind, useCpus: bool, filterByName: Option<string>) returns (activated: seq<string>)
      modifies this
      ensures sceneDevice == "GPU" && computeDeviceType == deviceType
      ensures devices == Configured(old(devices), useCpus, filterByName)
      ensures activated == UsedNames(devices)
    {
      sceneDevice := "GPU";
      computeDeviceType := deviceType;
      var configured := SelectDevices(devices, useCpus, filterByName);
      devices := configured;
      activated := UsedNames(configured);
    }
  }
}
