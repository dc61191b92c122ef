/** Choosing the physical device (src/app/physical_device.rs): the first
    enumerated device that has the queue families, the device extensions
    and some swapchain support.

    What the driver reports about a device is gathered in a
    `PhysicalDevice` record; the queue-family lookup and the swapchain
    support query belong to modules that are not part of this model, so
    their answers are fields of that record. */
module PhysicalDevices {
  import opened Vk
  import Defines
  import opened AppData

  /** What `swapchain::SwapchainSupport::get` reports: how many surface
      formats and present modes the device offers. */
  datatype SwapchainSupport = SwapchainSupport(formats: nat, presentModes: nat)

  /** One enumerated device and the driver's answers about it. */
  datatype PhysicalDevice = PhysicalDevice(
    handle: Handle,
    queueFamilies: Result<QueueFamilyIndices>,
    extensions: Result<seq<string>>,
    support: Result<SwapchainSupport>)

  /** `check_physical_device_extensions`: every required extension is among
      the names the device reports. */
  function CheckExtensions(d: PhysicalDevice): Result<()>
  {
    match d.extensions
    case Err(e) => Err(e)
    case Ok(names) =>
      var available := set k | 0 <= k < |names| :: names[k];
      if forall e <- Defines.DEVICE_EXTENSIONS :: e in available then Ok(()) else Err(MissingDeviceExtensions)
  }

  /** The extension check passes exactly when the names could be listed and
      each required extension occurs among them. */
  lemma CheckExtensionsIff(d: PhysicalDevice)
    ensures CheckExtensions(d).Ok? <==>
      && d.extensions.Ok?
      && forall i :: 0 <= i < |Defines.DEVICE_EXTENSIONS| ==>
           exists k :: 0 <= k < |d.extensions.value| && d.extensions.value[k] == Defines.DEVICE_EXTENSIONS[i]
    ensures CheckExtensions(d).Err? ==>
      CheckExtensions(d).error == if d.extensions.Err? then d.extensions.error else MissingDeviceExtensions
  {
    if d.extensions.Ok? {
      var names := d.extensions.value;
      var available := set k | 0 <= k < |names| :: names[k];
      forall i | 0 <= i < |Defines.DEVICE_EXTENSIONS|
        ensures Defines.DEVICE_EXTENSIONS[i] in available <==>
          exists k :: 0 <= k < |names| && names[k] == Defines.DEVICE_EXTENSIONS[i]
      {
        if exists k :: 0 <= k < |names| && names[k] == Defines.DEVICE_EXTENSIONS[i] {
          var k :| 0 <= k < |names| && names[k] == Defines.DEVICE_EXTENSIONS[i];
          assert names[k] in available;
        }
      }
      assert (forall e <- Defines.DEVICE_EXTENSIONS :: e in available) <==>
        forall i :: 0 <= i < |Defines.DEVICE_EXTENSIONS| ==> Defines.DEVICE_EXTENSIONS[i] in available;
    }
  }

  /** `check_physical_device`: queue families, then extensions, then
      swapchain support; the first failure is reported. */
  function Check(d: PhysicalDevice): Result<()>
  {
    if d.queueFamilies.Err? then Err(d.queueFamilies.error)
    else if CheckExtensions(d).Err? then CheckExtensions(d)
    else if d.support.Err? then Err(d.support.error)
    else if d.support.value.formats == 0 || d.support.value.presentModes == 0 then Err(InsufficientSwapchainSupport)
    else Ok(())
  }

  /** What a usable device has, stated without the order of the checks. */
  predicate Suitable(d: PhysicalDevice)
  {
    && d.queueFamilies.Ok?
    && d.extensions.Ok?
    && (forall e <- Defines.DEVICE_EXTENSIONS :: e in d.extensions.value)
    && d.support.Ok?
    && d.support.value.formats > 0
    && d.support.value.presentModes > 0
  }

  /** The check passes exactly on suitable devices, and a failing check
      reports the first stage that failed. */
  lemma CheckIsSuitable(d: PhysicalDevice)
    ensures Check(d).Ok? <==> Suitable(d)
    ensures d.queueFamilies.Err? ==> Check(d) == Err(d.queueFamilies.error)
    ensures d.queueFamilies.Ok? && d.extensions.Err? ==> Check(d) == Err(d.extensions.error)
    ensures d.queueFamilies.Ok? && d.extensions.Ok? && !(forall e <- Defines.DEVICE_EXTENSIONS :: e in d.extensions.value) ==>
      Check(d) == Err(MissingDeviceExtensions)
    ensures d.queueFamilies.Ok? && CheckExtensions(d).Ok? && d.support.Err? ==> Check(d) == Err(d.support.error)
    ensures d.queueFamilies.Ok? && CheckExtensions(d).Ok? && d.support.Ok? && !Suitable(d) ==>
      Check(d) == Err(InsufficientSwapchainSupport)
  {
    CheckExtensionsIff(d);
    if d.extensions.Ok? {
      var names := d.extensions.value;
      forall e <- Defines.DEVICE_EXTENSIONS
        ensures e in names <==> exists k :: 0 <= k < |names| && names[k] == e
      {
      }
    }
  }

  /** The first device, from position `from` on, that passes the check. */
  function FirstFrom(devices: seq<PhysicalDevice>, from: nat): (r: Option<nat>)
    ensures r.Some? ==> from <= r.value < |devices| && Check(devices[r.value]).Ok?
    ensures r.Some? ==> forall j :: from <= j < r.value ==> Check(devices[j]).Err?
    ensures r.None? ==> forall j :: from <= j < |devices| ==> Check(devices[j]).Err?
    decreases |devices| - from
  {
    if from >= |devices| then None
    else if Check(devices[from]).Ok? then Some(from)
    else FirstFrom(devices, from + 1)
  }

  /** `pick_physical_device`: store the first device, in enumeration order,
      that passes the check; devices that fail are skipped.  If the
      enumeration fails or no device passes, `data` is returned unchanged
      with an error. */
  method Pick(data: Data, devices: Result<seq<PhysicalDevice>>) returns (data': Data, r: Result<()>)
    ensures devices.Err? ==> r == Err(devices.error) && data' == data
    ensures devices.Ok? && FirstFrom(devices.value, 0).Some? ==>
      r == Ok(()) && data' == data.(physicalDevice := devices.value[FirstFrom(devices.value, 0).value].handle)
    ensures devices.Ok? && FirstFrom(devices.value, 0).None? ==> r == Err(NoSuitablePhysicalDevice) && data' == data
  {
    data' := data;
    if devices.Err? {
      return data', Err(devices.error);
    }
    var candidates := devices.value;
    for i := 0 to |candidates|
      invariant data' == data
      invariant forall j :: 0 <= j < i ==> Check(candidates[j]).Err?
    {
      if Check(candidates[i]).Ok? {
        data' := data'.(physicalDevice := candidates[i].handle);
        assert FirstFrom(candidates, 0) == Some(i);
        return data', Ok(());
      }
    }
    r := Err(NoSuitablePhysicalDevice);
  }

  /** The stored device passes the check, and every device before it fails
      it: the choice is the first suitable device. */
  lemma PickedIsFirstSuitable(devices: seq<PhysicalDevice>, i: nat)
    requires i < |devices|
    ensures FirstFrom(devices, 0) == Some(i) <==>
      Suitable(devices[i]) && forall j :: 0 <= j < i ==> !Suitable(devices[j])
  {
    CheckIsSuitable(devices[i]);
    forall j | 0 <= j < |devices|
      ensures Check(devices[j]).Ok? <==> Suitable(devices[j])
    {
      CheckIsSuitable(devices[j]);
    }
  }
}
