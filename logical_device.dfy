/** Creating the logical device (src/app/logical_device.rs): one queue
    create info per distinct queue family, the validation layer when
    validation is enabled, the required device extensions, and the two
    queues taken from the new device.

    The unique families are collected in a `HashSet`, whose iteration order
    is unspecified: the order is the parameter `order`, any duplicate-free
    listing of the set. */
module LogicalDevice {
  import opened Vk
  import Defines
  import opened AppData

  /** The fields of `vk::DeviceQueueCreateInfo` the code sets: the family
      and the number of queue priorities given (one, `[1.0]`). */
  datatype DeviceQueueCreateInfo = DeviceQueueCreateInfo(queueFamilyIndex: nat, queueCount: nat)

  /** The fields of `vk::DeviceCreateInfo` the code sets (the features are
      all defaults). */
  datatype DeviceCreateInfo = DeviceCreateInfo(
    queueCreateInfos: seq<DeviceQueueCreateInfo>,
    enabledLayerNames: seq<string>,
    enabledExtensionNames: seq<string>)

  /** The set built by inserting the graphics family, then the present
      family. */
  function UniqueFamilies(indices: QueueFamilyIndices): set<nat>
  {
    {} + {indices.graphics} + {indices.present}
  }

  /** `order` lists the elements of `s`, each once. */
  predicate Lists(order: seq<nat>, s: set<nat>)
  {
    && (forall i, j :: 0 <= i < j < |order| ==> order[i] != order[j])
    && (forall x <- s :: x in order)
    && (forall i :: 0 <= i < |order| ==> order[i] in s)
  }

  /** The `map` over the unique families. */
  function QueueInfos(order: seq<nat>): (r: seq<DeviceQueueCreateInfo>)
    ensures |r| == |order|
    ensures forall i :: 0 <= i < |order| ==> r[i] == DeviceQueueCreateInfo(order[i], 1)
  {
    seq(|order|, i requires 0 <= i < |order| => DeviceQueueCreateInfo(order[i], 1))
  }

  /** A duplicate-free listing of elements of `s` is no longer than `s`. */
  lemma {:induction false} ListingBounded(order: seq<nat>, s: set<nat>)
    requires forall i, j :: 0 <= i < j < |order| ==> order[i] != order[j]
    requires forall i :: 0 <= i < |order| ==> order[i] in s
    ensures |order| <= |s|
    decreases |order|
  {
    if order != [] {
      var last := order[|order| - 1];
      var rest := order[..|order| - 1];
      forall i | 0 <= i < |rest|
        ensures rest[i] in s - {last}
      {
        assert rest[i] == order[i];
      }
      ListingBounded(rest, s - {last});
    }
  }

  /** One queue create info per distinct family among graphics and present:
      a single one when they coincide, two otherwise, never two for the
      same family, and none for any other family. */
  lemma QueueInfosOnePerFamily(indices: QueueFamilyIndices, order: seq<nat>)
    requires Lists(order, UniqueFamilies(indices))
    ensures var infos := QueueInfos(order);
      && |infos| == (if indices.graphics == indices.present then 1 else 2)
      && (forall i, j :: 0 <= i < j < |infos| ==> infos[i].queueFamilyIndex != infos[j].queueFamilyIndex)
      && (forall i :: 0 <= i < |infos| ==>
            infos[i].queueFamilyIndex == indices.graphics || infos[i].queueFamilyIndex == indices.present)
      && (exists i :: 0 <= i < |infos| && infos[i].queueFamilyIndex == indices.graphics)
      && (exists i :: 0 <= i < |infos| && infos[i].queueFamilyIndex == indices.present)
  {
    var g, p := indices.graphics, indices.present;
    var families := UniqueFamilies(indices);
    assert g in families && p in families;
    ListingBounded(order, families);
    var i :| 0 <= i < |order| && order[i] == g;
    var j :| 0 <= j < |order| && order[j] == p;
    if g == p {
      assert families == {g};
    } else {
      assert families == {g} + {p};
      assert i != j;
    }
    var infos := QueueInfos(order);
    assert infos[i].queueFamilyIndex == g && infos[j].queueFamilyIndex == p;
  }

  /** The layers: the validation layer exactly when validation is enabled. */
  function Layers(validationEnabled: bool): (r: seq<string>)
    ensures validationEnabled ==> r == [Defines.VALIDATION_LAYER]
    ensures !validationEnabled ==> r == []
  {
    if validationEnabled then [Defines.VALIDATION_LAYER] else []
  }

  /** `logical_device::create`.  `indices` is the queue-family lookup's
      answer, `device` the driver's answer to `create_device`, and
      `queue(family, index)` what `get_device_queue` returns.  `info` is the
      create info passed to the driver, `None` when the lookup failed and
      nothing was created. */
  method Create(data: Data, validationEnabled: bool, indices: Result<QueueFamilyIndices>, order: seq<nat>,
                device: Result<Handle>, queue: (nat, nat) -> Handle)
    returns (data': Data, info: Option<DeviceCreateInfo>, r: Result<Handle>)
    requires indices.Ok? ==> Lists(order, UniqueFamilies(indices.value))
    ensures indices.Err? ==> r == Err(indices.error) && info == None && data' == data
    ensures indices.Ok? ==>
      info == Some(DeviceCreateInfo(QueueInfos(order), Layers(validationEnabled), Defines.DEVICE_EXTENSIONS))
    ensures indices.Ok? && device.Err? ==> r == Err(device.error) && data' == data
    ensures indices.Ok? && device.Ok? ==>
      && r == device
      && data' == data.(graphicsQueue := queue(indices.value.graphics, 0),
                        presentQueue := queue(indices.value.present, 0))
  {
    data' := data;
    info := None;
    if indices.Err? {
      return data', info, Err(indices.error);
    }
    var families := indices.value;
    var queueInfos := QueueInfos(order);
    var layers := Layers(validationEnabled);
    var extensions := Defines.DEVICE_EXTENSIONS;
    info := Some(DeviceCreateInfo(queueInfos, layers, extensions));
    if device.Err? {
      return data', info, Err(device.error);
    }
    data' := data'.(graphicsQueue := queue(families.graphics, 0));
    data' := data'.(presentQueue := queue(families.present, 0));
    r := device;
  }
}
