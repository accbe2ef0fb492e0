/**
 * The pure decision rules of `Application` that choose a physical device:
 * `QueueFamilyIndices.isComplete`, the queue-family scan of
 * `findQueueFamilies`, `checkDeviceExtensionSupport` and
 * `isDeviceSuitable`. The Vulkan queries are replaced by their results:
 * a device is given as its queue families and its extension names.
 */
module QueueSelection {

  datatype Option<T> = None | Some(value: T)

  const SwapchainExtension := "VK_KHR_swapchain"

  /** One queue family, reduced to the graphics bit of its flags and its present support for the surface. */
  datatype QueueFamily = QueueFamily(hasGraphics: bool, presentSupported: bool)

  /** A physical device as enumerated: its queue families, in order, and its device extension names. */
  datatype PhysicalDevice = PhysicalDevice(families: seq<QueueFamily>, extensionNames: seq<string>)

  datatype QueueFamilyIndices = QueueFamilyIndices(graphicsFamily: Option<nat>, presentFamily: Option<nat>)
  {
    /**
     * `isComplete` as written: it tests `graphicsFamily` twice, so
     * `presentFamily` is never consulted.
     */
    function IsComplete(): (complete: bool)
      ensures complete <==> graphicsFamily.Some?
    {
      graphicsFamily.Some? && graphicsFamily.Some?
    }

    /** `isComplete` as evidently intended: both families have been found. */
    function IsCompleteIntended(): bool {
      graphicsFamily.Some? && presentFamily.Some?
    }
  }

  const NoIndices := QueueFamilyIndices(None, None)

  /** One pass of the loop body of `findQueueFamilies`, before its completeness test. */
  function Visit(indices: QueueFamilyIndices, index: nat, family: QueueFamily): QueueFamilyIndices {
    var afterGraphics :=
      if family.hasGraphics then indices.(graphicsFamily := Some(index)) else indices;
    if family.presentSupported then afterGraphics.(presentFamily := Some(index)) else afterGraphics
  }

  /** The scan of `findQueueFamilies` from `index` on, stopping as soon as `isComplete` holds. */
  function ScanFrom(families: seq<QueueFamily>, index: nat, indices: QueueFamilyIndices): QueueFamilyIndices
    requires index <= |families|
    decreases |families| - index
  {
    if index == |families| then indices
    else
      var next := Visit(indices, index, families[index]);
      if next.IsComplete() then next else ScanFrom(families, index + 1, next)
  }

  /** The indices `findQueueFamilies` returns for a device with these queue families. */
  function QueueFamilyScan(families: seq<QueueFamily>): QueueFamilyIndices {
    ScanFrom(families, 0, NoIndices)
  }

  /** `g` is the first family with the graphics bit. */
  ghost predicate IsFirstGraphics(families: seq<QueueFamily>, g: nat) {
    && g < |families|
    && families[g].hasGraphics
    && forall j :: 0 <= j < g ==> !families[j].hasGraphics
  }

  /** `p` is the last present-capable family among the first `end`. */
  ghost predicate IsLastPresent(families: seq<QueueFamily>, end: nat, p: nat) {
    && p < end <= |families|
    && families[p].presentSupported
    && forall j :: p < j < end ==> !families[j].presentSupported
  }

  /** How many families the scan looks at: up to and including the first graphics family, else all. */
  function ScannedCount(families: seq<QueueFamily>, indices: QueueFamilyIndices): nat {
    if indices.graphicsFamily.Some? then indices.graphicsFamily.value + 1 else |families|
  }

  /** What the scan returns, given what it has seen in the first `index` families. */
  lemma {:induction false} ScanFromChoices(families: seq<QueueFamily>, index: nat, indices: QueueFamilyIndices)
    requires index <= |families|
    requires indices.graphicsFamily.None?
    requires forall j :: 0 <= j < index ==> !families[j].hasGraphics
    requires indices.presentFamily.Some? ==> IsLastPresent(families, index, indices.presentFamily.value)
    requires indices.presentFamily.None? ==> forall j :: 0 <= j < index ==> !families[j].presentSupported
    ensures var r := ScanFrom(families, index, indices);
      var end := ScannedCount(families, r);
      && (r.graphicsFamily.Some? ==> IsFirstGraphics(families, r.graphicsFamily.value))
      && (r.graphicsFamily.None? ==> forall j :: 0 <= j < |families| ==> !families[j].hasGraphics)
      && (r.presentFamily.Some? ==> IsLastPresent(families, end, r.presentFamily.value))
      && (r.presentFamily.None? ==> forall j :: 0 <= j < end ==> !families[j].presentSupported)
    decreases |families| - index
  {
    if index < |families| {
      var next := Visit(indices, index, families[index]);
      if !next.IsComplete() {
        ScanFromChoices(families, index + 1, next);
      }
    }
  }

  /**
   * `findQueueFamilies` picks the first graphics family and stops there;
   * the present family is the last present-capable one it looked at, and
   * it can be absent while the graphics family is set.
   */
  lemma QueueFamilyScanChoices(families: seq<QueueFamily>)
    ensures var r := QueueFamilyScan(families);
      var end := ScannedCount(families, r);
      && (r.graphicsFamily.Some? ==> IsFirstGraphics(families, r.graphicsFamily.value))
      && (r.graphicsFamily.None? ==> forall j :: 0 <= j < |families| ==> !families[j].hasGraphics)
      && (r.presentFamily.Some? ==> IsLastPresent(families, end, r.presentFamily.value))
      && (r.presentFamily.None? ==> forall j :: 0 <= j < end ==> !families[j].presentSupported)
  {
    ScanFromChoices(families, 0, NoIndices);
  }

  /** The scan's result is complete exactly when some family has the graphics bit. */
  lemma ScanCompleteIffGraphics(families: seq<QueueFamily>)
    ensures QueueFamilyScan(families).IsComplete()
        <==> exists j :: 0 <= j < |families| && families[j].hasGraphics
  {
    QueueFamilyScanChoices(families);
  }

  /**
   * `checkDeviceExtensionSupport`: the set of required names minus the set
   * of available names is empty.
   */
  function CheckDeviceExtensionSupport(required: seq<string>, available: seq<string>): (supported: bool)
    ensures supported <==> forall name :: name in required ==> name in available
  {
    var missing := (set name | name in required) - (set name | name in available);
    assert forall name :: name in required && name !in available ==> name in missing;
    missing == {}
  }

  /** `isDeviceSuitable`: complete indices (as written) and every required extension available. */
  function IsDeviceSuitable(required: seq<string>, device: PhysicalDevice): (suitable: bool)
    ensures suitable <==>
      && (exists j :: 0 <= j < |device.families| && device.families[j].hasGraphics)
      && (forall name :: name in required ==> name in device.extensionNames)
  {
    ScanCompleteIffGraphics(device.families);
    QueueFamilyScan(device.families).IsComplete()
      && CheckDeviceExtensionSupport(required, device.extensionNames)
  }

  /** `k` is the first device, in enumeration order, that is suitable. */
  ghost predicate IsFirstSuitable(required: seq<string>, devices: seq<PhysicalDevice>, k: nat) {
    && k < |devices|
    && IsDeviceSuitable(required, devices[k])
    && forall j :: 0 <= j < k ==> !IsDeviceSuitable(required, devices[j])
  }

  // The scan as evidently intended: it stops only once both families are found.

  function ScanFromIntended(families: seq<QueueFamily>, index: nat, indices: QueueFamilyIndices): QueueFamilyIndices
    requires index <= |families|
    decreases |families| - index
  {
    if index == |families| then indices
    else
      var next := Visit(indices, index, families[index]);
      if next.IsCompleteIntended() then next else ScanFromIntended(families, index + 1, next)
  }

  function QueueFamilyScanIntended(families: seq<QueueFamily>): QueueFamilyIndices {
    ScanFromIntended(families, 0, NoIndices)
  }

  /** Every index in `indices` names a family with the capability it stands for. */
  ghost predicate IndicesSound(families: seq<QueueFamily>, indices: QueueFamilyIndices) {
    && (indices.graphicsFamily.Some? ==>
          indices.graphicsFamily.value < |families| && families[indices.graphicsFamily.value].hasGraphics)
    && (indices.presentFamily.Some? ==>
          indices.presentFamily.value < |families| && families[indices.presentFamily.value].presentSupported)
  }

  lemma {:induction false} ScanFromIntendedFinds(families: seq<QueueFamily>, index: nat, indices: QueueFamilyIndices)
    requires index <= |families|
    requires IndicesSound(families, indices)
    requires indices.graphicsFamily.Some? <==> exists j :: 0 <= j < index && families[j].hasGraphics
    requires indices.presentFamily.Some? <==> exists j :: 0 <= j < index && families[j].presentSupported
    ensures var r := ScanFromIntended(families, index, indices);
      && IndicesSound(families, r)
      && (r.IsCompleteIntended() <==>
            && (exists j :: 0 <= j < |families| && families[j].hasGraphics)
            && (exists j :: 0 <= j < |families| && families[j].presentSupported))
    decreases |families| - index
  {
    if index < |families| {
      var next := Visit(indices, index, families[index]);
      if !next.IsCompleteIntended() {
        ScanFromIntendedFinds(families, index + 1, next);
      }
    }
  }

  /**
   * The intended scan finds both families exactly when the device has a
   * graphics family and a present-capable family, and what it finds is
   * sound.
   */
  lemma IntendedScanFinds(families: seq<QueueFamily>)
    ensures var r := QueueFamilyScanIntended(families);
      && IndicesSound(families, r)
      && (r.IsCompleteIntended() <==>
            && (exists j :: 0 <= j < |families| && families[j].hasGraphics)
            && (exists j :: 0 <= j < |families| && families[j].presentSupported))
  {
    ScanFromIntendedFinds(families, 0, NoIndices);
  }

  /** `isDeviceSuitable` built on the intended completeness test. */
  function IsDeviceSuitableIntended(required: seq<string>, device: PhysicalDevice): bool {
    QueueFamilyScanIntended(device.families).IsCompleteIntended()
      && CheckDeviceExtensionSupport(required, device.extensionNames)
  }

  /**
   * With the intended test, a suitable device always yields both queue
   * families, so the force-unwraps of `createLogicalDevice` cannot trap,
   * and each index names a family that has the needed capability.
   */
  lemma IntendedSuitableDeviceHasQueues(required: seq<string>, device: PhysicalDevice)
    requires IsDeviceSuitableIntended(required, device)
    ensures var r := QueueFamilyScanIntended(device.families);
      && r.graphicsFamily.Some? && r.presentFamily.Some?
      && IndicesSound(device.families, r)
      && (exists j :: 0 <= j < |device.families| && device.families[j].presentSupported)
  {
    IntendedScanFinds(device.families);
  }

  /**
   * As written, a device whose first graphics family cannot present, and
   * whose later family can, is suitable, yet the scan returns no present
   * family; the intended scan goes on and finds family 1.
   */
  lemma AsWrittenScanDropsPresentFamily()
    ensures var device := PhysicalDevice([QueueFamily(true, false), QueueFamily(false, true)], [SwapchainExtension]);
      && IsDeviceSuitable([SwapchainExtension], device)
      && QueueFamilyScan(device.families) == QueueFamilyIndices(Some(0), None)
      && QueueFamilyScanIntended(device.families) == QueueFamilyIndices(Some(0), Some(1))
  {
    var device := PhysicalDevice([QueueFamily(true, false), QueueFamily(false, true)], [SwapchainExtension]);
    assert device.families[0].hasGraphics;
  }
}
