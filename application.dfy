/**
 * The stateful part of `Application` up to logical-device creation:
 * `createInstance` (validation gate and required instance extensions),
 * `checkValidationLayerSupport`, `findQueueFamilies`,
 * `pickPhysicalDevice` and `createLogicalDevice` (distinct queue families
 * and required device extensions). The Vulkan and GLFW queries are
 * parameters holding what they would report; a created instance or device
 * is represented by the configuration it was created with.
 */
module VulkanApplication {
  import opened QueueSelection

  const KhronosValidationLayer := "VK_LAYER_KHRONOS_validation"
  const PortabilityEnumerationExtension := "VK_KHR_portability_enumeration"
  const PhysicalDeviceProperties2Extension := "VK_KHR_get_physical_device_properties2"
  const PortabilitySubsetExtension := "VK_KHR_portability_subset"

  /** The `fatalError` calls and the force-unwraps that trap. */
  datatype Failure =
    | NoVulkanDevice              // "Failed to find GPUs with Vulkan support!"
    | NoSuitableDevice            // "Failed to find a suitable GPU!"
    | ValidationLayersUnavailable // "Validation layers requested, but not available!"
    | NilUnwrapped                // a `!` applied to nil

  datatype Result<T> = Ok(value: T) | Fatal(failure: Failure)

  /** What `createInstance` hands to `vkCreateInstance`. */
  datatype InstanceCreateInfo = InstanceCreateInfo(
    extensionNames: seq<string>,
    layerNames: seq<string>,
    enumeratePortability: bool)

  /** What `createLogicalDevice` hands to `vkCreateDevice`, and the families its two queues come from. */
  datatype LogicalDevice = LogicalDevice(
    physicalDevice: PhysicalDevice,
    queueFamilies: seq<nat>,
    extensionNames: seq<string>,
    layerNames: seq<string>,
    graphicsQueueFamily: nat,
    presentQueueFamily: nat)

  /** The names among `names` that are not nil, in order. */
  function NonNil(names: seq<Option<string>>): seq<string> {
    if names == [] then []
    else NonNil(names[..|names| - 1]) + match names[|names| - 1] {
      case Some(name) => [name]
      case None => []
    }
  }

  /** A name survives the filter exactly when it occurs as a non-nil entry. */
  lemma {:induction false} NonNilKeepsNames(names: seq<Option<string>>)
    ensures forall name :: name in NonNil(names) <==> Some(name) in names
  {
    if names != [] {
      var init := names[..|names| - 1];
      NonNilKeepsNames(init);
      assert names == init + [names[|names| - 1]];
    }
  }

  /** Filtering a concatenation filters each part and keeps them in order. */
  lemma {:induction false} NonNilConcat(front: seq<Option<string>>, back: seq<Option<string>>)
    ensures NonNil(front + back) == NonNil(front) + NonNil(back)
    decreases |back|
  {
    if back != [] {
      var init := back[..|back| - 1];
      NonNilConcat(front, init);
      assert (front + back)[..|front + back| - 1] == front + init;
      assert (front + back)[|front + back| - 1] == back[|back| - 1];
    } else {
      assert front + back == front;
    }
  }

  /** The graphics and present queues of `device` come from families with those capabilities. */
  ghost predicate QueuesServe(device: LogicalDevice) {
    var families := device.physicalDevice.families;
    && device.graphicsQueueFamily < |families|
    && families[device.graphicsQueueFamily].hasGraphics
    && device.presentQueueFamily < |families|
    && families[device.presentQueueFamily].presentSupported
    && (forall q :: q in device.queueFamilies <==> q == device.graphicsQueueFamily || q == device.presentQueueFamily)
  }

  class Application {
    const validationLayers: seq<string> := [KhronosValidationLayer]
    const deviceExtensions: seq<string> := [SwapchainExtension]
    /** Set from the build configuration: true in a DEBUG build. */
    const enableValidationLayers: bool

    var instance: Option<InstanceCreateInfo>
    var physicalDevice: Option<PhysicalDevice>
    var device: Option<LogicalDevice>

    ghost predicate Valid()
      reads this
    {
      && (physicalDevice.Some? ==> IsDeviceSuitable(deviceExtensions, physicalDevice.value))
      && (device.Some? ==> QueuesServe(device.value))
    }

    /** `createInstance` stops here: validation is on and a requested layer is missing. */
    ghost predicate ValidationGateFails(availableLayers: seq<string>) {
      enableValidationLayers && exists layer :: layer in validationLayers && layer !in availableLayers
    }

    constructor (debugBuild: bool)
      ensures Valid()
      ensures enableValidationLayers == debugBuild
      ensures instance.None? && physicalDevice.None? && device.None?
    {
      enableValidationLayers := debugBuild;
      instance, physicalDevice, device := None, None, None;
    }

    /**
     * `checkValidationLayerSupport`: for each requested layer, look for it
     * among the available layers and give up at the first one missing.
     */
    method CheckValidationLayerSupport(availableLayers: seq<string>) returns (supported: bool)
      ensures supported <==> forall layer :: layer in validationLayers ==> layer in availableLayers
    {
      for i := 0 to |validationLayers|
        invariant forall k :: 0 <= k < i ==> validationLayers[k] in availableLayers
      {
        var layerName := validationLayers[i];
        var layerFound := false;
        for j := 0 to |availableLayers|
          invariant !layerFound
          invariant forall k :: 0 <= k < j ==> availableLayers[k] != layerName
        {
          if availableLayers[j] == layerName {
            layerFound := true;
            break;
          }
        }
        if !layerFound {
          assert layerName !in availableLayers && layerName in validationLayers;
          return false;
        }
      }
      return true;
    }

    /** The required instance extensions: two fixed names, then GLFW's non-nil names in order. */
    method RequiredInstanceExtensions(glfwExtensions: seq<Option<string>>) returns (required: seq<string>)
      ensures required == [PortabilityEnumerationExtension, PhysicalDeviceProperties2Extension] + NonNil(glfwExtensions)
    {
      required := [PortabilityEnumerationExtension, PhysicalDeviceProperties2Extension];
      for i := 0 to |glfwExtensions|
        invariant required == [PortabilityEnumerationExtension, PhysicalDeviceProperties2Extension] + NonNil(glfwExtensions[..i])
      {
        assert glfwExtensions[..i + 1][..i] == glfwExtensions[..i];
        if glfwExtensions[i].Some? {
          required := required + [glfwExtensions[i].value];
        }
      }
      assert glfwExtensions[..|glfwExtensions|] == glfwExtensions;
    }

    /**
     * `createInstance`: fatal when validation is enabled and a requested
     * layer is missing; otherwise the instance is created with the
     * required extensions, the portability-enumeration flag and, when
     * validation is enabled, the validation layers.
     */
    method CreateInstance(availableLayers: seq<string>, glfwExtensions: seq<Option<string>>)
      returns (r: Result<InstanceCreateInfo>)
      requires Valid()
      modifies this`instance
      ensures Valid()
      ensures r.Fatal? <==> ValidationGateFails(availableLayers)
      ensures r.Fatal? ==> r.failure == ValidationLayersUnavailable && instance == old(instance)
      ensures r.Ok? ==> instance == Some(r.value)
      ensures r.Ok? ==> r.value.extensionNames == [PortabilityEnumerationExtension, PhysicalDeviceProperties2Extension] + NonNil(glfwExtensions)
      ensures r.Ok? ==> r.value.layerNames == (if enableValidationLayers then validationLayers else [])
      ensures r.Ok? ==> r.value.enumeratePortability
    {
      if enableValidationLayers {
        var supported := CheckValidationLayerSupport(availableLayers);
        if !supported {
          return Fatal(ValidationLayersUnavailable);
        }
      }
      var extensionNames := RequiredInstanceExtensions(glfwExtensions);
      var layerNames := if enableValidationLayers then validationLayers else [];
      var info := InstanceCreateInfo(extensionNames, layerNames, true);
      instance := Some(info);
      r := Ok(info);
    }

    /** `findQueueFamilies`: the ordered scan with an early exit once `isComplete` holds. */
    method FindQueueFamilies(physical: PhysicalDevice) returns (indices: QueueFamilyIndices)
      ensures indices == QueueFamilyScan(physical.families)
      ensures indices.graphicsFamily.Some? ==> IsFirstGraphics(physical.families, indices.graphicsFamily.value)
      ensures indices.graphicsFamily.None? ==> forall j :: 0 <= j < |physical.families| ==> !physical.families[j].hasGraphics
      ensures indices.presentFamily.Some? ==>
        IsLastPresent(physical.families, ScannedCount(physical.families, indices), indices.presentFamily.value)
      ensures indices.presentFamily.None? ==>
        forall j :: 0 <= j < ScannedCount(physical.families, indices) ==> !physical.families[j].presentSupported
    {
      QueueFamilyScanChoices(physical.families);
      var queueFamilies := physical.families;
      indices := NoIndices;
      var index := 0;
      while index < |queueFamilies|
        invariant index <= |queueFamilies|
        invariant ScanFrom(queueFamilies, index, indices) == QueueFamilyScan(queueFamilies)
      {
        var queueFamily := queueFamilies[index];
        if queueFamily.hasGraphics {
          indices := indices.(graphicsFamily := Some(index));
        }
        if queueFamily.presentSupported {
          indices := indices.(presentFamily := Some(index));
        }
        if indices.IsComplete() {
          break;
        }
        index := index + 1;
      }
    }

    /**
     * `pickPhysicalDevice`: fatal when there is no device; otherwise the
     * first suitable device in enumeration order becomes the physical
     * device, and it is fatal when none is suitable. The result gives the
     * index of the chosen device.
     */
    method PickPhysicalDevice(devices: seq<PhysicalDevice>) returns (r: Result<nat>)
      requires Valid()
      modifies this`physicalDevice
      ensures Valid()
      ensures r == Fatal(NoVulkanDevice) <==> |devices| == 0
      ensures r == Fatal(NoSuitableDevice) <==>
        |devices| > 0 && forall k :: 0 <= k < |devices| ==> !IsDeviceSuitable(deviceExtensions, devices[k])
      ensures r.Ok? ==> IsFirstSuitable(deviceExtensions, devices, r.value) && physicalDevice == Some(devices[r.value])
      ensures r.Fatal? ==> r.failure == NoVulkanDevice || r.failure == NoSuitableDevice
      ensures r.Fatal? ==> physicalDevice == old(physicalDevice)
    {
      if |devices| == 0 {
        return Fatal(NoVulkanDevice);
      }
      var picked: Option<nat> := None;
      for i := 0 to |devices|
        invariant picked.None?
        invariant forall k :: 0 <= k < i ==> !IsDeviceSuitable(deviceExtensions, devices[k])
      {
        if IsDeviceSuitable(deviceExtensions, devices[i]) {
          picked := Some(i);
          break;
        }
      }
      if picked.None? {
        return Fatal(NoSuitableDevice);
      }
      physicalDevice := Some(devices[picked.value]);
      r := Ok(picked.value);
    }

    /**
     * The queue-create loop of `createLogicalDevice`: one entry per member
     * of the set `{graphics, present}`, visited in the set's unspecified
     * order.
     */
    method UniqueQueueFamilies(graphics: nat, present: nat) returns (families: seq<nat>)
      ensures forall q :: q in families <==> q == graphics || q == present
      ensures forall a, b :: 0 <= a < b < |families| ==> families[a] != families[b]
      ensures |families| == if graphics == present then 1 else 2
    {
      var uniqueQueueFamilies: set<nat> := {graphics, present};
      var remaining := uniqueQueueFamilies;
      families := [];
      while remaining != {}
        invariant remaining <= uniqueQueueFamilies
        invariant forall q :: q in families <==> q in uniqueQueueFamilies && q !in remaining
        invariant forall a, b :: 0 <= a < b < |families| ==> families[a] != families[b]
        invariant |families| + |remaining| == |uniqueQueueFamilies|
        decreases |remaining|
      {
        var queueFamily :| queueFamily in remaining;
        families := families + [queueFamily];
        remaining := remaining - {queueFamily};
      }
      if graphics == present {
        assert uniqueQueueFamilies == {graphics};
      } else {
        assert uniqueQueueFamilies == {graphics} + {present};
      }
    }

    /**
     * The required device extensions of `createLogicalDevice`: the
     * configured ones, unchanged and in order, then one
     * `VK_KHR_portability_subset` per available entry with that name.
     */
    method RequiredDeviceExtensions(available: seq<string>) returns (required: seq<string>)
      ensures |required| == |deviceExtensions| + multiset(available)[PortabilitySubsetExtension]
      ensures required[..|deviceExtensions|] == deviceExtensions
      ensures forall k :: |deviceExtensions| <= k < |required| ==> required[k] == PortabilitySubsetExtension
    {
      required := deviceExtensions;
      for i := 0 to |available|
        invariant |required| == |deviceExtensions| + multiset(available[..i])[PortabilitySubsetExtension]
        invariant required[..|deviceExtensions|] == deviceExtensions
        invariant forall k :: |deviceExtensions| <= k < |required| ==> required[k] == PortabilitySubsetExtension
      {
        assert available[..i + 1] == available[..i] + [available[i]];
        var extensionName := available[i];
        if extensionName == PortabilitySubsetExtension {
          required := required + [PortabilitySubsetExtension];
        }
      }
      assert available[..|available|] == available;
    }

    /**
     * `createLogicalDevice`: look up the chosen device's queue families
     * again; force-unwrapping a nil physical device or a nil family traps.
     * Otherwise the device is created with one queue per distinct family,
     * the required device extensions and, when validation is enabled, the
     * validation layers.
     */
    method CreateLogicalDevice() returns (r: Result<LogicalDevice>)
      requires Valid()
      modifies this`device
      ensures Valid()
      ensures r.Fatal? <==>
        physicalDevice.None? || QueueFamilyScan(physicalDevice.value.families).presentFamily.None?
      ensures r.Fatal? ==> r.failure == NilUnwrapped && device == old(device)
      ensures r.Ok? ==>
        var indices := QueueFamilyScan(physicalDevice.value.families);
        && device == Some(r.value)
        && r.value.physicalDevice == physicalDevice.value
        && QueuesServe(r.value)
        && Some(r.value.graphicsQueueFamily) == indices.graphicsFamily
        && Some(r.value.presentQueueFamily) == indices.presentFamily
        && |r.value.queueFamilies| == (if r.value.graphicsQueueFamily == r.value.presentQueueFamily then 1 else 2)
        && |deviceExtensions| <= |r.value.extensionNames|
        && r.value.extensionNames[..|deviceExtensions|] == deviceExtensions
        && |r.value.extensionNames| == |deviceExtensions| + multiset(physicalDevice.value.extensionNames)[PortabilitySubsetExtension]
        && (forall k :: |deviceExtensions| <= k < |r.value.extensionNames| ==> r.value.extensionNames[k] == PortabilitySubsetExtension)
        && r.value.layerNames == (if enableValidationLayers then validationLayers else [])
    {
      if physicalDevice.None? {
        return Fatal(NilUnwrapped);
      }
      var chosen := physicalDevice.value;
      var indices := FindQueueFamilies(chosen);
      if indices.presentFamily.None? {
        return Fatal(NilUnwrapped);
      }
      var graphics, present := indices.graphicsFamily.value, indices.presentFamily.value;
      var queueFamilies := UniqueQueueFamilies(graphics, present);
      var extensionNames := RequiredDeviceExtensions(chosen.extensionNames);
      var layerNames := if enableValidationLayers then validationLayers else [];
      var created := LogicalDevice(chosen, queueFamilies, extensionNames, layerNames, graphics, present);
      device := Some(created);
      r := Ok(created);
    }

    /**
     * `initVulkan` up to the logical device: create the instance, pick a
     * physical device and create the logical device, stopping at the first
     * fatal error. Surface creation is a driver call and is not part of
     * this model.
     */
    method InitVulkan(availableLayers: seq<string>, glfwExtensions: seq<Option<string>>, devices: seq<PhysicalDevice>)
      returns (r: Result<LogicalDevice>)
      requires Valid()
      modifies this`instance, this`physicalDevice, this`device
      ensures Valid()
      ensures r == Fatal(ValidationLayersUnavailable) <==> ValidationGateFails(availableLayers)
      ensures r == Fatal(NoVulkanDevice) <==> !ValidationGateFails(availableLayers) && |devices| == 0
      ensures r == Fatal(NoSuitableDevice) <==>
        && !ValidationGateFails(availableLayers) && |devices| > 0
        && forall k :: 0 <= k < |devices| ==> !IsDeviceSuitable(deviceExtensions, devices[k])
      ensures r == Fatal(NilUnwrapped) <==>
        && !ValidationGateFails(availableLayers)
        && exists k: nat :: IsFirstSuitable(deviceExtensions, devices, k)
             && QueueFamilyScan(devices[k].families).presentFamily.None?
      ensures r.Ok? <==>
        && !ValidationGateFails(availableLayers)
        && exists k: nat :: IsFirstSuitable(deviceExtensions, devices, k)
             && QueueFamilyScan(devices[k].families).presentFamily.Some?
      ensures ValidationGateFails(availableLayers) ==>
        instance == old(instance) && physicalDevice == old(physicalDevice) && device == old(device)
      ensures !ValidationGateFails(availableLayers) ==>
        instance == Some(InstanceCreateInfo(
          [PortabilityEnumerationExtension, PhysicalDeviceProperties2Extension] + NonNil(glfwExtensions),
          if enableValidationLayers then validationLayers else [],
          true))
      ensures r == Fatal(NoVulkanDevice) || r == Fatal(NoSuitableDevice) ==>
        physicalDevice == old(physicalDevice) && device == old(device)
      ensures r == Fatal(NilUnwrapped) ==>
        device == old(device) && exists k: nat :: IsFirstSuitable(deviceExtensions, devices, k) && physicalDevice == Some(devices[k])
      ensures r.Ok? ==>
        && device == Some(r.value)
        && QueuesServe(r.value)
        && exists k: nat :: IsFirstSuitable(deviceExtensions, devices, k)
             && physicalDevice == Some(devices[k]) && r.value.physicalDevice == devices[k]
    {
      var created := CreateInstance(availableLayers, glfwExtensions);
      if created.Fatal? {
        return Fatal(created.failure);
      }
      var picked := PickPhysicalDevice(devices);
      if picked.Fatal? {
        return Fatal(picked.failure);
      }
      r := CreateLogicalDevice();
    }
  }
}
