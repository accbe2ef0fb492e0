# Device selection, clamping and file-name splitting of a Swift Vulkan tutorial application

This project models, in Dafny, the self-contained decision rules of a Swift
application that drives Vulkan and GLFW through a foreign-function layer:

- **Device and queue selection in `Application`** (`QueueSelection`,
  `VulkanApplication`): the ordered queue-family scan of `findQueueFamilies`
  with its early exit, `QueueFamilyIndices.isComplete`, the extension subset
  test `checkDeviceExtensionSupport`, `isDeviceSuitable`, the first-match
  search of `pickPhysicalDevice`, the distinct-queue-family loop and the
  required-extension list of `createLogicalDevice`, the nested-loop layer
  check `checkValidationLayerSupport`, and the validation gate plus the
  required instance-extension list of `createInstance`. Every Vulkan or GLFW
  query is replaced by what it reports: a physical device is its queue
  families (each reduced to "has the graphics bit" and "can present to the
  surface") and its extension names; available layers and GLFW's extension
  names are given as sequences. `Application` is a class whose fields
  `instance`, `physicalDevice` and `device` are set by the methods that
  create them; a created instance or device is represented by the
  configuration handed to the driver. The `fatalError` calls and the
  force-unwraps of `physicalDevice` and of the two queue families become a
  `Fatal` result; the two unwraps of driver results listed under
  "## Left out" are assumed not to trap.
- **`clamp(_:_:)` and `clamped(to:)`** (`Clamping`): `max(lower, min(upper, x))`
  over the integers, with Swift's `ClosedRange` invariant as a subset type.
- **The name split at the top of `FileUtils.loadFile`** (`FileNames`): split on
  `"."` dropping empty pieces, remove the last piece as the extension, join
  the rest with `"."` as the resource name.

## Model

| member | source | states |
|---|---|---|
| `QueueSelection.QueueFamilyIndices.IsComplete` | Sources/SwiftUI/Application.swift:97-99 | complete exactly when a graphics family was found; the present family is never consulted |
| `QueueSelection.QueueFamilyScanChoices` | Sources/SwiftUI/Application.swift:111-124 | the graphics family is the first family with the graphics bit (none if no family has it); the present family is the last present-capable family among those scanned, which are the families up to and including the first graphics family, or all of them; it can be absent while the graphics family is set |
| `QueueSelection.ScanCompleteIffGraphics` | Sources/SwiftUI/Application.swift:102-128 | the indices returned by the scan are complete exactly when some family has the graphics bit |
| `VulkanApplication.Application.FindQueueFamilies` | Sources/SwiftUI/Application.swift:102-128 | the loop with its early exit returns the first graphics family (none if no family has the graphics bit) and the last present-capable family among the families up to and including it, or among all families when there is none |
| `QueueSelection.CheckDeviceExtensionSupport` | Sources/SwiftUI/Application.swift:41-58 | true exactly when every required extension name occurs among the available names; order and duplicates play no part |
| `QueueSelection.IsDeviceSuitable` | Sources/SwiftUI/Application.swift:60-72 | suitable exactly when some queue family has the graphics bit and every required extension is available; present support is not looked at |
| `VulkanApplication.Application.PickPhysicalDevice` | Sources/SwiftUI/Application.swift:130-154 | no device is the fatal "no GPU" error; otherwise the chosen device is the first suitable one in enumeration order and becomes the physical device; no suitable device is the fatal "no suitable GPU" error |
| `VulkanApplication.Application.UniqueQueueFamilies` | Sources/SwiftUI/Application.swift:159-171 | one queue entry per member of the set {graphics, present}, no family twice: one entry when they are equal, two otherwise |
| `VulkanApplication.Application.RequiredDeviceExtensions` | Sources/SwiftUI/Application.swift:175-195 | the configured device extensions unchanged and in order, followed by one `VK_KHR_portability_subset` per available entry with exactly that name, and nothing else |
| `VulkanApplication.Application.CreateLogicalDevice` | Sources/SwiftUI/Application.swift:156-225 | traps (fatal) exactly when there is no physical device or its scan found no present family; otherwise the device has one queue per distinct family, its graphics and present queues come from the scanned families (which have those capabilities), it enables the required device extensions and, when validation is on, the validation layers |
| `VulkanApplication.Application.CheckValidationLayerSupport` | Sources/SwiftUI/Application.swift:230-258 | true exactly when every requested layer name occurs among the available layers |
| `VulkanApplication.Application.RequiredInstanceExtensions` | Sources/SwiftUI/Application.swift:273-288 | `VK_KHR_portability_enumeration`, then `VK_KHR_get_physical_device_properties2`, then GLFW's non-nil extension names in order |
| `VulkanApplication.NonNilConcat` | Sources/SwiftUI/Application.swift:283-288 | filtering GLFW's list part by part gives the filtered parts in their order |
| `VulkanApplication.NonNilKeepsNames` | Sources/SwiftUI/Application.swift:283-288 | a name is in the filtered GLFW list exactly when it occurs as a non-nil entry |
| `VulkanApplication.Application.CreateInstance` | Sources/SwiftUI/Application.swift:260-311 | fatal exactly when validation is enabled and some requested layer is unavailable; otherwise the instance gets the required extensions, the enumerate-portability flag, and the validation layers only when validation is enabled |
| `VulkanApplication.Application.InitVulkan` | Sources/SwiftUI/Application.swift:34-39 | each failure occurs under its own condition: missing validation layers, no device, no suitable device, or no present family on the first suitable device; setup succeeds otherwise. Once the gate passes, the instance is the configuration `createInstance` builds. The physical device and the logical device's physical device are the first suitable device, and its queues come from capable families. Fields the failing step does not reach stay unchanged |
| `VulkanApplication.Application.constructor` | Sources/SwiftUI/Application.swift:10-25 | one validation layer `VK_LAYER_KHRONOS_validation`, one device extension `VK_KHR_swapchain`, validation on exactly in a debug build, nothing created yet |
| `QueueSelection.AsWrittenScanDropsPresentFamily` | Sources/SwiftUI/Application.swift:98 | a device whose graphics family cannot present and whose second family can is suitable, yet the scan returns no present family; the intended scan returns family 1 |
| `QueueSelection.IntendedScanFinds` | Sources/SwiftUI/Application.swift:97-124 | with both families required before stopping, the scan finds both exactly when the device has a graphics family and a present-capable family, and each index it returns names a family with that capability |
| `QueueSelection.IntendedSuitableDeviceHasQueues` | Sources/SwiftUI/Application.swift:60-72 | with the intended completeness test, a suitable device always yields a graphics and a present family, so the force-unwraps in `createLogicalDevice` cannot trap |
| `Clamping.Clamp` | Sources/SwiftUI/Extensions/ComparableExtension.swift:2-4 | with ordered bounds the result lies within them, is `x` when `x` does, the lower bound below it and the upper bound above it; with inverted bounds the result is always the lower bound |
| `Clamping.Clamped` | Sources/SwiftUI/Extensions/ComparableExtension.swift:6-8 | equals `clamp` with the range's bounds and lies within the range |
| `Clamping.ClampIdempotent` | Sources/SwiftUI/Extensions/ComparableExtension.swift:2-4 | clamping a clamped value changes nothing |
| `Clamping.ClampMonotone` | Sources/SwiftUI/Extensions/ComparableExtension.swift:2-4 | `x <= y` implies `clamp(x) <= clamp(y)` |
| `FileNames.Split` | Sources/SwiftUI/FileUtils.swift:6 | every segment is non-empty and holds no dot |
| `FileNames.SplitEmptyIffAllDots` | Sources/SwiftUI/FileUtils.swift:6-7 | splitting yields no segment exactly when the path is empty or all dots, the case in which `removeLast` traps |
| `FileNames.SplitWithoutDot` | Sources/SwiftUI/FileUtils.swift:6 | a non-empty path without a dot is one segment |
| `FileNames.JoinSnoc` | Sources/SwiftUI/FileUtils.swift:8 | joining one more segment appends a dot and that segment |
| `FileNames.SplitJoinRoundTrip` | Sources/SwiftUI/FileUtils.swift:6-8 | a path with no empty segment joins back from its segments, and has at least two segments exactly when it contains a dot |
| `FileNames.SplitResourceName` | Sources/SwiftUI/FileUtils.swift:6-8 | the extension is the last segment, non-empty and dot-free; the resource is the other segments joined with dots; no dot gives resource `""` and the whole path as extension; a path with a dot and no empty segment is `resource + "." + extension` |
| `FileNames.LeadingDotExample` | Sources/SwiftUI/FileUtils.swift:6 | `".vert"` splits into `["vert"]`, so its resource is `""` |
| `FileNames.DoubledDotExample` | Sources/SwiftUI/FileUtils.swift:6 | `"a..b"` splits into `["a", "b"]` |

## Left out

- Every Vulkan and GLFW call (instance, surface and device creation, the `vkEnumerate*` and `vkGet*` queries, `initWindow`, `mainLoop`, `cleanup`, `createSurface`): they are foreign calls into native libraries; their results are parameters of the model, and a failing `vkCreateInstance` or `vkCreateDevice` is not modelled.
- The application info of `createInstance` (names and versions) and the instance-extension listing after creation: constant metadata for the driver and printing only.
- The queue count (1) and priority (1.0, a float behind an unsafe pointer) of each queue-create entry, the empty device-features struct, and the `vkGetDeviceQueue` calls beyond recording which family each queue comes from.
- All `print` diagnostics.
- `VulkanApplication.Application.CreateInstance`: assumes `glfwGetRequiredInstanceExtensions` returns a non-null array; the source force-unwraps it, so a null result, for instance when GLFW finds no Vulkan loader, traps. This trap is not modelled.
- `VulkanApplication.Application.PickPhysicalDevice`: assumes every enumerated device handle is non-nil. The source force-unwraps each one with `device!` before `isDeviceSuitable`, and that trap is not modelled.
- Names are compared as sequences of `char`. Swift's `String ==` in the extension and layer checks compares canonically equivalent strings as equal; Vulkan's names are ASCII, for which the two agree.
- Names written with `.cString` and read back with `.string` are assumed to round-trip unchanged. `StringExtensions.swift` lets the pointer escape from `withCString`, and the memory safety of that bridging is not part of this model.
- Queue-family indices are unbounded naturals: the source converts them with `UInt32(index)`, which cannot overflow because the family count is itself a `UInt32`.
- `validationLayers` and `deviceExtensions` are Swift `var`s that no method reassigns; they are class constants here. `enableValidationLayers` comes from the DEBUG build flag; here it is the constructor's parameter.
- The iteration order of `uniqueQueueFamilies` (a Swift `Set`) is unspecified; the model chooses an arbitrary member each time and states only what holds for every order.
- `Clamping.Clamp`: modelled over `int` rather than an arbitrary `Comparable` type.
- The `Bundle.module` lookup and the `Data(contentsOf:)` read of `loadFile`: file I/O.
- `FileNames.Split`: splits on the Unicode scalar `'.'`, while Swift's `split(separator:)` compares `Character`s, which are grapheme clusters. A dot followed by a combining mark is one Swift `Character` that is not `"."`. For example, `"a.\u{301}b"` is one segment in Swift and two in the model. The two agree on paths in which no dot is followed by a combining mark.
- `FileNames.SplitResourceName`: requires the path to hold a character other than a dot. For an empty or all-dots path, `split` yields no segment and `removeLast()` traps; the model does not describe that trap as a result.
- The rest of the repository (the frame loop and swapchain, which go beyond this `Application`, since it stops after creating the logical device; `Root.swift`, `shell.swift`, `ShaderUtils.swift`, `benchmark.swift`, `cppLibrary.cpp`, `SendableExtension.swift`, `StringExtensions.swift`, `Package.swift`): process I/O, timing, pointer bridging and build configuration, none of which is part of this model.

## Findings

| source | as written | input that shows it | evidently intended | confidence | as-written member | corrected member |
|---|---|---|---|---|---|---|
| Sources/SwiftUI/Application.swift:98 | `isComplete` tests `graphicsFamily != nil` twice, so the scan stops at the first graphics family and `isDeviceSuitable` ignores presentation | a device with families (graphics, cannot present) then (no graphics, can present): it is picked, the scan returns no present family, and the force-unwrap in `createLogicalDevice` traps | `graphicsFamily != nil && presentFamily != nil` | high; not executed | `QueueSelection.AsWrittenScanDropsPresentFamily` | `QueueSelection.IntendedSuitableDeviceHasQueues` |

The class `Application` keeps the as-written test, because it models what the
program does; `CreateLogicalDevice` states the resulting trap as a `Fatal`
result. The corrected scan (`QueueFamilyScanIntended`) and suitability test
(`IsDeviceSuitableIntended`) sit beside the as-written ones in
`QueueSelection`, with the proof that a device they accept always has both
queue families.
