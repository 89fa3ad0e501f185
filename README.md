# Vulkan renderer core in Dafny

This project models the decision logic and the frame loop of the Vulkan renderer in
`Src/Core/API/Vulkan/Renderer.cpp`. The Vulkan driver and the SDL window are not modelled.
Whatever they would return (device properties, surface capabilities, the result of each API
call, the drawable size) is passed in as a parameter. The calls the renderer makes are kept
as entries of an event log.

There are five modules:

- `VulkanTypes` (`vulkan_types.dfy`) holds the fixed-width integers, the `VkResult` codes the
  renderer tells apart, the fatal errors it throws, and the formats, extents, capabilities,
  layouts and flag bits it reads. Numeric codes are those of the Vulkan headers.
- `SwapChainNegotiation` (`swap_chain_negotiation.dfy`) chooses the presentation chain's
  parameters: surface format, present mode, extent, and the number of images requested.
- `DeviceBootstrap` (`device_bootstrap.dfy`) covers device selection:
  - the queue-family scan;
  - the extension and validation-layer checks;
  - device rating and the `PickPhysicalDevice` loop over devices and its candidate multimap;
  - the distinct-family queue create-infos and the image sharing mode.
- `ResourceAllocation` (`resource_allocation.dfy`) has `FindMemoryType` and the layout-transition
  table of `TransitionImageLayout` with its one-shot command buffer. It also has the static vertex
  and index data.
- `FrameOrchestration` (`frame_orchestration.dfy`) holds the class `Renderer` for the renderer's
  mutable globals (swapchain, images, views, framebuffers, in-flight fences, `CurrentFrame`,
  `FramebufferResized`) and the log of API calls. Its methods are the building and rebuilding of
  the presentation chain, the creation of the synchronisation objects, command recording, and
  `DrawFrame`. `DrawFrame` is split into its acquire, submit (`SubmitFrame`) and present
  (`PresentFrame`) phases.

Every in-flight fence is in one of these states: `Signaled`, `Unsignaled` (reset with no
submission), `Pending` (handed to a submission that may still be running), or `Absent` (a null
handle from a vector resize). `Renderer.Valid()` holds three things:

- every fence is `Signaled` or `Pending`, and the frame counter is in range;
- view `i` shows image `i` and framebuffer `i` wraps view `i`;
- the log is safe: every uniform-buffer write and fence reset happened on a signaled fence, and every
  command-buffer reset happened with no submission of that slot pending.

`DrawFrame` keeps `Valid()` on every normal return.

Where the code and its evident intent differ, the model follows the code. Two such cases are
not defects and are modelled as written:

- an acquire result of `VK_SUBOPTIMAL_KHR` throws (Renderer.cpp:1032);
- a present result of `VK_SUBOPTIMAL_KHR` rebuilds the chain and still advances the frame counter.

The command buffer is reset after the fence reset (Renderer.cpp:1039-1041), so at that moment the
fence is unsignaled. The guarantee stated there is that no submission of the slot is pending, not
that the fence is signaled. Three defects are listed under "## Findings". The operations use the
code as written: `PickPhysicalDevice` ranks by the as-written rating, `CreateSwapChain` requests the
as-written image count, and `TransitionImageLayout` records the as-written barrier. Each corrected
form stands beside its as-written one, with the intended property proved about it. The device pick
takes the rating rule as a parameter (`RatingRule`), so its lemmas hold for both ratings.

## Model

| member | source | states |
|---|---|---|
| VulkanTypes.ToU32 | Src/Core/API/Vulkan/Renderer.cpp:641-644 | `static_cast<uint32_t>` keeps values in range and adds 2^32 to a negative 32-bit value |
| SwapChainNegotiation.FindPreferredFormat | Src/Core/API/Vulkan/Renderer.cpp:605-611 | the index found is the first BGRA8-sRGB / sRGB-non-linear entry at or after the start, or the end when there is none |
| SwapChainNegotiation.ChooseSwapSurfaceFormat | Src/Core/API/Vulkan/Renderer.cpp:603-614 | the result is a listed format; it is the preferred format exactly when one is listed; otherwise it is element 0 |
| SwapChainNegotiation.ChoosePresentModeFrom | Src/Core/API/Vulkan/Renderer.cpp:618-626 | the scan from a position yields IMMEDIATE exactly when IMMEDIATE occurs in the rest of the list, and FIFO otherwise |
| SwapChainNegotiation.ChooseSwapPresentMode | Src/Core/API/Vulkan/Renderer.cpp:616-627 | IMMEDIATE exactly when listed; otherwise FIFO, even when FIFO is not listed |
| SwapChainNegotiation.Clamp | Src/Core/API/Vulkan/Renderer.cpp:646-647 | `std::clamp` gives a value in [lo, hi] and leaves an in-range value unchanged |
| SwapChainNegotiation.ClampIsNearest | Src/Core/API/Vulkan/Renderer.cpp:646-647 | the clamped value is the value of [lo, hi] nearest to the input |
| SwapChainNegotiation.ChooseSwapExtent | Src/Core/API/Vulkan/Renderer.cpp:629-651 | gives `currentExtent` when its width is not `UINT32_MAX`; otherwise each dimension is the drawable size, cast to `uint32_t`, clamped to that dimension's surface limits, so the result lies within the limits and equals the drawable size when that is already in range |
| SwapChainNegotiation.ChooseSwapExtentNearest | Src/Core/API/Vulkan/Renderer.cpp:641-650 | when the surface leaves the extent open and its limits are ordered, no extent within the limits is nearer the drawable size in either dimension |
| SwapChainNegotiation.ShiftRightNonzero | Src/Core/API/Vulkan/Renderer.cpp:521 | `x >> s` is nonzero exactly when `x >= 2^s` |
| SwapChainNegotiation.ImageCountAsWrittenClampsWhen | Src/Core/API/Vulkan/Renderer.cpp:519-524 | the rule as written requests `maxImageCount` exactly when it is nonzero and `minImageCount + 1 >= 2^maxImageCount`; otherwise it requests `minImageCount + 1` |
| SwapChainNegotiation.ImageCountAsWrittenExceedsMaximum | Src/Core/API/Vulkan/Renderer.cpp:519-524 | with min = max = 3 the rule as written requests 4 images |
| SwapChainNegotiation.SwapChainImageCount | Src/Core/API/Vulkan/Renderer.cpp:519-524 | the corrected rule: never above a nonzero maximum; `minImageCount + 1` when that fits; never below the minimum |
| DeviceBootstrap.FindQueueFamilies | Src/Core/API/Vulkan/Renderer.cpp:473-509 | the loop with its early `break` computes the scan `QueueFamiliesOf` |
| DeviceBootstrap.LastGraphics | Src/Core/API/Vulkan/Renderer.cpp:485-490 | the latest family with the graphics bit in a prefix, or none when the prefix has no such family |
| DeviceBootstrap.LastPresent | Src/Core/API/Vulkan/Renderer.cpp:485-498 | the latest presenting family in a prefix, or none when the prefix has no such family |
| DeviceBootstrap.StopPoint | Src/Core/API/Vulkan/Renderer.cpp:500-503 | the first prefix length at or after a start that contains both capabilities, or the family count |
| DeviceBootstrap.ScanFromIndicesAfter | Src/Core/API/Vulkan/Renderer.cpp:483-508 | the scan resumed from an incomplete prefix ends with the latest indices of the prefix at the stop point |
| DeviceBootstrap.QueueFamiliesAtStopPoint | Src/Core/API/Vulkan/Renderer.cpp:483-508 | the result is the pair of latest qualifying indices in the stopping prefix |
| DeviceBootstrap.QueueFamiliesSound | Src/Core/API/Vulkan/Renderer.cpp:483-508 | a reported graphics index is in range and has the graphics bit; a reported present index is in range and supports presenting |
| DeviceBootstrap.QueueFamiliesComplete | Src/Core/API/Vulkan/Renderer.cpp:483-508 | the pair is complete exactly when some family has the graphics bit and some family presents |
| DeviceBootstrap.QueueFamiliesStopEarly | Src/Core/API/Vulkan/Renderer.cpp:500-503 | a complete pair stops at the first prefix that holds both capabilities, and each index is the last qualifying one before the stop |
| DeviceBootstrap.QueueFamiliesIncompleteKeepsLast | Src/Core/API/Vulkan/Renderer.cpp:483-508 | an incomplete pair keeps the last qualifying index over all families |
| DeviceBootstrap.CheckDeviceExtensionSupport | Src/Core/API/Vulkan/Renderer.cpp:347-363 | erasing the available names leaves the required set empty exactly when every required extension is available |
| DeviceBootstrap.LayerFound | Src/Core/API/Vulkan/Renderer.cpp:431-440 | the inner search finds a layer exactly when it is listed from the start position on |
| DeviceBootstrap.AllLayersFound | Src/Core/API/Vulkan/Renderer.cpp:429-446 | true exactly when every remaining requested layer is available |
| DeviceBootstrap.CheckValidationLayerSupport | Src/Core/API/Vulkan/Renderer.cpp:421-449 | true exactly when every requested validation layer is available |
| DeviceBootstrap.RateDeviceSuitability | Src/Core/API/Vulkan/Renderer.cpp:312-345 | as written: the rating is 0 or 1; it is 0 without a geometry shader; it is 1 exactly when the score is nonzero, the extensions are present and the swap chain is adequate |
| DeviceBootstrap.RateDeviceSuitabilityDoesNotRank | Src/Core/API/Vulkan/Renderer.cpp:344 | as written, any two positively rated devices rate equally |
| DeviceBootstrap.DiscreteGpuNotPreferred | Src/Core/API/Vulkan/Renderer.cpp:322-344 | as written, a discrete GPU and an otherwise identical integrated GPU both rate 1 |
| DeviceBootstrap.RateDeviceSuitabilityIntended | Src/Core/API/Vulkan/Renderer.cpp:312-345 | corrected: the rating is 0 unless the device has a geometry shader, the extensions and an adequate swap chain; a rated discrete GPU scores at least 1000 |
| DeviceBootstrap.DiscreteGpuPreferredIntended | Src/Core/API/Vulkan/Renderer.cpp:322-327 | corrected: making a qualifying device discrete raises its rating by exactly 1000 |
| DeviceBootstrap.TopIndex | Src/Core/API/Vulkan/Renderer.cpp:278-282 | the multimap's `rbegin()` has the greatest score, and among equal scores it is the latest inserted |
| DeviceBootstrap.PickFromChooses | Src/Core/API/Vulkan/Renderer.cpp:267-302 | for either rating rule, a loop that returns has chosen a device index in range; a loop that throws throws `NoSuitableGpu` |
| DeviceBootstrap.PickPhysicalDeviceResult | Src/Core/API/Vulkan/Renderer.cpp:248-303 | for either rating rule, the chosen index is in range; `NoVulkanGpu` is thrown exactly when there is no device |
| DeviceBootstrap.PickPhysicalDevice | Src/Core/API/Vulkan/Renderer.cpp:248-303 | the loop over devices and candidates, ranking by the as-written `RateDeviceSuitability`, computes `PickPhysicalDeviceResult` with the as-written rule |
| DeviceBootstrap.PickFromLastSuitable | Src/Core/API/Vulkan/Renderer.cpp:269-274 | for either rating rule, with no `break`, a suitable last device is the one chosen |
| DeviceBootstrap.PickPhysicalDeviceNoBreak | Src/Core/API/Vulkan/Renderer.cpp:267-274 | for either rating rule, when the last device is suitable and the pick returns, the last device is chosen, whatever suitable device came earlier |
| DeviceBootstrap.FirstUnsuitable | Src/Core/API/Vulkan/Renderer.cpp:269 | the first index at or after the start whose device is not suitable, or the device count |
| DeviceBootstrap.PickFromAfterPositive | Src/Core/API/Vulkan/Renderer.cpp:280-295 | for either rating rule, once the top candidate rates above 0, the loop no longer throws |
| DeviceBootstrap.PickFromFails | Src/Core/API/Vulkan/Renderer.cpp:275-295 | for either rating rule, from an empty multimap the loop throws exactly when the first unsuitable device rates 0, and then it throws `NoSuitableGpu` |
| DeviceBootstrap.PickPhysicalDeviceFailsWhen | Src/Core/API/Vulkan/Renderer.cpp:267-302 | for either rating rule, the pick throws exactly when the first unsuitable device rates 0, and what it throws is `NoSuitableGpu` |
| DeviceBootstrap.PickPhysicalDeviceThrowsAfterChoosing | Src/Core/API/Vulkan/Renderer.cpp:267-302 | as written, a suitable device followed by a device without a geometry shader makes the pick throw, although a device was chosen |
| DeviceBootstrap.PickAsWrittenIgnoresDeviceType | Src/Core/API/Vulkan/Renderer.cpp:278-344 | a discrete GPU listed before an integrated GPU with smaller limits: the as-written pick chooses the integrated GPU (the later of two equal ratings), the intended rating chooses the discrete one |
| DeviceBootstrap.PickAsWrittenThrowsOnWrappedScore | Src/Core/API/Vulkan/Renderer.cpp:322-344 | a discrete GPU whose `maxImageDimension2D` is `2^32 - 1000` scores 0 after the 32-bit wrap, so the as-written pick throws `NoSuitableGpu`, while the intended rating picks it |
| DeviceBootstrap.DeviceQueueCreateInfos | Src/Core/API/Vulkan/Renderer.cpp:365-383 | fails with the empty-optional error unless both indices exist; otherwise there is one create-info per distinct family (1 or 2), each with one queue, covering both indices, in ascending order |
| DeviceBootstrap.ChooseImageSharing | Src/Core/API/Vulkan/Renderer.cpp:537-550 | fails with the empty-optional error unless both indices exist; otherwise CONCURRENT with both indices when they differ, EXCLUSIVE with none when equal |
| ResourceAllocation.FindMemoryTypeFrom | Src/Core/API/Vulkan/Renderer.cpp:1585-1592 | the first qualifying memory type from a start, or an error exactly when none qualifies |
| ResourceAllocation.FindMemoryType | Src/Core/API/Vulkan/Renderer.cpp:1580-1595 | the lowest index with its bit set in the filter and all requested properties; throws exactly when no index qualifies |
| ResourceAllocation.FindMemoryTypeMonotone | Src/Core/API/Vulkan/Renderer.cpp:1587 | asking for more properties never finds a lower index, and a success with more properties implies a success with fewer |
| ResourceAllocation.QualifiesWeaker | Src/Core/API/Vulkan/Renderer.cpp:1587 | a type that has a superset of the requested flags has every subset too |
| ResourceAllocation.LayoutTransitionMasks | Src/Core/API/Vulkan/Renderer.cpp:1265-1284 | the table is defined exactly for UNDEFINED to TRANSFER_DST and TRANSFER_DST to SHADER_READ_ONLY |
| ResourceAllocation.LayoutTransitionsChain | Src/Core/API/Vulkan/Renderer.cpp:1265-1279 | the masks and stages of the two supported transitions, whose destination masks and stages of the upload are the source ones of the sampling transition |
| ResourceAllocation.TransitionBarrier | Src/Core/API/Vulkan/Renderer.cpp:1245-1276 | as written: layouts, image and access masks as given, source family IGNORED, destination family left 0 |
| ResourceAllocation.TransitionBarrierMixesFamilies | Src/Core/API/Vulkan/Renderer.cpp:1251-1252 | as written, every barrier names exactly one of its queue families IGNORED (source IGNORED, destination 0), a combination Vulkan does not allow |
| ResourceAllocation.TransitionBarrierIntended | Src/Core/API/Vulkan/Renderer.cpp:1245-1276 | corrected: both families IGNORED, so the two indices agree and no ownership transfer is requested; otherwise equal to the as-written barrier |
| ResourceAllocation.TransitionImageLayout | Src/Core/API/Vulkan/Renderer.cpp:1241-1289 | always begins a one-shot buffer; returns normally exactly for a supported pair, recording begin, the as-written barrier (source family IGNORED, destination 0) with the table's masks and stages, and end; otherwise throws `UnsupportedLayoutTransition` after the begin only |
| ResourceAllocation.TransitionImageLayoutBufferLifetime | Src/Core/API/Vulkan/Renderer.cpp:1241-1289 | a supported transition records exactly one barrier, between begin and end, and frees its buffer; an unsupported one records no barrier and never frees the buffer it allocated |
| ResourceAllocation.IndicesInRange | Src/Core/API/Vulkan/Renderer.cpp:70-79 | 4 vertices and 6 indices, a whole number of triangles, every index below the vertex count |
| FrameOrchestration.SwapchainCreateInfoFor | Src/Core/API/Vulkan/Renderer.cpp:511-560 | fails with the empty-optional error exactly when a queue family is missing; otherwise the image count is the as-written rule's (`maxImageCount` when that is nonzero and `uint32_t(minImageCount + 1) >= 2^maxImageCount`, else `minImageCount + 1`), the format, present mode and extent are the choosers' results (so a listed format, IMMEDIATE exactly when listed, and the extent of the surface or the clamped drawable size), and sharing is CONCURRENT exactly when the families differ |
| FrameOrchestration.BuildCallsComplete | Src/Core/API/Vulkan/Renderer.cpp:658-661 | a build makes at most `1 + 2n` creation calls for `n` images; it succeeds exactly when the swapchain creation succeeds and all `1 + 2n` are made |
| FrameOrchestration.SyncCalls | Src/Core/API/Vulkan/Renderer.cpp:1004-1016 | three creation calls per slot |
| FrameOrchestration.SyncCallsOfSlot | Src/Core/API/Vulkan/Renderer.cpp:1004-1016 | slot `i` owns calls `3i .. 3i + 2`: its image-available semaphore, its render-finished semaphore, and its fence created signaled |
| FrameOrchestration.SyncCallsSafe | Src/Core/API/Vulkan/Renderer.cpp:1004-1016 | creating sync objects never rewrites a slot's resources |
| FrameOrchestration.NextFrame | Src/Core/API/Vulkan/Renderer.cpp:1092 | the next frame index is below `MaxFramesInFlight` |
| FrameOrchestration.FrameAfterIsModular | Src/Core/API/Vulkan/Renderer.cpp:1092 | after `n` completed frames the counter is `(frame + n) % MaxFramesInFlight` |
| FrameOrchestration.EverySlotReached | Src/Core/API/Vulkan/Renderer.cpp:1092 | every slot is reached within `MaxFramesInFlight` completed frames |
| FrameOrchestration.Renderer.CreateSwapChain | Src/Core/API/Vulkan/Renderer.cpp:511-573 | throws on a missing family before any call; otherwise logs the create call with the negotiated create-info; returns normally exactly when creation succeeds, taking the swapchain, its images, format and extent; a failure leaves the chain fields unchanged |
| FrameOrchestration.Renderer.CreateImageViews | Src/Core/API/Vulkan/Renderer.cpp:664-696 | the vector is resized to the image count and filled up to the first failing creation, the rest kept from the resize; returns normally exactly when every creation succeeds, leaving view `i` on image `i` |
| FrameOrchestration.Renderer.CreateFramebuffers | Src/Core/API/Vulkan/Renderer.cpp:698-726 | the vector is resized to the view count and filled up to the first failing creation; returns normally exactly when every creation succeeds, leaving framebuffer `i` on view `i` |
| FrameOrchestration.Renderer.CleanUpSwapChain | Src/Core/API/Vulkan/Renderer.cpp:105-118 | destroys every framebuffer, then every view, then the swapchain, in that order |
| FrameOrchestration.Renderer.CreateViewsAndFramebuffers | Src/Core/API/Vulkan/Renderer.cpp:660-661 | the log gains the view creations up to the first failing one, then, only when every view was created, the framebuffer creations up to the first failing one; returns normally exactly when every creation of both kinds succeeds, leaving the chain consistent |
| FrameOrchestration.Renderer.RecreateSwapChain | Src/Core/API/Vulkan/Renderer.cpp:653-662 | the log gains exactly the device wait, the teardown of the old chain, and the build calls up to the first failure; returns normally exactly when the whole build succeeds, and then the fields hold the new swapchain, its images, the negotiated format and extent, and views and framebuffers that correspond index by index |
| FrameOrchestration.Renderer.CreateSyncObjects | Src/Core/API/Vulkan/Renderer.cpp:991-1017 | fences are created signaled up to the first failing creation, the rest null from the resize; returns normally exactly when every slot's three creations succeed, leaving every fence signaled |
| FrameOrchestration.Renderer.RecordCommandBuffer | Src/Core/API/Vulkan/Renderer.cpp:1115-1173 | a failed begin records nothing more; otherwise records the render pass on the acquired image's framebuffer, the pipeline, viewport, scissor, buffers, the frame's descriptor set and a draw of all 6 indices; returns normally exactly when begin and end succeed |
| FrameOrchestration.Renderer.SubmitFrame | Src/Core/API/Vulkan/Renderer.cpp:1037-1064 | writes the uniform buffer and resets the fence while it is signaled, resets the command buffer, records, and submits; the exact log on every path: the resets, then only the begin call when it fails, the whole recording when the end fails, and the recording followed by the submit call otherwise; the fence is pending exactly when the submission succeeds, otherwise unsignaled |
| FrameOrchestration.Renderer.PresentFrame | Src/Core/API/Vulkan/Renderer.cpp:1066-1092 | the log gains the present and, on out-of-date, suboptimal or a reported resize, exactly one rebuild's calls; the flag is cleared; a successful rebuild leaves the new chain in the fields, no rebuild leaves them unchanged; another failure throws; a normal return advances the counter modulo the slot count |
| FrameOrchestration.Renderer.RenderFrame | Src/Core/API/Vulkan/Renderer.cpp:1037-1092 | after an acquired image, the exact log on every path: the slot resets, then only the begin call when it fails, the whole recording when the end fails, the recording and the failed submit when the submit fails, and otherwise the submit, the present and, when the present asks for it, exactly one rebuild's calls; a successful rebuild leaves the new chain in the fields, otherwise they are unchanged; each stage fails with its own error; returns normally exactly when every stage succeeds and the present is normal or its rebuild succeeds |
| FrameOrchestration.Renderer.DrawFrame | Src/Core/API/Vulkan/Renderer.cpp:1019-1093 | waits on the slot's fence before acquiring; an out-of-date acquire logs exactly one rebuild's calls and returns with the counter and the slot reusable; the exact log is stated for every path: the acquire alone when it throws, and after a successful acquire the resets followed by the begin call, the recording or the submit up to the stage that fails, or the present with one rebuild when the present asks for it; a successful rebuild leaves the new chain in the fields, no rebuild leaves them unchanged; any other failed acquire, SUBOPTIMAL included, throws; the other stages fail with their own errors; the log stays safe, and a normal return keeps every fence signaled or pending, the counter in range and the chain consistent |

## Left out

- SDL windowing, surface creation and `SDL_Vulkan_GetDrawableSize`: these are I/O. The drawable size is a parameter of `ChooseSwapExtent`.
- Logging to `std::cout` and `std::cerr`, shader file loading, and texture decoding: these are I/O and foreign code.
- The Vulkan driver. Each call is an event-log entry, and its result comes from the parameters `ChainResponses`, `FrameResponses`, the failing view, framebuffer or sync-object index, and the device records. The two-call enumeration pattern is modelled as one query whose answer is passed in.
- `QuerySwapChainSupport`: a driver query with nothing to decide. Its present-mode read is guarded by the format count, which does not change whether a swap chain is adequate.
- GPU-side ordering through semaphores and asynchronous completion of submitted work: this is concurrency. The log records which semaphore each submit and present waits on and signals. A pending fence is never seen to complete, except through the fence wait.
- `UpdateUniformBuffer` matrix maths, viewport floats and the queue priority: these are floating point and a clock. The uniform write is logged with the fence state at that moment.
- Create-info filling for the pipeline, render pass, descriptor-set layout and views, the debug messenger (whose destroy is issued twice when validation layers are enabled), and the `CleanUp` destruction sequence: constant configuration and teardown plumbing.
- `Init` call order, `CreateCommandBuffers`, descriptor sets, buffers and textures: setup plumbing. The render pass and pipeline are fixed handles of `Renderer`, so a rebuild leaves them unchanged.
- `Renderer.h` is not part of this model. `MaxFramesInFlight` (at least 1), the initial values of the globals, `DeviceExtensions` and `ValidationLayers` are parameters. `IsComplete` means both optional indices are present.
- SwapChainNegotiation.ShiftRight: a shift by 32 or more, which C++ leaves undefined, is given its mathematical value.
- DeviceBootstrap.DeviceScore: `int += uint32_t` is taken modulo 2^32. In the rating as written, only whether the score is zero reaches a result.
- FrameOrchestration.Renderer.CreateImageViews, CreateFramebuffers and CreateSyncObjects: the creation call that fails, and makes the source throw, is not entered in the log; the log holds the successful creations before it. The creation events carry no result field.
- FrameOrchestration.Renderer.DrawFrame: `vkDeviceWaitIdle` in a rebuild does not mark the other slots' fences signaled, which keeps the fence states conservative.

## Findings

| source | as written | input that shows it | evidently intended | confidence | as-written member | corrected member |
|---|---|---|---|---|---|---|
| Src/Core/API/Vulkan/Renderer.cpp:521 | `ImageCount >> maxImageCount` decides whether to cap the image count | `minImageCount = maxImageCount = 3` requests 4 images, above the surface's maximum | `ImageCount > maxImageCount` | high, not executed | SwapChainNegotiation.ImageCountAsWrittenExceedsMaximum | SwapChainNegotiation.SwapChainImageCount |
| Src/Core/API/Vulkan/Renderer.cpp:344 | returns `Score && ExtensionsSupported && SwapChainAdequate`, a boolean converted to 0 or 1 | a discrete GPU and an integrated GPU with the same limits both rate 1 | return `Score` when the extensions and the swap chain are adequate, and 0 otherwise | high, not executed | DeviceBootstrap.DiscreteGpuNotPreferred | DeviceBootstrap.DiscreteGpuPreferredIntended |
| Src/Core/API/Vulkan/Renderer.cpp:1251-1252 | assigns `srcQueueFamilyIndex` twice and leaves `dstQueueFamilyIndex` at 0 | any transition: the barrier names source family IGNORED and destination family 0, one ignored and one real family, which Vulkan does not allow | both family indices `VK_QUEUE_FAMILY_IGNORED` | high, not executed | ResourceAllocation.TransitionBarrierMixesFamilies | ResourceAllocation.TransitionBarrierIntended |
