/** The frame ring and the presentation-chain state machine of the renderer
    (Renderer.cpp: CreateSwapChain, CleanUpSwapChain, RecreateSwapChain,
    CreateImageViews, CreateFramebuffers, CreateSyncObjects, DrawFrame and
    RecordCommandBuffer).  Vulkan calls are entries of an event log; what the
    driver returns is passed in. */
module FrameOrchestration {
  import opened VulkanTypes
  import opened SwapChainNegotiation
  import opened DeviceBootstrap
  import ResourceAllocation

  // ---------------------------------------------------------------------------
  // Objects and events

  /** The state of an in-flight fence: signaled, reset (unsignaled) with no work pending,
      handed to a submission that has not completed yet, or `VK_NULL_HANDLE`. */
  datatype FenceState = Signaled | Unsignaled | Pending | Absent

  /** A swap-chain image view; `NullView` is the `VK_NULL_HANDLE` a vector resize inserts. */
  datatype ImageView = NullView | View(image: Handle, format: Format)

  /** A framebuffer; `NullFramebuffer` is the `VK_NULL_HANDLE` a vector resize inserts. */
  datatype Framebuffer =
    | NullFramebuffer
    | Framebuffer(renderPass: Handle, attachment: ImageView, width: U32, height: U32, layers: nat)

  /** The per-slot semaphores. */
  datatype Semaphore = ImageAvailable(slot: nat) | RenderFinished(slot: nat)

  /** The fields of `VkSwapchainCreateInfoKHR` the renderer chooses. */
  datatype SwapchainCreateInfo = SwapchainCreateInfo(
    minImageCount: U32,
    surfaceFormat: SurfaceFormat,
    presentMode: PresentMode,
    extent: Extent,
    sharing: ImageSharing)

  /** The API calls the renderer makes, with the result or fence state where it matters.
      `UpdateUniformBuffer`, `ResetFence` and `ResetCommandBuffer` carry the state of the
      slot's fence at the moment of the call. */
  datatype Event =
    | DeviceWaitIdle
    | DestroyFramebuffer(framebuffer: Framebuffer)
    | DestroyImageView(view: ImageView)
    | DestroySwapchain(swapChain: Handle)
    | CreateSwapchain(info: SwapchainCreateInfo, result: ApiResult)
    | CreateImageView(image: Handle, format: Format)
    | CreateFramebuffer(framebuffer: Framebuffer)
    | CreateSemaphore(semaphore: Semaphore)
    | CreateFence(fenceSlot: nat, signaled: bool)
    | WaitForFence(fenceSlot: nat)
    | AcquireNextImage(signal: Semaphore, result: ApiResult)
    | UpdateUniformBuffer(bufferSlot: nat, fence: FenceState)
    | ResetFence(fenceSlot: nat, fence: FenceState)
    | ResetCommandBuffer(bufferSlot: nat, fence: FenceState)
    | BeginCommandBuffer(bufferSlot: nat)
    | BeginRenderPass(renderPass: Handle, framebuffer: Framebuffer, renderArea: Extent)
    | BindPipeline(pipeline: Handle)
    | SetViewport(viewport: Extent)
    | SetScissor(scissor: Extent)
    | BindVertexBuffer
    | BindIndexBufferUint16
    | BindDescriptorSet(descriptorSlot: nat)
    | DrawIndexed(indexCount: nat, instanceCount: nat)
    | EndRenderPass
    | EndCommandBuffer(bufferSlot: nat)
    | QueueSubmit(bufferSlot: nat, wait: Semaphore, waitStage: bv32, signal: Semaphore, result: ApiResult)
    | QueuePresent(wait: Semaphore, imageIndex: nat, result: ApiResult)

  /** A rewrite of a slot's resources happens only when the GPU is done with them: the
      uniform buffer is rewritten and the fence reset while the fence is signaled, and the
      command buffer is reset while no submission of the slot is pending. */
  predicate SafeEvent(e: Event) {
    match e
    case UpdateUniformBuffer(_, fence) => fence == Signaled
    case ResetFence(_, fence) => fence == Signaled
    case ResetCommandBuffer(_, fence) => fence != Pending
    case _ => true
  }

  predicate SafeLog(log: seq<Event>) {
    forall k :: 0 <= k < |log| ==> SafeEvent(log[k])
  }

  /** Appending calls that are each safe keeps the log safe. */
  lemma SafeLogAppend(before: seq<Event>, added: seq<Event>)
    requires SafeLog(added)
    ensures SafeLog(before) ==> SafeLog(before + added)
  {
    if SafeLog(before) {
      forall k | 0 <= k < |before + added|
        ensures SafeEvent((before + added)[k])
      {
        if k < |before| {
          assert (before + added)[k] == before[k];
        } else {
          assert (before + added)[k] == added[k - |before|];
        }
      }
    }
  }

  // ---------------------------------------------------------------------------
  // Driver responses

  /** What the driver and the window report during one build of the presentation chain:
      the surface query, the drawable size, the result of `vkCreateSwapchainKHR`, the
      swapchain and images it yields, and the index of the first `vkCreateImageView` and
      `vkCreateFramebuffer` call that fails, if any. */
  datatype ChainResponses = ChainResponses(
    capabilities: SurfaceCapabilities,
    formats: seq<SurfaceFormat>,
    presentModes: seq<PresentMode>,
    drawableWidth: I32,
    drawableHeight: I32,
    swapchainResult: ApiResult,
    swapchain: Handle,
    images: seq<Handle>,
    failingView: Option<nat>,
    failingFramebuffer: Option<nat>)
  {
    /** `ChooseSwapSurfaceFormat` reads element 0 and `std::clamp` needs ordered bounds. */
    predicate WellFormed() {
      |formats| > 0 && (!SurfaceDefinesExtent(capabilities) ==> ExtentLimitsOrdered(capabilities))
    }
  }

  /** The three creation calls `CreateSyncObjects` makes for each slot, in order. */
  datatype SyncCall = ImageAvailableSemaphoreCall | RenderFinishedSemaphoreCall | FenceCall

  /** The creation call of `CreateSyncObjects` that fails first. */
  datatype SyncFailure = SyncFailure(slot: nat, call: SyncCall)

  /** What the driver returns during one `DrawFrame`. */
  datatype FrameResponses = FrameResponses(
    acquire: ApiResult,      // vkAcquireNextImageKHR
    imageIndex: nat,         // the image it acquired
    beginResult: ApiResult,  // vkBeginCommandBuffer
    endResult: ApiResult,    // vkEndCommandBuffer
    submit: ApiResult,       // vkQueueSubmit
    present: ApiResult)      // vkQueuePresentKHR

  // ---------------------------------------------------------------------------
  // Helpers over sequences

  /** `std::vector::resize(n)` with `fill` as the value-initialised element. */
  function Resized<T>(s: seq<T>, n: nat, fill: T): (r: seq<T>)
    ensures |r| == n
    ensures forall i :: 0 <= i < n ==> r[i] == if i < |s| then s[i] else fill
  {
    if n <= |s| then s[..n] else s + seq(n - |s|, _ => fill)
  }

  /** How many calls of a creation loop of `n` iterations succeed before the first failure. */
  function Succeeded(failing: Option<nat>, n: nat): (k: nat)
    ensures k <= n
    ensures k == n <==> failing.None? || failing.value >= n
  {
    if failing.Some? && failing.value < n then failing.value else n
  }

  function DestroyFramebufferCalls(framebuffers: seq<Framebuffer>): seq<Event>
  {
    seq(|framebuffers|, i requires 0 <= i < |framebuffers| => DestroyFramebuffer(framebuffers[i]))
  }

  function DestroyImageViewCalls(views: seq<ImageView>): seq<Event>
  {
    seq(|views|, i requires 0 <= i < |views| => DestroyImageView(views[i]))
  }

  function CreateImageViewCalls(images: seq<Handle>, format: Format): seq<Event>
  {
    seq(|images|, i requires 0 <= i < |images| => CreateImageView(images[i], format))
  }

  function CreateFramebufferCalls(framebuffers: seq<Framebuffer>): seq<Event>
  {
    seq(|framebuffers|, i requires 0 <= i < |framebuffers| => CreateFramebuffer(framebuffers[i]))
  }

  /** One more framebuffer destroyed adds its call at the end. */
  lemma DestroyFramebufferCallsStep(framebuffers: seq<Framebuffer>, i: nat)
    requires i < |framebuffers|
    ensures DestroyFramebufferCalls(framebuffers[..i + 1]) ==
            DestroyFramebufferCalls(framebuffers[..i]) + [DestroyFramebuffer(framebuffers[i])]
  {
    assert framebuffers[..i + 1][..i] == framebuffers[..i];
  }

  /** One more view destroyed adds its call at the end. */
  lemma DestroyImageViewCallsStep(views: seq<ImageView>, i: nat)
    requires i < |views|
    ensures DestroyImageViewCalls(views[..i + 1]) == DestroyImageViewCalls(views[..i]) + [DestroyImageView(views[i])]
  {
    assert views[..i + 1][..i] == views[..i];
  }

  /** The calls `CleanUpSwapChain` makes: every framebuffer, then every view, then the swapchain. */
  function CleanUpCalls(framebuffers: seq<Framebuffer>, views: seq<ImageView>, swapChain: Handle): seq<Event> {
    DestroyFramebufferCalls(framebuffers) + DestroyImageViewCalls(views) + [DestroySwapchain(swapChain)]
  }

  /** The framebuffer `CreateFramebuffers` makes around `view`. */
  function FramebufferFor(renderPass: Handle, view: ImageView, extent: Extent): Framebuffer {
    Framebuffer(renderPass, view, extent.width, extent.height, 1)
  }

  /** The views of a complete chain: view `i` shows image `i` in the chain's format. */
  function ViewsFor(images: seq<Handle>, format: Format): seq<ImageView>
  {
    seq(|images|, i requires 0 <= i < |images| => View(images[i], format))
  }

  /** The framebuffers of a complete chain: framebuffer `i` wraps view `i`, one layer at `extent`. */
  function FramebuffersFor(renderPass: Handle, views: seq<ImageView>, extent: Extent): seq<Framebuffer>
  {
    seq(|views|, i requires 0 <= i < |views| => FramebufferFor(renderPass, views[i], extent))
  }

  /** The create-info `CreateSwapChain` fills in; the `.value()` reads of the queue-family
      indices throw when either is missing. */
  function SwapchainCreateInfoFor(chain: ChainResponses, queueFamilies: QueueFamilyIndices): (r: Result<SwapchainCreateInfo>)
    requires chain.WellFormed()
    ensures r.Ok? <==> queueFamilies.IsComplete()
    ensures r.Err? ==> r.error == BadOptionalAccess
    ensures r.Ok? ==>
      var caps, info := chain.capabilities, r.value;
      var n := ToU32(caps.minImageCount + 1);
      info.minImageCount == (if caps.maxImageCount > 0 && n >= Pow2(caps.maxImageCount) then caps.maxImageCount else n) &&
      info.surfaceFormat == ChooseSwapSurfaceFormat(chain.formats) && info.surfaceFormat in chain.formats &&
      info.presentMode == ChooseSwapPresentMode(chain.presentModes) &&
      (info.presentMode == Immediate <==> Immediate in chain.presentModes) &&
      info.extent == ChooseSwapExtent(caps, chain.drawableWidth, chain.drawableHeight) &&
      (SurfaceDefinesExtent(caps) ==> info.extent == caps.currentExtent) &&
      (!SurfaceDefinesExtent(caps) ==> ExtentWithin(info.extent, caps.minImageExtent, caps.maxImageExtent)) &&
      (info.sharing.mode == Concurrent <==> queueFamilies.graphicsFamily != queueFamilies.presentFamily)
  {
    var surfaceFormat := ChooseSwapSurfaceFormat(chain.formats);
    var presentMode := ChooseSwapPresentMode(chain.presentModes);
    var extent := ChooseSwapExtent(chain.capabilities, chain.drawableWidth, chain.drawableHeight);
    var imageCount := SwapChainImageCountAsWritten(chain.capabilities);
    ImageCountAsWrittenClampsWhen(chain.capabilities);
    match ChooseImageSharing(queueFamilies)
    case Err(e) => Err(e)
    case Ok(sharing) => Ok(SwapchainCreateInfo(imageCount, surfaceFormat, presentMode, extent, sharing))
  }

  /** The commands `RecordCommandBuffer` records between a successful begin and the end call. */
  function RecordedCommands(slot: nat, renderPass: Handle, framebuffer: Framebuffer, extent: Extent,
                            pipeline: Handle, descriptorSlot: nat): seq<Event>
  {
    [BeginCommandBuffer(slot),
     BeginRenderPass(renderPass, framebuffer, extent),
     BindPipeline(pipeline),
     SetViewport(extent),
     SetScissor(extent),
     BindVertexBuffer,
     BindIndexBufferUint16,
     BindDescriptorSet(descriptorSlot),
     DrawIndexed(|ResourceAllocation.Indices|, 1),
     EndRenderPass,
     EndCommandBuffer(slot)]
  }

  /** The calls `CreateImageViews` and then `CreateFramebuffers` make over `images`: a view
      creation per image up to the first failing one, then, only when every view was
      created, a framebuffer creation per view up to the first failing one. */
  function ViewsAndFramebuffersCalls(images: seq<Handle>, format: Format, renderPass: Handle, extent: Extent,
                                     failingView: Option<nat>, failingFramebuffer: Option<nat>): seq<Event>
  {
    var n := |images|;
    var madeViews := Succeeded(failingView, n);
    CreateImageViewCalls(images[..madeViews], format) +
    if madeViews < n then []
    else CreateFramebufferCalls(FramebuffersFor(renderPass, ViewsFor(images, format)[..Succeeded(failingFramebuffer, n)], extent))
  }

  /** The calls one build of the chain makes after the teardown: the swapchain creation
      (none when the create-info cannot be filled), then, when it succeeded, the views and
      framebuffers of its images. */
  function BuildCalls(chain: ChainResponses, queueFamilies: QueueFamilyIndices, renderPass: Handle): seq<Event>
    requires chain.WellFormed()
  {
    match SwapchainCreateInfoFor(chain, queueFamilies)
    case Err(_) => []
    case Ok(info) =>
      [CreateSwapchain(info, chain.swapchainResult)] +
      if chain.swapchainResult != Success then []
      else ViewsAndFramebuffersCalls(chain.images, info.surfaceFormat.format, renderPass, info.extent,
                                     chain.failingView, chain.failingFramebuffer)
  }

  /** The calls of `RecreateSwapChain`: the device wait, the teardown of the old chain, and
      one build of the new one. */
  function RebuildCalls(framebuffers: seq<Framebuffer>, views: seq<ImageView>, swapChain: Handle,
                        chain: ChainResponses, queueFamilies: QueueFamilyIndices, renderPass: Handle): seq<Event>
    requires chain.WellFormed()
  {
    [DeviceWaitIdle] + CleanUpCalls(framebuffers, views, swapChain) + BuildCalls(chain, queueFamilies, renderPass)
  }

  /** Associativity of concatenation, to regroup the logs of consecutive phases. */
  lemma AppendAssociative(a: seq<Event>, b: seq<Event>, c: seq<Event>)
    ensures a + b + c == a + (b + c)
  {
  }

  /** Whether one build of the presentation chain (`RecreateSwapChain`) returns normally:
      the create-info can be filled, the swapchain is created, and every view and
      framebuffer creation succeeds. */
  predicate ChainBuildSucceeds(chain: ChainResponses, queueFamilies: QueueFamilyIndices)
    requires chain.WellFormed()
  {
    SwapchainCreateInfoFor(chain, queueFamilies).Ok? && chain.swapchainResult == Success &&
    Succeeded(chain.failingView, |chain.images|) == |chain.images| &&
    Succeeded(chain.failingFramebuffer, |chain.images|) == |chain.images|
  }

  /** A build succeeds exactly when the swapchain is created and all `1 + 2n` creation
      calls are made: the swapchain, one view per image and one framebuffer per image. */
  lemma BuildCallsComplete(chain: ChainResponses, queueFamilies: QueueFamilyIndices, renderPass: Handle)
    requires chain.WellFormed()
    ensures |BuildCalls(chain, queueFamilies, renderPass)| <= 1 + 2 * |chain.images|
    ensures ChainBuildSucceeds(chain, queueFamilies) <==>
              chain.swapchainResult == Success && |BuildCalls(chain, queueFamilies, renderPass)| == 1 + 2 * |chain.images|
  {
  }

  /** The calls `CreateSyncObjects` makes for one slot. */
  function SlotSyncCalls(slot: nat): seq<Event> {
    [CreateSemaphore(ImageAvailable(slot)), CreateSemaphore(RenderFinished(slot)), CreateFence(slot, true)]
  }

  /** The calls `CreateSyncObjects` makes for slots `0 .. n - 1`. */
  function SyncCalls(n: nat): (calls: seq<Event>)
    ensures |calls| == 3 * n
  {
    if n == 0 then [] else SyncCalls(n - 1) + SlotSyncCalls(n - 1)
  }

  /** Slot `slot`'s calls sit at positions `3 * slot .. 3 * slot + 2`: its image-available
      semaphore, its render-finished semaphore, then its fence, created signaled. */
  lemma {:induction false} SyncCallsOfSlot(n: nat, slot: nat)
    requires slot < n
    ensures SyncCalls(n)[3 * slot .. 3 * slot + 3] ==
            [CreateSemaphore(ImageAvailable(slot)), CreateSemaphore(RenderFinished(slot)), CreateFence(slot, true)]
  {
    var prefix := SyncCalls(n - 1);
    if slot < n - 1 {
      SyncCallsOfSlot(n - 1, slot);
      assert SyncCalls(n)[3 * slot .. 3 * slot + 3] == prefix[3 * slot .. 3 * slot + 3];
    } else {
      assert SyncCalls(n)[3 * slot .. 3 * slot + 3] == SlotSyncCalls(slot);
    }
  }

  lemma {:induction false} SyncCallsSafe(n: nat)
    ensures SafeLog(SyncCalls(n))
  {
    if n > 0 {
      SyncCallsSafe(n - 1);
      SafeLogAppend(SyncCalls(n - 1), SlotSyncCalls(n - 1));
    }
  }

  /** How many calls of its slot precede a failing call. */
  function CallsBefore(call: SyncCall): nat {
    match call
    case ImageAvailableSemaphoreCall => 0
    case RenderFinishedSemaphoreCall => 1
    case FenceCall => 2
  }

  function FailingSlot(failure: Option<SyncFailure>): Option<nat> {
    if failure.Some? then Some(failure.value.slot) else None
  }

  /** The present test of `DrawFrame`: out of date, suboptimal, or a resize was reported. */
  predicate PresentTriggersRebuild(present: ApiResult, framebufferResized: bool) {
    present == ErrorOutOfDateKhr || present == SuboptimalKhr || framebufferResized
  }

  /** `DrawFrame` gets as far as `vkQueuePresentKHR`: the image is acquired, the command
      buffer recorded and the work submitted. */
  predicate ReachesPresent(frame: FrameResponses) {
    frame.acquire == Success && frame.beginResult == Success && frame.endResult == Success && frame.submit == Success
  }

  /** The fence wait and the acquire that open every `DrawFrame`. */
  function AcquireCalls(slot: nat, acquire: ApiResult): seq<Event> {
    [WaitForFence(slot), AcquireNextImage(ImageAvailable(slot), acquire)]
  }

  /** The rewrites of the slot's resources, each with the state of the slot's fence at that
      moment: after the wait, the uniform buffer is written and the fence reset while the
      fence is signaled; the command buffer is reset after the fence reset. */
  function ResetCalls(slot: nat): seq<Event> {
    [UpdateUniformBuffer(slot, Signaled), ResetFence(slot, Signaled), ResetCommandBuffer(slot, Unsignaled)]
  }

  /** The submission of the slot's command buffer: it waits on the semaphore the acquire
      signals and signals the semaphore the present waits on. */
  function SubmitCall(slot: nat, submit: ApiResult): Event {
    QueueSubmit(slot, ImageAvailable(slot), StageColorAttachmentOutput, RenderFinished(slot), submit)
  }

  function PresentCall(slot: nat, imageIndex: nat, present: ApiResult): Event {
    QueuePresent(RenderFinished(slot), imageIndex, present)
  }

  // ---------------------------------------------------------------------------
  // Frame counter

  /** `(CurrentFrame + 1) % MaxFramesInFlight` */
  function NextFrame(frame: nat, maxFramesInFlight: nat): (r: nat)
    requires maxFramesInFlight >= 1
    ensures r < maxFramesInFlight
  {
    (frame + 1) % maxFramesInFlight
  }

  /** The counter after `n` completed frames. */
  function FrameAfter(frame: nat, n: nat, maxFramesInFlight: nat): nat
    requires maxFramesInFlight >= 1
  {
    if n == 0 then frame else NextFrame(FrameAfter(frame, n - 1, maxFramesInFlight), maxFramesInFlight)
  }

  lemma DivMod(x: int, m: int)
    requires m >= 1
    ensures x == (x / m) * m + x % m && 0 <= x % m < m
  {
  }

  lemma {:induction false} MulAtLeast(d: int, m: int)
    requires d >= 1 && m >= 1
    ensures d * m >= m
  {
    if d > 1 {
      MulAtLeast(d - 1, m);
      assert d * m == (d - 1) * m + m;
    }
  }

  lemma MulAtMostNegative(d: int, m: int)
    requires d <= -1 && m >= 1
    ensures d * m <= -m
  {
    MulAtLeast(-d, m);
    assert (-d) * m == -(d * m);
  }

  /** The Euclidean remainder is unique. */
  lemma ModUnique(y: int, q: int, s: int, m: int)
    requires m >= 1 && 0 <= s < m && y == q * m + s
    ensures y % m == s
  {
    DivMod(y, m);
    var d := y / m - q;
    assert d * m == s - y % m by {
      assert (y / m) * m - q * m == d * m;
    }
    if d >= 1 {
      MulAtLeast(d, m);
    } else if d <= -1 {
      MulAtMostNegative(d, m);
    }
  }

  lemma ModSucc(x: nat, m: nat)
    requires m >= 1
    ensures (x % m + 1) % m == (x + 1) % m
  {
    DivMod(x, m);
    var q, r := x / m, x % m;
    if r + 1 < m {
      ModUnique(x + 1, q, r + 1, m);
      ModUnique(r + 1, 0, r + 1, m);
    } else {
      assert (q + 1) * m == q * m + m;
      ModUnique(x + 1, q + 1, 0, m);
      ModUnique(m, 1, 0, m);
    }
  }

  /** Starting in range, `n` completed frames advance the counter by `n` modulo the slot count. */
  lemma {:induction false} FrameAfterIsModular(frame: nat, n: nat, maxFramesInFlight: nat)
    requires maxFramesInFlight >= 1 && frame < maxFramesInFlight
    ensures FrameAfter(frame, n, maxFramesInFlight) == (frame + n) % maxFramesInFlight
  {
    if n > 0 {
      var x: nat := frame + n - 1;
      FrameAfterIsModular(frame, n - 1, maxFramesInFlight);
      var prev := FrameAfter(frame, n - 1, maxFramesInFlight);
      assert prev == x % maxFramesInFlight;
      assert FrameAfter(frame, n, maxFramesInFlight) == NextFrame(prev, maxFramesInFlight);
      ModSucc(x, maxFramesInFlight);
      assert x + 1 == frame + n;
    }
  }

  /** Any `maxFramesInFlight` consecutive completed frames use every slot: from any start,
      each slot is reached within fewer than `maxFramesInFlight` frames. */
  lemma EverySlotReached(frame: nat, slot: nat, maxFramesInFlight: nat)
    requires maxFramesInFlight >= 1 && frame < maxFramesInFlight && slot < maxFramesInFlight
    ensures exists n :: 0 <= n < maxFramesInFlight && FrameAfter(frame, n, maxFramesInFlight) == slot
  {
    var n := if frame <= slot then slot - frame else slot + maxFramesInFlight - frame;
    FrameAfterIsModular(frame, n, maxFramesInFlight);
    if frame <= slot {
      ModUnique(frame + n, 0, slot, maxFramesInFlight);
    } else {
      ModUnique(frame + n, 1, slot, maxFramesInFlight);
    }
  }

  // ---------------------------------------------------------------------------
  // The renderer

  class Renderer {
    /** `MaxFramesInFlight` (declared in Renderer.h) */
    const maxFramesInFlight: nat
    /** Queue families of the chosen device, as `FindQueueFamilies` reports them. */
    const queueFamilies: QueueFamilyIndices
    const renderPass: Handle
    const graphicsPipeline: Handle

    var swapChain: Handle
    var swapChainImages: seq<Handle>
    var swapChainImageFormat: Format
    var swapChainExtent: Extent
    var swapChainImageViews: seq<ImageView>
    var swapChainFramebuffers: seq<Framebuffer>
    var inFlightFences: seq<FenceState>
    var currentFrame: nat
    var framebufferResized: bool
    /** Every API call made so far, in order. */
    var log: seq<Event>

    /** One fence per slot, the counter in range, and no fence lost without a pending submission. */
    ghost predicate RingValid()
      reads this
    {
      maxFramesInFlight >= 1 &&
      |inFlightFences| == maxFramesInFlight &&
      currentFrame < maxFramesInFlight &&
      forall s :: 0 <= s < |inFlightFences| ==> inFlightFences[s] == Signaled || inFlightFences[s] == Pending
    }

    /** One view per image and one framebuffer per view: view `i` shows image `i` in the chain's
        format, and framebuffer `i` wraps view `i` in the render pass at the chain's extent. */
    ghost predicate ChainValid()
      reads this
    {
      swapChainImageViews == ViewsFor(swapChainImages, swapChainImageFormat) &&
      swapChainFramebuffers == FramebuffersFor(renderPass, swapChainImageViews, swapChainExtent)
    }

    ghost predicate Valid()
      reads this
    {
      RingValid() && ChainValid() && SafeLog(log)
    }

    /** The chain fields hold the chain `chain` describes, built in full: its swapchain and
        images, the negotiated format and extent, and consistent views and framebuffers. */
    ghost predicate BuiltFrom(chain: ChainResponses)
      requires chain.WellFormed()
      reads this
    {
      SwapchainCreateInfoFor(chain, queueFamilies).Ok? &&
      var info := SwapchainCreateInfoFor(chain, queueFamilies).value;
      ChainValid() && swapChain == chain.swapchain && swapChainImages == chain.images &&
      swapChainImageFormat == info.surfaceFormat.format && swapChainExtent == info.extent
    }

    /** No chain field changed. */
    twostate predicate ChainKept()
      reads this
    {
      swapChain == old(swapChain) && swapChainImages == old(swapChainImages) &&
      swapChainImageFormat == old(swapChainImageFormat) && swapChainExtent == old(swapChainExtent) &&
      swapChainImageViews == old(swapChainImageViews) && swapChainFramebuffers == old(swapChainFramebuffers)
    }

    /** The state of the globals before `Init`: `CurrentFrame` 0, `FramebufferResized` false,
        every vector empty. */
    constructor(maxFramesInFlight: nat, queueFamilies: QueueFamilyIndices, renderPass: Handle, graphicsPipeline: Handle)
      requires maxFramesInFlight >= 1
      ensures this.maxFramesInFlight == maxFramesInFlight && this.queueFamilies == queueFamilies
      ensures this.renderPass == renderPass && this.graphicsPipeline == graphicsPipeline
      ensures swapChain == NullHandle && swapChainImages == [] && swapChainImageViews == [] && swapChainFramebuffers == []
      ensures inFlightFences == [] && currentFrame == 0 && !framebufferResized && log == []
      ensures ChainValid() && SafeLog(log)
    {
      this.maxFramesInFlight := maxFramesInFlight;
      this.queueFamilies := queueFamilies;
      this.renderPass := renderPass;
      this.graphicsPipeline := graphicsPipeline;
      swapChain := NullHandle;
      swapChainImages := [];
      swapChainImageFormat := 0;
      swapChainExtent := Extent(0, 0);
      swapChainImageViews := [];
      swapChainFramebuffers := [];
      inFlightFences := [];
      currentFrame := 0;
      framebufferResized := false;
      log := [];
    }

    /** `CreateSwapChain`: negotiates the create-info, creates the swapchain and takes its images. */
    method CreateSwapChain(chain: ChainResponses) returns (outcome: Outcome)
      requires chain.WellFormed()
      modifies this`swapChain, this`swapChainImages, this`swapChainImageFormat, this`swapChainExtent, this`log
      ensures SwapchainCreateInfoFor(chain, queueFamilies).Err? ==> outcome == Fatal(BadOptionalAccess) && log == old(log)
      ensures SwapchainCreateInfoFor(chain, queueFamilies).Ok? ==>
                log == old(log) + [CreateSwapchain(SwapchainCreateInfoFor(chain, queueFamilies).value, chain.swapchainResult)]
      ensures outcome == Done <==> SwapchainCreateInfoFor(chain, queueFamilies).Ok? && chain.swapchainResult == Success
      ensures outcome.Fatal? && SwapchainCreateInfoFor(chain, queueFamilies).Ok? ==> outcome.error == SwapChainCreationFailed
      ensures outcome.Fatal? ==> swapChain == old(swapChain) && swapChainImages == old(swapChainImages) &&
                                 swapChainImageFormat == old(swapChainImageFormat) && swapChainExtent == old(swapChainExtent)
      ensures old(log) <= log && (SafeLog(old(log)) ==> SafeLog(log))
      ensures outcome == Done ==>
                swapChain == chain.swapchain && swapChainImages == chain.images &&
                swapChainImageFormat == SwapchainCreateInfoFor(chain, queueFamilies).value.surfaceFormat.format &&
                swapChainExtent == SwapchainCreateInfoFor(chain, queueFamilies).value.extent
    {
      var info := SwapchainCreateInfoFor(chain, queueFamilies);
      if info.Err? {
        return Fatal(info.error);
      }
      SafeLogAppend(log, [CreateSwapchain(info.value, chain.swapchainResult)]);
      log := log + [CreateSwapchain(info.value, chain.swapchainResult)];
      if chain.swapchainResult != Success {
        return Fatal(SwapChainCreationFailed);
      }
      swapChain := chain.swapchain;
      swapChainImages := chain.images;
      swapChainImageFormat := info.value.surfaceFormat.format;
      swapChainExtent := info.value.extent;
      outcome := Done;
    }

    /** `CreateImageViews`: resizes the view vector to the image count and creates view `i`
        of image `i`, throwing at the first failing creation; the entries from the failing
        one on keep what the resize left there. */
    method CreateImageViews(failingView: Option<nat>) returns (outcome: Outcome)
      modifies this`swapChainImageViews, this`log
      ensures var n := |swapChainImages|;
              var made := Succeeded(failingView, n);
              |swapChainImageViews| == n &&
              (forall k :: 0 <= k < n ==>
                 swapChainImageViews[k] ==
                 if k < made then View(swapChainImages[k], swapChainImageFormat) else Resized(old(swapChainImageViews), n, NullView)[k]) &&
              log == old(log) + CreateImageViewCalls(swapChainImages[..made], swapChainImageFormat)
      ensures outcome == Done <==> Succeeded(failingView, |swapChainImages|) == |swapChainImages|
      ensures outcome == Done ==> swapChainImageViews == ViewsFor(swapChainImages, swapChainImageFormat)
      ensures outcome.Fatal? ==> outcome.error == ImageViewCreationFailed
      ensures old(log) <= log && (SafeLog(old(log)) ==> SafeLog(log))
    {
      var images, format := swapChainImages, swapChainImageFormat;
      var n := |images|;
      var resized := Resized(swapChainImageViews, n, NullView);
      var views, calls := resized, [];
      var i := 0;
      while i < n && failingView != Some(i)
        invariant 0 <= i <= n && i <= Succeeded(failingView, n)
        invariant |views| == n && forall k :: 0 <= k < n ==> views[k] == if k < i then View(images[k], format) else resized[k]
        invariant |calls| == i && forall k :: 0 <= k < i ==> calls[k] == CreateImageView(images[k], format)
        invariant log == old(log) && swapChainImageViews == old(swapChainImageViews)
      {
        views := views[i := View(images[i], format)];
        calls := calls + [CreateImageView(images[i], format)];
        i := i + 1;
      }
      assert calls == CreateImageViewCalls(images[..i], format);
      swapChainImageViews := views;
      SafeLogAppend(log, calls);
      log := log + calls;
      if i < n {
        return Fatal(ImageViewCreationFailed);
      }
      assert views == ViewsFor(images, format);
      outcome := Done;
    }

    /** `CreateFramebuffers`: resizes the framebuffer vector to the view count and creates
        framebuffer `i` around view `i`, throwing at the first failing creation; the entries
        from the failing one on keep what the resize left there. */
    method CreateFramebuffers(failingFramebuffer: Option<nat>) returns (outcome: Outcome)
      modifies this`swapChainFramebuffers, this`log
      ensures var n := |swapChainImageViews|;
              var made := Succeeded(failingFramebuffer, n);
              |swapChainFramebuffers| == n &&
              (forall k :: 0 <= k < n ==>
                 swapChainFramebuffers[k] ==
                 if k < made then FramebufferFor(renderPass, swapChainImageViews[k], swapChainExtent)
                 else Resized(old(swapChainFramebuffers), n, NullFramebuffer)[k]) &&
              log == old(log) + CreateFramebufferCalls(FramebuffersFor(renderPass, swapChainImageViews[..made], swapChainExtent))
      ensures outcome == Done <==> Succeeded(failingFramebuffer, |swapChainImageViews|) == |swapChainImageViews|
      ensures outcome == Done ==> swapChainFramebuffers == FramebuffersFor(renderPass, swapChainImageViews, swapChainExtent)
      ensures outcome.Fatal? ==> outcome.error == FramebufferCreationFailed
      ensures old(log) <= log && (SafeLog(old(log)) ==> SafeLog(log))
    {
      var views, extent := swapChainImageViews, swapChainExtent;
      var n := |views|;
      var resized := Resized(swapChainFramebuffers, n, NullFramebuffer);
      var framebuffers, calls := resized, [];
      var i := 0;
      while i < n && failingFramebuffer != Some(i)
        invariant 0 <= i <= n && i <= Succeeded(failingFramebuffer, n)
        invariant |framebuffers| == n &&
                  forall k :: 0 <= k < n ==> framebuffers[k] == if k < i then FramebufferFor(renderPass, views[k], extent) else resized[k]
        invariant |calls| == i && forall k :: 0 <= k < i ==> calls[k] == CreateFramebuffer(FramebufferFor(renderPass, views[k], extent))
        invariant log == old(log) && swapChainFramebuffers == old(swapChainFramebuffers)
      {
        var framebuffer := FramebufferFor(renderPass, views[i], extent);
        framebuffers := framebuffers[i := framebuffer];
        calls := calls + [CreateFramebuffer(framebuffer)];
        i := i + 1;
      }
      assert calls == CreateFramebufferCalls(FramebuffersFor(renderPass, views[..i], extent));
      swapChainFramebuffers := framebuffers;
      SafeLogAppend(log, calls);
      log := log + calls;
      if i < n {
        return Fatal(FramebufferCreationFailed);
      }
      assert framebuffers == FramebuffersFor(renderPass, views, extent);
      outcome := Done;
    }

    /** `CleanUpSwapChain`: destroys every framebuffer, then every view, then the swapchain.
        The vectors keep their (now destroyed) handles. */
    method CleanUpSwapChain()
      modifies this`log
      ensures log == old(log) + CleanUpCalls(swapChainFramebuffers, swapChainImageViews, swapChain)
    {
      ghost var calls: seq<Event> := [];
      for i := 0 to |swapChainFramebuffers|
        invariant calls == DestroyFramebufferCalls(swapChainFramebuffers[..i]) && log == old(log) + calls
      {
        DestroyFramebufferCallsStep(swapChainFramebuffers, i);
        calls := calls + [DestroyFramebuffer(swapChainFramebuffers[i])];
        log := log + [DestroyFramebuffer(swapChainFramebuffers[i])];
      }
      assert swapChainFramebuffers[..|swapChainFramebuffers|] == swapChainFramebuffers;
      ghost var destroyedFramebuffers := log;
      calls := [];
      for i := 0 to |swapChainImageViews|
        invariant calls == DestroyImageViewCalls(swapChainImageViews[..i]) && log == destroyedFramebuffers + calls
      {
        DestroyImageViewCallsStep(swapChainImageViews, i);
        calls := calls + [DestroyImageView(swapChainImageViews[i])];
        log := log + [DestroyImageView(swapChainImageViews[i])];
      }
      assert swapChainImageViews[..|swapChainImageViews|] == swapChainImageViews;
      log := log + [DestroySwapchain(swapChain)];
    }

    /** The views of the chain's images followed by their framebuffers, as `Init` and
        `RecreateSwapChain` create them after the swapchain. */
    method CreateViewsAndFramebuffers(failingView: Option<nat>, failingFramebuffer: Option<nat>) returns (outcome: Outcome)
      modifies this`swapChainImageViews, this`swapChainFramebuffers, this`log
      ensures log == old(log) + ViewsAndFramebuffersCalls(swapChainImages, swapChainImageFormat, renderPass, swapChainExtent,
                                                          failingView, failingFramebuffer)
      ensures SafeLog(old(log)) ==> SafeLog(log)
      ensures outcome == Done <==> Succeeded(failingView, |swapChainImages|) == |swapChainImages| &&
                                   Succeeded(failingFramebuffer, |swapChainImages|) == |swapChainImages|
      ensures outcome == Done ==> ChainValid()
    {
      ghost var viewCalls := CreateImageViewCalls(swapChainImages[..Succeeded(failingView, |swapChainImages|)], swapChainImageFormat);
      outcome := CreateImageViews(failingView);
      if outcome == Done {
        outcome := CreateFramebuffers(failingFramebuffer);
        AppendAssociative(old(log), viewCalls,
          CreateFramebufferCalls(FramebuffersFor(renderPass, swapChainImageViews[..Succeeded(failingFramebuffer, |swapChainImages|)],
                                                 swapChainExtent)));
      }
    }

    /** `RecreateSwapChain`: waits for the device to go idle, destroys the chain, and builds
        swapchain, views and framebuffers anew.  On a normal return the three counts agree and
        every view and framebuffer belongs to the new images. */
    method RecreateSwapChain(chain: ChainResponses) returns (outcome: Outcome)
      requires chain.WellFormed()
      modifies this`swapChain, this`swapChainImages, this`swapChainImageFormat, this`swapChainExtent
      modifies this`swapChainImageViews, this`swapChainFramebuffers, this`log
      ensures log == old(log) + RebuildCalls(old(swapChainFramebuffers), old(swapChainImageViews), old(swapChain),
                                             chain, queueFamilies, renderPass)
      ensures SafeLog(old(log)) ==> SafeLog(log)
      ensures outcome == Done <==> ChainBuildSucceeds(chain, queueFamilies)
      ensures outcome == Done ==> BuiltFrom(chain)
      ensures outcome == Done ==>
                |swapChainImageViews| == |swapChainImages| && |swapChainFramebuffers| == |swapChainImages|
    {
      ghost var cleanUp := [DeviceWaitIdle] + CleanUpCalls(swapChainFramebuffers, swapChainImageViews, swapChain);
      SafeLogAppend(log, cleanUp);
      log := log + [DeviceWaitIdle];
      CleanUpSwapChain();
      ghost var cleaned := log;
      AppendAssociative(old(log), [DeviceWaitIdle], CleanUpCalls(old(swapChainFramebuffers), old(swapChainImageViews), old(swapChain)));
      assert cleaned == old(log) + cleanUp;
      outcome := CreateSwapChain(chain);
      if outcome == Done {
        ghost var info := SwapchainCreateInfoFor(chain, queueFamilies).value;
        outcome := CreateViewsAndFramebuffers(chain.failingView, chain.failingFramebuffer);
        AppendAssociative(cleaned, [CreateSwapchain(info, chain.swapchainResult)],
          ViewsAndFramebuffersCalls(chain.images, info.surfaceFormat.format, renderPass, info.extent,
                                    chain.failingView, chain.failingFramebuffer));
      }
      AppendAssociative(old(log), cleanUp, BuildCalls(chain, queueFamilies, renderPass));
    }

    static lemma PrefixTransitive(a: seq<Event>, b: seq<Event>, c: seq<Event>)
      requires a <= b && b <= c
      ensures a <= c
    {
    }


    /** `CreateSyncObjects`: resizes the fence vector to `MaxFramesInFlight` and, slot by slot,
        creates the two semaphores and a fence created signaled, throwing at the first
        failing creation. */
    method CreateSyncObjects(failure: Option<SyncFailure>) returns (outcome: Outcome)
      modifies this`inFlightFences, this`log
      ensures var made := Succeeded(FailingSlot(failure), maxFramesInFlight);
              |inFlightFences| == maxFramesInFlight &&
              (forall s :: 0 <= s < maxFramesInFlight ==>
                 inFlightFences[s] == if s < made then Signaled else Resized(old(inFlightFences), maxFramesInFlight, Absent)[s]) &&
              log == old(log) + SyncCalls(made) +
                     (if made < maxFramesInFlight then SlotSyncCalls(made)[..CallsBefore(failure.value.call)] else [])
      ensures outcome == Done <==> Succeeded(FailingSlot(failure), maxFramesInFlight) == maxFramesInFlight
      ensures outcome == Done ==> forall s :: 0 <= s < |inFlightFences| ==> inFlightFences[s] == Signaled
      ensures outcome == Done && currentFrame < maxFramesInFlight ==> RingValid()
      ensures outcome.Fatal? ==> outcome.error == SyncObjectCreationFailed
      ensures SafeLog(old(log)) ==> SafeLog(log)
    {
      var n := maxFramesInFlight;
      var resized := Resized(inFlightFences, n, Absent);
      var fences, calls := resized, [];
      var i := 0;
      while i < n && FailingSlot(failure) != Some(i)
        invariant 0 <= i <= n && i <= Succeeded(FailingSlot(failure), n)
        invariant |fences| == n && forall s :: 0 <= s < n ==> fences[s] == if s < i then Signaled else resized[s]
        invariant calls == SyncCalls(i)
        invariant log == old(log) && inFlightFences == old(inFlightFences)
      {
        fences := fences[i := Signaled];
        calls := calls + SlotSyncCalls(i);
        i := i + 1;
      }
      SyncCallsSafe(i);
      if i < n {
        var partial := SlotSyncCalls(i)[..CallsBefore(failure.value.call)];
        SafeLogAppend(calls, partial);
        calls := calls + partial;
      }
      inFlightFences := fences;
      SafeLogAppend(log, calls);
      log := log + calls;
      if i < n {
        return Fatal(SyncObjectCreationFailed);
      }
      outcome := Done;
    }

    /** `RecordCommandBuffer`: begins the command buffer of `slot`, records one indexed draw of
        the quad into framebuffer `imageIndex` with the descriptor set of the current frame,
        and ends it; a failing begin or end throws. */
    method RecordCommandBuffer(slot: nat, imageIndex: nat, beginResult: ApiResult, endResult: ApiResult)
      returns (outcome: Outcome)
      requires imageIndex < |swapChainFramebuffers|
      modifies this`log
      ensures beginResult != Success ==> log == old(log) + [BeginCommandBuffer(slot)]
      ensures beginResult == Success ==>
                log == old(log) + RecordedCommands(slot, renderPass, swapChainFramebuffers[imageIndex], swapChainExtent,
                                                   graphicsPipeline, currentFrame)
      ensures outcome == Done <==> beginResult == Success && endResult == Success
      ensures outcome.Fatal? ==> outcome.error == if beginResult != Success then BeginRecordingFailed else RecordingFailed
      ensures SafeLog(old(log)) ==> SafeLog(log)
    {
      log := log + [BeginCommandBuffer(slot)];
      if beginResult != Success {
        SafeLogAppend(old(log), [BeginCommandBuffer(slot)]);
        return Fatal(BeginRecordingFailed);
      }
      var extent := swapChainExtent;
      log := log + [BeginRenderPass(renderPass, swapChainFramebuffers[imageIndex], extent), BindPipeline(graphicsPipeline)];
      log := log + [SetViewport(extent), SetScissor(extent)];
      log := log + [BindVertexBuffer, BindIndexBufferUint16, BindDescriptorSet(currentFrame)];
      log := log + [DrawIndexed(|ResourceAllocation.Indices|, 1), EndRenderPass, EndCommandBuffer(slot)];
      assert log == old(log) + RecordedCommands(slot, renderPass, swapChainFramebuffers[imageIndex], extent,
                                                graphicsPipeline, currentFrame);
      SafeLogAppend(old(log), RecordedCommands(slot, renderPass, swapChainFramebuffers[imageIndex], extent,
                                               graphicsPipeline, currentFrame));
      if endResult != Success {
        return Fatal(RecordingFailed);
      }
      outcome := Done;
    }

    /** The end of `DrawFrame` after a successful submission: presents image `imageIndex`,
        rebuilds the chain when the present reports it out of date or suboptimal or a resize
        was reported (clearing the flag), throws on any other failing present, and advances
        the frame counter. */
    method PresentFrame(imageIndex: nat, present: ApiResult, chain: ChainResponses) returns (outcome: Outcome)
      requires chain.WellFormed() && SafeLog(log) && maxFramesInFlight >= 1
      modifies this`swapChain, this`swapChainImages, this`swapChainImageFormat, this`swapChainExtent
      modifies this`swapChainImageViews, this`swapChainFramebuffers
      modifies this`currentFrame, this`framebufferResized, this`log
      ensures SafeLog(log)
      ensures log == old(log) + [PresentCall(old(currentFrame), imageIndex, present)] +
                     if PresentTriggersRebuild(present, old(framebufferResized))
                     then RebuildCalls(old(swapChainFramebuffers), old(swapChainImageViews), old(swapChain), chain, queueFamilies, renderPass)
                     else []
      ensures outcome == Done <==>
                if PresentTriggersRebuild(present, old(framebufferResized)) then ChainBuildSucceeds(chain, queueFamilies)
                else present == Success
      ensures !PresentTriggersRebuild(present, old(framebufferResized)) && present != Success ==> outcome == Fatal(PresentFailed)
      ensures currentFrame == if outcome == Done then NextFrame(old(currentFrame), maxFramesInFlight) else old(currentFrame)
      ensures !framebufferResized
      ensures !PresentTriggersRebuild(present, old(framebufferResized)) ==> ChainKept()
      ensures PresentTriggersRebuild(present, old(framebufferResized)) && outcome == Done ==> BuiltFrom(chain)
    {
      var presentCall := [PresentCall(currentFrame, imageIndex, present)];
      SafeLogAppend(log, presentCall);
      log := log + presentCall;
      if present == ErrorOutOfDateKhr || present == SuboptimalKhr || framebufferResized {
        framebufferResized := false;
        outcome := RecreateSwapChain(chain);
        if outcome == Done {
          currentFrame := NextFrame(currentFrame, maxFramesInFlight);
        }
      } else if present != Success {
        outcome := Fatal(PresentFailed);
      } else {
        currentFrame := NextFrame(currentFrame, maxFramesInFlight);
        outcome := Done;
      }
    }

    /** The middle of `DrawFrame` after a successful acquire: rewrites the slot's uniform
        buffer (`UpdateUniformBuffer`), resets the slot's fence and command buffer, records
        the command buffer (`RecordCommandBuffer`) and submits it with the fence. */
    method SubmitFrame(frame: FrameResponses) returns (outcome: Outcome)
      requires currentFrame < |inFlightFences| && frame.imageIndex < |swapChainFramebuffers|
      requires inFlightFences[currentFrame] == Signaled
      modifies this`inFlightFences, this`log
      ensures SafeLog(old(log)) ==> SafeLog(log)
      ensures frame.beginResult != Success ==> log == old(log) + ResetCalls(currentFrame) + [BeginCommandBuffer(currentFrame)]
      ensures frame.beginResult == Success && frame.endResult != Success ==>
                log == old(log) + ResetCalls(currentFrame) +
                       RecordedCommands(currentFrame, renderPass, swapChainFramebuffers[frame.imageIndex], swapChainExtent,
                                        graphicsPipeline, currentFrame)
      ensures frame.beginResult == Success && frame.endResult == Success ==>
                log == old(log) + ResetCalls(currentFrame) +
                       RecordedCommands(currentFrame, renderPass, swapChainFramebuffers[frame.imageIndex], swapChainExtent,
                                        graphicsPipeline, currentFrame) +
                       [SubmitCall(currentFrame, frame.submit)]
      ensures outcome == Done <==> frame.beginResult == Success && frame.endResult == Success && frame.submit == Success
      ensures frame.beginResult != Success ==> outcome == Fatal(BeginRecordingFailed)
      ensures frame.beginResult == Success && frame.endResult != Success ==> outcome == Fatal(RecordingFailed)
      ensures frame.beginResult == Success && frame.endResult == Success && frame.submit != Success ==> outcome == Fatal(SubmitFailed)
      ensures inFlightFences == old(inFlightFences)[currentFrame := if outcome == Done then Pending else Unsignaled]
    {
      var slot := currentFrame;
      // The uniform buffer is rewritten and the fence reset with the fence as the wait left it;
      // the command buffer is reset after the fence reset.
      var resets := [UpdateUniformBuffer(slot, inFlightFences[slot]), ResetFence(slot, inFlightFences[slot])];
      inFlightFences := inFlightFences[slot := Unsignaled];
      resets := resets + [ResetCommandBuffer(slot, inFlightFences[slot])];
      assert resets == ResetCalls(slot);
      SafeLogAppend(log, resets);
      log := log + resets;
      outcome := RecordCommandBuffer(slot, frame.imageIndex, frame.beginResult, frame.endResult);
      if outcome.Fatal? {
        return;
      }
      var submitCall := [SubmitCall(slot, frame.submit)];
      SafeLogAppend(log, submitCall);
      log := log + submitCall;
      if frame.submit != Success {
        return Fatal(SubmitFailed);
      }
      inFlightFences := inFlightFences[slot := Pending];
    }

    /** The part of `DrawFrame` after a successful acquire: `SubmitFrame`, then `PresentFrame`. */
    method RenderFrame(frame: FrameResponses, chain: ChainResponses) returns (outcome: Outcome)
      requires Valid() && chain.WellFormed()
      requires frame.acquire == Success && frame.imageIndex < |swapChainImages| && inFlightFences[currentFrame] == Signaled
      modifies this`swapChain, this`swapChainImages, this`swapChainImageFormat, this`swapChainExtent
      modifies this`swapChainImageViews, this`swapChainFramebuffers, this`inFlightFences
      modifies this`currentFrame, this`framebufferResized, this`log
      ensures SafeLog(log)
      ensures frame.beginResult != Success ==>
                log == old(log) + ResetCalls(old(currentFrame)) + [BeginCommandBuffer(old(currentFrame))]
      ensures frame.beginResult == Success && frame.endResult != Success ==>
                log == old(log) + ResetCalls(old(currentFrame)) +
                       RecordedCommands(old(currentFrame), renderPass, old(swapChainFramebuffers)[frame.imageIndex], old(swapChainExtent),
                                        graphicsPipeline, old(currentFrame))
      ensures frame.beginResult == Success && frame.endResult == Success && frame.submit != Success ==>
                log == old(log) + ResetCalls(old(currentFrame)) +
                       RecordedCommands(old(currentFrame), renderPass, old(swapChainFramebuffers)[frame.imageIndex], old(swapChainExtent),
                                        graphicsPipeline, old(currentFrame)) +
                       [SubmitCall(old(currentFrame), frame.submit)]
      ensures ReachesPresent(frame) ==>
                log == old(log) + ResetCalls(old(currentFrame)) +
                       RecordedCommands(old(currentFrame), renderPass, old(swapChainFramebuffers)[frame.imageIndex], old(swapChainExtent),
                                        graphicsPipeline, old(currentFrame)) +
                       [SubmitCall(old(currentFrame), Success)] + [PresentCall(old(currentFrame), frame.imageIndex, frame.present)] +
                       if PresentTriggersRebuild(frame.present, old(framebufferResized))
                       then RebuildCalls(old(swapChainFramebuffers), old(swapChainImageViews), old(swapChain), chain, queueFamilies, renderPass)
                       else []
      ensures outcome == Done <==>
                ReachesPresent(frame) &&
                if PresentTriggersRebuild(frame.present, old(framebufferResized)) then ChainBuildSucceeds(chain, queueFamilies)
                else frame.present == Success
      ensures frame.beginResult != Success ==> outcome == Fatal(BeginRecordingFailed)
      ensures frame.beginResult == Success && frame.endResult != Success ==> outcome == Fatal(RecordingFailed)
      ensures frame.beginResult == Success && frame.endResult == Success && frame.submit != Success ==> outcome == Fatal(SubmitFailed)
      ensures ReachesPresent(frame) && !PresentTriggersRebuild(frame.present, old(framebufferResized)) && frame.present != Success ==>
                outcome == Fatal(PresentFailed)
      ensures inFlightFences == old(inFlightFences)[old(currentFrame) := if ReachesPresent(frame) then Pending else Unsignaled]
      ensures currentFrame == if outcome == Done then NextFrame(old(currentFrame), maxFramesInFlight) else old(currentFrame)
      ensures framebufferResized == (old(framebufferResized) && !ReachesPresent(frame))
      ensures !(ReachesPresent(frame) && PresentTriggersRebuild(frame.present, old(framebufferResized))) ==> ChainKept()
      ensures ReachesPresent(frame) && PresentTriggersRebuild(frame.present, old(framebufferResized)) && outcome == Done ==>
                BuiltFrom(chain)
      ensures outcome == Done ==> Valid()
    {
      var slot := currentFrame;
      outcome := SubmitFrame(frame);
      if outcome.Fatal? {
        return;
      }
      outcome := PresentFrame(frame.imageIndex, frame.present, chain);
    }

    /** `DrawFrame`: waits for the current slot's fence, acquires an image, rewrites the
        slot's uniform buffer, resets its fence and command buffer, records, submits with the
        fence, and presents (`RenderFrame`).  An out-of-date acquire rebuilds the chain and
        returns without drawing; any other acquire result but success, including
        `VK_SUBOPTIMAL_KHR`, throws. */
    method DrawFrame(frame: FrameResponses, chain: ChainResponses) returns (outcome: Outcome)
      requires Valid() && chain.WellFormed()
      requires frame.acquire == Success ==> frame.imageIndex < |swapChainImages|
      modifies this`swapChain, this`swapChainImages, this`swapChainImageFormat, this`swapChainExtent
      modifies this`swapChainImageViews, this`swapChainFramebuffers, this`inFlightFences
      modifies this`currentFrame, this`framebufferResized, this`log
      ensures SafeLog(log)
      ensures old(log) + AcquireCalls(old(currentFrame), frame.acquire) <= log
      ensures frame.acquire != Success && frame.acquire != ErrorOutOfDateKhr ==>
                log == old(log) + AcquireCalls(old(currentFrame), frame.acquire)
      ensures frame.acquire == ErrorOutOfDateKhr ==>
                log == old(log) + AcquireCalls(old(currentFrame), frame.acquire) +
                       RebuildCalls(old(swapChainFramebuffers), old(swapChainImageViews), old(swapChain), chain, queueFamilies, renderPass)
      ensures frame.acquire == Success && frame.beginResult != Success ==>
                log == old(log) + AcquireCalls(old(currentFrame), frame.acquire) + ResetCalls(old(currentFrame)) +
                       [BeginCommandBuffer(old(currentFrame))]
      ensures frame.acquire == Success && frame.beginResult == Success && frame.endResult != Success ==>
                log == old(log) + AcquireCalls(old(currentFrame), frame.acquire) + ResetCalls(old(currentFrame)) +
                       RecordedCommands(old(currentFrame), renderPass, old(swapChainFramebuffers)[frame.imageIndex], old(swapChainExtent),
                                        graphicsPipeline, old(currentFrame))
      ensures frame.acquire == Success && frame.beginResult == Success && frame.endResult == Success && frame.submit != Success ==>
                log == old(log) + AcquireCalls(old(currentFrame), frame.acquire) + ResetCalls(old(currentFrame)) +
                       RecordedCommands(old(currentFrame), renderPass, old(swapChainFramebuffers)[frame.imageIndex], old(swapChainExtent),
                                        graphicsPipeline, old(currentFrame)) +
                       [SubmitCall(old(currentFrame), frame.submit)]
      ensures ReachesPresent(frame) ==>
                log == old(log) + AcquireCalls(old(currentFrame), frame.acquire) + ResetCalls(old(currentFrame)) +
                       RecordedCommands(old(currentFrame), renderPass, old(swapChainFramebuffers)[frame.imageIndex], old(swapChainExtent),
                                        graphicsPipeline, old(currentFrame)) +
                       [SubmitCall(old(currentFrame), Success)] + [PresentCall(old(currentFrame), frame.imageIndex, frame.present)] +
                       if PresentTriggersRebuild(frame.present, old(framebufferResized))
                       then RebuildCalls(old(swapChainFramebuffers), old(swapChainImageViews), old(swapChain), chain, queueFamilies, renderPass)
                       else []
      ensures outcome == Done <==>
                if frame.acquire == ErrorOutOfDateKhr then ChainBuildSucceeds(chain, queueFamilies)
                else ReachesPresent(frame) &&
                     if PresentTriggersRebuild(frame.present, old(framebufferResized)) then ChainBuildSucceeds(chain, queueFamilies)
                     else frame.present == Success
      ensures frame.acquire != Success && frame.acquire != ErrorOutOfDateKhr ==> outcome == Fatal(AcquireFailed)
      ensures frame.acquire == Success && frame.beginResult != Success ==> outcome == Fatal(BeginRecordingFailed)
      ensures frame.acquire == Success && frame.beginResult == Success && frame.endResult != Success ==> outcome == Fatal(RecordingFailed)
      ensures frame.acquire == Success && frame.beginResult == Success && frame.endResult == Success && frame.submit != Success ==>
                outcome == Fatal(SubmitFailed)
      ensures ReachesPresent(frame) && !PresentTriggersRebuild(frame.present, old(framebufferResized)) && frame.present != Success ==>
                outcome == Fatal(PresentFailed)
      ensures frame.acquire != Success ==> inFlightFences == old(inFlightFences)[old(currentFrame) := Signaled]
      ensures frame.acquire == Success ==>
                inFlightFences == old(inFlightFences)[old(currentFrame) := if ReachesPresent(frame) then Pending else Unsignaled]
      ensures currentFrame == if frame.acquire == Success && outcome == Done then NextFrame(old(currentFrame), maxFramesInFlight)
                              else old(currentFrame)
      ensures framebufferResized == (old(framebufferResized) && !ReachesPresent(frame))
      ensures !(frame.acquire == ErrorOutOfDateKhr || (ReachesPresent(frame) && PresentTriggersRebuild(frame.present, old(framebufferResized)))) ==>
                ChainKept()
      ensures outcome == Done &&
              (frame.acquire == ErrorOutOfDateKhr || (ReachesPresent(frame) && PresentTriggersRebuild(frame.present, old(framebufferResized)))) ==>
                BuiltFrom(chain)
      ensures outcome == Done ==> Valid()
    {
      var slot := currentFrame;
      // vkWaitForFences returns once the slot's last submission has completed.
      inFlightFences := inFlightFences[slot := Signaled];
      var acquireCalls := AcquireCalls(slot, frame.acquire);
      SafeLogAppend(log, acquireCalls);
      log := log + acquireCalls;
      if frame.acquire == ErrorOutOfDateKhr {
        outcome := RecreateSwapChain(chain);
        return;
      } else if frame.acquire != Success {
        return Fatal(AcquireFailed);
      }
      outcome := RenderFrame(frame, chain);
    }
  }
}
