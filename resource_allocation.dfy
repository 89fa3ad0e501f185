/** Resource helpers: the memory-type search, the image-layout transition recorded in a
    one-shot command buffer, and the static quad geometry (Renderer.cpp). */
module ResourceAllocation {
  import opened VulkanTypes

  // ---------------------------------------------------------------------------
  // Memory types

  /** `VK_MAX_MEMORY_TYPES`: a device reports at most this many memory types. */
  const MaxMemoryTypes: nat := 32

  /** Memory type `i` is allowed by `typeFilter` (bit `i` set) and has every requested property. */
  predicate MemoryTypeQualifies(typeFilter: bv32, propertyFlags: bv32, i: nat, properties: bv32)
    requires i < MaxMemoryTypes
  {
    typeFilter & ((1 as bv32) << i) != 0 && propertyFlags & properties == properties
  }

  /** The search loop of `FindMemoryType` from index `from` on. */
  function FindMemoryTypeFrom(typeFilter: bv32, memoryTypes: seq<bv32>, properties: bv32, from: nat): (r: Result<nat>)
    requires |memoryTypes| <= MaxMemoryTypes && from <= |memoryTypes|
    ensures r.Ok? ==> from <= r.value < |memoryTypes| &&
                      MemoryTypeQualifies(typeFilter, memoryTypes[r.value], r.value, properties) &&
                      forall j :: from <= j < r.value ==> !MemoryTypeQualifies(typeFilter, memoryTypes[j], j, properties)
    ensures r.Err? <==> forall j :: from <= j < |memoryTypes| ==> !MemoryTypeQualifies(typeFilter, memoryTypes[j], j, properties)
    ensures r.Err? ==> r.error == NoSuitableMemoryType
    decreases |memoryTypes| - from
  {
    if from == |memoryTypes| then Err(NoSuitableMemoryType)
    else if MemoryTypeQualifies(typeFilter, memoryTypes[from], from, properties) then Ok(from)
    else FindMemoryTypeFrom(typeFilter, memoryTypes, properties, from + 1)
  }

  /** `FindMemoryType`: the lowest qualifying index among the device's memory types
      (`memoryTypes[i]` is the property flags of type `i`); throws when none qualifies. */
  function FindMemoryType(typeFilter: bv32, memoryTypes: seq<bv32>, properties: bv32): (r: Result<nat>)
    requires |memoryTypes| <= MaxMemoryTypes
    ensures r.Ok? ==> r.value < |memoryTypes| &&
                      MemoryTypeQualifies(typeFilter, memoryTypes[r.value], r.value, properties) &&
                      forall j :: 0 <= j < r.value ==> !MemoryTypeQualifies(typeFilter, memoryTypes[j], j, properties)
    ensures r.Err? <==> forall j :: 0 <= j < |memoryTypes| ==> !MemoryTypeQualifies(typeFilter, memoryTypes[j], j, properties)
    ensures r.Err? ==> r.error == NoSuitableMemoryType
  {
    FindMemoryTypeFrom(typeFilter, memoryTypes, properties, 0)
  }

  /** Asking for more properties never yields a lower index: the search over a superset of
      the requested flags succeeds only at or after the index found for the subset. */
  lemma FindMemoryTypeMonotone(typeFilter: bv32, memoryTypes: seq<bv32>, properties: bv32, more: bv32)
    requires |memoryTypes| <= MaxMemoryTypes
    requires more & properties == properties
    ensures var weak := FindMemoryType(typeFilter, memoryTypes, properties);
            var strong := FindMemoryType(typeFilter, memoryTypes, more);
            strong.Ok? ==> weak.Ok? && weak.value <= strong.value
  {
    var strong := FindMemoryType(typeFilter, memoryTypes, more);
    if strong.Ok? {
      QualifiesWeaker(typeFilter, memoryTypes[strong.value], strong.value, properties, more);
    }
  }

  lemma QualifiesWeaker(typeFilter: bv32, flags: bv32, i: nat, properties: bv32, more: bv32)
    requires i < MaxMemoryTypes && more & properties == properties
    requires MemoryTypeQualifies(typeFilter, flags, i, more)
    ensures MemoryTypeQualifies(typeFilter, flags, i, properties)
  {
    calc {
      flags & properties;
      flags & (more & properties);
      (flags & more) & properties;
      more & properties;
    }
  }

  // ---------------------------------------------------------------------------
  // One-shot command buffers and layout transitions

  /** `VkImageMemoryBarrier` (the subresource range, one colour mip level and one layer, is fixed). */
  datatype ImageMemoryBarrier = ImageMemoryBarrier(
    oldLayout: ImageLayout,
    newLayout: ImageLayout,
    srcQueueFamilyIndex: U32,
    dstQueueFamilyIndex: U32,
    image: Handle,
    srcAccessMask: bv32,
    dstAccessMask: bv32)

  /** The API calls made on the one-shot command buffer. */
  datatype OneShotCall =
    | AllocateCommandBuffer
    | BeginCommandBuffer(oneTimeSubmit: bool)
    | CmdPipelineBarrier(srcStage: bv32, dstStage: bv32, barrier: ImageMemoryBarrier)
    | EndCommandBuffer
    | QueueSubmit
    | QueueWaitIdle
    | FreeCommandBuffer

  /** `BeginSingleTimeCommands`: allocate one primary buffer and begin it for one submission. */
  function BeginSingleTimeCommands(): seq<OneShotCall> {
    [AllocateCommandBuffer, BeginCommandBuffer(true)]
  }

  /** `EndSingleTimeCommands`: end, submit, wait for the queue to drain, free. */
  function EndSingleTimeCommands(): seq<OneShotCall> {
    [EndCommandBuffer, QueueSubmit, QueueWaitIdle, FreeCommandBuffer]
  }

  /** Access masks and pipeline stages of a supported transition. */
  datatype TransitionMasks = TransitionMasks(srcAccess: bv32, dstAccess: bv32, srcStage: bv32, dstStage: bv32)

  /** The table of `TransitionImageLayout`: the two supported layout pairs and their masks. */
  function LayoutTransitionMasks(oldLayout: ImageLayout, newLayout: ImageLayout): (r: Option<TransitionMasks>)
    ensures r.Some? <==> (oldLayout == LayoutUndefined && newLayout == LayoutTransferDstOptimal) ||
                         (oldLayout == LayoutTransferDstOptimal && newLayout == LayoutShaderReadOnlyOptimal)
  {
    if oldLayout == LayoutUndefined && newLayout == LayoutTransferDstOptimal then
      Some(TransitionMasks(AccessNone, AccessTransferWrite, StageTopOfPipe, StageTransfer))
    else if oldLayout == LayoutTransferDstOptimal && newLayout == LayoutShaderReadOnlyOptimal then
      Some(TransitionMasks(AccessTransferWrite, AccessShaderRead, StageTransfer, StageFragmentShader))
    else None
  }

  /** The two supported transitions form the upload path: the first waits on nothing and
      makes transfer writes wait; the second makes fragment-shader reads wait for exactly
      those transfer writes, so the copy between them is ordered on both sides. */
  lemma LayoutTransitionsChain()
    ensures var upload := LayoutTransitionMasks(LayoutUndefined, LayoutTransferDstOptimal);
            var sample := LayoutTransitionMasks(LayoutTransferDstOptimal, LayoutShaderReadOnlyOptimal);
            upload.Some? && sample.Some? &&
            upload.value.srcAccess == AccessNone && upload.value.srcStage == StageTopOfPipe &&
            upload.value.dstAccess == sample.value.srcAccess == AccessTransferWrite &&
            upload.value.dstStage == sample.value.srcStage == StageTransfer &&
            sample.value.dstAccess == AccessShaderRead && sample.value.dstStage == StageFragmentShader
  {
  }

  /** The barrier `TransitionImageLayout` fills in: `srcQueueFamilyIndex` is assigned
      `VK_QUEUE_FAMILY_IGNORED` twice and `dstQueueFamilyIndex` keeps the 0 of the
      value-initialised struct. */
  function TransitionBarrier(image: Handle, oldLayout: ImageLayout, newLayout: ImageLayout, m: TransitionMasks): (b: ImageMemoryBarrier)
    ensures b.oldLayout == oldLayout && b.newLayout == newLayout && b.image == image
    ensures b.srcAccessMask == m.srcAccess && b.dstAccessMask == m.dstAccess
    ensures b.srcQueueFamilyIndex == QueueFamilyIgnored && b.dstQueueFamilyIndex == 0
  {
    ImageMemoryBarrier(oldLayout, newLayout, QueueFamilyIgnored, 0, image, m.srcAccess, m.dstAccess)
  }

  /** A barrier names exactly one of its two queue families `VK_QUEUE_FAMILY_IGNORED`, a
      combination the Vulkan specification does not allow: either both are ignored (no
      ownership transfer) or both are real family indices. */
  predicate MixesQueueFamilies(b: ImageMemoryBarrier) {
    (b.srcQueueFamilyIndex == QueueFamilyIgnored) != (b.dstQueueFamilyIndex == QueueFamilyIgnored)
  }

  /** As written, every barrier names source family "ignored" and destination family 0. */
  lemma TransitionBarrierMixesFamilies(image: Handle, oldLayout: ImageLayout, newLayout: ImageLayout, m: TransitionMasks)
    ensures MixesQueueFamilies(TransitionBarrier(image, oldLayout, newLayout, m))
  {
  }

  /** The intended barrier: both family indices `VK_QUEUE_FAMILY_IGNORED`. */
  function TransitionBarrierIntended(image: Handle, oldLayout: ImageLayout, newLayout: ImageLayout, m: TransitionMasks): (b: ImageMemoryBarrier)
    ensures !MixesQueueFamilies(b) && b.srcQueueFamilyIndex == b.dstQueueFamilyIndex
    ensures b == TransitionBarrier(image, oldLayout, newLayout, m).(dstQueueFamilyIndex := QueueFamilyIgnored)
  {
    ImageMemoryBarrier(oldLayout, newLayout, QueueFamilyIgnored, QueueFamilyIgnored, image, m.srcAccess, m.dstAccess)
  }

  /** The calls `TransitionImageLayout` makes, and whether it returns or throws. */
  datatype TransitionRecord = TransitionRecord(calls: seq<OneShotCall>, outcome: Outcome)

  /** `TransitionImageLayout` (the format argument is unused, as in the source).  The one-shot
      buffer is allocated and begun before the layout pair is checked, so an unsupported pair
      throws with the buffer left recording and never freed. */
  function TransitionImageLayout(image: Handle, format: Format, oldLayout: ImageLayout, newLayout: ImageLayout): (r: TransitionRecord)
    ensures |r.calls| >= 2 && r.calls[..2] == BeginSingleTimeCommands()
    ensures r.outcome == Done <==> LayoutTransitionMasks(oldLayout, newLayout).Some?
    ensures r.outcome.Fatal? ==> r.outcome.error == UnsupportedLayoutTransition && r.calls == BeginSingleTimeCommands()
    ensures r.outcome == Done ==>
      var m := LayoutTransitionMasks(oldLayout, newLayout).value;
      r.calls == BeginSingleTimeCommands() +
                 [CmdPipelineBarrier(m.srcStage, m.dstStage, TransitionBarrier(image, oldLayout, newLayout, m))] +
                 EndSingleTimeCommands()
  {
    var begun := BeginSingleTimeCommands();
    match LayoutTransitionMasks(oldLayout, newLayout)
    case None => TransitionRecord(begun, Fatal(UnsupportedLayoutTransition))
    case Some(m) =>
      var barrier := TransitionBarrier(image, oldLayout, newLayout, m);
      TransitionRecord(begun + [CmdPipelineBarrier(m.srcStage, m.dstStage, barrier)] + EndSingleTimeCommands(), Done)
  }

  /** No call in the list is a pipeline barrier. */
  predicate NoBarrier(calls: seq<OneShotCall>) {
    forall j :: 0 <= j < |calls| ==> !calls[j].CmdPipelineBarrier?
  }

  /** A supported transition records exactly one barrier, between the begin and end calls,
      and ends by freeing the buffer it allocated; an unsupported one records no barrier and
      leaks the allocated buffer. */
  lemma TransitionImageLayoutBufferLifetime(image: Handle, format: Format, oldLayout: ImageLayout, newLayout: ImageLayout)
    ensures var r := TransitionImageLayout(image, format, oldLayout, newLayout);
            r.calls[0] == AllocateCommandBuffer &&
            (r.outcome == Done ==>
               r.calls[|r.calls| - 1] == FreeCommandBuffer && r.calls[2].CmdPipelineBarrier? &&
               NoBarrier(r.calls[..2]) && NoBarrier(r.calls[3..])) &&
            (r.outcome.Fatal? ==> NoBarrier(r.calls) && FreeCommandBuffer !in r.calls)
  {
    var r := TransitionImageLayout(image, format, oldLayout, newLayout);
    if r.outcome == Done {
      assert r.calls[3..] == EndSingleTimeCommands();
    }
  }

  // ---------------------------------------------------------------------------
  // Static geometry

  datatype Vec2 = Vec2(x: real, y: real)
  datatype Vec3 = Vec3(r: real, g: real, b: real)

  /** `Vertex`: position and colour. */
  datatype Vertex = Vertex(pos: Vec2, color: Vec3)

  /** `Vertices`: a unit quad centred on the origin with red, green, blue and white corners. */
  const Vertices: seq<Vertex> := [
    Vertex(Vec2(-0.5, -0.5), Vec3(1.0, 0.0, 0.0)),
    Vertex(Vec2(0.5, -0.5), Vec3(0.0, 1.0, 0.0)),
    Vertex(Vec2(0.5, 0.5), Vec3(0.0, 0.0, 1.0)),
    Vertex(Vec2(-0.5, 0.5), Vec3(1.0, 1.0, 1.0))
  ]

  /** `Indices`: two triangles sharing the diagonal from vertex 0 to vertex 2. */
  const Indices: seq<U16> := [0, 1, 2, 2, 3, 0]

  /** Every index names a vertex, and the indices make two whole triangles. */
  lemma IndicesInRange()
    ensures |Vertices| == 4 && |Indices| == 6 && |Indices| % 3 == 0
    ensures forall k :: 0 <= k < |Indices| ==> Indices[k] < |Vertices|
  {
  }
}
