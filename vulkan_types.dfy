/** Values the renderer exchanges with the Vulkan API: fixed-width integers,
    result codes, surface formats, present modes, extents, image layouts and
    the access and pipeline-stage bits the renderer uses.  Numeric codes are
    those of the Vulkan headers. */
module VulkanTypes {

  /** `uint32_t` */
  type U32 = x: int | 0 <= x < 0x1_0000_0000
  /** `int` (32-bit) */
  type I32 = x: int | -0x8000_0000 <= x < 0x8000_0000
  /** `uint16_t` */
  type U16 = x: int | 0 <= x < 0x1_0000

  const U32Max: U32 := 0xFFFF_FFFF

  /** Conversion of a signed `int` to `uint32_t` (`static_cast<uint32_t>`): modulo 2^32. */
  function ToU32(x: int): (r: U32)
    ensures 0 <= x <= U32Max ==> r == x
    ensures x < 0 && -0x1_0000_0000 <= x ==> r == x + 0x1_0000_0000
  {
    x % 0x1_0000_0000
  }

  /** An opaque Vulkan handle (`VkImage`, `VkSwapchainKHR`, ...); 0 is `VK_NULL_HANDLE`. */
  type Handle = nat
  const NullHandle: Handle := 0

  /** `VkResult`, restricted to the codes the renderer distinguishes. */
  datatype ApiResult =
    | Success            // VK_SUCCESS
    | SuboptimalKhr      // VK_SUBOPTIMAL_KHR
    | ErrorOutOfDateKhr  // VK_ERROR_OUT_OF_DATE_KHR
    | OtherResult(code: int)  // any other code the driver may return

  /** The fatal errors the renderer throws (`std::runtime_error`, `std::invalid_argument`,
      and `std::bad_optional_access` from `.value()` on an empty optional). */
  datatype Error =
    | NoVulkanGpu                  // "No GPU detected with Vulkan support"
    | NoSuitableGpu                // "Failed to locate GPU with Vulkan support!"
    | NoSuitableMemoryType         // "Failed to find suitable memory type!"
    | UnsupportedLayoutTransition  // "Unsupported layout transition!"
    | BadOptionalAccess            // `.value()` on an empty queue-family index
    | SwapChainCreationFailed
    | ImageViewCreationFailed
    | FramebufferCreationFailed
    | SyncObjectCreationFailed
    | AcquireFailed                // "Failed to acquire swap chain image!"
    | BeginRecordingFailed
    | RecordingFailed
    | SubmitFailed
    | PresentFailed

  /** Outcome of an operation that returns normally or throws. */
  datatype Outcome = Done | Fatal(error: Error)

  /** Result of an operation that returns a value or throws. */
  datatype Result<T> = Ok(value: T) | Err(error: Error)

  datatype Option<T> = None | Some(value: T)

  /** `VkFormat` and `VkColorSpaceKHR` codes. */
  type Format = int
  type ColorSpace = int
  const FormatB8G8R8A8Srgb: Format := 50      // VK_FORMAT_B8G8R8A8_SRGB
  const ColorSpaceSrgbNonlinear: ColorSpace := 0  // VK_COLOR_SPACE_SRGB_NONLINEAR_KHR

  /** `VkSurfaceFormatKHR` */
  datatype SurfaceFormat = SurfaceFormat(format: Format, colorSpace: ColorSpace)

  /** `VkPresentModeKHR` */
  datatype PresentMode = Immediate | Mailbox | Fifo | FifoRelaxed | OtherPresentMode(code: int)

  /** `VkExtent2D` */
  datatype Extent = Extent(width: U32, height: U32)

  /** The fields of `VkSurfaceCapabilitiesKHR` the renderer reads. */
  datatype SurfaceCapabilities = SurfaceCapabilities(
    minImageCount: U32,
    maxImageCount: U32,          // 0 means "no maximum"
    currentExtent: Extent,       // width U32Max means "not defined by the surface"
    minImageExtent: Extent,
    maxImageExtent: Extent)

  /** `VkImageLayout` */
  datatype ImageLayout = LayoutUndefined | LayoutTransferDstOptimal | LayoutShaderReadOnlyOptimal | OtherLayout(code: int)

  /** `VkAccessFlags` bits */
  const AccessNone: bv32 := 0
  const AccessShaderRead: bv32 := 0x20           // VK_ACCESS_SHADER_READ_BIT
  const AccessTransferWrite: bv32 := 0x1000      // VK_ACCESS_TRANSFER_WRITE_BIT

  /** `VkPipelineStageFlags` bits */
  const StageTopOfPipe: bv32 := 0x1              // VK_PIPELINE_STAGE_TOP_OF_PIPE_BIT
  const StageFragmentShader: bv32 := 0x80        // VK_PIPELINE_STAGE_FRAGMENT_SHADER_BIT
  const StageColorAttachmentOutput: bv32 := 0x400  // VK_PIPELINE_STAGE_COLOR_ATTACHMENT_OUTPUT_BIT
  const StageTransfer: bv32 := 0x1000            // VK_PIPELINE_STAGE_TRANSFER_BIT

  /** `VK_QUEUE_GRAPHICS_BIT` and `VK_QUEUE_FAMILY_IGNORED` */
  const QueueGraphicsBit: bv32 := 0x1
  const QueueFamilyIgnored: U32 := 0xFFFF_FFFF
}
