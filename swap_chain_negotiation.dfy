/** Negotiation of the presentation chain's parameters with the surface:
    surface format, present mode, extent and requested image count
    (Renderer.cpp, CreateSwapChain and the three Choose* helpers). */
module SwapChainNegotiation {
  import opened VulkanTypes

  // ---------------------------------------------------------------------------
  // Surface format

  /** The format the renderer prefers: 8-bit BGRA sRGB in the sRGB non-linear colour space. */
  predicate IsPreferredFormat(f: SurfaceFormat) {
    f.format == FormatB8G8R8A8Srgb && f.colorSpace == ColorSpaceSrgbNonlinear
  }

  /** Index of the first preferred entry at or after `from`, or `|formats|` when there is none. */
  function FindPreferredFormat(formats: seq<SurfaceFormat>, from: nat): (k: nat)
    requires from <= |formats|
    ensures from <= k <= |formats|
    ensures k < |formats| ==> IsPreferredFormat(formats[k])
    ensures forall j :: from <= j < k ==> !IsPreferredFormat(formats[j])
    decreases |formats| - from
  {
    if from == |formats| then from
    else if IsPreferredFormat(formats[from]) then from
    else FindPreferredFormat(formats, from + 1)
  }

  /** `ChooseSwapSurfaceFormat`: the first preferred entry, otherwise the first entry.
      The list is never empty: a surface that Vulkan reports always offers at least one format. */
  function ChooseSwapSurfaceFormat(formats: seq<SurfaceFormat>): (r: SurfaceFormat)
    requires |formats| > 0
    ensures r in formats
    ensures IsPreferredFormat(r) <==> exists i :: 0 <= i < |formats| && IsPreferredFormat(formats[i])
    ensures !IsPreferredFormat(r) ==> r == formats[0]
  {
    var k := FindPreferredFormat(formats, 0);
    if k < |formats| then formats[k] else formats[0]
  }

  // ---------------------------------------------------------------------------
  // Present mode

  /** The loop of `ChooseSwapPresentMode` from position `from` on. */
  function ChoosePresentModeFrom(modes: seq<PresentMode>, from: nat): (r: PresentMode)
    requires from <= |modes|
    ensures r == Immediate <==> Immediate in modes[from..]
    ensures r == Immediate || r == Fifo
    decreases |modes| - from
  {
    if from == |modes| then Fifo
    else if modes[from] == Immediate then modes[from]
    else
      assert modes[from..] == [modes[from]] + modes[from + 1..];
      ChoosePresentModeFrom(modes, from + 1)
  }

  /** `ChooseSwapPresentMode`: immediate when listed, otherwise FIFO, even when FIFO is not listed. */
  function ChooseSwapPresentMode(modes: seq<PresentMode>): (r: PresentMode)
    ensures r == Immediate <==> Immediate in modes
    ensures r != Immediate ==> r == Fifo
  {
    assert modes[0..] == modes;
    ChoosePresentModeFrom(modes, 0)
  }

  // ---------------------------------------------------------------------------
  // Extent

  /** `std::clamp(v, lo, hi)`; `lo <= hi` is the standard library's precondition. */
  function Clamp(v: U32, lo: U32, hi: U32): (r: U32)
    requires lo <= hi
    ensures lo <= r <= hi
    ensures lo <= v <= hi ==> r == v
  {
    if v < lo then lo else if hi < v then hi else v
  }

  function Distance(a: int, b: int): nat {
    if a < b then b - a else a - b
  }

  /** The clamped value is the value of the range nearest to `v`. */
  lemma ClampIsNearest(v: U32, lo: U32, hi: U32, u: U32)
    requires lo <= hi && lo <= u <= hi
    ensures Distance(Clamp(v, lo, hi), v) <= Distance(u, v)
  {
  }

  predicate ExtentLimitsOrdered(caps: SurfaceCapabilities) {
    caps.minImageExtent.width <= caps.maxImageExtent.width &&
    caps.minImageExtent.height <= caps.maxImageExtent.height
  }

  predicate ExtentWithin(e: Extent, lo: Extent, hi: Extent) {
    lo.width <= e.width <= hi.width && lo.height <= e.height <= hi.height
  }

  /** True when the surface dictates the extent (its current width is not `UINT32_MAX`). */
  predicate SurfaceDefinesExtent(caps: SurfaceCapabilities) {
    caps.currentExtent.width != U32Max
  }

  /** `ChooseSwapExtent`; the window's drawable size (`SDL_Vulkan_GetDrawableSize`)
      is passed in as `drawableWidth` and `drawableHeight`. */
  function ChooseSwapExtent(caps: SurfaceCapabilities, drawableWidth: I32, drawableHeight: I32): (r: Extent)
    requires !SurfaceDefinesExtent(caps) ==> ExtentLimitsOrdered(caps)
    ensures SurfaceDefinesExtent(caps) ==> r == caps.currentExtent
    ensures !SurfaceDefinesExtent(caps) ==> ExtentWithin(r, caps.minImageExtent, caps.maxImageExtent)
    ensures !SurfaceDefinesExtent(caps) &&
            ExtentWithin(Extent(ToU32(drawableWidth), ToU32(drawableHeight)), caps.minImageExtent, caps.maxImageExtent)
            ==> r == Extent(ToU32(drawableWidth), ToU32(drawableHeight))
    ensures !SurfaceDefinesExtent(caps) ==>
              r.width == Clamp(ToU32(drawableWidth), caps.minImageExtent.width, caps.maxImageExtent.width) &&
              r.height == Clamp(ToU32(drawableHeight), caps.minImageExtent.height, caps.maxImageExtent.height)
  {
    if SurfaceDefinesExtent(caps) then caps.currentExtent
    else
      var actual := Extent(ToU32(drawableWidth), ToU32(drawableHeight));
      Extent(Clamp(actual.width, caps.minImageExtent.width, caps.maxImageExtent.width),
             Clamp(actual.height, caps.minImageExtent.height, caps.maxImageExtent.height))
  }

  /** Each dimension of a chosen extent is, independently, the allowed value nearest to the
      drawable size in that dimension. */
  lemma ChooseSwapExtentNearest(caps: SurfaceCapabilities, drawableWidth: I32, drawableHeight: I32, e: Extent)
    requires !SurfaceDefinesExtent(caps) && ExtentLimitsOrdered(caps)
    requires ExtentWithin(e, caps.minImageExtent, caps.maxImageExtent)
    ensures var r := ChooseSwapExtent(caps, drawableWidth, drawableHeight);
            Distance(r.width, ToU32(drawableWidth)) <= Distance(e.width, ToU32(drawableWidth)) &&
            Distance(r.height, ToU32(drawableHeight)) <= Distance(e.height, ToU32(drawableHeight))
  {
    ClampIsNearest(ToU32(drawableWidth), caps.minImageExtent.width, caps.maxImageExtent.width, e.width);
    ClampIsNearest(ToU32(drawableHeight), caps.minImageExtent.height, caps.maxImageExtent.height, e.height);
  }

  // ---------------------------------------------------------------------------
  // Image count

  function Pow2(n: nat): (r: nat)
    ensures r >= 1
  {
    if n == 0 then 1 else 2 * Pow2(n - 1)
  }

  /** `x >> s` with its mathematical value, one halving per bit; C++ leaves a shift of a
      32-bit value by 32 or more undefined. */
  function ShiftRight(x: nat, s: nat): nat {
    if s == 0 then x else ShiftRight(x / 2, s - 1)
  }

  lemma {:induction false} ShiftRightNonzero(x: nat, s: nat)
    ensures ShiftRight(x, s) != 0 <==> x >= Pow2(s)
  {
    if s > 0 {
      ShiftRightNonzero(x / 2, s - 1);
    }
  }

  /** The image-count rule of `CreateSwapChain` as written: `minImageCount + 1` in 32-bit
      arithmetic, replaced by `maxImageCount` when that is nonzero and
      `ImageCount >> maxImageCount` is nonzero (a right shift where a comparison was meant). */
  function SwapChainImageCountAsWritten(caps: SurfaceCapabilities): U32 {
    var imageCount := ToU32(caps.minImageCount + 1);
    if caps.maxImageCount > 0 && ShiftRight(imageCount, caps.maxImageCount) != 0
    then caps.maxImageCount
    else imageCount
  }

  /** The as-written rule clamps exactly when `minImageCount + 1` reaches `2^maxImageCount`. */
  lemma ImageCountAsWrittenClampsWhen(caps: SurfaceCapabilities)
    ensures var n := ToU32(caps.minImageCount + 1);
            SwapChainImageCountAsWritten(caps) ==
              if caps.maxImageCount > 0 && n >= Pow2(caps.maxImageCount) then caps.maxImageCount else n
  {
    ShiftRightNonzero(ToU32(caps.minImageCount + 1), caps.maxImageCount);
  }

  /** With `minImageCount == maxImageCount == 3` the as-written rule requests 4 images,
      one more than the surface allows. */
  lemma ImageCountAsWrittenExceedsMaximum()
    ensures var caps := SurfaceCapabilities(3, 3, Extent(0, 0), Extent(0, 0), Extent(0, 0));
            SwapChainImageCountAsWritten(caps) == 4 > caps.maxImageCount
  {
    var caps := SurfaceCapabilities(3, 3, Extent(0, 0), Extent(0, 0), Extent(0, 0));
    assert Pow2(3) == 8;
    ShiftRightNonzero(4, 3);
  }

  /** The intended image-count rule: `minImageCount + 1`, capped at a nonzero `maxImageCount`. */
  function SwapChainImageCount(caps: SurfaceCapabilities): (r: U32)
    ensures caps.maxImageCount > 0 ==> r <= caps.maxImageCount
    ensures caps.minImageCount < U32Max && (caps.maxImageCount == 0 || caps.minImageCount < caps.maxImageCount)
            ==> r == caps.minImageCount + 1
    ensures caps.minImageCount < U32Max && caps.minImageCount <= caps.maxImageCount ==> r >= caps.minImageCount
  {
    var imageCount := ToU32(caps.minImageCount + 1);
    if caps.maxImageCount > 0 && imageCount > caps.maxImageCount then caps.maxImageCount else imageCount
  }
}
