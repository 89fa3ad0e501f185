/** Device bootstrap: queue-family discovery, extension and validation-layer
    checks, device rating and selection, and the queue and image-sharing set-up
    derived from the chosen queue families (Renderer.cpp, PickPhysicalDevice
    through CreateLogicalDevice and the sharing choice in CreateSwapChain). */
module DeviceBootstrap {
  import opened VulkanTypes

  // ---------------------------------------------------------------------------
  // Queue families

  /** What `vkGetPhysicalDeviceQueueFamilyProperties` and
      `vkGetPhysicalDeviceSurfaceSupportKHR` report for one queue family. */
  datatype QueueFamily = QueueFamily(queueFlags: bv32, presentSupport: bool)

  /** `QueueFamilyIndices`: two optional family indices. */
  datatype QueueFamilyIndices = QueueFamilyIndices(graphicsFamily: Option<nat>, presentFamily: Option<nat>) {
    /** `IsComplete`: both indices are present. */
    predicate IsComplete() {
      graphicsFamily.Some? && presentFamily.Some?
    }
  }

  predicate HasGraphics(q: QueueFamily) {
    q.queueFlags & QueueGraphicsBit != 0
  }

  /** The first `n` families contain a graphics family and a presenting family. */
  predicate PrefixComplete(families: seq<QueueFamily>, n: nat)
    requires n <= |families|
  {
    (exists i :: 0 <= i < n && HasGraphics(families[i])) &&
    (exists j :: 0 <= j < n && families[j].presentSupport)
  }

  /** The loop of `FindQueueFamilies` from family `i` on, with the indices found so far. */
  function ScanQueueFamilies(families: seq<QueueFamily>, i: nat, found: QueueFamilyIndices): QueueFamilyIndices
    requires i <= |families|
    decreases |families| - i
  {
    if i == |families| then found
    else
      var graphics := if HasGraphics(families[i]) then Some(i) else found.graphicsFamily;
      var present := if families[i].presentSupport then Some(i) else found.presentFamily;
      var next := QueueFamilyIndices(graphics, present);
      if next.IsComplete() then next else ScanQueueFamilies(families, i + 1, next)
  }

  /** What `FindQueueFamilies` returns for a device with these queue families. */
  function QueueFamiliesOf(families: seq<QueueFamily>): QueueFamilyIndices {
    ScanQueueFamilies(families, 0, QueueFamilyIndices(None, None))
  }

  /** `FindQueueFamilies`: scans the families in order, recording the latest graphics and
      the latest presenting family, and stops at the first family that completes the pair. */
  method FindQueueFamilies(families: seq<QueueFamily>) returns (indices: QueueFamilyIndices)
    ensures indices == QueueFamiliesOf(families)
  {
    indices := QueueFamilyIndices(None, None);
    var i := 0;
    while i < |families|
      invariant 0 <= i <= |families|
      invariant QueueFamiliesOf(families) == ScanQueueFamilies(families, i, indices)
    {
      if HasGraphics(families[i]) {
        indices := indices.(graphicsFamily := Some(i));
      }
      if families[i].presentSupport {
        indices := indices.(presentFamily := Some(i));
      }
      if indices.IsComplete() {
        break;
      }
      i := i + 1;
    }
  }

  /** The last graphics family among the first `n`. */
  function LastGraphics(families: seq<QueueFamily>, n: nat): (r: Option<nat>)
    requires n <= |families|
    ensures r.Some? ==> r.value < n && HasGraphics(families[r.value]) &&
                        forall j :: r.value < j < n ==> !HasGraphics(families[j])
    ensures r.None? ==> forall j :: 0 <= j < n ==> !HasGraphics(families[j])
  {
    if n == 0 then None
    else if HasGraphics(families[n - 1]) then Some(n - 1)
    else LastGraphics(families, n - 1)
  }

  /** The last presenting family among the first `n`. */
  function LastPresent(families: seq<QueueFamily>, n: nat): (r: Option<nat>)
    requires n <= |families|
    ensures r.Some? ==> r.value < n && families[r.value].presentSupport &&
                        forall j :: r.value < j < n ==> !families[j].presentSupport
    ensures r.None? ==> forall j :: 0 <= j < n ==> !families[j].presentSupport
  {
    if n == 0 then None
    else if families[n - 1].presentSupport then Some(n - 1)
    else LastPresent(families, n - 1)
  }

  /** The indices a scan without early exit holds after the first `n` families. */
  function IndicesAfter(families: seq<QueueFamily>, n: nat): QueueFamilyIndices
    requires n <= |families|
  {
    QueueFamilyIndices(LastGraphics(families, n), LastPresent(families, n))
  }

  /** The length of the shortest complete prefix of at least `n` families, or `|families|`. */
  function StopPoint(families: seq<QueueFamily>, n: nat): (k: nat)
    requires n <= |families|
    ensures n <= k <= |families|
    ensures k < |families| ==> PrefixComplete(families, k)
    ensures forall m :: n <= m < k ==> !PrefixComplete(families, m)
    decreases |families| - n
  {
    if n == |families| || PrefixComplete(families, n) then n else StopPoint(families, n + 1)
  }

  lemma {:induction false} ScanFromIndicesAfter(families: seq<QueueFamily>, i: nat)
    requires i <= |families| && !PrefixComplete(families, i)
    ensures ScanQueueFamilies(families, i, IndicesAfter(families, i)) == IndicesAfter(families, StopPoint(families, i))
    decreases |families| - i
  {
    if i < |families| {
      var next := IndicesAfter(families, i + 1);
      assert next.IsComplete() <==> PrefixComplete(families, i + 1);
      if !next.IsComplete() {
        ScanFromIndicesAfter(families, i + 1);
      }
    }
  }

  /** `FindQueueFamilies` returns the indices held after the shortest complete prefix
      (or after all families when no prefix is complete). */
  lemma QueueFamiliesAtStopPoint(families: seq<QueueFamily>)
    ensures QueueFamiliesOf(families) == IndicesAfter(families, StopPoint(families, 0))
  {
    assert IndicesAfter(families, 0) == QueueFamilyIndices(None, None);
    ScanFromIndicesAfter(families, 0);
  }

  /** Every index found is a family of the device that has the capability it stands for. */
  lemma QueueFamiliesSound(families: seq<QueueFamily>)
    ensures var r := QueueFamiliesOf(families);
            (r.graphicsFamily.Some? ==> r.graphicsFamily.value < |families| && HasGraphics(families[r.graphicsFamily.value])) &&
            (r.presentFamily.Some? ==> r.presentFamily.value < |families| && families[r.presentFamily.value].presentSupport)
  {
    QueueFamiliesAtStopPoint(families);
  }

  /** The result is complete exactly when some family has graphics and some family presents. */
  lemma QueueFamiliesComplete(families: seq<QueueFamily>)
    ensures QueueFamiliesOf(families).IsComplete() <==> PrefixComplete(families, |families|)
  {
    QueueFamiliesAtStopPoint(families);
    var k := StopPoint(families, 0);
    assert IndicesAfter(families, k).IsComplete() <==> PrefixComplete(families, k);
    if PrefixComplete(families, |families|) && k < |families| {
      assert PrefixComplete(families, k);
    }
  }

  function Max(a: nat, b: nat): nat {
    if a < b then b else a
  }

  /** When the pair is complete, the scan stopped at the first prefix that contains both
      capabilities, and each index is the last family with its capability in that prefix. */
  lemma QueueFamiliesStopEarly(families: seq<QueueFamily>)
    requires QueueFamiliesOf(families).IsComplete()
    ensures var r := QueueFamiliesOf(families);
            var g, p := r.graphicsFamily.value, r.presentFamily.value;
            var last := Max(g, p);
            last < |families| &&
            (forall m :: 0 <= m <= last ==> !PrefixComplete(families, m)) &&
            (forall j :: g < j <= last ==> !HasGraphics(families[j])) &&
            (forall j :: p < j <= last ==> !families[j].presentSupport)
  {
    QueueFamiliesAtStopPoint(families);
    var k := StopPoint(families, 0);
    var r := QueueFamiliesOf(families);
    var g, p := r.graphicsFamily.value, r.presentFamily.value;
    assert g < k && p < k;
    assert PrefixComplete(families, Max(g, p) + 1) by {
      assert HasGraphics(families[g]) && families[p].presentSupport;
    }
    assert Max(g, p) + 1 == k;
  }

  /** When the pair is incomplete, the scan ran to the end and kept the last family of
      the capability that was found, if any. */
  lemma QueueFamiliesIncompleteKeepsLast(families: seq<QueueFamily>)
    requires !QueueFamiliesOf(families).IsComplete()
    ensures QueueFamiliesOf(families) == IndicesAfter(families, |families|)
  {
    QueueFamiliesAtStopPoint(families);
    var k := StopPoint(families, 0);
    assert IndicesAfter(families, k).IsComplete() <==> PrefixComplete(families, k);
  }

  // ---------------------------------------------------------------------------
  // Extension and layer checks

  /** Every required name occurs among the available names. */
  predicate AllAvailable(required: seq<string>, available: seq<string>) {
    forall name :: name in required ==> name in available
  }

  /** `CheckDeviceExtensionSupport`: erases every available extension from the set of
      required ones and reports whether the set became empty. */
  method CheckDeviceExtensionSupport(deviceExtensions: seq<string>, availableExtensions: seq<string>)
    returns (supported: bool)
    ensures supported <==> AllAvailable(deviceExtensions, availableExtensions)
  {
    var requiredExtensions := set e | e in deviceExtensions;
    for i := 0 to |availableExtensions|
      invariant requiredExtensions == (set e | e in deviceExtensions) - (set e | e in availableExtensions[..i])
    {
      assert availableExtensions[..i + 1] == availableExtensions[..i] + [availableExtensions[i]];
      requiredExtensions := requiredExtensions - {availableExtensions[i]};
    }
    assert availableExtensions[..|availableExtensions|] == availableExtensions;
    assert requiredExtensions == (set e | e in deviceExtensions) - (set e | e in availableExtensions);
    supported := requiredExtensions == {};
    if supported {
      forall name | name in deviceExtensions
        ensures name in availableExtensions
      {
        assert name in (set e | e in deviceExtensions);
        assert name !in requiredExtensions;
        assert name in (set e | e in availableExtensions);
      }
    } else {
      var missing :| missing in requiredExtensions;
      assert missing in deviceExtensions && missing !in availableExtensions;
    }
  }

  /** The inner loop of `CheckValidationLayerSupport`: is `layerName` among the available
      layers from position `from` on (`strcmp` equality)? */
  function LayerFound(layerName: string, availableLayers: seq<string>, from: nat): (found: bool)
    requires from <= |availableLayers|
    ensures found <==> layerName in availableLayers[from..]
    decreases |availableLayers| - from
  {
    if from == |availableLayers| then false
    else if layerName == availableLayers[from] then true
    else
      assert availableLayers[from..] == [availableLayers[from]] + availableLayers[from + 1..];
      LayerFound(layerName, availableLayers, from + 1)
  }

  /** The outer loop of `CheckValidationLayerSupport` from requested layer `from` on. */
  function AllLayersFound(validationLayers: seq<string>, availableLayers: seq<string>, from: nat): (r: bool)
    requires from <= |validationLayers|
    ensures r <==> forall k :: from <= k < |validationLayers| ==> validationLayers[k] in availableLayers
    decreases |validationLayers| - from
  {
    if from == |validationLayers| then true
    else
      assert availableLayers[0..] == availableLayers;
      if !LayerFound(validationLayers[from], availableLayers, 0) then false
      else AllLayersFound(validationLayers, availableLayers, from + 1)
  }

  /** `CheckValidationLayerSupport`: true exactly when every requested layer is available. */
  function CheckValidationLayerSupport(validationLayers: seq<string>, availableLayers: seq<string>): (r: bool)
    ensures r <==> AllAvailable(validationLayers, availableLayers)
  {
    AllLayersFound(validationLayers, availableLayers, 0)
  }

  // ---------------------------------------------------------------------------
  // Device rating and selection

  /** `VkPhysicalDeviceType` */
  datatype DeviceType = OtherDevice | IntegratedGpu | DiscreteGpu | VirtualGpu | CpuDevice

  /** What the renderer queries about one physical device. */
  datatype PhysicalDeviceInfo = PhysicalDeviceInfo(
    deviceType: DeviceType,
    maxImageDimension2D: U32,
    geometryShader: bool,
    queueFamilies: seq<QueueFamily>,
    extensions: seq<string>,          // vkEnumerateDeviceExtensionProperties
    formats: seq<SurfaceFormat>,      // QuerySwapChainSupport
    presentModes: seq<PresentMode>)   // QuerySwapChainSupport

  /** `IsDeviceSuitable`: `FindQueueFamilies` yields a complete pair. */
  predicate IsDeviceSuitable(d: PhysicalDeviceInfo) {
    QueueFamiliesOf(d.queueFamilies).IsComplete()
  }

  /** The running `Score` of `RateDeviceSuitability`: the discrete-GPU bonus plus the largest
      2D image dimension; `int += uint32_t` is computed in 32-bit unsigned arithmetic. */
  function DeviceScore(d: PhysicalDeviceInfo): U32 {
    ToU32((if d.deviceType == DiscreteGpu then 1000 else 0) + d.maxImageDimension2D)
  }

  predicate SwapChainAdequate(d: PhysicalDeviceInfo) {
    |d.formats| > 0 && |d.presentModes| > 0
  }

  /** `RateDeviceSuitability` as written: it returns the boolean product
      `Score && ExtensionsSupported && SwapChainAdequate`, so a rating is 0 or 1. */
  function RateDeviceSuitability(d: PhysicalDeviceInfo, deviceExtensions: seq<string>): (r: int)
    ensures r == 0 || r == 1
    ensures !d.geometryShader ==> r == 0
    ensures r == 1 <==> d.geometryShader && DeviceScore(d) != 0 &&
                        AllAvailable(deviceExtensions, d.extensions) && SwapChainAdequate(d)
  {
    var score := DeviceScore(d);
    if !d.geometryShader then 0
    else
      var extensionsSupported := AllAvailable(deviceExtensions, d.extensions);
      var swapChainAdequate := extensionsSupported && SwapChainAdequate(d);
      if score != 0 && extensionsSupported && swapChainAdequate then 1 else 0
  }

  /** The as-written rating does not rank: any two devices that pass the hard checks with a
      nonzero score rate the same, so a discrete GPU does not outrank an integrated one. */
  lemma RateDeviceSuitabilityDoesNotRank(d1: PhysicalDeviceInfo, d2: PhysicalDeviceInfo, deviceExtensions: seq<string>)
    requires RateDeviceSuitability(d1, deviceExtensions) > 0 && RateDeviceSuitability(d2, deviceExtensions) > 0
    ensures RateDeviceSuitability(d1, deviceExtensions) == RateDeviceSuitability(d2, deviceExtensions)
  {
  }

  /** A discrete and an integrated GPU that differ only in type rate the same. */
  lemma DiscreteGpuNotPreferred()
    ensures var integrated := PhysicalDeviceInfo(IntegratedGpu, 4096, true, [], [], [SurfaceFormat(FormatB8G8R8A8Srgb, ColorSpaceSrgbNonlinear)], [Fifo]);
            var discrete := integrated.(deviceType := DiscreteGpu);
            RateDeviceSuitability(discrete, []) == RateDeviceSuitability(integrated, []) == 1
  {
  }

  /** The intended rating: the weighted score when the hard requirements hold, else 0. */
  function RateDeviceSuitabilityIntended(d: PhysicalDeviceInfo, deviceExtensions: seq<string>): (r: nat)
    ensures !d.geometryShader || !AllAvailable(deviceExtensions, d.extensions) || !SwapChainAdequate(d) ==> r == 0
    ensures r > 0 ==> d.geometryShader && AllAvailable(deviceExtensions, d.extensions) && SwapChainAdequate(d)
    ensures d.deviceType == DiscreteGpu && r > 0 ==> r >= 1000
  {
    if !d.geometryShader || !AllAvailable(deviceExtensions, d.extensions) || !SwapChainAdequate(d) then 0
    else (if d.deviceType == DiscreteGpu then 1000 else 0) + d.maxImageDimension2D
  }

  /** Under the intended rating a discrete GPU outranks an otherwise equal non-discrete one. */
  lemma DiscreteGpuPreferredIntended(d: PhysicalDeviceInfo, deviceExtensions: seq<string>)
    requires d.deviceType != DiscreteGpu
    requires d.geometryShader && AllAvailable(deviceExtensions, d.extensions) && SwapChainAdequate(d)
    ensures RateDeviceSuitabilityIntended(d.(deviceType := DiscreteGpu), deviceExtensions) ==
            RateDeviceSuitabilityIntended(d, deviceExtensions) + 1000
  {
  }

  /** The rating the candidates are ranked by: `RateDeviceSuitability` as written, which
      `PickPhysicalDevice` calls, or the intended weighted score. */
  datatype RatingRule = AsWritten | Intended

  function Rating(rule: RatingRule, d: PhysicalDeviceInfo, deviceExtensions: seq<string>): int {
    match rule
    case AsWritten => RateDeviceSuitability(d, deviceExtensions)
    case Intended => RateDeviceSuitabilityIntended(d, deviceExtensions)
  }

  /** An entry of the `std::multimap<int, VkPhysicalDevice>` of candidates. */
  datatype Candidate = Candidate(score: int, device: nat)

  /** The position of `rbegin()` among the first `n` candidates in insertion order: the
      greatest score, and among equal scores the latest inserted. */
  function TopIndex(candidates: seq<Candidate>, n: nat): (t: nat)
    requires 0 < n <= |candidates|
    ensures t < n
    ensures forall j :: 0 <= j < n ==> candidates[j].score <= candidates[t].score
    ensures forall j :: t < j < n ==> candidates[j].score < candidates[t].score
  {
    if n == 1 then 0
    else
      var t := TopIndex(candidates, n - 1);
      if candidates[n - 1].score >= candidates[t].score then n - 1 else t
  }

  /** The loop state of `PickPhysicalDevice`: the device chosen so far and the candidates. */
  datatype PickState = PickState(chosen: Option<nat>, candidates: seq<Candidate>)

  /** The loop of `PickPhysicalDevice` from device `i` on.  A suitable device is chosen and
      the loop goes on (there is no `break`); an unsuitable one is rated by `rule` and inserted,
      and then the best candidate is chosen if its score is positive, otherwise the loop throws. */
  function PickFrom(devices: seq<PhysicalDeviceInfo>, deviceExtensions: seq<string>, rule: RatingRule, i: nat, st: PickState): Result<PickState>
    requires i <= |devices|
    decreases |devices| - i
  {
    if i == |devices| then Ok(st)
    else if IsDeviceSuitable(devices[i]) then
      PickFrom(devices, deviceExtensions, rule, i + 1, st.(chosen := Some(i)))
    else
      var c := st.candidates + [Candidate(Rating(rule, devices[i], deviceExtensions), i)];
      var top := c[TopIndex(c, |c|)];
      if top.score > 0 then PickFrom(devices, deviceExtensions, rule, i + 1, PickState(Some(top.device), c))
      else Err(NoSuitableGpu)
  }

  /** Whatever the loop returns from a nonempty remainder has a chosen device of index below `|devices|`. */
  lemma {:induction false} PickFromChooses(devices: seq<PhysicalDeviceInfo>, deviceExtensions: seq<string>, rule: RatingRule, i: nat, st: PickState)
    requires i <= |devices|
    requires st.chosen.Some? ==> st.chosen.value < |devices|
    requires forall c :: c in st.candidates ==> c.device < |devices|
    requires i < |devices| || st.chosen.Some?
    ensures var r := PickFrom(devices, deviceExtensions, rule, i, st);
            (r.Ok? ==> r.value.chosen.Some? && r.value.chosen.value < |devices|) &&
            (r.Err? ==> r.error == NoSuitableGpu)
    decreases |devices| - i
  {
    if i < |devices| {
      if IsDeviceSuitable(devices[i]) {
        PickFromChooses(devices, deviceExtensions, rule, i + 1, st.(chosen := Some(i)));
      } else {
        var c := st.candidates + [Candidate(Rating(rule, devices[i], deviceExtensions), i)];
        var top := c[TopIndex(c, |c|)];
        assert top in c;
        if top.score > 0 {
          PickFromChooses(devices, deviceExtensions, rule, i + 1, PickState(Some(top.device), c));
        }
      }
    }
  }

  /** What `PickPhysicalDevice` leaves in `PhysicalDevice` (an index into `devices`), or the
      error it throws; the source ranks by the `AsWritten` rule. */
  function PickPhysicalDeviceResult(devices: seq<PhysicalDeviceInfo>, deviceExtensions: seq<string>, rule: RatingRule): (r: Result<nat>)
    ensures r.Ok? ==> r.value < |devices|
    ensures |devices| == 0 <==> r == Err(NoVulkanGpu)
  {
    if |devices| == 0 then Err(NoVulkanGpu)
    else
      PickFromChooses(devices, deviceExtensions, rule, 0, PickState(None, []));
      match PickFrom(devices, deviceExtensions, rule, 0, PickState(None, []))
      case Ok(st) => Ok(st.chosen.value)
      case Err(e) => Err(e)
  }

  /** `PickPhysicalDevice`: the device list comes from `vkEnumeratePhysicalDevices`;
      the result is the index of the device left in `PhysicalDevice`. */
  method PickPhysicalDevice(devices: seq<PhysicalDeviceInfo>, deviceExtensions: seq<string>) returns (r: Result<nat>)
    ensures r == PickPhysicalDeviceResult(devices, deviceExtensions, AsWritten)
  {
    if |devices| == 0 {
      return Err(NoVulkanGpu);
    }
    var chosen: Option<nat> := None;
    var candidates: seq<Candidate> := [];
    var i := 0;
    while i < |devices|
      invariant 0 <= i <= |devices|
      invariant PickFrom(devices, deviceExtensions, AsWritten, 0, PickState(None, [])) ==
                PickFrom(devices, deviceExtensions, AsWritten, i, PickState(chosen, candidates))
    {
      var indices := FindQueueFamilies(devices[i].queueFamilies);
      if indices.IsComplete() {
        chosen := Some(i);
      } else {
        var score := RateDeviceSuitability(devices[i], deviceExtensions);
        candidates := candidates + [Candidate(score, i)];
        var top := candidates[TopIndex(candidates, |candidates|)];
        if top.score > 0 {
          chosen := Some(top.device);
        } else {
          return Err(NoSuitableGpu);
        }
      }
      i := i + 1;
    }
    PickFromChooses(devices, deviceExtensions, AsWritten, 0, PickState(None, []));
    r := Ok(chosen.value);
  }

  /** There is no `break`: when the last device is suitable it is the one chosen, whatever
      suitable device came earlier. */
  lemma {:induction false} PickFromLastSuitable(devices: seq<PhysicalDeviceInfo>, deviceExtensions: seq<string>, rule: RatingRule, i: nat, st: PickState)
    requires i < |devices| && IsDeviceSuitable(devices[|devices| - 1])
    ensures var r := PickFrom(devices, deviceExtensions, rule, i, st);
            r.Ok? ==> r.value.chosen == Some(|devices| - 1)
    decreases |devices| - i
  {
    if i + 1 < |devices| {
      if IsDeviceSuitable(devices[i]) {
        PickFromLastSuitable(devices, deviceExtensions, rule, i + 1, st.(chosen := Some(i)));
      } else {
        var c := st.candidates + [Candidate(Rating(rule, devices[i], deviceExtensions), i)];
        var top := c[TopIndex(c, |c|)];
        if top.score > 0 {
          PickFromLastSuitable(devices, deviceExtensions, rule, i + 1, PickState(Some(top.device), c));
        }
      }
    }
  }

  lemma PickPhysicalDeviceNoBreak(devices: seq<PhysicalDeviceInfo>, deviceExtensions: seq<string>, rule: RatingRule)
    requires |devices| > 0 && IsDeviceSuitable(devices[|devices| - 1])
    ensures var r := PickPhysicalDeviceResult(devices, deviceExtensions, rule);
            r.Ok? ==> r.value == |devices| - 1
  {
    PickFromLastSuitable(devices, deviceExtensions, rule, 0, PickState(None, []));
  }

  /** Index of the first unsuitable device at or after `from`, or `|devices|`. */
  function FirstUnsuitable(devices: seq<PhysicalDeviceInfo>, from: nat): (k: nat)
    requires from <= |devices|
    ensures from <= k <= |devices|
    ensures k < |devices| ==> !IsDeviceSuitable(devices[k])
    ensures forall j :: from <= j < k ==> IsDeviceSuitable(devices[j])
    decreases |devices| - from
  {
    if from == |devices| || !IsDeviceSuitable(devices[from]) then from else FirstUnsuitable(devices, from + 1)
  }

  /** A positive top score stays positive: once a candidate rates above 0, no later insertion throws. */
  lemma {:induction false} PickFromAfterPositive(devices: seq<PhysicalDeviceInfo>, deviceExtensions: seq<string>, rule: RatingRule, i: nat, st: PickState)
    requires i <= |devices|
    requires |st.candidates| > 0 && st.candidates[TopIndex(st.candidates, |st.candidates|)].score > 0
    ensures PickFrom(devices, deviceExtensions, rule, i, st).Ok?
    decreases |devices| - i
  {
    if i < |devices| {
      if IsDeviceSuitable(devices[i]) {
        PickFromAfterPositive(devices, deviceExtensions, rule, i + 1, st.(chosen := Some(i)));
      } else {
        var c := st.candidates + [Candidate(Rating(rule, devices[i], deviceExtensions), i)];
        var t0 := TopIndex(st.candidates, |st.candidates|);
        assert c[t0] == st.candidates[t0];
        var top := c[TopIndex(c, |c|)];
        assert top.score >= c[t0].score;
        PickFromAfterPositive(devices, deviceExtensions, rule, i + 1, PickState(Some(top.device), c));
      }
    }
  }

  /** Before the first unsuitable device the candidates are empty; the loop throws exactly when
      the first unsuitable device rates 0. */
  lemma {:induction false} PickFromFails(devices: seq<PhysicalDeviceInfo>, deviceExtensions: seq<string>, rule: RatingRule, i: nat, st: PickState)
    requires i <= |devices| && st.candidates == []
    requires forall j :: i <= j < FirstUnsuitable(devices, i) ==> IsDeviceSuitable(devices[j])
    ensures var k := FirstUnsuitable(devices, i);
            PickFrom(devices, deviceExtensions, rule, i, st).Err? <==>
              k < |devices| && Rating(rule, devices[k], deviceExtensions) == 0
    ensures PickFrom(devices, deviceExtensions, rule, i, st).Err? ==> PickFrom(devices, deviceExtensions, rule, i, st).error == NoSuitableGpu
    decreases |devices| - i
  {
    if i < |devices| {
      if IsDeviceSuitable(devices[i]) {
        PickFromFails(devices, deviceExtensions, rule, i + 1, st.(chosen := Some(i)));
      } else {
        var c := [Candidate(Rating(rule, devices[i], deviceExtensions), i)];
        assert st.candidates + [Candidate(Rating(rule, devices[i], deviceExtensions), i)] == c;
        assert TopIndex(c, 1) == 0;
        if c[0].score > 0 {
          PickFromAfterPositive(devices, deviceExtensions, rule, i + 1, PickState(Some(c[0].device), c));
        }
      }
    }
  }

  /** `PickPhysicalDevice` throws "Failed to locate GPU" exactly when the first device whose
      queue families are incomplete rates 0, even if a suitable device was chosen before it. */
  lemma PickPhysicalDeviceFailsWhen(devices: seq<PhysicalDeviceInfo>, deviceExtensions: seq<string>, rule: RatingRule)
    requires |devices| > 0
    ensures var r := PickPhysicalDeviceResult(devices, deviceExtensions, rule);
            var k := FirstUnsuitable(devices, 0);
            (r.Err? <==> k < |devices| && Rating(rule, devices[k], deviceExtensions) == 0) &&
            (r.Err? ==> r.error == NoSuitableGpu)
  {
    PickFromFails(devices, deviceExtensions, rule, 0, PickState(None, []));
  }

  /** A suitable device followed by one without a geometry shader: the call throws although a
      suitable device had already been chosen. */
  lemma PickPhysicalDeviceThrowsAfterChoosing()
    ensures var good := PhysicalDeviceInfo(DiscreteGpu, 16384, true, [QueueFamily(QueueGraphicsBit, true)], [], [], []);
            var bad := PhysicalDeviceInfo(IntegratedGpu, 8192, false, [], [], [], []);
            IsDeviceSuitable(good) && PickPhysicalDeviceResult([good, bad], [], AsWritten) == Err(NoSuitableGpu)
  {
    var good := PhysicalDeviceInfo(DiscreteGpu, 16384, true, [QueueFamily(QueueGraphicsBit, true)], [], [], []);
    var bad := PhysicalDeviceInfo(IntegratedGpu, 8192, false, [], [], [], []);
    assert HasGraphics(good.queueFamilies[0]);
    assert IsDeviceSuitable(good);
    assert !IsDeviceSuitable(bad);
    PickPhysicalDeviceFailsWhen([good, bad], [], AsWritten);
  }

  /** Two unsuitable candidates, a discrete GPU and then an integrated one with smaller
      images: as written both rate 1 and `rbegin()` yields the later, integrated one; the
      intended rating picks the discrete GPU. */
  lemma PickAsWrittenIgnoresDeviceType()
    ensures var discrete := PhysicalDeviceInfo(DiscreteGpu, 16384, true, [], [], [SurfaceFormat(FormatB8G8R8A8Srgb, ColorSpaceSrgbNonlinear)], [Fifo]);
            var integrated := discrete.(deviceType := IntegratedGpu, maxImageDimension2D := 4096);
            PickPhysicalDeviceResult([discrete, integrated], [], AsWritten) == Ok(1) &&
            PickPhysicalDeviceResult([discrete, integrated], [], Intended) == Ok(0)
  {
    var discrete := PhysicalDeviceInfo(DiscreteGpu, 16384, true, [], [], [SurfaceFormat(FormatB8G8R8A8Srgb, ColorSpaceSrgbNonlinear)], [Fifo]);
    var integrated := discrete.(deviceType := IntegratedGpu, maxImageDimension2D := 4096);
    var devices := [discrete, integrated];
    assert !IsDeviceSuitable(discrete) && !IsDeviceSuitable(integrated);
    assert RateDeviceSuitability(discrete, []) == RateDeviceSuitability(integrated, []) == 1;
    assert RateDeviceSuitabilityIntended(discrete, []) == 17384 && RateDeviceSuitabilityIntended(integrated, []) == 4096;
    assert devices[0] == discrete && devices[1] == integrated && !IsDeviceSuitable(devices[0]) && !IsDeviceSuitable(devices[1]);
    var r1, r2 := [Candidate(1, 0)], [Candidate(1, 0), Candidate(1, 1)];
    assert [] + [Candidate(Rating(AsWritten, devices[0], []), 0)] == r1;
    assert r1 + [Candidate(Rating(AsWritten, devices[1], []), 1)] == r2;
    assert TopIndex(r1, 1) == 0 && TopIndex(r2, 2) == 1;
    assert PickFrom(devices, [], AsWritten, 2, PickState(Some(1), r2)) == Ok(PickState(Some(1), r2));
    assert PickFrom(devices, [], AsWritten, 1, PickState(Some(0), r1)) == Ok(PickState(Some(1), r2));
    assert PickFrom(devices, [], AsWritten, 0, PickState(None, [])) == Ok(PickState(Some(1), r2));
    var i1, i2 := [Candidate(17384, 0)], [Candidate(17384, 0), Candidate(4096, 1)];
    assert [] + [Candidate(Rating(Intended, devices[0], []), 0)] == i1;
    assert i1 + [Candidate(Rating(Intended, devices[1], []), 1)] == i2;
    assert TopIndex(i1, 1) == 0 && TopIndex(i2, 2) == 0;
    assert PickFrom(devices, [], Intended, 2, PickState(Some(0), i2)) == Ok(PickState(Some(0), i2));
    assert PickFrom(devices, [], Intended, 1, PickState(Some(0), i1)) == Ok(PickState(Some(0), i2));
    assert PickFrom(devices, [], Intended, 0, PickState(None, [])) == Ok(PickState(Some(0), i2));
  }

  /** The 32-bit score wraps: a discrete GPU whose largest image dimension is `2^32 - 1000`
      scores 0, so as written the pick throws, where the intended rating accepts it. */
  lemma PickAsWrittenThrowsOnWrappedScore()
    ensures var d := PhysicalDeviceInfo(DiscreteGpu, 0x1_0000_0000 - 1000, true, [], [], [SurfaceFormat(FormatB8G8R8A8Srgb, ColorSpaceSrgbNonlinear)], [Fifo]);
            DeviceScore(d) == 0 &&
            PickPhysicalDeviceResult([d], [], AsWritten) == Err(NoSuitableGpu) &&
            PickPhysicalDeviceResult([d], [], Intended).Ok?
  {
    var d := PhysicalDeviceInfo(DiscreteGpu, 0x1_0000_0000 - 1000, true, [], [], [SurfaceFormat(FormatB8G8R8A8Srgb, ColorSpaceSrgbNonlinear)], [Fifo]);
    assert !IsDeviceSuitable(d) && FirstUnsuitable([d], 0) == 0;
    assert Rating(AsWritten, d, []) == 0 && Rating(Intended, d, []) > 0;
    PickPhysicalDeviceFailsWhen([d], [], AsWritten);
    PickPhysicalDeviceFailsWhen([d], [], Intended);
  }

  // ---------------------------------------------------------------------------
  // Logical device queues and image sharing

  /** `VkDeviceQueueCreateInfo` (the priority, a float, is not modelled). */
  datatype DeviceQueueCreateInfo = DeviceQueueCreateInfo(queueFamilyIndex: nat, queueCount: nat)

  /** The queue create-infos of `CreateLogicalDevice`: one per element of the `std::set` of
      the two family indices, in the set's ascending order; `.value()` throws on an empty index. */
  function DeviceQueueCreateInfos(indices: QueueFamilyIndices): (r: Result<seq<DeviceQueueCreateInfo>>)
    ensures r.Ok? <==> indices.IsComplete()
    ensures r.Err? ==> r.error == BadOptionalAccess
    ensures r.Ok? ==>
      var g, p := indices.graphicsFamily.value, indices.presentFamily.value;
      var infos := r.value;
      |infos| == (if g == p then 1 else 2) &&
      (forall k :: 0 <= k < |infos| ==> infos[k].queueCount == 1) &&
      (forall k :: 0 <= k < |infos| ==> infos[k].queueFamilyIndex == g || infos[k].queueFamilyIndex == p) &&
      (exists k :: 0 <= k < |infos| && infos[k].queueFamilyIndex == g) &&
      (exists k :: 0 <= k < |infos| && infos[k].queueFamilyIndex == p) &&
      (forall k :: 0 < k < |infos| ==> infos[k - 1].queueFamilyIndex < infos[k].queueFamilyIndex)
  {
    if !indices.IsComplete() then Err(BadOptionalAccess)
    else
      var g, p := indices.graphicsFamily.value, indices.presentFamily.value;
      var uniqueQueueFamilies := if g < p then [g, p] else if p < g then [p, g] else [g];
      var infos := seq(|uniqueQueueFamilies|, k requires 0 <= k < |uniqueQueueFamilies| => DeviceQueueCreateInfo(uniqueQueueFamilies[k], 1));
      assert infos[0].queueFamilyIndex == uniqueQueueFamilies[0];
      assert infos[|infos| - 1].queueFamilyIndex == uniqueQueueFamilies[|infos| - 1];
      Ok(infos)
  }

  /** `VkSharingMode` */
  datatype SharingMode = Exclusive | Concurrent

  /** The sharing fields of `VkSwapchainCreateInfoKHR`; the index count is the list's length. */
  datatype ImageSharing = ImageSharing(mode: SharingMode, queueFamilyIndices: seq<nat>)

  /** The sharing choice of `CreateSwapChain`: concurrent over both families when they differ,
      exclusive with no family list otherwise; `.value()` throws on an empty index. */
  function ChooseImageSharing(indices: QueueFamilyIndices): (r: Result<ImageSharing>)
    ensures r.Ok? <==> indices.IsComplete()
    ensures r.Err? ==> r.error == BadOptionalAccess
    ensures r.Ok? ==>
      var g, p := indices.graphicsFamily.value, indices.presentFamily.value;
      (r.value.mode == Concurrent <==> g != p) &&
      (g != p ==> r.value.queueFamilyIndices == [g, p]) &&
      (g == p ==> |r.value.queueFamilyIndices| == 0)
  {
    if !indices.IsComplete() then Err(BadOptionalAccess)
    else
      var queueFamilyIndices := [indices.graphicsFamily.value, indices.presentFamily.value];
      if indices.graphicsFamily != indices.presentFamily then Ok(ImageSharing(Concurrent, queueFamilyIndices))
      else Ok(ImageSharing(Exclusive, []))
  }
}
