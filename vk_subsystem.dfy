/**
 * The Vulkan graphics subsystem of the EnvGraph engine and the engine front
 * that owns it: one-time bring-up (instance, physical device, queues,
 * device, swapchain), the queue budget handed to pipelines, the
 * render-resolution gate and the rebuild after a resolution change.
 * Outcomes of device calls are parameters; the effects the subsystem
 * performs are recorded as a trace of calls.
 */
module EnvGraph {
  import opened Common
  import opened QueueBudget
  import opened Pipelines
  import opened QueueFamilies
  import opened Swapchain
  import opened Host

  /** `kRequiredDeviceExtensions`: the swapchain extension. */
  const REQUIRED_DEVICE_EXTENSIONS: seq<string> := ["VK_KHR_swapchain"]

  /** What the subsystem reads from one physical device. */
  datatype PhysicalDevice = PhysicalDevice(
    discrete: bool,
    geometryShader: bool,
    multiViewport: bool,
    extensions: seq<string>,
    formats: seq<SurfaceFormat>,
    presentModeCount: nat,
    maxImageDimension2D: u32,
    families: seq<QueueFamily>)

  /**
   * `isPhyDeviceSuitable`: a discrete GPU with geometry shaders and
   * multiple viewports, every required extension, and at least one surface
   * format and one present mode.
   */
  predicate IsPhyDeviceSuitable(d: PhysicalDevice)
  {
    d.discrete && d.geometryShader && d.multiViewport
    && (forall e :: e in REQUIRED_DEVICE_EXTENSIONS ==> e in d.extensions)
    && |d.formats| > 0 && d.presentModeCount > 0
  }

  /** The first suitable device in enumeration order. */
  function FirstSuitable(devices: seq<PhysicalDevice>): (r: Option<nat>)
    ensures r.Some? ==> r.value < |devices| && IsPhyDeviceSuitable(devices[r.value])
    ensures r.Some? ==> forall j :: 0 <= j < r.value ==> !IsPhyDeviceSuitable(devices[j])
    ensures r.None? ==> forall j :: 0 <= j < |devices| ==> !IsPhyDeviceSuitable(devices[j])
  {
    if devices == [] then None
    else if IsPhyDeviceSuitable(devices[0]) then Some(0)
    else match FirstSuitable(devices[1..])
      case None => None
      case Some(k) => Some(k + 1)
  }

  /** Outcomes of the device calls during bring-up. */
  datatype BringUp = BringUp(
    instanceCreated: bool,
    devices: seq<PhysicalDevice>,
    deviceCreated: bool,
    swapchainCreated: bool)

  /** A `vk::DeviceQueueCreateInfo`: family and number of queues. */
  datatype QueueCreateInfo = QueueCreateInfo(family: u32, count: u32)

  /**
   * The create infos `SetupQueues` emits once a present family is known:
   * graphics, compute, and present unless it is the compute family.
   */
  function QueueCreateInfos(graphicsFamily: u32, graphicsCount: u32, computeFamily: u32, computeCount: u32,
                            presentFamily: u32): (r: seq<QueueCreateInfo>)
    ensures |r| == if presentFamily == computeFamily then 2 else 3
    ensures r[0] == QueueCreateInfo(graphicsFamily, graphicsCount)
    ensures r[1] == QueueCreateInfo(computeFamily, computeCount)
    ensures presentFamily != computeFamily ==> r[2] == QueueCreateInfo(presentFamily, 1)
  {
    [QueueCreateInfo(graphicsFamily, graphicsCount), QueueCreateInfo(computeFamily, computeCount)]
    + if presentFamily != computeFamily then [QueueCreateInfo(presentFamily, 1)] else []
  }

  /** The queue-family indices and queue counters of the subsystem. */
  datatype QueueFields = QueueFields(
    graphicsFamily: u32, graphicsMax: u32, graphicsAvailable: u32,
    computeFamily: u32, computeMax: u32, computeAvailable: u32,
    presentFamily: u32)

  /**
   * The queue fields after `SetupQueues` scans `families`: the last family
   * passing each test is taken, with max = available = its queue count; a
   * test no family passes leaves its fields as they were.
   */
  function Adopted(families: seq<QueueFamily>, before: QueueFields): (r: QueueFields)
    requires |families| < U32_LIMIT
    ensures LastMatch(families, HasPresentSupport).None? ==> r.presentFamily == before.presentFamily
    ensures LastMatch(families, HasPresentSupport).Some? ==> r.presentFamily < |families|
  {
    var g := match LastMatch(families, IsGraphicsFamily)
      case Some(i) => (i as u32, families[i].queueCount)
      case None => (before.graphicsFamily, before.graphicsMax);
    var gAvail := if LastMatch(families, IsGraphicsFamily).Some? then g.1 else before.graphicsAvailable;
    var c := match LastMatch(families, ComputeTestAsWritten)
      case Some(i) => (i as u32, families[i].queueCount)
      case None => (before.computeFamily, before.computeMax);
    var cAvail := if LastMatch(families, ComputeTestAsWritten).Some? then c.1 else before.computeAvailable;
    var p := match LastMatch(families, HasPresentSupport)
      case Some(i) => i as u32
      case None => before.presentFamily;
    QueueFields(g.0, g.1, gAvail, c.0, c.1, cAvail, p)
  }

  /**
   * The queue step of bring-up knows a present family afterwards exactly
   * when some family supports presentation or one was already known.
   */
  lemma AdoptedPresentKnown(families: seq<QueueFamily>, before: QueueFields)
    requires |families| < U32_LIMIT
    ensures Adopted(families, before).presentFamily != U32_MAX <==>
      (exists i :: 0 <= i < |families| && HasPresentSupport(families[i])) || before.presentFamily != U32_MAX
  {
    LastMatchIsLast(families, HasPresentSupport);
    var r := LastMatch(families, HasPresentSupport);
    if r.Some? {
      assert HasPresentSupport(families[r.value]);
    }
  }

  /** What the rebuild after a resolution change does, in order. */
  const ResolutionRebuild: seq<Call> :=
    [DisableRendering, JoinRenderThread, CreateSwapChain, CreateImageViews, CreateDepthStencil, StartRenderThread]

  /** `GraphicsSubsystem<VULKAN>`. */
  class GraphicsSubsystem {
    var initialized: bool
    var enabled: bool
    /** `maxImageDimension2D` of the chosen device; 0 until one is chosen. */
    var maxImageDimension2D: u32
    var graphicsQueueFamilyIndex: u32
    var graphicsQueuesMax: u32
    var graphicsQueuesAvailable: u32
    var presentQueueFamilyIndex: u32
    var computeQueueFamilyIndex: u32
    var computeQueuesMax: u32
    var computeQueuesAvailable: u32
    var pipelines: seq<PipelineKind>
    var calls: seq<Call>

    function QueueBudget(): Budget
      reads this
    {
      Budget(graphicsQueuesMax, graphicsQueuesAvailable, computeQueuesMax, computeQueuesAvailable)
    }

    function Queues(): QueueFields
      reads this
    {
      QueueFields(graphicsQueueFamilyIndex, graphicsQueuesMax, graphicsQueuesAvailable,
                  computeQueueFamilyIndex, computeQueuesMax, computeQueuesAvailable, presentQueueFamilyIndex)
    }

    /** Not initialized, not rendering, every family index ignored, every queue count 0. */
    constructor()
      ensures !initialized && !enabled && maxImageDimension2D == 0
      ensures graphicsQueueFamilyIndex == U32_MAX && presentQueueFamilyIndex == U32_MAX
      ensures computeQueueFamilyIndex == U32_MAX
      ensures QueueBudget() == Budget(0, 0, 0, 0)
      ensures pipelines == [] && calls == []
    {
      initialized, enabled, maxImageDimension2D := false, false, 0;
      graphicsQueueFamilyIndex, graphicsQueuesMax, graphicsQueuesAvailable := U32_MAX, 0, 0;
      presentQueueFamilyIndex := U32_MAX;
      computeQueueFamilyIndex, computeQueuesMax, computeQueuesAvailable := U32_MAX, 0, 0;
      pipelines, calls := [], [];
    }

    /** Initialises once: a second call after a successful one succeeds without doing anything. */
    method Init(bringUp: BringUp) returns (ok: bool)
      requires forall d :: d in bringUp.devices ==> |d.families| < U32_LIMIT
      modifies this
      ensures old(initialized) ==> ok && unchanged(this)
      ensures initialized == ok
      ensures !old(initialized) ==>
        (ok <==> bringUp.instanceCreated && FirstSuitable(bringUp.devices).Some?
                 && (presentQueueFamilyIndex != U32_MAX) && bringUp.deviceCreated && bringUp.swapchainCreated)
      ensures !old(initialized) && bringUp.instanceCreated && FirstSuitable(bringUp.devices).Some? ==>
        var device := bringUp.devices[FirstSuitable(bringUp.devices).value];
        Queues() == Adopted(device.families, old(Queues())) && maxImageDimension2D == device.maxImageDimension2D
      ensures !(bringUp.instanceCreated && FirstSuitable(bringUp.devices).Some?) ==>
        Queues() == old(Queues()) && maxImageDimension2D == old(maxImageDimension2D)
      ensures pipelines == old(pipelines) && calls == old(calls) && enabled == old(enabled)
    {
      if !initialized {
        ok := InitVulkan(bringUp);
      } else {
        ok := true;
      }
    }

    /**
     * Bring-up: instance, first suitable device, queues, device and
     * swapchain, each failure ending it with `false`. Only a complete
     * bring-up marks the subsystem initialized.
     */
    method InitVulkan(bringUp: BringUp) returns (ok: bool)
      requires !initialized
      requires forall d :: d in bringUp.devices ==> |d.families| < U32_LIMIT
      modifies this
      ensures initialized == ok
      ensures ok <==> bringUp.instanceCreated && FirstSuitable(bringUp.devices).Some?
                      && presentQueueFamilyIndex != U32_MAX && bringUp.deviceCreated && bringUp.swapchainCreated
      ensures bringUp.instanceCreated && FirstSuitable(bringUp.devices).Some? ==>
        var device := bringUp.devices[FirstSuitable(bringUp.devices).value];
        Queues() == Adopted(device.families, old(Queues())) && maxImageDimension2D == device.maxImageDimension2D
      ensures !(bringUp.instanceCreated && FirstSuitable(bringUp.devices).Some?) ==>
        Queues() == old(Queues()) && maxImageDimension2D == old(maxImageDimension2D)
      ensures pipelines == old(pipelines) && calls == old(calls) && enabled == old(enabled)
    {
      if !bringUp.instanceCreated {
        return false;
      }
      var chosen := PickPhysicalDevice(bringUp.devices);
      if chosen.None? {
        return false;
      }
      var device := bringUp.devices[chosen.value];
      assert device in bringUp.devices;
      var queuesOk := UseDevice(device);
      ok := queuesOk && bringUp.deviceCreated && bringUp.swapchainCreated;
      initialized := ok;
    }

    /** The chosen device's part of `InitVulkan`: its image limit is kept and its queues are set up. */
    method UseDevice(device: PhysicalDevice) returns (queuesOk: bool)
      requires |device.families| < U32_LIMIT
      modifies this`maxImageDimension2D,
               this`graphicsQueueFamilyIndex, this`graphicsQueuesMax, this`graphicsQueuesAvailable,
               this`computeQueueFamilyIndex, this`computeQueuesMax, this`computeQueuesAvailable,
               this`presentQueueFamilyIndex
      ensures maxImageDimension2D == device.maxImageDimension2D
      ensures Queues() == Adopted(device.families, old(Queues()))
      ensures queuesOk <==> presentQueueFamilyIndex != U32_MAX
    {
      maxImageDimension2D := device.maxImageDimension2D;
      var infos;
      queuesOk, infos := SetupQueues(device.families);
    }

    /** The device loop of `InitVulkan`: stops at the first suitable device. */
    static method PickPhysicalDevice(devices: seq<PhysicalDevice>) returns (chosen: Option<nat>)
      ensures chosen == FirstSuitable(devices)
    {
      var i := 0;
      while i < |devices|
        invariant 0 <= i <= |devices|
        invariant forall j :: 0 <= j < i ==> !IsPhyDeviceSuitable(devices[j])
      {
        var d := devices[i];
        var extensionsOk := CheckDeviceExtensionSupport(REQUIRED_DEVICE_EXTENSIONS, d.extensions);
        if d.discrete && d.geometryShader && d.multiViewport && extensionsOk
           && |d.formats| > 0 && d.presentModeCount > 0 {
          FirstSuitableIsFirst(devices, i);
          return Some(i);
        }
        i := i + 1;
      }
      FirstSuitableIsFirst(devices, i);
      chosen := None;
    }

    /**
     * `SetupQueues`: the last graphics family and the last family passing
     * the compute test get max = available = their queue count, and the
     * last present-capable family becomes the present family. Fails when
     * no present family is known afterwards; otherwise returns the queue
     * create infos.
     */
    method SetupQueues(families: seq<QueueFamily>) returns (ok: bool, infos: seq<QueueCreateInfo>)
      requires |families| < U32_LIMIT
      modifies this`graphicsQueueFamilyIndex, this`graphicsQueuesMax, this`graphicsQueuesAvailable,
               this`computeQueueFamilyIndex, this`computeQueuesMax, this`computeQueuesAvailable,
               this`presentQueueFamilyIndex
      ensures match LastMatch(families, IsGraphicsFamily)
        case Some(i) => graphicsQueueFamilyIndex == i && graphicsQueuesMax == families[i].queueCount
                        && graphicsQueuesAvailable == families[i].queueCount
        case None => graphicsQueueFamilyIndex == old(graphicsQueueFamilyIndex) && graphicsQueuesMax == old(graphicsQueuesMax)
                     && graphicsQueuesAvailable == old(graphicsQueuesAvailable)
      ensures match LastMatch(families, ComputeTestAsWritten)
        case Some(i) => computeQueueFamilyIndex == i && computeQueuesMax == families[i].queueCount
                        && computeQueuesAvailable == families[i].queueCount
        case None => computeQueueFamilyIndex == old(computeQueueFamilyIndex) && computeQueuesMax == old(computeQueuesMax)
                     && computeQueuesAvailable == old(computeQueuesAvailable)
      ensures match LastMatch(families, HasPresentSupport)
        case Some(i) => presentQueueFamilyIndex == i
        case None => presentQueueFamilyIndex == old(presentQueueFamilyIndex)
      ensures ok <==> presentQueueFamilyIndex != U32_MAX
      ensures ok ==> infos == QueueCreateInfos(graphicsQueueFamilyIndex, graphicsQueuesAvailable,
                                               computeQueueFamilyIndex, computeQueuesAvailable, presentQueueFamilyIndex)
      ensures !ok ==> infos == []
    {
      var graphics, compute, present := ScanFamilies(families);
      AdoptFamilies(families, graphics, compute, present);
      if presentQueueFamilyIndex == U32_MAX {
        return false, [];
      }
      ok := true;
      infos := QueueCreateInfos(graphicsQueueFamilyIndex, graphicsQueuesAvailable,
                                computeQueueFamilyIndex, computeQueuesAvailable, presentQueueFamilyIndex);
    }

    /** Records the families a scan picked; a test no family passed leaves its fields as they were. */
    method AdoptFamilies(families: seq<QueueFamily>, graphics: Option<nat>, compute: Option<nat>, present: Option<nat>)
      requires |families| < U32_LIMIT
      requires graphics.Some? ==> graphics.value < |families|
      requires compute.Some? ==> compute.value < |families|
      requires present.Some? ==> present.value < |families|
      modifies this`graphicsQueueFamilyIndex, this`graphicsQueuesMax, this`graphicsQueuesAvailable,
               this`computeQueueFamilyIndex, this`computeQueuesMax, this`computeQueuesAvailable,
               this`presentQueueFamilyIndex
      ensures match graphics
        case Some(i) => graphicsQueueFamilyIndex == i && graphicsQueuesMax == families[i].queueCount
                        && graphicsQueuesAvailable == families[i].queueCount
        case None => graphicsQueueFamilyIndex == old(graphicsQueueFamilyIndex) && graphicsQueuesMax == old(graphicsQueuesMax)
                     && graphicsQueuesAvailable == old(graphicsQueuesAvailable)
      ensures match compute
        case Some(i) => computeQueueFamilyIndex == i && computeQueuesMax == families[i].queueCount
                        && computeQueuesAvailable == families[i].queueCount
        case None => computeQueueFamilyIndex == old(computeQueueFamilyIndex) && computeQueuesMax == old(computeQueuesMax)
                     && computeQueuesAvailable == old(computeQueuesAvailable)
      ensures match present
        case Some(i) => presentQueueFamilyIndex == i
        case None => presentQueueFamilyIndex == old(presentQueueFamilyIndex)
    {
      if graphics.Some? {
        var f := families[graphics.value];
        graphicsQueueFamilyIndex, graphicsQueuesMax, graphicsQueuesAvailable := graphics.value, f.queueCount, f.queueCount;
      }
      if compute.Some? {
        var f := families[compute.value];
        computeQueueFamilyIndex, computeQueuesMax, computeQueuesAvailable := compute.value, f.queueCount, f.queueCount;
      }
      if present.Some? {
        presentQueueFamilyIndex := present.value;
      }
    }

    /**
     * Only when initialized, releases in this order: the framebuffers, the
     * image views and depth resources, the memory, the command pools, the
     * swapchain and last the surface. The flag itself is left set.
     */
    method DeInit()
      modifies this`calls
      ensures old(initialized) ==> calls == old(calls) + TeardownTail
      ensures !old(initialized) ==> calls == old(calls)
    {
      if initialized {
        calls := calls + TeardownTail;
      }
    }

    /** Starts the render thread. */
    method Start()
      modifies this`enabled, this`calls
      ensures enabled && calls == old(calls) + [StartRenderThread]
    {
      enabled := true;
      calls := calls + [StartRenderThread];
    }

    /**
     * Sets the new pipeline up at start indices `max - available`, charges
     * its requirement and registers it.
     */
    method NewPipeline(kind: PipelineKind)
      modifies this`pipelines, this`calls, this`graphicsQueuesAvailable, this`computeQueuesAvailable
      ensures pipelines == old(pipelines) + [kind]
      ensures calls == old(calls) + [SetupPipeline(|old(pipelines)|, Starts(old(QueueBudget())))]
      ensures QueueBudget() == Charge(old(QueueBudget()), GetQueueRequirements(kind))
    {
      calls := calls + [SetupPipeline(|pipelines|, Starts(QueueBudget()))];
      var req := GetQueueRequirements(kind);
      graphicsQueuesAvailable := Sub32(graphicsQueuesAvailable, req.graphics);
      computeQueuesAvailable := Sub32(computeQueuesAvailable, req.compute);
      pipelines := pipelines + [kind];
    }

    /** Both dimensions within the device's `maxImageDimension2D`. */
    predicate CheckRenderResolutionLimits(renderRes: Extent2D)
      reads this`maxImageDimension2D
    {
      renderRes.width <= maxImageDimension2D && renderRes.height <= maxImageDimension2D
    }

    /**
     * When rendering, stops it, rebuilds swapchain, image views and depth
     * stencil, and starts it again; otherwise does nothing.
     */
    method UpdateRenderResolution()
      modifies this`enabled, this`calls
      ensures old(enabled) ==> enabled && calls == old(calls) + ResolutionRebuild
      ensures !old(enabled) ==> !enabled && calls == old(calls)
    {
      if enabled {
        enabled := false;
        calls := calls + [DisableRendering, JoinRenderThread, CreateSwapChain, CreateImageViews, CreateDepthStencil];
        Start();
      }
    }
  }

  /** Scanning devices in order, the loop stops exactly where `FirstSuitable` points. */
  lemma {:induction false} FirstSuitableIsFirst(devices: seq<PhysicalDevice>, i: nat)
    requires i <= |devices|
    requires forall j :: 0 <= j < i ==> !IsPhyDeviceSuitable(devices[j])
    ensures i < |devices| && IsPhyDeviceSuitable(devices[i]) ==> FirstSuitable(devices) == Some(i)
    ensures i == |devices| ==> FirstSuitable(devices) == None
  {
    if i > 0 {
      assert !IsPhyDeviceSuitable(devices[0]);
      FirstSuitableIsFirst(devices[1..], i - 1);
    }
  }

  /** The EnvGraph `Engine` front: the stored render resolution and its gate. */
  class Engine {
    var renderResolution: Extent2D
    const graphicsSubsystem: GraphicsSubsystem

    /** The resolution starts at {0, 0}. */
    constructor(subsystem: GraphicsSubsystem)
      ensures renderResolution == Extent2D(0, 0) && graphicsSubsystem == subsystem
    {
      renderResolution := Extent2D(0, 0);
      graphicsSubsystem := subsystem;
    }

    function GetRenderResolution(): Extent2D
      reads this
    {
      renderResolution
    }

    /**
     * Stores the new resolution when the subsystem's limits allow it, and
     * then rebuilds the swapchain when `end` is set.
     */
    method SetRenderResolution(newRenderResolution: Extent2D, end: bool) returns (ok: bool)
      modifies this`renderResolution, graphicsSubsystem`enabled, graphicsSubsystem`calls
      ensures ok == graphicsSubsystem.CheckRenderResolutionLimits(newRenderResolution)
      ensures ok ==> GetRenderResolution() == newRenderResolution
      ensures !ok ==> GetRenderResolution() == old(GetRenderResolution())
      ensures ok && end && old(graphicsSubsystem.enabled) ==>
        graphicsSubsystem.calls == old(graphicsSubsystem.calls) + ResolutionRebuild
      ensures !(ok && end && old(graphicsSubsystem.enabled)) ==> graphicsSubsystem.calls == old(graphicsSubsystem.calls)
      ensures graphicsSubsystem.enabled == old(graphicsSubsystem.enabled)
    {
      if graphicsSubsystem.CheckRenderResolutionLimits(newRenderResolution) {
        renderResolution := newRenderResolution;
        if end {
          graphicsSubsystem.UpdateRenderResolution();
        }
        return true;
      } else {
        return false;
      }
    }
  }
}
