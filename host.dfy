/**
 * The engine host: the registry of pipelines with the queue bookkeeping
 * that hands each pipeline its queues, the per-frame sequence of pipeline
 * calls issued by the render thread, the reaction to a window resize and
 * the teardown. Device work (command recording, submission, presentation)
 * is recorded as a trace of calls; results the device returns are
 * parameters.
 */
module Host {
  import opened Common
  import opened QueueBudget
  import opened Pipelines
  import opened QueueFamilies

  /** `kDefaultWidth` and `kDefaultHeight`: the initial window extents. */
  const DEFAULT_WIDTH: u32 := 1536
  const DEFAULT_HEIGHT: u32 := 768
  /** `kFenceTimeout`: one fence wait lasts at most 100 ms (in nanoseconds). */
  const FENCE_TIMEOUT_NS: nat := 100000000

  /** A registered pipeline as the engine sees it through the base class. */
  datatype PipelineEntry = PipelineEntry(kind: PipelineKind, hasPreRenderStage: bool, setupComplete: bool)

  function Requirement(p: PipelineEntry): QueueRequirements
  {
    GetQueueRequirements(p.kind)
  }

  /** Result of one `waitForFences` with the fence timeout. */
  datatype FenceWait = FenceSignalled | FenceTimeout

  /** Result of `presentKHR`: success, another success code, or the out-of-date error. */
  datatype PresentResult = PresentSuccess | PresentSuboptimal | PresentOutOfDate

  /** One step the engine performs, in the order it performs them. */
  datatype Call =
    | SetupPipeline(pipeline: nat, starts: StartIndices)
    | SetupControlPipeline(starts: StartIndices)
    | BeginCommandBuffer
    | PreRender(pipeline: nat, extent: Extent2D)
    | AcquireImage
    | BeginRenderPass(extent: Extent2D)
    | SetViewport(extent: Extent2D)
    | SetScissor(extent: Extent2D)
    | ComputeStage(pipeline: nat)
    | Render(pipeline: nat, extent: Extent2D)
    | EndRenderPass
    | EndCommandBuffer
    | Submit
    | WaitFence(wait: FenceWait)
    | ResetFence
    | Present(result: PresentResult)
    | ReportPresentResult(result: PresentResult)
    | DisableRendering
    | JoinRenderThread
    | StoreExtents(extent: Extent2D)
    | CreateSwapChain
    | CreateImageViews
    | CreateDepthStencil
    | Resized(pipeline: nat, extent: Extent2D)
    | StartRenderThread
    | CleanupPipeline(pipeline: nat)
    | DestroyFramebuffers
    | DestroyImageViews
    | DestroyDepthImage
    | DestroyDepthImageView
    | FreeBufferMemory
    | FreeImageMemory
    | DestroyCommandPools
    | DestroySwapchain
    | DestroySurface

  /** The pipeline a per-pipeline call is addressed to. */
  function Target(c: Call): nat
  {
    match c
    case PreRender(i, _) => i
    case ComputeStage(i) => i
    case Render(i, _) => i
    case Resized(i, _) => i
    case CleanupPipeline(i) => i
    case SetupPipeline(i, _) => i
    case _ => 0
  }

  /** Calls go to pipelines in registration order; a pipeline's compute call precedes its render call. */
  predicate InRegistrationOrder(cs: seq<Call>)
  {
    forall a, b :: 0 <= a < b < |cs| ==>
      Target(cs[a]) < Target(cs[b]) || (Target(cs[a]) == Target(cs[b]) && cs[a].ComputeStage? && cs[b].Render?)
  }

  /** Appending calls addressed to pipeline `m`, in order, after calls to earlier pipelines keeps the order. */
  lemma OrderedAppend(prev: seq<Call>, tail: seq<Call>, m: nat)
    requires InRegistrationOrder(prev) && InRegistrationOrder(tail)
    requires forall c :: c in prev ==> Target(c) < m
    requires forall c :: c in tail ==> Target(c) == m
    ensures InRegistrationOrder(prev + tail)
  {
    var all := prev + tail;
    forall a, b | 0 <= a < b < |all|
      ensures Target(all[a]) < Target(all[b]) || (Target(all[a]) == Target(all[b]) && all[a].ComputeStage? && all[b].Render?)
    {
      if b < |prev| {
        assert all[a] == prev[a] && all[b] == prev[b];
      } else if a >= |prev| {
        assert all[a] == tail[a - |prev|] && all[b] == tail[b - |prev|];
      } else {
        assert all[a] == prev[a] && prev[a] in prev;
        assert all[b] == tail[b - |prev|] && tail[b - |prev|] in tail;
      }
    }
  }

  // ---------------------------------------------------------------- frame

  /** The pre-render calls of a frame, for the first `n` pipelines. */
  function PreRenderCalls(ps: seq<PipelineEntry>, n: nat, extent: Extent2D): seq<Call>
    requires n <= |ps|
  {
    if n == 0 then []
    else PreRenderCalls(ps, n - 1, extent) + (if ps[n - 1].hasPreRenderStage then [PreRender(n - 1, extent)] else [])
  }

  /** The compute and render calls of a frame, for the first `n` pipelines. */
  function DrawCalls(ps: seq<PipelineEntry>, n: nat, extent: Extent2D): seq<Call>
    requires n <= |ps|
  {
    if n == 0 then [] else DrawCalls(ps, n - 1, extent) + PipelineDrawCalls(ps[n - 1], n - 1, extent)
  }

  /** The compute call and then the render call of pipeline `i`, each only when it requires such queues. */
  function PipelineDrawCalls(p: PipelineEntry, i: nat, extent: Extent2D): seq<Call>
  {
    var req := Requirement(p);
    (if req.compute > 0 then [ComputeStage(i)] else []) + (if req.graphics > 0 then [Render(i, extent)] else [])
  }

  /** The fence waits of a frame: timeouts are retried until the fence signals. */
  function FenceWaits(results: seq<FenceWait>): seq<Call>
    requires FenceSignalled in results
  {
    if results[0] == FenceSignalled then [WaitFence(FenceSignalled)]
    else [WaitFence(FenceTimeout)] + FenceWaits(results[1..])
  }

  /** The calls after a successful image acquisition, through presentation. */
  function AcquiredCalls(ps: seq<PipelineEntry>, extent: Extent2D, fence: seq<FenceWait>, present: PresentResult): seq<Call>
    requires FenceSignalled in fence
  {
    [BeginRenderPass(extent), SetViewport(extent), SetScissor(extent)]
      + DrawCalls(ps, |ps|, extent)
      + [EndRenderPass, EndCommandBuffer, Submit]
      + FenceWaits(fence)
      + [ResetFence, Present(present)]
      + (if present == PresentSuboptimal then [ReportPresentResult(present)] else [])
  }

  /** One iteration of the render loop. */
  function FrameCalls(ps: seq<PipelineEntry>, extent: Extent2D, acquired: bool, fence: seq<FenceWait>, present: PresentResult): seq<Call>
    requires FenceSignalled in fence
  {
    [BeginCommandBuffer] + PreRenderCalls(ps, |ps|, extent) + [AcquireImage]
      + (if acquired then AcquiredCalls(ps, extent, fence, present) else [])
  }

  /**
   * A frame opens the command buffer first. It ends with the presentation,
   * and its report when suboptimal, when the image was acquired, and with
   * the failed acquisition otherwise.
   */
  lemma FrameEnds(ps: seq<PipelineEntry>, extent: Extent2D, acquired: bool, fence: seq<FenceWait>, present: PresentResult)
    requires FenceSignalled in fence
    ensures var r := FrameCalls(ps, extent, acquired, fence, present);
      2 <= |r| && r[0] == BeginCommandBuffer
      && (!acquired ==> r[|r| - 1] == AcquireImage)
      && (acquired ==> r[|r| - 1] == (if present == PresentSuboptimal then ReportPresentResult(present) else Present(present)))
  {
  }

  /**
   * Each frame calls PreRender on exactly the pipelines that have a
   * pre-render stage, with the window extents, and on no other.
   */
  lemma {:induction false} PreRenderCallsExactly(ps: seq<PipelineEntry>, n: nat, extent: Extent2D, c: Call)
    requires n <= |ps|
    ensures c in PreRenderCalls(ps, n, extent) <==>
      c.PreRender? && c.pipeline < n && ps[c.pipeline].hasPreRenderStage && c.extent == extent
    decreases n
  {
    if n > 0 {
      PreRenderCallsExactly(ps, n - 1, extent, c);
    }
  }

  /** PreRender calls go to the pipelines in registration order, each at most once. */
  lemma {:induction false} PreRenderCallsOrdered(ps: seq<PipelineEntry>, n: nat, extent: Extent2D)
    requires n <= |ps|
    ensures InRegistrationOrder(PreRenderCalls(ps, n, extent))
    ensures forall c :: c in PreRenderCalls(ps, n, extent) ==> Target(c) < n
    decreases n
  {
    if n > 0 {
      PreRenderCallsOrdered(ps, n - 1, extent);
    }
  }

  /**
   * Each frame calls Compute on exactly the pipelines that require compute
   * queues and Render, with the window extents, on exactly those that
   * require graphics queues.
   */
  lemma {:induction false} DrawCallsExactly(ps: seq<PipelineEntry>, n: nat, extent: Extent2D, c: Call)
    requires n <= |ps|
    ensures c in DrawCalls(ps, n, extent) && c.ComputeStage? <==>
      c.ComputeStage? && c.pipeline < n && Requirement(ps[c.pipeline]).compute > 0
    ensures c in DrawCalls(ps, n, extent) && c.Render? <==>
      c.Render? && c.pipeline < n && Requirement(ps[c.pipeline]).graphics > 0 && c.extent == extent
    ensures c in DrawCalls(ps, n, extent) ==> c.ComputeStage? || c.Render?
    decreases n
  {
    if n > 0 {
      DrawCallsExactly(ps, n - 1, extent, c);
    }
  }

  /** One pipeline's draw calls all go to it, compute before render. */
  lemma PipelineDrawCallsOrdered(p: PipelineEntry, i: nat, extent: Extent2D)
    ensures InRegistrationOrder(PipelineDrawCalls(p, i, extent))
    ensures forall c :: c in PipelineDrawCalls(p, i, extent) ==> Target(c) == i
  {
  }

  /** Draw calls go to the pipelines in registration order, compute before render. */
  lemma {:induction false} DrawCallsOrdered(ps: seq<PipelineEntry>, n: nat, extent: Extent2D)
    requires n <= |ps|
    ensures InRegistrationOrder(DrawCalls(ps, n, extent))
    ensures forall c :: c in DrawCalls(ps, n, extent) ==> Target(c) < n
    decreases n
  {
    if n > 0 {
      DrawCallsOrdered(ps, n - 1, extent);
      var prev := DrawCalls(ps, n - 1, extent);
      var tail := PipelineDrawCalls(ps[n - 1], n - 1, extent);
      PipelineDrawCallsOrdered(ps[n - 1], n - 1, extent);
      OrderedAppend(prev, tail, n - 1);
      forall c | c in prev + tail
        ensures Target(c) < n
      {
        if c in prev {
        }
      }
    }
  }


  /** A bare base-class pipeline asks for no queues and so is never computed or rendered. */
  lemma BasePipelineNeverDrawn(ps: seq<PipelineEntry>, extent: Extent2D, i: nat)
    requires i < |ps| && ps[i].kind.BaseKind?
    ensures forall c :: c in DrawCalls(ps, |ps|, extent) ==> Target(c) != i
  {
    forall c | c in DrawCalls(ps, |ps|, extent) ensures Target(c) != i {
      DrawCallsExactly(ps, |ps|, extent, c);
    }
  }

  /**
   * The fence is waited on until it signals: every wait but the last timed
   * out, the last one saw the fence signalled, and there is one wait per
   * result up to the first signal.
   */
  lemma {:induction false} FenceWaitsUntilSignalled(results: seq<FenceWait>)
    requires FenceSignalled in results
    ensures |FenceWaits(results)| >= 1
    ensures FenceWaits(results)[|FenceWaits(results)| - 1] == WaitFence(FenceSignalled)
    ensures |FenceWaits(results)| <= |results| && results[|FenceWaits(results)| - 1] == FenceSignalled
    ensures forall k :: 0 <= k < |FenceWaits(results)| - 1 ==>
      FenceWaits(results)[k] == WaitFence(FenceTimeout) && results[k] == FenceTimeout
  {
    if results[0] != FenceSignalled {
      FenceWaitsUntilSignalled(results[1..]);
    }
  }

  /** After the image is acquired no pre-render call is made. */
  lemma AcquiredCallsNoPreRender(ps: seq<PipelineEntry>, extent: Extent2D, fence: seq<FenceWait>,
                                 present: PresentResult, c: Call)
    requires FenceSignalled in fence
    requires c in AcquiredCalls(ps, extent, fence, present)
    ensures !c.PreRender?
  {
    var fw := FenceWaits(fence);
    var draw := DrawCalls(ps, |ps|, extent);
    var head := [BeginRenderPass(extent), SetViewport(extent), SetScissor(extent)];
    var tail := [ResetFence, Present(present)] + (if present == PresentSuboptimal then [ReportPresentResult(present)] else []);
    assert AcquiredCalls(ps, extent, fence, present)
      == ((head + draw) + [EndRenderPass, EndCommandBuffer, Submit]) + fw + tail;
    if c in draw {
      DrawCallsExactly(ps, |ps|, extent, c);
    } else if c in fw {
      FenceWaitsUntilSignalled(fence);
      var j :| 0 <= j < |fw| && fw[j] == c;
    }
  }

  /**
   * Within a frame the pre-render stage of every pipeline runs before the
   * image is acquired, and nothing is drawn when acquisition fails.
   */
  lemma FramePreRenderBeforeAcquire(ps: seq<PipelineEntry>, extent: Extent2D, acquired: bool,
                                    fence: seq<FenceWait>, present: PresentResult, k: nat)
    requires FenceSignalled in fence
    requires k < |FrameCalls(ps, extent, acquired, fence, present)|
    requires FrameCalls(ps, extent, acquired, fence, present)[k].PreRender?
    ensures k <= |PreRenderCalls(ps, |ps|, extent)|
    ensures FrameCalls(ps, extent, acquired, fence, present)[|PreRenderCalls(ps, |ps|, extent)| + 1] == AcquireImage
    ensures !acquired ==> |FrameCalls(ps, extent, acquired, fence, present)| == |PreRenderCalls(ps, |ps|, extent)| + 2
  {
    var pre := PreRenderCalls(ps, |ps|, extent);
    var frame := FrameCalls(ps, extent, acquired, fence, present);
    if acquired {
      var rest := AcquiredCalls(ps, extent, fence, present);
      assert frame == ([BeginCommandBuffer] + pre + [AcquireImage]) + rest;
      if k > |pre| + 1 {
        assert frame[k] == rest[k - |pre| - 2];
        AcquiredCallsNoPreRender(ps, extent, fence, present, frame[k]);
      }
    }
  }

  // --------------------------------------------------------- setup passes

  datatype PassResult = PassResult(calls: seq<Call>, budget: Budget, pipelines: seq<PipelineEntry>)

  /** The setup calls of a pass and the queue budget left after it. */
  datatype Charges = Charges(calls: seq<Call>, budget: Budget)

  /**
   * The setup calls and charges of one pass of `CreateComponentPipelines`
   * over the first `n` pipelines: each pipeline not yet set up is set up
   * with the current start indices and its requirement is charged.
   */
  function SetupCharges(ps: seq<PipelineEntry>, n: nat, b: Budget): (r: Charges)
    requires n <= |ps|
    ensures r.budget.graphicsMax == b.graphicsMax && r.budget.computeMax == b.computeMax
    decreases n
  {
    if n == 0 then Charges([], b)
    else
      var prev := SetupCharges(ps, n - 1, b);
      var p := ps[n - 1];
      if p.setupComplete then prev
      else Charges(prev.calls + [SetupPipeline(n - 1, Starts(prev.budget))], Charge(prev.budget, Requirement(p)))
  }

  /**
   * The pipelines after Setup marked the first `n` of them as set up: only
   * the set-up flags of those change.
   */
  function MarkSetUp(ps: seq<PipelineEntry>, n: nat): (r: seq<PipelineEntry>)
    requires n <= |ps|
    ensures |r| == |ps|
    ensures forall i :: 0 <= i < |ps| ==> r[i].kind == ps[i].kind && r[i].hasPreRenderStage == ps[i].hasPreRenderStage
    ensures forall i :: 0 <= i < n ==> r[i].setupComplete
    ensures forall i :: n <= i < |ps| ==> r[i] == ps[i]
  {
    seq(|ps|, i requires 0 <= i < |ps| => if i < n then ps[i].(setupComplete := true) else ps[i])
  }

  /**
   * One pass of `CreateComponentPipelines`. `marksSetup` says whether
   * Setup records that the pipeline is set up; the engine's pipeline
   * classes never do.
   */
  function SetupPass(ps: seq<PipelineEntry>, n: nat, b: Budget, marksSetup: bool): (r: PassResult)
    requires n <= |ps|
    ensures |r.pipelines| == |ps|
  {
    var charges := SetupCharges(ps, n, b);
    PassResult(charges.calls, charges.budget, if marksSetup then MarkSetUp(ps, n) else ps)
  }

  /** Marking pipelines that are already set up changes nothing. */
  lemma MarkSetUpKeepsSetUp(ps: seq<PipelineEntry>, n: nat)
    requires n <= |ps| && forall i :: 0 <= i < n ==> ps[i].setupComplete
    ensures MarkSetUp(ps, n) == ps
  {
    var r := MarkSetUp(ps, n);
    forall i | 0 <= i < |ps| ensures r[i] == ps[i] {
      if i < n {
        assert ps[i].setupComplete;
      }
    }
  }

  /** Marking one more pipeline updates that pipeline alone. */
  lemma MarkSetUpStep(ps: seq<PipelineEntry>, n: nat)
    requires n < |ps|
    ensures MarkSetUp(ps, n + 1) == MarkSetUp(ps, n)[n := ps[n].(setupComplete := true)]
  {
    var a, c := MarkSetUp(ps, n + 1), MarkSetUp(ps, n)[n := ps[n].(setupComplete := true)];
    forall i | 0 <= i < |ps| ensures a[i] == c[i] {
      if i < n {
        assert a[i] == ps[i].(setupComplete := true);
      }
    }
  }

  /** A pass over pipelines that are all set up issues no setup and charges nothing. */
  lemma {:induction false} SetupChargesSkipSetUp(ps: seq<PipelineEntry>, n: nat, b: Budget)
    requires n <= |ps| && forall i :: 0 <= i < n ==> ps[i].setupComplete
    ensures SetupCharges(ps, n, b) == Charges([], b)
    decreases n
  {
    if n > 0 {
      SetupChargesSkipSetUp(ps, n - 1, b);
    }
  }

  /**
   * When Setup marks pipelines as set up, a pass is idempotent: running it
   * again on its own result sets up nothing and leaves the queue counters
   * and the pipelines as they are.
   */
  lemma SetupPassIdempotent(ps: seq<PipelineEntry>, b: Budget)
    ensures var first := SetupPass(ps, |ps|, b, true);
      SetupPass(first.pipelines, |ps|, first.budget, true) == PassResult([], first.budget, first.pipelines)
  {
    var first := SetupPass(ps, |ps|, b, true);
    SetupChargesSkipSetUp(first.pipelines, |ps|, first.budget);
    MarkSetUpKeepsSetUp(first.pipelines, |ps|);
  }

  /**
   * As the engine has it, no pipeline is ever marked as set up, so every
   * pass sets up every pipeline again and charges its queues again: one
   * pipeline needing one graphics queue, with four available, has two
   * available after two passes and is set up twice with different start
   * indices.
   */
  lemma RepeatedPassRecharges()
    ensures var ps := [PipelineEntry(TemplateKind(1, 0), false, false)];
      var b := Budget(4, 4, 0, 0);
      var first := SetupPass(ps, 1, b, false);
      var second := SetupPass(first.pipelines, 1, first.budget, false);
      first.calls == [SetupPipeline(0, StartIndices(0, 0))]
      && second.calls == [SetupPipeline(0, StartIndices(1, 0))]
      && second.budget.graphicsAvailable == 2
  {
  }

  /** Every call in `cs` sets up one of the first `m` pipelines, and one that was not set up before the pass. */
  predicate SetupsBefore(ps: seq<PipelineEntry>, cs: seq<Call>, m: nat)
  {
    forall c :: c in cs ==> c.SetupPipeline? && Target(c) < m && Target(c) < |ps| && !ps[Target(c)].setupComplete
  }

  /** Visiting pipeline `m` after the earlier ones keeps the setup calls ordered. */
  lemma SetupOrderKept(ps: seq<PipelineEntry>, prev: seq<Call>, cur: seq<Call>, m: nat, start: StartIndices)
    requires m < |ps|
    requires cur == if ps[m].setupComplete then prev else prev + [SetupPipeline(m, start)]
    requires InRegistrationOrder(prev) && SetupsBefore(ps, prev, m)
    ensures InRegistrationOrder(cur) && SetupsBefore(ps, cur, m + 1)
  {
    if !ps[m].setupComplete {
      OrderedAppend(prev, [SetupPipeline(m, start)], m);
    }
  }

  /** Pipelines in a pass are set up in registration order, and only those not set up before it. */
  lemma {:induction false} SetupPassOrdered(ps: seq<PipelineEntry>, n: nat, b: Budget)
    requires n <= |ps|
    ensures InRegistrationOrder(SetupCharges(ps, n, b).calls)
    ensures SetupsBefore(ps, SetupCharges(ps, n, b).calls, n)
    decreases n
  {
    if n > 0 {
      SetupPassOrdered(ps, n - 1, b);
      var prev, cur := SetupCharges(ps, n - 1, b), SetupCharges(ps, n, b);
      assert cur.calls == if ps[n - 1].setupComplete then prev.calls else prev.calls + [SetupPipeline(n - 1, Starts(prev.budget))];
      SetupOrderKept(ps, prev.calls, cur.calls, n - 1, Starts(prev.budget));
    }
  }

  /** The registration calls of the first `n` pipelines for a per-pipeline call shape. */
  function ResizedCalls(n: nat, extent: Extent2D): (r: seq<Call>)
    ensures |r| == n && forall i :: 0 <= i < n ==> r[i] == Resized(i, extent)
  {
    if n == 0 then [] else ResizedCalls(n - 1, extent) + [Resized(n - 1, extent)]
  }

  function CleanupCalls(n: nat): (r: seq<Call>)
    ensures |r| == n && forall i :: 0 <= i < n ==> r[i] == CleanupPipeline(i)
  {
    if n == 0 then [] else CleanupCalls(n - 1) + [CleanupPipeline(n - 1)]
  }

  /** What the engine releases after the pipelines, in order. */
  const TeardownTail: seq<Call> :=
    [DestroyFramebuffers, DestroyImageViews, DestroyDepthImage, DestroyDepthImageView,
     FreeBufferMemory, FreeImageMemory, DestroyCommandPools, DestroySwapchain, DestroySurface]

  /** The requirement of the control pipeline, `ControlEnginePipeline`: one graphics queue, no compute queue. */
  const ControlPipelineKind: PipelineKind := TemplateKind(1, 0)

  /** `Engine`: owner of the device queues, the pipelines and the render thread. */
  class Engine {
    var engineEnabled: bool
    var windowExtents: Extent2D
    var windowExtentChange: bool
    var queuedPipelines: u32
    var graphicsQueueFamilyIndex: u32
    var graphicsQueuesMax: u32
    var graphicsQueuesAvailable: u32
    var computeQueueFamilyIndex: u32
    var computeQueuesMax: u32
    var computeQueuesAvailable: u32
    var presentQueueFamilyIndex: u32
    var pipelines: seq<PipelineEntry>
    /** Everything the engine has done, in order. */
    var calls: seq<Call>

    function QueueBudget(): Budget
      reads this
    {
      Budget(graphicsQueuesMax, graphicsQueuesAvailable, computeQueuesMax, computeQueuesAvailable)
    }

    /**
     * A new engine: rendering off, default window extents, no queued
     * pipelines. The queue counters and family indices have no initial
     * value in the engine; they start at 0 here.
     */
    constructor ()
      ensures !engineEnabled && !windowExtentChange && queuedPipelines == 0
      ensures windowExtents == Extent2D(DEFAULT_WIDTH, DEFAULT_HEIGHT)
      ensures pipelines == [] && calls == []
    {
      engineEnabled := false;
      windowExtents := Extent2D(DEFAULT_WIDTH, DEFAULT_HEIGHT);
      windowExtentChange := false;
      queuedPipelines := 0;
      graphicsQueueFamilyIndex, graphicsQueuesMax, graphicsQueuesAvailable := 0, 0, 0;
      computeQueueFamilyIndex, computeQueuesMax, computeQueuesAvailable := 0, 0, 0;
      presentQueueFamilyIndex := 0;
      pipelines := [];
      calls := [];
    }

    /**
     * Chooses the queue families: the last graphics family (one of its
     * queues held back from the pipelines), the last family passing the
     * compute test, the last family that can present.
     */
    method FindQueueFamilies(families: seq<QueueFamily>)
      requires |families| < U32_LIMIT
      modifies this`graphicsQueueFamilyIndex, this`graphicsQueuesMax, this`graphicsQueuesAvailable,
               this`computeQueueFamilyIndex, this`computeQueuesMax, this`computeQueuesAvailable,
               this`presentQueueFamilyIndex
      ensures match LastMatch(families, IsGraphicsFamily)
        case Some(i) => graphicsQueueFamilyIndex == i && graphicsQueuesMax == families[i].queueCount
                        && graphicsQueuesAvailable == Sub32(families[i].queueCount, 1)
        case None => graphicsQueueFamilyIndex == old(graphicsQueueFamilyIndex) && graphicsQueuesMax == old(graphicsQueuesMax)
                     && graphicsQueuesAvailable == old(graphicsQueuesAvailable)
      ensures match LastMatch(families, ComputeTestAsWritten)
        case Some(i) => computeQueueFamilyIndex == i && computeQueuesMax == families[i].queueCount
                        && computeQueuesAvailable == families[i].queueCount
        case None => computeQueueFamilyIndex == old(computeQueueFamilyIndex) && computeQueuesMax == old(computeQueuesMax)
                     && computeQueuesAvailable == old(computeQueuesAvailable)
      ensures match LastMatch(families, HasPresentSupport)
        case Some(i) => presentQueueFamilyIndex == i
        case None => presentQueueFamilyIndex == old(presentQueueFamilyIndex)
    {
      var graphics, compute, present := ScanFamilies(families);
      if graphics.Some? {
        var f := families[graphics.value];
        graphicsQueueFamilyIndex, graphicsQueuesMax, graphicsQueuesAvailable := graphics.value, f.queueCount, Sub32(f.queueCount, 1);
      }
      if compute.Some? {
        var f := families[compute.value];
        computeQueueFamilyIndex, computeQueuesMax, computeQueuesAvailable := compute.value, f.queueCount, f.queueCount;
      }
      if present.Some? {
        presentQueueFamilyIndex := present.value;
      }
    }

    /** Announces `n` more pipelines that will register themselves. */
    method QueuePipelines(n: u32)
      modifies this`queuedPipelines
      ensures queuedPipelines == Add32(old(queuedPipelines), n)
    {
      queuedPipelines := Add32(queuedPipelines, n);
    }

    /** Withdraws `n` announced pipelines. */
    method DequeuePipelines(n: u32)
      modifies this`queuedPipelines
      ensures queuedPipelines == Sub32(old(queuedPipelines), n)
    {
      queuedPipelines := Sub32(queuedPipelines, n);
    }

    /**
     * Registers a pipeline: appends it, counts it off the announced
     * pipelines, sets it up at the start indices `max - available` and
     * charges its requirement to the queue counters.
     */
    method NewPipeline(p: PipelineEntry)
      modifies this`pipelines, this`queuedPipelines, this`calls, this`graphicsQueuesAvailable, this`computeQueuesAvailable
      ensures pipelines == old(pipelines) + [p]
      ensures queuedPipelines == Sub32(old(queuedPipelines), 1)
      ensures calls == old(calls) + [SetupPipeline(|old(pipelines)|, Starts(old(QueueBudget())))]
      ensures QueueBudget() == Charge(old(QueueBudget()), Requirement(p))
    {
      pipelines := pipelines + [p];
      queuedPipelines := Sub32(queuedPipelines, 1);
      calls := calls + [SetupPipeline(|pipelines| - 1, Starts(QueueBudget()))];
      var req := Requirement(p);
      graphicsQueuesAvailable := Sub32(graphicsQueuesAvailable, req.graphics);
      computeQueuesAvailable := Sub32(computeQueuesAvailable, req.compute);
    }

    /** Sets up the control pipeline and charges its one graphics queue. */
    method CreateControlGraphicsPipeline()
      modifies this`calls, this`graphicsQueuesAvailable, this`computeQueuesAvailable
      ensures calls == old(calls) + [SetupControlPipeline(Starts(old(QueueBudget())))]
      ensures QueueBudget() == Charge(old(QueueBudget()), GetQueueRequirements(ControlPipelineKind))
    {
      calls := calls + [SetupControlPipeline(Starts(QueueBudget()))];
      var req := GetQueueRequirements(ControlPipelineKind);
      graphicsQueuesAvailable := Sub32(graphicsQueuesAvailable, req.graphics);
      computeQueuesAvailable := Sub32(computeQueuesAvailable, req.compute);
    }

    /** The loop of a setup pass: returns the calls issued, the budget left and the pipelines afterwards. */
    static method SetupPassLoop(ps: seq<PipelineEntry>, b0: Budget, marksSetup: bool)
      returns (out: seq<Call>, b: Budget, marked: seq<PipelineEntry>)
      ensures SetupPass(ps, |ps|, b0, marksSetup) == PassResult(out, b, marked)
    {
      out, b, marked := [], b0, ps;
      var i := 0;
      while i < |ps|
        invariant 0 <= i <= |ps|
        invariant SetupCharges(ps, i, b0) == Charges(out, b)
        invariant marked == if marksSetup then MarkSetUp(ps, i) else ps
      {
        var p := ps[i];
        MarkSetUpStep(ps, i);
        if !p.setupComplete {
          out := out + [SetupPipeline(i, Starts(b))];
          b := Charge(b, Requirement(p));
          if marksSetup {
            marked := marked[i := p.(setupComplete := true)];
          }
        } else if marksSetup {
          assert marked[i := p.(setupComplete := true)] == marked;
        }
        i := i + 1;
      }
    }

    /** Runs one setup pass over the registered pipelines. */
    method RunSetupPass(marksSetup: bool)
      modifies this`calls, this`graphicsQueuesAvailable, this`computeQueuesAvailable, this`pipelines
      ensures var r := SetupPass(old(pipelines), |old(pipelines)|, old(QueueBudget()), marksSetup);
        calls == old(calls) + r.calls && QueueBudget() == r.budget && pipelines == r.pipelines
    {
      var out, b, marked := SetupPassLoop(pipelines, QueueBudget(), marksSetup);
      calls := calls + out;
      graphicsQueuesAvailable := b.graphicsAvailable;
      computeQueuesAvailable := b.computeAvailable;
      pipelines := marked;
    }

    /**
     * Once no pipeline is announced any more, sets up every registered
     * pipeline that does not report itself as set up. Setup never marks a
     * pipeline, so every call sets up and charges all of them again.
     */
    method CreateComponentPipelines()
      modifies this`calls, this`graphicsQueuesAvailable, this`computeQueuesAvailable, this`pipelines
      ensures old(queuedPipelines) != 0 ==>
        calls == old(calls) && QueueBudget() == old(QueueBudget()) && pipelines == old(pipelines)
      ensures old(queuedPipelines) == 0 ==>
        var r := SetupPass(old(pipelines), |old(pipelines)|, old(QueueBudget()), false);
        calls == old(calls) + r.calls && QueueBudget() == r.budget && pipelines == old(pipelines)
    {
      if queuedPipelines == 0 {
        RunSetupPass(false);
      }
    }

    /** `CreateComponentPipelines` with Setup marking each pipeline as set up. */
    method CreateComponentPipelinesMarking()
      modifies this`calls, this`graphicsQueuesAvailable, this`computeQueuesAvailable, this`pipelines
      ensures old(queuedPipelines) != 0 ==>
        calls == old(calls) && QueueBudget() == old(QueueBudget()) && pipelines == old(pipelines)
      ensures old(queuedPipelines) == 0 ==>
        var r := SetupPass(old(pipelines), |old(pipelines)|, old(QueueBudget()), true);
        calls == old(calls) + r.calls && QueueBudget() == r.budget && pipelines == r.pipelines
      ensures forall i :: 0 <= i < |pipelines| ==> old(queuedPipelines) == 0 ==> pipelines[i].setupComplete
    {
      if queuedPipelines == 0 {
        RunSetupPass(true);
      }
    }

    /** Turns rendering on and starts the render thread. */
    method StartRender()
      modifies this`engineEnabled, this`calls
      ensures engineEnabled && calls == old(calls) + [StartRenderThread]
    {
      engineEnabled := true;
      calls := calls + [StartRenderThread];
    }

    /** The `Resized` notifications of a resize, one per pipeline in registration order. */
    static method CollectResized(n: nat, extent: Extent2D) returns (out: seq<Call>)
      ensures out == ResizedCalls(n, extent)
    {
      out := [];
      var i := 0;
      while i < n
        invariant 0 <= i <= n
        invariant out == ResizedCalls(i, extent)
      {
        out := out + [Resized(i, extent)];
        i := i + 1;
      }
    }

    /** The `CleanupPipeline` calls of teardown, one per pipeline in registration order. */
    static method CollectCleanups(n: nat) returns (out: seq<Call>)
      ensures out == CleanupCalls(n)
    {
      out := [];
      var i := 0;
      while i < n
        invariant 0 <= i <= n
        invariant out == CleanupCalls(i)
      {
        out := out + [CleanupPipeline(i)];
        i := i + 1;
      }
    }

    /** The pre-render calls of a frame, pipeline by pipeline. */
    static method CollectPreRender(ps: seq<PipelineEntry>, extent: Extent2D) returns (out: seq<Call>)
      ensures out == PreRenderCalls(ps, |ps|, extent)
    {
      out := [];
      var i := 0;
      while i < |ps|
        invariant 0 <= i <= |ps|
        invariant out == PreRenderCalls(ps, i, extent)
      {
        if ps[i].hasPreRenderStage {
          out := out + [PreRender(i, extent)];
        }
        i := i + 1;
      }
    }

    /** The compute and render calls of a frame, pipeline by pipeline. */
    static method CollectDraws(ps: seq<PipelineEntry>, extent: Extent2D) returns (out: seq<Call>)
      ensures out == DrawCalls(ps, |ps|, extent)
    {
      out := [];
      var i := 0;
      while i < |ps|
        invariant 0 <= i <= |ps|
        invariant out == DrawCalls(ps, i, extent)
      {
        var req := Requirement(ps[i]);
        if req.compute > 0 {
          out := out + [ComputeStage(i)];
        }
        if req.graphics > 0 {
          out := out + [Render(i, extent)];
        }
        i := i + 1;
      }
    }

    /** Waits on the submission fence, retrying after each timeout, until it signals. */
    static method WaitForFence(results: seq<FenceWait>) returns (out: seq<Call>)
      requires FenceSignalled in results
      ensures out == FenceWaits(results)
    {
      out := [];
      var k := 0;
      while results[k] == FenceTimeout
        invariant 0 <= k < |results| && FenceSignalled in results[k..]
        invariant out + FenceWaits(results[k..]) == FenceWaits(results)
        decreases |results| - k
      {
        assert results[k..][1..] == results[k + 1..];
        out := out + [WaitFence(FenceTimeout)];
        k := k + 1;
      }
      out := out + [WaitFence(FenceSignalled)];
    }

    /**
     * One iteration of the render thread's loop. `acquired` is whether the
     * next swapchain image was acquired, `fence` the successive results of
     * waiting for the submission's fence, `present` the presentation
     * result. An out-of-date swapchain at presentation stops the loop.
     */
    method RenderFrame(acquired: bool, fence: seq<FenceWait>, present: PresentResult)
      requires engineEnabled && FenceSignalled in fence
      modifies this`calls, this`engineEnabled
      ensures calls == old(calls) + FrameCalls(pipelines, windowExtents, acquired, fence, present)
      ensures engineEnabled <==> !(acquired && present == PresentOutOfDate)
    {
      var extent := windowExtents;
      var pre := CollectPreRender(pipelines, extent);
      var out := [BeginCommandBuffer] + pre + [AcquireImage];
      if acquired {
        var draws := CollectDraws(pipelines, extent);
        var waits := WaitForFence(fence);
        var frame := [BeginRenderPass(extent), SetViewport(extent), SetScissor(extent)] + draws
          + [EndRenderPass, EndCommandBuffer, Submit] + waits + [ResetFence, Present(present)];
        if present == PresentOutOfDate {
          engineEnabled := false;
        } else if present != PresentSuccess {
          frame := frame + [ReportPresentResult(present)];
        }
        out := out + frame;
      }
      calls := calls + out;
    }

    /**
     * Records that the window changed; when the size really differs, stops
     * rendering, waits for the render thread, stores the new extents,
     * rebuilds the swapchain, its views and the depth buffer, tells every
     * pipeline its new extents and restarts rendering.
     */
    method UpdateWindowExtents(width: u32, height: u32)
      modifies this`windowExtentChange, this`engineEnabled, this`windowExtents, this`calls
      ensures windowExtentChange
      ensures width == old(windowExtents).width && height == old(windowExtents).height ==>
        windowExtents == old(windowExtents) && engineEnabled == old(engineEnabled) && calls == old(calls)
      ensures width != old(windowExtents).width || height != old(windowExtents).height ==>
        windowExtents == Extent2D(width, height) && engineEnabled
        && calls == old(calls) + [DisableRendering, JoinRenderThread, StoreExtents(Extent2D(width, height)),
                                  CreateSwapChain, CreateImageViews, CreateDepthStencil]
                               + ResizedCalls(|pipelines|, Extent2D(width, height)) + [StartRenderThread]
    {
      windowExtentChange := true;
      if width != windowExtents.width || height != windowExtents.height {
        engineEnabled := false;
        windowExtents := Extent2D(width, height);
        var resized := CollectResized(|pipelines|, windowExtents);
        calls := calls + [DisableRendering, JoinRenderThread, StoreExtents(windowExtents),
                          CreateSwapChain, CreateImageViews, CreateDepthStencil] + resized;
        StartRender();
      }
    }

    /**
     * Teardown: stops rendering and waits for the render thread, cleans up
     * and releases every pipeline in registration order, then releases the
     * framebuffers, image views, depth buffer, memory, command pools,
     * swapchain and surface.
     */
    method Destroy()
      modifies this`engineEnabled, this`pipelines, this`calls
      ensures !engineEnabled && pipelines == []
      ensures calls == old(calls) + [DisableRendering, JoinRenderThread] + CleanupCalls(|old(pipelines)|) + TeardownTail
    {
      engineEnabled := false;
      var cleanups := CollectCleanups(|pipelines|);
      calls := calls + [DisableRendering, JoinRenderThread] + cleanups + TeardownTail;
      pipelines := [];
    }
  }
}
